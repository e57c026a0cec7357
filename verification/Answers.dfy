/** What phones are told: a yes is always true, a no is not. */
module Answers {
  import opened Prelude
  import opened Protocol
  import opened StepFacts
  import F = ServiceFacts
  import HonestRun
  import S = Service

  ghost predicate Authorised(trace: seq<Event>, sid: nat) {
    exists e <- trace :: e.Authorized? && e.session == sid
  }

  ghost predicate SaysYes(p: S.Phase) {
    p.Closing? && p.told == Some(true)
  }

  ghost predicate Inv(g: Global) {
    forall sid <- g.sessions :: SaysYes(g.sessions[sid]) ==> Authorised(g.trace, sid)
  }

  lemma {:induction false} AuthorisedGrows(trace: seq<Event>, more: seq<Event>, sid: nat)
    requires Authorised(trace, sid)
    ensures Authorised(trace + more, sid)
  {
    var e :| e in trace && e.Authorized? && e.session == sid;
    assert e in trace + more;
  }

  lemma {:induction false} SessionKeeps(g: Global, g1: Global, sid: nat, more: seq<Event>)
    requires Inv(g) && g1.trace == g.trace + more
    requires sid in g1.sessions && g1.sessions == g.sessions[sid := g1.sessions[sid]]
    requires SaysYes(g1.sessions[sid]) ==> Authorised(g1.trace, sid)
    ensures Inv(g1)
  {
    forall s <- g1.sessions | SaysYes(g1.sessions[s])
      ensures Authorised(g1.trace, s)
    {
      if s != sid {
        AuthorisedGrows(g.trace, more, s);
      }
    }
  }

  lemma {:induction false} RespondKeeps(w: World, g: Global, step: Step)
    requires Inv(g) && Enabled(w, g, step) && step.action.Respond?
    ensures Inv(Next(w, g, step))
  {
    var Respond(sid, response, audit) := step.action;
    var p := g.sessions[sid];
    F.ToldExactly(w.env, g.svc, p.ip, p.device, response, audit, step.at);
    var r := S.OnResponse(w.env, g.svc, p.ip, p.device, response, audit, step.at);
    var more := Events(sid, p.ip, r.note, step.at);
    if F.Accepts(r.note) {
      assert more[1] in g.trace + more;
    }
    SessionKeeps(g, Next(w, g, step), sid, more);
  }

  lemma {:induction false} EarlyKeeps(w: World, g: Global, step: Step)
    requires Inv(g) && Enabled(w, g, step) && (step.action.Open? || step.action.Hello? || step.action.Finish?)
    ensures Inv(Next(w, g, step))
  {
    match step.action
    case Open(sid, ip, fingerprint, access, audit) =>
      OpenStep(w, g, step);
      F.OpenFacts(w.env, g.svc, ip, fingerprint, S.Registry.Observe(g.disk, access).0, audit, step.at);
      SessionKeeps(g, Next(w, g, step), sid, []);
    case Hello(sid, hello, nonce, ms, audit) =>
      var p := g.sessions[sid];
      F.HelloFacts(w.env, g.svc, p.ip, p.cert, hello, nonce, ms, audit, step.at);
      var r := S.OnHello(w.env, g.svc, p.ip, p.cert, hello, nonce, ms, audit, step.at);
      SessionKeeps(g, Next(w, g, step), sid, Events(sid, p.ip, r.note, step.at));
    case Finish(sid, audit) =>
      var p := g.sessions[sid];
      F.FinishFacts(w.env, g.svc, p.ip, p.owes, audit, step.at);
      F.FinishDevice(w.env, g.svc, p.ip, p.owes, audit, step.at);
      SessionKeeps(g, Next(w, g, step), sid, []);
  }

  lemma {:induction false} SideKeeps(w: World, g: Global, step: Step)
    requires Inv(g) && Enabled(w, g, step) && !SessionAction(step.action)
    ensures Inv(Next(w, g, step))
  {
    SideSteps(w, g, step);
    TraceGrows(w, g, step);
    var g1 := Next(w, g, step);
    var more := g1.trace[|g.trace|..];
    forall s <- g1.sessions | SaysYes(g1.sessions[s])
      ensures Authorised(g1.trace, s)
    {
      AuthorisedGrows(g.trace, more, s);
      assert g.trace + more == g1.trace;
    }
  }

  lemma {:induction false} RunKeeps(w: World, g: Global, steps: seq<Step>)
    requires Inv(g) && ValidRun(w, g, steps)
    ensures Inv(Run(w, g, steps))
    decreases |steps|
  {
    if steps != [] {
      match steps[0].action {
        case Open(_, _, _, _, _) => EarlyKeeps(w, g, steps[0]);
        case Hello(_, _, _, _, _) => EarlyKeeps(w, g, steps[0]);
        case Finish(_, _) => EarlyKeeps(w, g, steps[0]);
        case Respond(_, _, _) => RespondKeeps(w, g, steps[0]);
        case _ => SideKeeps(w, g, steps[0]);
      }
      RunKeeps(w, Next(w, g, steps[0]), steps[1..]);
    }
  }

  // In every run a phone that is told yes was authorised in that very session.
  lemma {:induction false} YesIsTrue(w: World, cfg: S.Registry.Data, steps: seq<Step>, sid: nat)
    requires ValidRun(w, Init(cfg), steps)
    ensures var g := Run(w, Init(cfg), steps);
            sid in g.sessions && g.sessions[sid].Closing? && g.sessions[sid].told == Some(true) ==>
              exists e <- g.trace :: e.Authorized? && e.session == sid
  {
    RunKeeps(w, Init(cfg), steps);
    var g := Run(w, Init(cfg), steps);
    if sid in g.sessions && SaysYes(g.sessions[sid]) {
      assert Authorised(g.trace, sid);
    }
  }

  // A no is not: when the authorisation cannot be recorded but the rejection can, the phone of an
  // honest unlock is told that it was rejected, and its grant is there.
  lemma {:induction false} NoDespiteGrant(w: World, g: Global, a: HonestRun.Attempt, c: HonestRun.Course)
    requires HonestRun.Prepared(w, HonestRun.ConfigOf(g, c), a) && HonestRun.Welcome(g, a, c) && HonestRun.InTime(g, c)
    requires c.audit == S.Writes(false, true)
    ensures ValidRun(w, g, HonestRun.UnlockSteps(a, c))
    ensures var g4 := Run(w, g, HonestRun.UnlockSteps(a, c));
            && a.session in g4.sessions && g4.sessions[a.session] == S.Closing(a.ip, false, Some(false))
            && g4.svc.broker.expires == c.respond + w.env.grantTtl
  {
    HonestRun.HonestUnlockSucceeds(w, g, a, c);
  }
}
