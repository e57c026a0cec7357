/** Grant conservation from the phone's response to the PAM helper's answer, and the wakeups between. */
module Grants {
  import opened Prelude
  import opened Protocol
  import Broker
  import PamHelper
  import S = Service
  import F = ServiceFacts

  // ---- grants and the requests that take them ------------------------------------------------

  predicate Quiet(e: Event) {
    !e.Authorized? && !e.Consumed?
  }

  // The grant of the authorisation at i is still there to be taken.
  ghost predicate Unspent(trace: seq<Event>, i: nat) {
    i < |trace| && trace[i].Authorized? && forall m | i < m < |trace| :: Quiet(trace[m])
  }

  // The request at k took the grant of the authorisation at i, in time.
  ghost predicate Spent(trace: seq<Event>, ttl: real, i: nat, k: nat) {
    && i < k < |trace| && trace[i].Authorized? && trace[k].Consumed?
    && trace[i].at <= trace[k].at < trace[i].at + ttl
    && forall m | i < m < k :: Quiet(trace[m])
  }

  ghost predicate HasGrant(trace: seq<Event>, ttl: real, k: nat) {
    exists i: nat :: Spent(trace, ttl, i, k)
  }

  ghost predicate Purse(trace: seq<Event>, ttl: real, expires: real, now: real) {
    && (expires > now ==> exists i: nat :: Unspent(trace, i) && trace[i].at + ttl == expires && trace[i].at <= now)
    && (forall k: nat | k < |trace| && trace[k].Consumed? :: HasGrant(trace, ttl, k))
  }

  lemma {:induction false} HasGrantGrows(trace: seq<Event>, more: seq<Event>, ttl: real, k: nat)
    requires HasGrant(trace, ttl, k)
    ensures HasGrant(trace + more, ttl, k)
  {
    var i: nat :| Spent(trace, ttl, i, k);
    assert Spent(trace + more, ttl, i, k);
  }

  lemma {:induction false} QuietPurse(trace: seq<Event>, more: seq<Event>, ttl: real, expires: real, t0: real,
                                      now: real)
    requires Purse(trace, ttl, expires, t0) && t0 <= now && forall e <- more :: Quiet(e)
    ensures Purse(trace + more, ttl, expires, now)
  {
    var all := trace + more;
    assert forall m | |trace| <= m < |all| :: all[m] in more;
    if expires > now {
      var i: nat :| Unspent(trace, i) && trace[i].at + ttl == expires && trace[i].at <= t0;
      forall m | i < m < |all|
        ensures Quiet(all[m])
      {
      }
      assert Unspent(all, i);
    }
    forall k: nat | k < |all| && all[k].Consumed?
      ensures HasGrant(all, ttl, k)
    {
      HasGrantGrows(trace, more, ttl, k);
    }
  }

  lemma {:induction false} AuthorizePurse(trace: seq<Event>, e0: Event, e: Event, ttl: real, expires: real, t0: real,
                                          now: real)
    requires Purse(trace, ttl, expires, t0) && t0 <= now
    requires e0.Evaluated? && e.Authorized? && e.at == now
    ensures Purse(trace + [e0, e], ttl, now + ttl, now)
  {
    var all := trace + [e0, e];
    assert Unspent(all, |trace| + 1);
    forall k: nat | k < |all| && all[k].Consumed?
      ensures HasGrant(all, ttl, k)
    {
      HasGrantGrows(trace, [e0, e], ttl, k);
    }
  }

  lemma {:induction false} ConsumePurse(trace: seq<Event>, e: Event, ttl: real, expires: real, t0: real, now: real)
    requires Purse(trace, ttl, expires, t0) && t0 <= now && 0.0 <= now
    requires e.Consumed? && e.at == now && expires > now
    ensures Purse(trace + [e], ttl, 0.0, now)
  {
    var all := trace + [e];
    var i: nat :| Unspent(trace, i) && trace[i].at + ttl == expires && trace[i].at <= t0;
    assert Spent(all, ttl, i, |trace|);
    forall k: nat | k < |all| && all[k].Consumed?
      ensures HasGrant(all, ttl, k)
    {
      if k < |trace| {
        HasGrantGrows(trace, [e], ttl, k);
      }
    }
  }

  // ---- requests, replies and helpers ---------------------------------------------------------

  ghost predicate Took(trace: seq<Event>, rid: nat) {
    exists e <- trace :: e.Consumed? && e.request == rid
  }

  ghost predicate TookBefore(trace: seq<Event>, m: nat)
    requires m < |trace| && trace[m].Yes?
  {
    exists k: nat :: k < m && trace[k].Consumed? && trace[k].request == trace[m].request
  }

  ghost predicate Settled(g: Global, rid: nat) {
    rid in g.requests && (g.requests[rid].PamReplying? || g.requests[rid].PamClosed?)
  }

  ghost predicate Admitted(g: Global, rid: nat, uid: int) {
    rid in g.admitted && uid in g.admitted[rid].pamUids
  }

  ghost predicate Asked(g: Global, rid: nat, user: string) {
    rid in g.asked && user == g.asked[rid].settings.unlockUser
  }

  ghost predicate PhaseOk(g: Global, rid: nat)
    requires rid in g.requests
  {
    match g.requests[rid]
    case PamReading(uid) => Admitted(g, rid, uid)
    case PamWaiting(uid, user) => Admitted(g, rid, uid) && Asked(g, rid, user)
    case PamReplying(ok) => ok ==> Took(g.trace, rid)
    case PamClosed => true
  }

  ghost predicate EventOk(g: Global, e: Event) {
    match e
    case Consumed(rid, uid, user, _) => Settled(g, rid) && Admitted(g, rid, uid) && Asked(g, rid, user)
    case Yes(rid) => rid in g.answered
    case _ => true
  }

  ghost predicate NoRepeats(trace: seq<Event>) {
    forall i, j | 0 <= i < j < |trace| ::
      && (trace[i].Consumed? && trace[j].Consumed? ==> trace[i].request != trace[j].request)
      && (trace[i].Yes? && trace[j].Yes? ==> trace[i].request != trace[j].request)
  }

  ghost predicate Book(g: Global) {
    && (forall rid <- g.requests :: PhaseOk(g, rid))
    && (forall rid <- g.written :: rid in g.requests && (PamHelper.YES <= g.written[rid] ==> Took(g.trace, rid)))
    && (forall e <- g.trace :: EventOk(g, e))
    && NoRepeats(g.trace)
    && (forall m: nat | m < |g.trace| && g.trace[m].Yes? :: TookBefore(g.trace, m))
  }

  ghost predicate Inv(w: World, g: Global) {
    && 0.0 <= g.clock
    && Purse(g.trace, w.env.grantTtl, g.svc.broker.expires, g.clock)
    && Book(g)
    && Broker.Awake(g.svc.broker, g.clock)
  }

  // ---- what each step does to the book -------------------------------------------------------

  lemma {:induction false} TookGrows(trace: seq<Event>, more: seq<Event>, rid: nat)
    requires Took(trace, rid)
    ensures Took(trace + more, rid)
  {
    var e :| e in trace && e.Consumed? && e.request == rid;
    assert e in trace + more;
  }

  lemma {:induction false} TookBeforeGrows(trace: seq<Event>, more: seq<Event>)
    requires forall m: nat | m < |trace| && trace[m].Yes? :: TookBefore(trace, m)
    ensures forall m: nat | m < |trace| && (trace + more)[m].Yes? :: TookBefore(trace + more, m)
  {
    forall m: nat | m < |trace| && (trace + more)[m].Yes?
      ensures TookBefore(trace + more, m)
    {
      var k: nat :| k < m && trace[k].Consumed? && trace[k].request == trace[m].request;
      assert (trace + more)[k] == trace[k];
    }
  }

  ghost predicate SameBook(g: Global, g1: Global) {
    && g1.requests == g.requests && g1.written == g.written && g1.answered == g.answered
    && g1.admitted == g.admitted && g1.asked == g.asked
  }

  // No request moves, and nothing is taken or answered.
  lemma {:induction false} BookUntouched(g: Global, g1: Global, more: seq<Event>)
    requires Book(g) && SameBook(g, g1) && g1.trace == g.trace + more
    requires forall e <- more :: !e.Consumed? && !e.Yes?
    ensures Book(g1)
  {
    assert forall m | |g.trace| <= m < |g1.trace| :: g1.trace[m] in more;
    forall rid | Took(g.trace, rid)
      ensures Took(g1.trace, rid)
    {
      TookGrows(g.trace, more, rid);
    }
    TookBeforeGrows(g.trace, more);
    forall e <- g1.trace
      ensures EventOk(g1, e)
    {
      assert e in g.trace ==> EventOk(g, e);
    }
  }

  // One request moves on without taking anything.
  lemma {:induction false} BookMoves(g: Global, g1: Global, rid: nat)
    requires Book(g) && g1.trace == g.trace && g1.answered == g.answered
    requires Settled(g, rid) ==> Settled(g1, rid) && g1.admitted == g.admitted && g1.asked == g.asked
    requires rid in g1.requests && g1.requests == g.requests[rid := g1.requests[rid]] && PhaseOk(g1, rid)
    requires forall r <- g.admitted :: r in g1.admitted && (r != rid ==> g1.admitted[r] == g.admitted[r])
    requires forall r <- g.asked :: r in g1.asked && (r != rid ==> g1.asked[r] == g.asked[r])
    requires g1.written.Keys <= g.written.Keys + {rid}
    requires forall r <- g1.written :: if r == rid then PamHelper.YES <= g1.written[r] ==> Took(g.trace, r)
                                       else r in g.written && g1.written[r] == g.written[r]
    ensures Book(g1)
  {
    forall r <- g1.requests
      ensures PhaseOk(g1, r)
    {
      assert r != rid ==> PhaseOk(g, r);
    }
    forall e <- g1.trace
      ensures EventOk(g1, e)
    {
      assert EventOk(g, e);
    }
  }

  // A request takes the grant and is about to be answered.
  lemma {:induction false} BookTakes(g: Global, g1: Global, rid: nat, e: Event)
    requires Book(g) && g1.trace == g.trace + [e] && e.Consumed? && e.request == rid
    requires rid in g.requests && !Settled(g, rid)
    requires rid in g1.requests && g1.requests == g.requests[rid := g1.requests[rid]] && g1.requests[rid].PamReplying?
    requires g1.written == g.written && g1.answered == g.answered && g1.admitted == g.admitted
    requires forall r <- g.asked :: r in g1.asked && (r != rid ==> g1.asked[r] == g.asked[r])
    requires Admitted(g1, rid, e.uid) && Asked(g1, rid, e.user)
    ensures Book(g1)
  {
    assert e in g1.trace;
    forall r | Took(g.trace, r)
      ensures Took(g1.trace, r)
    {
      TookGrows(g.trace, [e], r);
    }
    TookBeforeGrows(g.trace, [e]);
    forall f <- g.trace
      ensures EventOk(g, f) && EventOk(g1, f)
      ensures f.Consumed? ==> f.request != rid
    {
      assert EventOk(g, f);
    }
    forall r <- g1.requests
      ensures PhaseOk(g1, r)
    {
      assert r != rid ==> PhaseOk(g, r);
    }
  }

  // The yes that is added has its grant before it.
  lemma {:induction false} YesTookBefore(trace: seq<Event>, rid: nat)
    requires Took(trace, rid)
    ensures TookBefore(trace + [Yes(rid)], |trace|)
  {
    var all := trace + [Yes(rid)];
    var c :| c in trace && c.Consumed? && c.request == rid;
    var k: nat :| k < |trace| && trace[k] == c;
    assert all[k] == c && all[|trace|] == Yes(rid);
  }

  lemma {:induction false} BookAnswers(g: Global, g1: Global, rid: nat)
    requires Book(g) && rid !in g.answered && Took(g.trace, rid)
    requires g1 == g.(clock := g1.clock, answered := g.answered + {rid}, trace := g.trace + [Yes(rid)])
    ensures Book(g1)
  {
    forall r | Took(g.trace, r)
      ensures Took(g1.trace, r)
    {
      TookGrows(g.trace, [Yes(rid)], r);
    }
    TookBeforeGrows(g.trace, [Yes(rid)]);
    YesTookBefore(g.trace, rid);
    forall f <- g.trace
      ensures EventOk(g, f) && EventOk(g1, f)
      ensures f.Yes? ==> f.request != rid
    {
      assert EventOk(g, f);
    }
    forall r <- g1.requests
      ensures PhaseOk(g1, r)
    {
      assert PhaseOk(g, r);
    }
  }

  // ---- every step ----------------------------------------------------------------------------

  lemma {:induction false} SessionKeeps(w: World, g: Global, g1: Global, e: seq<Event>, at: real)
    requires Inv(w, g) && g.clock <= at && g1.clock == at && SameBook(g, g1) && g1.trace == g.trace + e
    requires || (g1.svc.broker == g.svc.broker && forall x <- e :: x.Issued? || x.Signed? || x.Evaluated?)
             || (g1.svc.broker == Broker.Issue(g.svc.broker, w.env.grantTtl, at)
                 && |e| == 2 && e[0].Evaluated? && e[1].Authorized? && e[1].at == at)
    ensures Inv(w, g1)
  {
    Broker.AwakeLater(g.svc.broker, g.clock, at);
    if g1.svc.broker == g.svc.broker && forall x <- e :: x.Issued? || x.Signed? || x.Evaluated? {
      QuietPurse(g.trace, e, w.env.grantTtl, g.svc.broker.expires, g.clock, at);
    } else {
      assert e == [e[0], e[1]];
      AuthorizePurse(g.trace, e[0], e[1], w.env.grantTtl, g.svc.broker.expires, g.clock, at);
      Broker.IssueKeepsAwake(g.svc.broker, w.env.grantTtl, at);
    }
    BookUntouched(g, g1, e);
  }

  lemma {:induction false} SessionStep(w: World, g: Global, step: Step)
    requires Inv(w, g) && Enabled(w, g, step)
    requires var a := step.action; a.Open? || a.Finish? || a.Hello? || a.Respond?
    ensures Inv(w, Next(w, g, step))
  {
    var g1 := Next(w, g, step);
    var e := g1.trace[|g.trace|..];
    match step.action
    case Open(sid, ip, fingerprint, access, audit) =>
      var reading := S.Registry.Observe(g.disk, access).0;
      F.OpenFacts(w.env, g.svc, ip, fingerprint, reading, audit, step.at);
      SessionKeeps(w, g, g1, e, step.at);
    case Finish(sid, audit) =>
      var p := g.sessions[sid];
      F.FinishFacts(w.env, g.svc, p.ip, p.owes, audit, step.at);
      SessionKeeps(w, g, g1, e, step.at);
    case Hello(sid, hello, nonce, ms, audit) =>
      var p := g.sessions[sid];
      F.HelloFacts(w.env, g.svc, p.ip, p.cert, hello, nonce, ms, audit, step.at);
      SessionKeeps(w, g, g1, e, step.at);
    case Respond(sid, response, audit) =>
      var p := g.sessions[sid];
      F.ResponseFacts(w.env, g.svc, p.ip, p.device, response, audit, step.at);
      SessionKeeps(w, g, g1, e, step.at);
  }

  // A pass of `consume`: from a request that has been admitted and asked for the right user.
  lemma {:induction false} PassKeeps(w: World, g: Global, g1: Global, rid: nat, wt: Broker.Waiter, uid: int,
                                     user: string, auditOk: bool, at: real)
    requires Inv(w, g) && g.clock <= at && rid in g.requests && !Settled(g, rid)
    requires wt.loops <= wt.issues
    requires var (broker, turn) := Broker.Pass(g.svc.broker, rid, wt, at);
             g1 == AfterPam(g.(asked := g1.asked), rid, uid, user,
                            S.PamTurn(g.svc, broker, turn, uid, user, auditOk), at)
    requires Admitted(g1, rid, uid) && Asked(g1, rid, user)
    requires forall r <- g.asked :: r in g1.asked && (r != rid ==> g1.asked[r] == g.asked[r])
    ensures Inv(w, g1)
  {
    var (broker, turn) := Broker.Pass(g.svc.broker, rid, wt, at);
    Broker.AwakeLater(g.svc.broker, g.clock, at);
    Broker.PassKeepsAwake(g.svc.broker, rid, wt, at);
    var ttl, expires := w.env.grantTtl, g.svc.broker.expires;
    if turn.Granted? {
      var e := Consumed(rid, uid, user, at);
      ConsumePurse(g.trace, e, ttl, expires, g.clock, at);
      BookTakes(g, g1, rid, e);
    } else {
      QuietPurse(g.trace, [], ttl, expires, g.clock, at);
      assert g.trace + [] == g.trace;
      BookMoves(g, g1, rid);
    }
  }

  // A request moves on and the grant is left alone.
  lemma {:induction false} StillKeeps(w: World, g: Global, g1: Global, rid: nat, at: real)
    requires Inv(w, g) && g.clock <= at && g1.clock == at && g1.trace == g.trace + []
    requires g1.svc.broker.expires == g.svc.broker.expires
    requires Broker.Awake(g1.svc.broker, at)
    requires g1.answered == g.answered
    requires Settled(g, rid) ==> Settled(g1, rid) && g1.admitted == g.admitted && g1.asked == g.asked
    requires rid in g1.requests && g1.requests == g.requests[rid := g1.requests[rid]] && PhaseOk(g1, rid)
    requires forall r <- g.admitted :: r in g1.admitted && (r != rid ==> g1.admitted[r] == g.admitted[r])
    requires forall r <- g.asked :: r in g1.asked && (r != rid ==> g1.asked[r] == g.asked[r])
    requires g1.written.Keys <= g.written.Keys + {rid}
    requires forall r <- g1.written :: if r == rid then PamHelper.YES <= g1.written[r] ==> Took(g.trace, r)
                                       else r in g.written && g1.written[r] == g.written[r]
    ensures Inv(w, g1)
  {
    QuietPurse(g.trace, [], w.env.grantTtl, g.svc.broker.expires, g.clock, at);
    assert g.trace + [] == g.trace;
    BookMoves(g, g1, rid);
  }

  lemma {:induction false} LineStep(w: World, g: Global, step: Step)
    requires Inv(w, g) && Enabled(w, g, step) && step.action.PamLine?
    ensures Inv(w, Next(w, g, step))
  {
    var g1 := Next(w, g, step);
    var PamLine(rid, user, auditOk) := step.action;
    assert PhaseOk(g, rid);
    var uid := g.requests[rid].uid;
    if user == Some(g.svc.cfg.settings.unlockUser) {
      var wt := Broker.Waiter(Broker.Scheduled, step.at + g.svc.cfg.settings.pamWait, 0, 0);
      PassKeeps(w, g, g1, rid, wt, uid, user.value, auditOk, step.at);
    } else {
      StrangerStep(w, g, step);
    }
  }

  // A request for another user is answered no.
  lemma {:induction false} StrangerStep(w: World, g: Global, step: Step)
    requires Inv(w, g) && Enabled(w, g, step) && step.action.PamLine?
    requires step.action.user != Some(g.svc.cfg.settings.unlockUser)
    ensures Inv(w, Next(w, g, step))
  {
    Broker.AwakeLater(g.svc.broker, g.clock, step.at);
    StillKeeps(w, g, Next(w, g, step), step.action.request, step.at);
  }

  lemma {:induction false} WakeStep(w: World, g: Global, step: Step)
    requires Inv(w, g) && Enabled(w, g, step) && step.action.PamWake?
    ensures Inv(w, Next(w, g, step))
  {
    var g1 := Next(w, g, step);
    var PamWake(rid, auditOk) := step.action;
    assert PhaseOk(g, rid);
    var p, wt := g.requests[rid], g.svc.broker.waiting[rid];
    assert Broker.Paid(g.svc.broker.event, wt);
    assert g.(asked := g1.asked) == g;
    PassKeeps(w, g, g1, rid, wt, p.uid, p.user, auditOk, step.at);
  }

  lemma {:induction false} RequestStep(w: World, g: Global, step: Step)
    requires Inv(w, g) && Enabled(w, g, step)
    requires var a := step.action; a.PamOpen? || a.PamExpire? || a.PamWrite?
    ensures Inv(w, Next(w, g, step))
  {
    var g1 := Next(w, g, step);
    var rid := step.action.request;
    assert g.trace + [] == g.trace;
    Broker.AwakeLater(g.svc.broker, g.clock, step.at);
    if step.action.PamExpire? {
      Broker.ExpireKeepsAwake(g.svc.broker, rid, step.at);
    } else if step.action.PamWrite? {
      assert PhaseOk(g, rid);
      assert PamHelper.NO[0] != PamHelper.YES[0];
    }
    StillKeeps(w, g, g1, rid, step.at);
  }

  lemma {:induction false} OutsideStep(w: World, g: Global, step: Step)
    requires Inv(w, g) && Enabled(w, g, step)
    requires var a := step.action; a.Phone? || a.PamBegin? || a.Save?
    ensures Inv(w, Next(w, g, step))
  {
    var g1 := Next(w, g, step);
    var e := g1.trace[|g.trace|..];
    assert g1.trace == g.trace + e;
    Broker.AwakeLater(g.svc.broker, g.clock, step.at);
    if step.action.PamBegin? {
      Broker.BeginKeepsAwake(g.svc.broker, step.action.request, step.at);
    }
    QuietPurse(g.trace, e, w.env.grantTtl, g.svc.broker.expires, g.clock, step.at);
    BookUntouched(g, g1, e);
  }

  lemma {:induction false} HelperStep(w: World, g: Global, step: Step)
    requires Inv(w, g) && Enabled(w, g, step) && step.action.Helper?
    ensures Inv(w, Next(w, g, step))
  {
    var Helper(rid, peerUid, input) := step.action;
    var g1 := Next(w, g, step);
    Broker.AwakeLater(g.svc.broker, g.clock, step.at);
    if PamHelper.RequestUnlock(peerUid, w.serviceUid, input) {
      PamHelper.YesMeansYes(peerUid, w.serviceUid, input);
      assert rid in g.written && PamHelper.YES <= g.written[rid];
      QuietPurse(g.trace, [Yes(rid)], w.env.grantTtl, g.svc.broker.expires, g.clock, step.at);
      BookAnswers(g, g1, rid);
    } else {
      QuietPurse(g.trace, [], w.env.grantTtl, g.svc.broker.expires, g.clock, step.at);
      assert g.trace + [] == g.trace;
      BookSilent(g, g1);
    }
  }

  // A helper finishes without a yes.
  lemma {:induction false} BookSilent(g: Global, g1: Global)
    requires Book(g) && g.answered <= g1.answered
    requires g1 == g.(clock := g1.clock, answered := g1.answered)
    ensures Book(g1)
  {
    forall e <- g1.trace
      ensures EventOk(g1, e)
    {
      assert EventOk(g, e);
    }
    forall r <- g1.requests
      ensures PhaseOk(g1, r)
    {
      assert PhaseOk(g, r);
    }
  }

  lemma {:induction false} StepKeeps(w: World, g: Global, step: Step)
    requires Inv(w, g) && Enabled(w, g, step)
    ensures Inv(w, Next(w, g, step))
  {
    match step.action
    case Open(_, _, _, _, _) => SessionStep(w, g, step);
    case Hello(_, _, _, _, _) => SessionStep(w, g, step);
    case Respond(_, _, _) => SessionStep(w, g, step);
    case Finish(_, _) => SessionStep(w, g, step);
    case PamLine(_, _, _) => LineStep(w, g, step);
    case PamWake(_, _) => WakeStep(w, g, step);
    case PamOpen(_, _) => RequestStep(w, g, step);
    case PamExpire(_) => RequestStep(w, g, step);
    case PamWrite(_) => RequestStep(w, g, step);
    case Helper(_, _, _) => HelperStep(w, g, step);
    case Phone(_, _, _, _) => OutsideStep(w, g, step);
    case PamBegin(_) => OutsideStep(w, g, step);
    case Save(_) => OutsideStep(w, g, step);
  }

  lemma {:induction false} RunKeeps(w: World, g: Global, steps: seq<Step>)
    requires Inv(w, g) && ValidRun(w, g, steps)
    ensures Inv(w, Run(w, g, steps))
    decreases |steps|
  {
    if steps != [] {
      StepKeeps(w, g, steps[0]);
      RunKeeps(w, Next(w, g, steps[0]), steps[1..]);
    }
  }

  // The yes at m was answered to the request that, at k, took the grant of the authorisation at i.
  ghost predicate Rests(trace: seq<Event>, ttl: real, m: nat, k: nat, i: nat) {
    && m < |trace| && trace[m].Yes? && k < m && Spent(trace, ttl, i, k) && trace[k].request == trace[m].request
  }

  lemma {:induction false} YesRests(w: World, cfg: S.Registry.Data, steps: seq<Step>, m: nat) returns (k: nat, i: nat)
    requires ValidRun(w, Init(cfg), steps)
    requires var trace := Run(w, Init(cfg), steps).trace; m < |trace| && trace[m].Yes?
    ensures var g := Run(w, Init(cfg), steps);
            && Rests(g.trace, w.env.grantTtl, m, k, i)
            && Admitted(g, g.trace[k].request, g.trace[k].uid) && Asked(g, g.trace[k].request, g.trace[k].user)
  {
    RunKeeps(w, Init(cfg), steps);
    var g := Run(w, Init(cfg), steps);
    var trace, ttl := g.trace, w.env.grantTtl;
    assert TookBefore(trace, m);
    k :| k < m && trace[k].Consumed? && trace[k].request == trace[m].request;
    assert HasGrant(trace, ttl, k);
    i :| Spent(trace, ttl, i, k);
    assert EventOk(g, trace[k]);
  }

  // End-to-end conservation, in every interleaving: each yes of a PAM helper rests on a grant that
  // an earlier authorisation issued and that its own request took within the grant's lifetime, for
  // a uid and a user that the settings in force allowed; and different yeses rest on different
  // authorisations. Replies and helpers may be lost: whether or not a yes comes of it, each request
  // that takes a grant takes that of an authorisation of its own.
  lemma {:induction false} GrantConservation(w: World, cfg: S.Registry.Data, steps: seq<Step>)
    requires ValidRun(w, Init(cfg), steps)
    ensures var g := Run(w, Init(cfg), steps);
            var trace, ttl := g.trace, w.env.grantTtl;
            && (forall m: nat | m < |trace| && trace[m].Yes? ::
                  exists k: nat, i: nat :: Rests(trace, ttl, m, k, i)
                    && Admitted(g, trace[k].request, trace[k].uid)
                    && Asked(g, trace[k].request, trace[k].user))
            && (forall m: nat, k: nat, i: nat, m': nat, k': nat, i': nat |
                  m != m' && Rests(trace, ttl, m, k, i) && Rests(trace, ttl, m', k', i') :: k != k' && i != i')
            && (forall k: nat | k < |trace| && trace[k].Consumed? :: exists i: nat :: Spent(trace, ttl, i, k))
            && (forall k: nat, i: nat, k': nat, i': nat |
                  k != k' && Spent(trace, ttl, i, k) && Spent(trace, ttl, i', k') :: i != i')
  {
    RunKeeps(w, Init(cfg), steps);
    var g := Run(w, Init(cfg), steps);
    var trace, ttl := g.trace, w.env.grantTtl;
    forall m: nat | m < |trace| && trace[m].Yes?
      ensures exists k: nat, i: nat :: Rests(trace, ttl, m, k, i)
                && Admitted(g, trace[k].request, trace[k].uid) && Asked(g, trace[k].request, trace[k].user)
    {
      var k, i := YesRests(w, cfg, steps, m);
      assert Rests(trace, ttl, m, k, i);
    }
    forall k: nat | k < |trace| && trace[k].Consumed?
      ensures exists i: nat :: Spent(trace, ttl, i, k)
    {
      assert HasGrant(trace, ttl, k);
    }
  }

  // No lost wakeup, in every interleaving: no PAM request sleeps through a grant it could take,
  // and each has gone through its loop at most once more than grants were issued while it waited.
  lemma {:induction false} NoLostWakeups(w: World, cfg: S.Registry.Data, steps: seq<Step>, rid: nat)
    requires ValidRun(w, Init(cfg), steps)
    ensures var g := Run(w, Init(cfg), steps);
            var b := g.svc.broker;
            rid in b.waiting ==>
              && (Broker.Live(b, g.clock) ==> b.event && b.waiting[rid].phase != Broker.Blocked)
              && b.waiting[rid].loops <= 1 + b.waiting[rid].issues
  {
    RunKeeps(w, Init(cfg), steps);
    var g := Run(w, Init(cfg), steps);
    if rid in g.svc.broker.waiting {
      Broker.NoLostWakeup(g.svc.broker, g.clock, rid);
    }
  }

  // ---- counting ------------------------------------------------------------------------------

  function Yeses(trace: seq<Event>): set<nat> {
    set m: nat | m < |trace| && trace[m].Yes?
  }

  function Authorizations(trace: seq<Event>): set<nat> {
    set i: nat | i < |trace| && trace[i].Authorized?
  }

  lemma {:induction false} InjectionBound(f: map<nat, nat>, image: set<nat>)
    requires forall m <- f :: f[m] in image
    requires forall m <- f, m' <- f | m != m' :: f[m] != f[m']
    ensures |f.Keys| <= |image|
  {
    if m :| m in f {
      InjectionBound(f - {m}, image - {f[m]});
      assert (f - {m}).Keys == f.Keys - {m};
    }
  }

  // In every run the helpers say yes at most as often as sessions were authorised.
  lemma {:induction false} NoMoreYesesThanAuthorizations(w: World, cfg: S.Registry.Data, steps: seq<Step>)
    requires ValidRun(w, Init(cfg), steps)
    ensures var trace := Run(w, Init(cfg), steps).trace; |Yeses(trace)| <= |Authorizations(trace)|
  {
    var trace, ttl := Run(w, Init(cfg), steps).trace, w.env.grantTtl;
    GrantConservation(w, cfg, steps);
    var f: map<nat, nat> :=
      map m: nat | m in Yeses(trace) :: (var k: nat, i: nat :| Rests(trace, ttl, m, k, i); i);
    forall m <- f
      ensures f[m] in Authorizations(trace) && exists k: nat :: Rests(trace, ttl, m, k, f[m])
    {
    }
    forall m <- f, m' <- f | m != m'
      ensures f[m] != f[m']
    {
      var k: nat :| Rests(trace, ttl, m, k, f[m]);
      var k': nat :| Rests(trace, ttl, m', k', f[m']);
    }
    InjectionBound(f, Authorizations(trace));
    assert f.Keys == Yeses(trace);
  }
}
