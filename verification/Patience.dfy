/** How long PAM requests wait: each is answered no only once its time is up, and a grant that comes
    before reaches it. */
module Patience {
  import opened Prelude
  import opened Protocol
  import opened StepFacts
  import Broker
  import F = ServiceFacts
  import Grants
  import HonestRun
  import PamHelper
  import Registry
  import S = Service

  // When the request may be answered no: its wait is over.
  function Due(g: Global, rid: nat): real
    requires rid in g.asked
  {
    g.asked[rid].at + g.asked[rid].settings.pamWait
  }

  // A request that waits is one that the broker knows, until it is due.
  ghost predicate WaitsInLine(g: Global, rid: nat)
    requires rid in g.requests
  {
    g.requests[rid].PamWaiting? ==>
      rid in g.svc.broker.waiting && rid in g.asked && g.svc.broker.waiting[rid].deadline == Due(g, rid)
  }

  ghost predicate Inv(g: Global) {
    && (forall rid <- g.requests :: WaitsInLine(g, rid))
    && (forall rid <- g.svc.broker.waiting :: rid in g.requests && g.requests[rid].PamWaiting?)
  }

  // The waiting requests are the same, with the same deadlines.
  predicate SameLine(b: Broker.State, b1: Broker.State) {
    b1.waiting.Keys == b.waiting.Keys && forall id <- b.waiting :: b1.waiting[id].deadline == b.waiting[id].deadline
  }

  lemma {:induction false} LineKeeps(g: Global, g1: Global)
    requires Inv(g) && SameLine(g.svc.broker, g1.svc.broker) && g1.requests == g.requests && g1.asked == g.asked
    ensures Inv(g1)
  {
    forall rid <- g1.requests
      ensures WaitsInLine(g1, rid)
    {
      assert WaitsInLine(g, rid);
    }
  }

  lemma {:induction false} IssueKeepsLine(b: Broker.State, ttl: real, now: real)
    ensures SameLine(b, Broker.Issue(b, ttl, now))
  {
  }

  lemma {:induction false} SessionKeeps(w: World, g: Global, step: Step)
    requires Inv(g) && Enabled(w, g, step) && SessionAction(step.action)
    ensures Inv(Next(w, g, step))
  {
    IssueKeepsLine(g.svc.broker, w.env.grantTtl, step.at);
    match step.action
    case Open(sid, ip, fingerprint, access, audit) =>
      F.OpenFacts(w.env, g.svc, ip, fingerprint, Registry.Observe(g.disk, access).0, audit, step.at);
      LineKeeps(g, Next(w, g, step));
    case Hello(sid, hello, nonce, ms, audit) =>
      var p := g.sessions[sid];
      F.HelloFacts(w.env, g.svc, p.ip, p.cert, hello, nonce, ms, audit, step.at);
      LineKeeps(g, Next(w, g, step));
    case Respond(sid, response, audit) =>
      var p := g.sessions[sid];
      F.ResponseFacts(w.env, g.svc, p.ip, p.device, response, audit, step.at);
      LineKeeps(g, Next(w, g, step));
    case Finish(sid, audit) =>
      var p := g.sessions[sid];
      F.FinishFacts(w.env, g.svc, p.ip, p.owes, audit, step.at);
      LineKeeps(g, Next(w, g, step));
  }

  // ---- what a request is answered ------------------------------------------------------------

  // The request of a step that may take the grant, or end the wait.
  predicate Turns(g: Global, step: Step) {
    match step.action
    case PamLine(_, user, _) => user == Some(g.svc.cfg.settings.unlockUser)
    case PamWake(_, _) => true
    case PamExpire(_) => true
    case _ => false
  }

  function UidOf(g: Global, rid: nat): int
    requires rid in g.requests && (g.requests[rid].PamReading? || g.requests[rid].PamWaiting?)
  {
    g.requests[rid].uid
  }

  function UserOf(g: Global, step: Step): string
    requires Turns(g, step) && step.action.request in g.requests
    requires step.action.PamLine? || g.requests[step.action.request].PamWaiting?
  {
    if step.action.PamLine? then g.svc.cfg.settings.unlockUser else g.requests[step.action.request].user
  }

  predicate AuditOk(step: Step) {
    match step.action
    case PamLine(_, _, auditOk) => auditOk
    case PamWake(_, auditOk) => auditOk
    case _ => true
  }

  // How the turn of a request ends. It takes the grant if one is live, unless its wait has timed out;
  // then it is answered yes if that can be recorded. Otherwise it leaves the grant alone, and is
  // answered no if it is due, and goes on waiting if not.
  ghost predicate TurnsOut(w: World, g: Global, step: Step)
    requires Turns(g, step) && Enabled(w, g, step)
  {
    var g1, rid, at := Next(w, g, step), step.action.request, step.at;
    var uid, user := UidOf(g, rid), UserOf(g, step);
    && rid in g1.requests && rid in g1.asked
    && (step.action.PamLine? ==> g1.asked[rid] == Asking(at, g.svc.cfg.settings))
    && (!step.action.PamLine? ==> g1.asked == g.asked)
    && if Broker.Live(g.svc.broker, at) && !step.action.PamExpire?
       then
         && g1.requests[rid] == S.PamReplying(AuditOk(step))
         && g1.trace == g.trace + [Consumed(rid, uid, user, at)]
         && (0.0 <= at ==> !Broker.Live(g1.svc.broker, at))
       else
         && g1.requests[rid] == (if Due(g1, rid) <= at then S.PamReplying(false) else S.PamWaiting(uid, user))
         && g1.trace == g.trace && g1.svc.broker.expires == g.svc.broker.expires
  }

  lemma {:induction false} LineTurns(w: World, g: Global, step: Step)
    requires Inv(g) && Enabled(w, g, step) && step.action.PamLine? && Turns(g, step)
    ensures TurnsOut(w, g, step) && Inv(Next(w, g, step))
  {
    var g1, rid := Next(w, g, step), step.action.request;
    assert g.trace + [] == g.trace;
    forall r <- g1.requests
      ensures WaitsInLine(g1, r)
    {
      assert r != rid ==> WaitsInLine(g, r);
    }
  }

  lemma {:induction false} WaitTurns(w: World, g: Global, step: Step)
    requires Inv(g) && Enabled(w, g, step) && (step.action.PamWake? || step.action.PamExpire?)
    ensures TurnsOut(w, g, step) && Inv(Next(w, g, step))
  {
    var g1, rid := Next(w, g, step), step.action.request;
    assert WaitsInLine(g, rid);
    assert g.trace + [] == g.trace;
    forall r <- g1.requests
      ensures WaitsInLine(g1, r)
    {
      assert r != rid ==> WaitsInLine(g, r);
    }
  }

  lemma {:induction false} PamKeeps(w: World, g: Global, step: Step)
    requires Inv(g) && Enabled(w, g, step)
    requires var a := step.action; a.PamOpen? || a.PamBegin? || a.PamWrite? || (a.PamLine? && !Turns(g, step))
    ensures Inv(Next(w, g, step))
  {
    var g1, rid := Next(w, g, step), step.action.request;
    forall r <- g1.requests
      ensures WaitsInLine(g1, r)
    {
      assert r in g.requests ==> WaitsInLine(g, r);
    }
  }

  lemma {:induction false} StepKeeps(w: World, g: Global, step: Step)
    requires Inv(g) && Enabled(w, g, step)
    ensures Inv(Next(w, g, step))
  {
    match step.action
    case PamLine(_, _, _) =>
      if Turns(g, step) {
        LineTurns(w, g, step);
      } else {
        PamKeeps(w, g, step);
      }
    case PamWake(_, _) => WaitTurns(w, g, step);
    case PamExpire(_) => WaitTurns(w, g, step);
    case PamOpen(_, _) => PamKeeps(w, g, step);
    case PamBegin(_) => PamKeeps(w, g, step);
    case PamWrite(_) => PamKeeps(w, g, step);
    case Phone(_, _, _, _) => OutsideKeeps(w, g, step);
    case Helper(_, _, _) => OutsideKeeps(w, g, step);
    case Save(_) => OutsideKeeps(w, g, step);
    case _ => SessionKeeps(w, g, step);
  }

  lemma {:induction false} OutsideKeeps(w: World, g: Global, step: Step)
    requires Inv(g) && Enabled(w, g, step) && (step.action.Phone? || step.action.Helper? || step.action.Save?)
    ensures Inv(Next(w, g, step))
  {
    LineKeeps(g, Next(w, g, step));
  }

  lemma {:induction false} RunKeeps(w: World, g: Global, steps: seq<Step>)
    requires Inv(g) && ValidRun(w, g, steps)
    ensures Inv(Run(w, g, steps))
    decreases |steps|
  {
    if steps != [] {
      StepKeeps(w, g, steps[0]);
      RunKeeps(w, Next(w, g, steps[0]), steps[1..]);
    }
  }

  // In every run, each turn of a request for the configured user ends as its time and the grant say.
  lemma {:induction false} TurnsExactly(w: World, cfg: Registry.Data, before: seq<Step>, step: Step)
    requires ValidRun(w, Init(cfg), before)
    requires var g := Run(w, Init(cfg), before); Enabled(w, g, step) && Turns(g, step)
    ensures TurnsOut(w, Run(w, Init(cfg), before), step)
  {
    RunKeeps(w, Init(cfg), before);
    var g := Run(w, Init(cfg), before);
    if step.action.PamLine? {
      LineTurns(w, g, step);
    } else {
      WaitTurns(w, g, step);
    }
  }

  // The gates before that: only an allowed uid gets to ask, and only for the configured user. Whoever is
  // stopped there is answered no, and takes nothing.
  lemma {:induction false} GatesExactly(w: World, g: Global, step: Step)
    requires Enabled(w, g, step) && (step.action.PamOpen? || (step.action.PamLine? && !Turns(g, step)))
    ensures var g1, rid := Next(w, g, step), step.action.request;
            && g1.svc == g.svc && g1.trace == g.trace && rid in g1.requests
            && g1.requests[rid] == if step.action.PamOpen? && step.action.uid in g.svc.cfg.settings.pamUids
                                   then S.PamReading(step.action.uid) else S.PamReplying(false)
  {
    assert g.trace + [] == g.trace;
  }

  // So nobody is turned down early: a request for the configured user that is answered no has waited
  // for all of its time, or has taken a grant that could not be recorded.
  lemma {:induction false} NoIsPatient(w: World, cfg: Registry.Data, before: seq<Step>, step: Step)
    requires ValidRun(w, Init(cfg), before)
    requires var g := Run(w, Init(cfg), before);
             Enabled(w, g, step) && Turns(g, step)
             && Next(w, g, step).requests[step.action.request] == S.PamReplying(false)
    ensures var g := Run(w, Init(cfg), before);
            var g1, rid := Next(w, g, step), step.action.request;
            || (rid in g1.asked && step.at >= g1.asked[rid].at + g1.asked[rid].settings.pamWait)
            || (!AuditOk(step) && |g1.trace| == |g.trace| + 1 && g1.trace[|g.trace|].Consumed?)
  {
    TurnsExactly(w, cfg, before, step);
  }

  // ---- a grant that comes in time ------------------------------------------------------------

  // The rest of a waiting request: its wait begins, if it has not, it wakes, is answered and read.
  datatype Rest = Rest(begin: real, wake: real, answer: real, read: real)

  function RestSteps(w: World, g: Global, rid: nat, r: Rest): seq<Step> {
    var begins := rid in g.svc.broker.waiting && g.svc.broker.waiting[rid].phase.Scheduled?;
    (if begins then [Step(r.begin, PamBegin(rid))] else [])
    + [Step(r.wake, PamWake(rid, true)), Step(r.answer, PamWrite(rid)),
       Step(r.read, Helper(rid, w.serviceUid, [PamHelper.Chunk(PamHelper.YES)]))]
  }

  // It wakes while a grant is live.
  ghost predicate WakesInTime(g: Global, rid: nat, r: Rest) {
    && rid in g.requests && g.requests[rid].PamWaiting? && rid !in g.answered
    && g.clock <= r.begin <= r.wake <= r.answer <= r.read && r.wake < g.svc.broker.expires
  }

  lemma {:induction false} RunThree(w: World, g: Global, a: Step, b: Step, c: Step)
    requires Enabled(w, g, a) && Enabled(w, Next(w, g, a), b) && Enabled(w, Next(w, Next(w, g, a), b), c)
    ensures ValidRun(w, g, [a, b, c])
    ensures Run(w, g, [a, b, c]) == Next(w, Next(w, Next(w, g, a), b), c)
  {
    var g1 := Next(w, g, a);
    var g2 := Next(w, g1, b);
    HonestRun.RunCons(w, g2, c, []);
    HonestRun.RunCons(w, g1, b, [c] + []);
    HonestRun.RunCons(w, g, a, [b] + ([c] + []));
    assert [a] + ([b] + ([c] + [])) == [a, b, c];
  }

  lemma {:induction false} WokenIsGranted(w: World, g: Global, rid: nat, r: Rest)
    requires WakesInTime(g, rid, r) && rid in g.svc.broker.waiting && g.svc.broker.waiting[rid].phase.Woken?
    ensures var steps := [Step(r.wake, PamWake(rid, true)), Step(r.answer, PamWrite(rid)),
                          Step(r.read, Helper(rid, w.serviceUid, [PamHelper.Chunk(PamHelper.YES)]))];
            && ValidRun(w, g, steps)
            && Run(w, g, steps).trace
               == g.trace + [Consumed(rid, g.requests[rid].uid, g.requests[rid].user, r.wake)] + [Yes(rid)]
  {
    HonestRun.YesIsRead(w.serviceUid);
    RunThree(w, g, Step(r.wake, PamWake(rid, true)), Step(r.answer, PamWrite(rid)),
             Step(r.read, Helper(rid, w.serviceUid, [PamHelper.Chunk(PamHelper.YES)])));
  }

  lemma {:induction false} ScheduledIsGranted(w: World, g: Global, rid: nat, r: Rest)
    requires WakesInTime(g, rid, r) && rid in g.svc.broker.waiting && g.svc.broker.waiting[rid].phase.Scheduled?
    requires g.svc.broker.event
    ensures var steps := RestSteps(w, g, rid, r);
            && ValidRun(w, g, steps)
            && Run(w, g, steps).trace
               == g.trace + [Consumed(rid, g.requests[rid].uid, g.requests[rid].user, r.wake)] + [Yes(rid)]
  {
    var begin := Step(r.begin, PamBegin(rid));
    var g1 := Next(w, g, begin);
    assert g1.requests == g.requests && g1.answered == g.answered && g1.trace == g.trace;
    WokenIsGranted(w, g1, rid, r);
    HonestRun.RunCons(w, g, begin, [Step(r.wake, PamWake(rid, true)), Step(r.answer, PamWrite(rid)),
                                    Step(r.read, Helper(rid, w.serviceUid, [PamHelper.Chunk(PamHelper.YES)]))]);
  }

  // A live grant reaches whoever waits: in every reachable state a waiting request that wakes before
  // the grant is over takes it, and its helper says yes.
  lemma {:induction false} GrantReachesWaiter(w: World, cfg: Registry.Data, before: seq<Step>, rid: nat, r: Rest)
    requires ValidRun(w, Init(cfg), before) && WakesInTime(Run(w, Init(cfg), before), rid, r)
    ensures var g := Run(w, Init(cfg), before);
            && ValidRun(w, g, RestSteps(w, g, rid, r))
            && Run(w, g, RestSteps(w, g, rid, r)).trace
               == g.trace + [Consumed(rid, g.requests[rid].uid, g.requests[rid].user, r.wake)] + [Yes(rid)]
  {
    var g := Run(w, Init(cfg), before);
    AwaitsAwake(w, cfg, before, rid, r);
    if g.svc.broker.waiting[rid].phase.Scheduled? {
      ScheduledIsGranted(w, g, rid, r);
    } else {
      WokenIsGranted(w, g, rid, r);
      assert RestSteps(w, g, rid, r) == [Step(r.wake, PamWake(rid, true)), Step(r.answer, PamWrite(rid)),
                                         Step(r.read, Helper(rid, w.serviceUid, [PamHelper.Chunk(PamHelper.YES)]))];
    }
  }

  lemma {:induction false} AwaitsAwake(w: World, cfg: Registry.Data, before: seq<Step>, rid: nat, r: Rest)
    requires ValidRun(w, Init(cfg), before) && WakesInTime(Run(w, Init(cfg), before), rid, r)
    ensures var b := Run(w, Init(cfg), before).svc.broker;
            rid in b.waiting && b.event && !b.waiting[rid].phase.Blocked?
  {
    var g := Run(w, Init(cfg), before);
    RunKeeps(w, Init(cfg), before);
    assert WaitsInLine(g, rid);
    Grants.RunKeeps(w, Init(cfg), before);
    Broker.NoLostWakeup(g.svc.broker, g.clock, rid);
  }

  // ---- the login that waits for the phone ----------------------------------------------------

  // When the request connects and asks, and its wait begins.
  datatype Login = Login(request: nat, uid: int, user: string, connect: real, ask: real, begin: real)

  function LoginSteps(l: Login): seq<Step> {
    [Step(l.connect, PamOpen(l.request, l.uid)), Step(l.ask, PamLine(l.request, Some(l.user), true)),
     Step(l.begin, PamBegin(l.request))]
  }

  // A request of an allowed peer for the configured user that finds no grant, and may wait.
  ghost predicate FindsNoGrant(g: Global, l: Login) {
    && g.clock <= l.connect <= l.ask <= l.begin
    && l.request !in g.requests && l.request !in g.answered
    && l.uid in g.svc.cfg.settings.pamUids && l.user == g.svc.cfg.settings.unlockUser
    && !Broker.Live(g.svc.broker, l.ask) && 0.0 < g.svc.cfg.settings.pamWait
  }

  // It waits, and nothing else has changed.
  lemma {:induction false} LoginWaits(w: World, g: Global, l: Login)
    requires FindsNoGrant(g, l)
    ensures ValidRun(w, g, LoginSteps(l))
    ensures var g1 := Run(w, g, LoginSteps(l));
            && l.request in g1.requests && g1.requests[l.request] == S.PamWaiting(l.uid, l.user)
            && g1.clock == l.begin && g1.trace == g.trace && g1.answered == g.answered
            && g1.sessions == g.sessions && g1.disk == g.disk && g1.svc == g.svc.(broker := g1.svc.broker)
  {
    var one, two := Step(l.connect, PamOpen(l.request, l.uid)), Step(l.ask, PamLine(l.request, Some(l.user), true));
    assert g.trace + [] == g.trace;
    RunThree(w, g, one, two, Step(l.begin, PamBegin(l.request)));
  }

  // The phone of the attempt would be welcome once the request waits.
  ghost predicate PhoneFollows(w: World, g: Global, l: Login, a: HonestRun.Attempt, c: HonestRun.Course) {
    var g1 := g.(clock := l.begin);
    HonestRun.Prepared(w, HonestRun.ConfigOf(g1, c), a) && HonestRun.Welcome(g1, a, c) && HonestRun.InTime(g1, c)
  }

  lemma {:induction false} PhoneIsWelcome(w: World, g: Global, l: Login, a: HonestRun.Attempt, c: HonestRun.Course)
    requires FindsNoGrant(g, l) && PhoneFollows(w, g, l, a, c)
    ensures ValidRun(w, g, LoginSteps(l))
    ensures var g1 := Run(w, g, LoginSteps(l));
            && HonestRun.Prepared(w, HonestRun.ConfigOf(g1, c), a) && HonestRun.Welcome(g1, a, c)
            && HonestRun.InTime(g1, c)
  {
    LoginWaits(w, g, l);
  }

  // Behind the unlock the request still waits, and the grant is there.
  lemma {:induction false} LoginUnlocks(w: World, g: Global, l: Login, a: HonestRun.Attempt, c: HonestRun.Course)
    requires FindsNoGrant(g, l) && PhoneFollows(w, g, l, a, c)
    ensures ValidRun(w, g, LoginSteps(l) + HonestRun.UnlockSteps(a, c))
    ensures var g4 := Run(w, g, LoginSteps(l) + HonestRun.UnlockSteps(a, c));
            && l.request in g4.requests && g4.requests[l.request].PamWaiting? && l.request !in g4.answered
            && g4.clock == c.respond && g4.svc.broker.expires == c.respond + w.env.grantTtl
  {
    LoginWaits(w, g, l);
    PhoneIsWelcome(w, g, l, a, c);
    HonestRun.HonestUnlockSucceeds(w, Run(w, g, LoginSteps(l)), a, c);
    RunAppend(w, g, LoginSteps(l), HonestRun.UnlockSteps(a, c));
  }

  // A login that finds no grant waits for the phone: an unlock that follows grants it, and if it wakes
  // before that grant is over, its helper says yes.
  lemma {:induction false} LoginWaitsForPhone(w: World, cfg: Registry.Data, before: seq<Step>, l: Login,
                                              a: HonestRun.Attempt, c: HonestRun.Course, r: Rest)
    requires ValidRun(w, Init(cfg), before)
    requires var g := Run(w, Init(cfg), before); FindsNoGrant(g, l) && PhoneFollows(w, g, l, a, c)
    requires c.respond <= r.begin <= r.wake <= r.answer <= r.read && r.wake < c.respond + w.env.grantTtl
    ensures var g, unlock := Run(w, Init(cfg), before), LoginSteps(l) + HonestRun.UnlockSteps(a, c);
            && ValidRun(w, g, unlock)
            && var rest := RestSteps(w, Run(w, g, unlock), l.request, r);
            && ValidRun(w, g, unlock + rest)
            && var trace := Run(w, g, unlock + rest).trace;
               trace != [] && trace[|trace| - 1] == Yes(l.request)
  {
    var g, unlock := Run(w, Init(cfg), before), LoginSteps(l) + HonestRun.UnlockSteps(a, c);
    LoginUnlocks(w, g, l, a, c);
    RunAppend(w, Init(cfg), before, unlock);
    GrantReachesWaiter(w, cfg, before + unlock, l.request, r);
    RunAppend(w, g, unlock, RestSteps(w, Run(w, g, unlock), l.request, r));
  }
}
