/** What protocol steps have in common, and what a run adds to the trace. */
module StepFacts {
  import opened Prelude
  import opened Protocol
  import F = ServiceFacts
  import Registry
  import S = Service

  predicate SessionAction(a: Action) {
    a.Open? || a.Hello? || a.Respond? || a.Finish?
  }

  predicate Minor(e: Event) {
    e.Consumed? || e.Yes? || e.Signed?
  }

  // A step of no session: it leaves the sessions alone and everything in the service but the broker.
  ghost predicate SideStep(g: Global, g1: Global, at: real) {
    && g1.sessions == g.sessions && g1.peers == g.peers && g1.cap == g.cap && g1.clock == at
    && F.BrokerOnly(g.svc, g1.svc)
    && (g1.trace == g.trace || exists e: Event :: Minor(e) && g1.trace == g.trace + [e])
  }

  ghost predicate Unsigned(g: Global, g1: Global) {
    g1.trace == g.trace || exists e: Event :: (e.Consumed? || e.Yes?) && g1.trace == g.trace + [e]
  }

  lemma {:induction false} PamSideStep(w: World, g: Global, step: Step)
    requires Enabled(w, g, step) && (step.action.PamLine? || step.action.PamWake? || step.action.PamExpire?)
    ensures SideStep(g, Next(w, g, step), step.at)
    ensures Unsigned(g, Next(w, g, step))
    ensures Next(w, g, step).disk == g.disk
  {
    var g1 := Next(w, g, step);
    var rid := step.action.request;
    if step.action.PamLine? {
      F.PamFacts(g.svc, rid, g.requests[rid].uid, step.action.user, "", step.action.auditOk, step.at);
    } else {
      var p := g.requests[rid];
      F.PamFacts(g.svc, rid, p.uid, None, p.user, if step.action.PamWake? then step.action.auditOk else true, step.at);
    }
    assert g.trace + [] == g.trace;
  }

  lemma {:induction false} PhoneSideStep(w: World, g: Global, step: Step)
    requires Enabled(w, g, step) && (step.action.Phone? || step.action.Helper?)
    ensures SideStep(g, Next(w, g, step), step.at)
    ensures step.action.Helper? ==> Unsigned(g, Next(w, g, step))
    ensures Next(w, g, step).disk == g.disk
  {
    assert g.trace + [] == g.trace;
  }

  lemma {:induction false} SocketSideStep(w: World, g: Global, step: Step)
    requires Enabled(w, g, step) && (step.action.PamOpen? || step.action.PamBegin? || step.action.PamWrite?)
    ensures SideStep(g, Next(w, g, step), step.at)
    ensures Unsigned(g, Next(w, g, step))
    ensures Next(w, g, step).disk == g.disk
  {
  }

  lemma {:induction false} OperatorSideStep(w: World, g: Global, step: Step)
    requires Enabled(w, g, step) && step.action.Save?
    ensures SideStep(g, Next(w, g, step), step.at)
    ensures Unsigned(g, Next(w, g, step))
  {
  }

  // Among them only an honest phone adds a Signed event.
  lemma {:induction false} SideSteps(w: World, g: Global, step: Step)
    requires Enabled(w, g, step) && !SessionAction(step.action)
    ensures SideStep(g, Next(w, g, step), step.at)
    ensures !step.action.Phone? ==> Unsigned(g, Next(w, g, step))
    ensures !step.action.Save? ==> Next(w, g, step).disk == g.disk
  {
    match step.action
    case PamLine(_, _, _) => PamSideStep(w, g, step);
    case PamWake(_, _) => PamSideStep(w, g, step);
    case PamExpire(_) => PamSideStep(w, g, step);
    case Phone(_, _, _, _) => PhoneSideStep(w, g, step);
    case Helper(_, _, _) => PhoneSideStep(w, g, step);
    case Save(_) => OperatorSideStep(w, g, step);
    case _ => SocketSideStep(w, g, step);
  }

  ghost predicate SameConfig(g: Global, g1: Global) {
    g1.svc.cfg == g.svc.cfg && g1.svc.mtime == g.svc.mtime && g1.disk == g.disk
  }

  function Connection(w: World, g: Global, step: Step): S.Result
    requires step.action.Open?
  {
    var Open(_, ip, fingerprint, access, audit) := step.action;
    S.Open(w.env, g.svc, ip, fingerprint, Registry.Observe(g.disk, access).0, audit, step.at)
  }

  // An admitted session may load the configuration as it was read, and stands for an enabled device
  // of the result.
  ghost predicate Admits(g: Global, s: S.State, p: S.Phase, fingerprint: Option<string>, access: Registry.Access) {
    && (if p.Closed? then s.cfg == g.svc.cfg && s.mtime == g.svc.mtime
        else (s.cfg, s.mtime) == Registry.Reload(g.svc.cfg, g.svc.mtime, Registry.Observe(g.disk, access).0))
    && (p.Closed? ==> g.svc.active >= g.svc.cfg.settings.maxConnections)
    && !p.ResponseWait?
    && (p.HelloWait? && p.cert.Some? ==>
          && p.cert.value in s.cfg.devices && p.cert.value.enabled && fingerprint == Some(p.cert.value.fingerprint))
    && (p.HelloWait? && s.cfg.settings.requireMtls ==> p.cert.Some?)
  }

  lemma {:induction false} ConnectionAdmits(w: World, g: Global, step: Step)
    requires step.action.Open?
    ensures var r := Connection(w, g, step);
            r.note.Nothing? && Admits(g, r.state, r.phase, step.action.fingerprint, step.action.access)
  {
    var Open(_, ip, fingerprint, access, audit) := step.action;
    var reading := Registry.Observe(g.disk, access).0;
    F.OpenDevice(w.env, g.svc, ip, fingerprint, reading, audit, step.at);
    F.OpenFacts(w.env, g.svc, ip, fingerprint, reading, audit, step.at);
    if g.svc.active < g.svc.cfg.settings.maxConnections {
      F.AdmittedOpen(w.env, g.svc, ip, fingerprint, reading, audit, step.at);
    }
  }

  lemma {:induction false} ConnectionNext(w: World, g: Global, step: Step)
    requires Enabled(w, g, step) && step.action.Open?
    ensures var g1, r, sid := Next(w, g, step), Connection(w, g, step), step.action.session;
            && g1.svc == r.state && g1.sessions == g.sessions[sid := r.phase]
            && g1.trace == g.trace + Events(sid, step.action.ip, r.note, step.at)
            && g1.peers == g.peers[sid := step.action.fingerprint]
            && g1.disk == Registry.Observe(g.disk, step.action.access).1
  {
  }

  // What a connection changes: nobody else's session and nothing in the trace; the file is edited
  // meanwhile.
  lemma {:induction false} OpenStep(w: World, g: Global, step: Step)
    requires Enabled(w, g, step) && step.action.Open?
    ensures var g1 := Next(w, g, step);
            var sid := step.action.session;
            && g1.disk == Registry.Observe(g.disk, step.action.access).1 && g1.trace == g.trace
            && sid !in g.sessions && sid in g1.sessions && g1.sessions == g.sessions[sid := g1.sessions[sid]]
            && sid in g1.peers && g1.peers == g.peers[sid := step.action.fingerprint]
            && Admits(g, g1.svc, g1.sessions[sid], step.action.fingerprint, step.action.access)
  {
    ConnectionAdmits(w, g, step);
    ConnectionNext(w, g, step);
  }

  lemma {:induction false} TraceGrows(w: World, g: Global, step: Step)
    requires Enabled(w, g, step)
    ensures g.trace <= Next(w, g, step).trace && Next(w, g, step).clock == step.at
  {
    if !SessionAction(step.action) {
      SideSteps(w, g, step);
    }
  }

  lemma {:induction false} ClockRuns(w: World, g: Global, steps: seq<Step>)
    requires ValidRun(w, g, steps)
    ensures g.clock <= Run(w, g, steps).clock && g.trace <= Run(w, g, steps).trace
    decreases |steps|
  {
    if steps != [] {
      TraceGrows(w, g, steps[0]);
      ClockRuns(w, Next(w, g, steps[0]), steps[1..]);
    }
  }

  lemma {:induction false} RunFirst(w: World, g: Global, steps: seq<Step>, step: Step, rest: seq<Step>)
    requires steps == [step] + rest && Enabled(w, g, step) && ValidRun(w, Next(w, g, step), rest)
    ensures ValidRun(w, g, steps) && Run(w, g, steps) == Run(w, Next(w, g, step), rest)
  {
    assert steps[0] == step && steps[1..] == rest;
  }

  lemma {:induction false} Regroup(a: seq<Step>, b: seq<Step>)
    requires a != []
    ensures a + b == [a[0]] + (a[1..] + b)
  {
  }

  lemma {:induction false} ValidAppend(w: World, g: Global, a: seq<Step>, b: seq<Step>)
    requires ValidRun(w, g, a) && ValidRun(w, Run(w, g, a), b)
    ensures ValidRun(w, g, a + b)
    decreases |a|
  {
    if a == [] {
      assert a + b == b;
    } else {
      Regroup(a, b);
      ValidAppend(w, Next(w, g, a[0]), a[1..], b);
      RunFirst(w, g, a + b, a[0], a[1..] + b);
    }
  }

  lemma {:induction false} RunAppend(w: World, g: Global, a: seq<Step>, b: seq<Step>)
    requires ValidRun(w, g, a) && ValidRun(w, Run(w, g, a), b)
    ensures ValidRun(w, g, a + b) && Run(w, g, a + b) == Run(w, Run(w, g, a), b)
    decreases |a|
  {
    ValidAppend(w, g, a, b);
    if a == [] {
      assert a + b == b;
    } else {
      Regroup(a, b);
      ValidAppend(w, Next(w, g, a[0]), a[1..], b);
      RunAppend(w, Next(w, g, a[0]), a[1..], b);
      RunFirst(w, g, a + b, a[0], a[1..] + b);
    }
  }

  // The events that a run adds.
  ghost function NewEvents(w: World, g: Global, steps: seq<Step>): seq<Event>
    requires ValidRun(w, g, steps)
  {
    ClockRuns(w, g, steps);
    Run(w, g, steps).trace[|g.trace|..]
  }

  lemma {:induction false} NewEventsSplit(w: World, g: Global, steps: seq<Step>)
    requires ValidRun(w, g, steps) && steps != []
    ensures var g1 := Next(w, g, steps[0]);
            && g.trace <= g1.trace
            && NewEvents(w, g, steps) == g1.trace[|g.trace|..] + NewEvents(w, g1, steps[1..])
  {
    TraceGrows(w, g, steps[0]);
    ClockRuns(w, Next(w, g, steps[0]), steps[1..]);
  }
}
