/** How many guesses a lockout lets through, and how many sessions are open. */
module Lockouts {
  import opened Prelude
  import opened Protocol
  import opened StepFacts
  import Backoffs
  import S = Service
  import F = ServiceFacts

  // ---- seats ---------------------------------------------------------------------------------

  function OpenSessions(g: Global): set<nat> {
    set sid | sid in g.sessions && !g.sessions[sid].Closed?
  }

  // The counter is the number of open sessions, and never above the connection limit.
  ghost predicate Seated(g: Global) {
    g.svc.active == |OpenSessions(g)| && g.svc.active <= g.cap
  }

  // How a step of session `sid` moves the seats.
  ghost predicate SeatMoves(g: Global, g1: Global, sid: nat) {
    && sid in g1.sessions && g1.sessions == g.sessions[sid := g1.sessions[sid]]
    && g.cap <= g1.cap
    && if sid !in g.sessions
       then if g1.sessions[sid].Closed? then g1.svc.active == g.svc.active
            else g1.svc.active == g.svc.active + 1 && g1.svc.active <= g1.cap
       else !g.sessions[sid].Closed?
            && g1.svc.active == g.svc.active - (if g1.sessions[sid].Closed? then 1 else 0)
  }

  lemma {:induction false} SeatsKept(g: Global, g1: Global, sid: nat)
    requires Seated(g) && SeatMoves(g, g1, sid)
    ensures Seated(g1)
  {
    if g1.sessions[sid].Closed? {
      assert OpenSessions(g1) == OpenSessions(g) - {sid};
    } else {
      assert OpenSessions(g1) == OpenSessions(g) + {sid};
    }
  }

  // ---- the two kinds of keys -----------------------------------------------------------------

  datatype Key = Ip(name: string) | Device(name: string)

  function TableOf(s: S.State, key: Key): Backoffs.Table {
    if key.Ip? then s.ip else s.dev
  }

  // The session has passed the gate of the key, and its response is still to come.
  predicate ArmedPhase(p: S.Phase, key: Key) {
    match p
    case HelloWait(ip, _) => key == Ip(ip)
    case ResponseWait(ip, device) => key == Ip(ip) || key == Device(device.id)
    case _ => false
  }

  function Armed(g: Global, key: Key): set<nat> {
    set sid | sid in g.sessions && ArmedPhase(g.sessions[sid], key)
  }

  predicate Guess(e: Event, key: Key) {
    e.Evaluated? && (if key.Ip? then e.ip == key.name else e.device == key.name)
  }

  predicate Clears(e: Event, key: Key) {
    e.Authorized? && (if key.Ip? then e.ip == key.name else e.device == key.name)
  }

  ghost predicate Uncleared(e: seq<Event>, key: Key) {
    forall x <- e :: !Clears(x, key)
  }

  function Guesses(trace: seq<Event>, key: Key): nat {
    if trace == [] then 0 else (if Guess(trace[0], key) then 1 else 0) + Guesses(trace[1..], key)
  }

  lemma {:induction false} GuessesAdd(a: seq<Event>, b: seq<Event>, key: Key)
    ensures Guesses(a + b, key) == Guesses(a, key) + Guesses(b, key)
  {
    if a == [] {
      assert a + b == b;
    } else {
      GuessesAdd(a[1..], b, key);
      assert (a + b)[1..] == a[1..] + b;
    }
  }

  // ---- one step of one session ---------------------------------------------------------------

  // While the key is locked until `until`: the lockout stays unless the step clears it, nobody new
  // gets armed, and a guess uses up the session that makes it.
  ghost predicate Contained(g: Global, g1: Global, sid: nat, e: seq<Event>, key: Key, until: real)
    requires sid in g1.sessions
  {
    F.Held(TableOf(g.svc, key), key.name, until) ==>
      && (Uncleared(e, key) ==> F.Held(TableOf(g1.svc, key), key.name, until))
      && (ArmedPhase(g1.sessions[sid], key) ==> sid in g.sessions && ArmedPhase(g.sessions[sid], key))
      && Guesses(e, key) <= (if sid in g.sessions && ArmedPhase(g.sessions[sid], key)
                                && !ArmedPhase(g1.sessions[sid], key)
                             then 1 else 0)
  }

  // A session that goes on has charged nobody; one that is over was open before.
  ghost predicate ChargedOnlyWhenOver(g: Global, g1: Global, sid: nat)
    requires sid in g1.sessions
  {
    var p := g1.sessions[sid];
    && (p.HelloWait? || p.ResponseWait? ==> g1.svc.ip == g.svc.ip && g1.svc.dev == g.svc.dev)
    && (p.Closed? && sid !in g.sessions ==> g1.svc == g.svc)
  }

  ghost predicate SessionEffect(g: Global, g1: Global, sid: nat, key: Key, until: real) {
    && SeatMoves(g, g1, sid)
    && g.trace <= g1.trace
    && Contained(g, g1, sid, g1.trace[|g.trace|..], key, until)
    && ChargedOnlyWhenOver(g, g1, sid)
  }

  lemma {:induction false} AdmissionEffect(g: Global, g1: Global, sid: nat, ip: string, r: S.Result, at: real,
                                           key: Key, until: real)
    requires sid !in g.sessions && at < until && g.cap <= g1.cap && g.svc.cfg.settings.maxConnections <= g1.cap
    requires g1.svc == r.state && g1.sessions == g.sessions[sid := r.phase] && g1.trace == g.trace
    requires F.BothHeld(g.svc, r.state, key.name, key.name, until)
    requires if r.phase.Closed? then r.state == g.svc
             else r.state.active == g.svc.active + 1 && g.svc.active < g.svc.cfg.settings.maxConnections
    requires r.phase.HelloWait? ==>
               && r.phase.ip == ip && Backoffs.Remaining(g.svc.ip, ip, at) == 0.0
               && r.state.ip == g.svc.ip && r.state.dev == g.svc.dev
    requires !r.phase.ResponseWait?
    ensures SessionEffect(g, g1, sid, key, until)
  {
    assert g1.trace[|g.trace|..] == [];
  }

  lemma {:induction false} OpenEffect(w: World, g: Global, step: Step, key: Key, until: real)
    requires Enabled(w, g, step) && step.action.Open? && step.at < until
    ensures SessionEffect(g, Next(w, g, step), step.action.session, key, until)
  {
    var Open(sid, ip, fingerprint, access, audit) := step.action;
    var reading := S.Registry.Observe(g.disk, access).0;
    F.OpenFacts(w.env, g.svc, ip, fingerprint, reading, audit, step.at);
    F.OpenSeats(w.env, g.svc, ip, fingerprint, reading, audit, step.at, key.name, key.name, until);
    var r := S.Open(w.env, g.svc, ip, fingerprint, reading, audit, step.at);
    AdmissionEffect(g, Next(w, g, step), sid, ip, r, step.at, key, until);
  }

  lemma {:induction false} HelloEffect(w: World, g: Global, step: Step, key: Key, until: real)
    requires Enabled(w, g, step) && step.action.Hello? && step.at < until
    ensures SessionEffect(g, Next(w, g, step), step.action.session, key, until)
  {
    var Hello(sid, hello, nonce, ms, audit) := step.action;
    var p := g.sessions[sid];
    F.HelloFacts(w.env, g.svc, p.ip, p.cert, hello, nonce, ms, audit, step.at);
    F.HelloSeats(w.env, g.svc, p.ip, p.cert, hello, nonce, ms, audit, step.at, key.name, key.name, until);
    var r := S.OnHello(w.env, g.svc, p.ip, p.cert, hello, nonce, ms, audit, step.at);
    var e := Events(sid, p.ip, r.note, step.at);
    assert Next(w, g, step).trace == g.trace + e;
    assert Guesses(e, key) == 0;
  }

  lemma {:induction false} RespondEffect(w: World, g: Global, step: Step, key: Key, until: real)
    requires Enabled(w, g, step) && step.action.Respond? && step.at < until
    ensures SessionEffect(g, Next(w, g, step), step.action.session, key, until)
  {
    var Respond(sid, response, audit) := step.action;
    var p := g.sessions[sid];
    var r := S.OnResponse(w.env, g.svc, p.ip, p.device, response, audit, step.at);
    F.ResponseFacts(w.env, g.svc, p.ip, p.device, response, audit, step.at);
    F.ResponseSeats(w.env, g.svc, p.ip, p.device, response, audit, step.at, key.name, key.name, until);
    var e := Events(sid, p.ip, r.note, step.at);
    assert Next(w, g, step).trace == g.trace + e;
    JudgedGuesses(sid, p.ip, p.device, r.note, step.at, key);
  }

  // Judging a response is one guess, at the IP and the device of its session.
  lemma {:induction false} JudgedGuesses(sid: nat, ip: string, device: S.Registry.Device, note: S.Note, at: real,
                                         key: Key)
    requires note.Nothing? || (note.Judged? && note.sender == device)
    ensures var e := Events(sid, ip, note, at);
            && Guesses(e, key) == (if note.Judged? && (key == Ip(ip) || key == Device(device.id)) then 1 else 0)
            && (F.Accepts(note) && (key == Ip(ip) || key == Device(device.id)) ==> exists x <- e :: Clears(x, key))
  {
    var e := Events(sid, ip, note, at);
    if note.Judged? {
      if |e| == 1 {
        assert e[1..] == [];
      } else {
        assert e[1..] == [e[1]] && [e[1]][1..] == [] && e[1] in e;
        assert e[1].Authorized? && Guesses([e[1]], key) == 0;
      }
    }
  }

  lemma {:induction false} FinishEffect(w: World, g: Global, step: Step, key: Key, until: real)
    requires Enabled(w, g, step) && step.action.Finish? && step.at < until
    ensures SessionEffect(g, Next(w, g, step), step.action.session, key, until)
  {
    var Finish(sid, audit) := step.action;
    var p := g.sessions[sid];
    F.FinishFacts(w.env, g.svc, p.ip, p.owes, audit, step.at);
    F.FinishSeats(w.env, g.svc, p.ip, p.owes, audit, step.at, key.name, key.name, until);
    assert Next(w, g, step).trace == g.trace + [];
  }

  lemma {:induction false} SessionEffects(w: World, g: Global, step: Step, key: Key, until: real)
    requires Enabled(w, g, step) && SessionAction(step.action) && step.at < until
    ensures SessionEffect(g, Next(w, g, step), step.action.session, key, until)
  {
    match step.action
    case Open(_, _, _, _, _) => OpenEffect(w, g, step, key, until);
    case Hello(_, _, _, _, _) => HelloEffect(w, g, step, key, until);
    case Respond(_, _, _) => RespondEffect(w, g, step, key, until);
    case Finish(_, _) => FinishEffect(w, g, step, key, until);
  }

  // All other steps.
  ghost predicate Idle(g: Global, g1: Global, key: Key) {
    && g1.sessions == g.sessions && g1.svc.ip == g.svc.ip && g1.svc.dev == g.svc.dev
    && g1.svc.active == g.svc.active && g1.cap == g.cap && g.trace <= g1.trace
    && Guesses(g1.trace[|g.trace|..], key) == 0
    && Uncleared(g1.trace[|g.trace|..], key)
  }

  lemma {:induction false} IdleTrace(g: Global, g1: Global, key: Key, e: seq<Event>)
    requires g1.trace == g.trace + e && |e| <= 1
    requires forall x <- e :: x.Consumed? || x.Yes? || x.Signed?
    ensures g.trace <= g1.trace && g1.trace[|g.trace|..] == e
    ensures Guesses(e, key) == 0 && Uncleared(e, key)
  {
    assert |e| == 1 ==> e[0] in e && e[1..] == [];
  }

  lemma {:induction false} OtherEffects(w: World, g: Global, step: Step, key: Key)
    requires Enabled(w, g, step) && !SessionAction(step.action)
    ensures Idle(g, Next(w, g, step), key)
  {
    var g1 := Next(w, g, step);
    SideSteps(w, g, step);
    if g1.trace == g.trace {
      assert g1.trace[|g.trace|..] == [];
    } else {
      var e: Event :| Minor(e) && g1.trace == g.trace + [e];
      IdleTrace(g, g1, key, [e]);
    }
  }

  // ---- runs ----------------------------------------------------------------------------------

  lemma {:induction false} SeatedStep(w: World, g: Global, step: Step)
    requires Seated(g) && Enabled(w, g, step)
    ensures Seated(Next(w, g, step))
  {
    if SessionAction(step.action) {
      SessionEffects(w, g, step, Ip(""), step.at + 1.0);
      SeatsKept(g, Next(w, g, step), step.action.session);
    } else {
      OtherEffects(w, g, step, Ip(""));
    }
  }

  lemma {:induction false} SeatedRun(w: World, g: Global, steps: seq<Step>)
    requires Seated(g) && ValidRun(w, g, steps)
    ensures Seated(Run(w, g, steps))
    decreases |steps|
  {
    if steps != [] {
      SeatedStep(w, g, steps[0]);
      SeatedRun(w, Next(w, g, steps[0]), steps[1..]);
    }
  }

  // In every run the connection counter is the number of open sessions and stays within the limit.
  lemma {:induction false} ActiveCountsSessions(w: World, cfg: S.Registry.Data, steps: seq<Step>)
    requires ValidRun(w, Init(cfg), steps)
    ensures var g := Run(w, Init(cfg), steps); g.svc.active == |OpenSessions(g)| <= g.cap
  {
    assert OpenSessions(Init(cfg)) == {};
    SeatedRun(w, Init(cfg), steps);
  }

  // ---- guesses during a lockout --------------------------------------------------------------

  lemma {:induction false} ArmedMoves(g: Global, g1: Global, sid: nat, key: Key)
    requires sid in g1.sessions && g1.sessions == g.sessions[sid := g1.sessions[sid]]
    ensures Armed(g1, key) == if ArmedPhase(g1.sessions[sid], key) then Armed(g, key) + {sid} else Armed(g, key) - {sid}
  {
  }

  lemma {:induction false} Shrinks(g: Global, g1: Global, sid: nat, e: seq<Event>, key: Key, until: real)
    requires sid in g1.sessions && SeatMoves(g, g1, sid) && Contained(g, g1, sid, e, key, until)
    requires F.Held(TableOf(g.svc, key), key.name, until)
    ensures Guesses(e, key) + |Armed(g1, key)| <= |Armed(g, key)|
  {
    ArmedMoves(g, g1, sid, key);
    assert sid in Armed(g, key) <==> sid in g.sessions && ArmedPhase(g.sessions[sid], key);
  }

  lemma {:induction false} StepGuesses(w: World, g: Global, step: Step, key: Key, until: real)
    requires Enabled(w, g, step) && step.at < until
    requires F.Held(TableOf(g.svc, key), key.name, until)
    ensures var g1 := Next(w, g, step);
            && g.trace <= g1.trace
            && Guesses(g1.trace[|g.trace|..], key) + |Armed(g1, key)| <= |Armed(g, key)|
            && (Uncleared(g1.trace[|g.trace|..], key) ==> F.Held(TableOf(g1.svc, key), key.name, until))
  {
    var g1 := Next(w, g, step);
    if SessionAction(step.action) {
      SessionEffects(w, g, step, key, until);
      Shrinks(g, g1, step.action.session, g1.trace[|g.trace|..], key, until);
    } else {
      OtherEffects(w, g, step, key);
      assert Armed(g1, key) == Armed(g, key);
    }
  }

  lemma {:induction false} UnclearedParts(a: seq<Event>, b: seq<Event>, key: Key)
    requires Uncleared(a + b, key)
    ensures Uncleared(a, key) && Uncleared(b, key)
  {
    assert forall x <- a :: x in a + b;
    assert forall x <- b :: x in a + b;
  }

  // While the lockout lasts, every guess uses up a session that had passed the gate before.
  lemma {:induction false} GuessesUseUpArmed(w: World, g: Global, steps: seq<Step>, key: Key, until: real)
    requires ValidRun(w, g, steps)
    requires F.Held(TableOf(g.svc, key), key.name, until) && Run(w, g, steps).clock < until
    requires Uncleared(NewEvents(w, g, steps), key)
    ensures Guesses(NewEvents(w, g, steps), key) + |Armed(Run(w, g, steps), key)| <= |Armed(g, key)|
    decreases |steps|
  {
    if steps != [] {
      var step, rest := steps[0], steps[1..];
      var g1 := Next(w, g, step);
      ClockRuns(w, g1, rest);
      TraceGrows(w, g, step);
      NewEventsSplit(w, g, steps);
      var e, later := g1.trace[|g.trace|..], NewEvents(w, g1, rest);
      UnclearedParts(e, later, key);
      StepGuesses(w, g, step, key, until);
      GuessesAdd(e, later, key);
      GuessesUseUpArmed(w, g1, rest, key, until);
    } else {
      assert NewEvents(w, g, steps) == [];
    }
  }

  lemma {:induction false} SessionFewArmed(g: Global, g1: Global, sid: nat, key: Key, at: real)
    requires Seated(g) && SessionEffect(g, g1, sid, key, at + 1.0)
    requires Backoffs.Remaining(TableOf(g.svc, key), key.name, at) == 0.0
    requires Backoffs.Remaining(TableOf(g1.svc, key), key.name, at) > 0.0
    ensures |Armed(g1, key)| < g1.cap
  {
    SeatsKept(g, g1, sid);
    assert sid !in Armed(g1, key);
    if g1.sessions[sid].Closed? {
      assert sid in OpenSessions(g) && OpenSessions(g1) == OpenSessions(g) - {sid};
      SubsetSize(Armed(g1, key), OpenSessions(g1));
    } else {
      assert sid in OpenSessions(g1);
      SubsetSize(Armed(g1, key), OpenSessions(g1) - {sid});
    }
  }

  lemma {:induction false} SideTables(w: World, g: Global, step: Step, key: Key)
    requires Enabled(w, g, step) && !SessionAction(step.action)
    ensures TableOf(Next(w, g, step).svc, key) == TableOf(g.svc, key)
  {
    SideSteps(w, g, step);
  }

  // The step that starts a lockout leaves fewer sessions past its gate than connections are allowed.
  lemma {:induction false} FewArmed(w: World, g: Global, step: Step, key: Key)
    requires Seated(g) && Enabled(w, g, step)
    requires Backoffs.Remaining(TableOf(g.svc, key), key.name, step.at) == 0.0
    requires Backoffs.Remaining(TableOf(Next(w, g, step).svc, key), key.name, step.at) > 0.0
    ensures |Armed(Next(w, g, step), key)| < Next(w, g, step).cap
  {
    var g1 := Next(w, g, step);
    if SessionAction(step.action) {
      SessionEffects(w, g, step, key, step.at + 1.0);
      SessionFewArmed(g, g1, step.action.session, key, step.at);
    } else {
      SideTables(w, g, step, key);
    }
  }

  // From the start of a lockout of an IP or of a device until it expires or a success clears it,
  // fewer responses are checked for that key than connections are allowed: only sessions that were
  // already past the gate can still guess, once each, and the one that started the lockout is not
  // among them.
  lemma {:induction false} GuessesDuringLockout(w: World, cfg: S.Registry.Data, before: seq<Step>, step: Step,
                                                after: seq<Step>, key: Key)
    requires ValidRun(w, Init(cfg), before)
    requires Enabled(w, Run(w, Init(cfg), before), step)
    requires ValidRun(w, Next(w, Run(w, Init(cfg), before), step), after)
    requires var g := Run(w, Init(cfg), before);
             var g1 := Next(w, g, step);
             && Backoffs.Remaining(TableOf(g.svc, key), key.name, step.at) == 0.0
             && Backoffs.Remaining(TableOf(g1.svc, key), key.name, step.at) > 0.0
             && Backoffs.Remaining(TableOf(g1.svc, key), key.name, Run(w, g1, after).clock) > 0.0
             && Uncleared(NewEvents(w, g1, after), key)
    ensures var g1 := Next(w, Run(w, Init(cfg), before), step);
            Guesses(NewEvents(w, g1, after), key) < g1.cap
  {
    var g := Run(w, Init(cfg), before);
    var g1 := Next(w, g, step);
    assert OpenSessions(Init(cfg)) == {};
    SeatedRun(w, Init(cfg), before);
    FewArmed(w, g, step, key);
    GuessesUseUpArmed(w, g1, after, key, TableOf(g1.svc, key)[key.name].until);
  }
}
