/** When a running lockout lets no guess through at all. */
module Leaks {
  import opened Prelude
  import opened Protocol
  import opened StepFacts
  import opened Lockouts
  import Backoffs
  import F = ServiceFacts
  import S = Service

  // A session of the key has its challenge, and its response is still to come.
  predicate Answering(p: S.Phase, key: Key) {
    p.ResponseWait? && ArmedPhase(p, key)
  }

  ghost predicate SomeAnswering(g: Global, key: Key) {
    exists sid <- g.sessions :: Answering(g.sessions[sid], key)
  }

  // The step checks a response for the key.
  ghost predicate GuessStep(g: Global, step: Step, key: Key) {
    && step.action.Respond? && step.action.response.ResponseGiven?
    && step.action.session in g.sessions && Answering(g.sessions[step.action.session], key)
  }

  // A step adds a guess of the key exactly when it brings a response with a nonce and a signature, of
  // whatever kind, to a session of the key that waits for it.
  lemma {:induction false} GuessExactly(w: World, g: Global, step: Step, key: Key)
    requires Enabled(w, g, step)
    ensures g.trace <= Next(w, g, step).trace
    ensures Guesses(Next(w, g, step).trace[|g.trace|..], key) == if GuessStep(g, step, key) then 1 else 0
  {
    TraceGrows(w, g, step);
    match step.action
    case Respond(_, _, _) => RespondGuess(w, g, step, key);
    case Hello(_, _, _, _, _) => HelloGuess(w, g, step, key);
    case Open(_, _, _, _, _) =>
      OpenStep(w, g, step);
      assert Next(w, g, step).trace[|g.trace|..] == [];
    case Finish(sid, audit) =>
      var p := g.sessions[sid];
      F.FinishFacts(w.env, g.svc, p.ip, p.owes, audit, step.at);
      assert Next(w, g, step).trace[|g.trace|..] == [];
    case _ => OtherEffects(w, g, step, key);
  }

  lemma {:induction false} RespondGuess(w: World, g: Global, step: Step, key: Key)
    requires Enabled(w, g, step) && step.action.Respond?
    ensures var g1 := Next(w, g, step);
            g.trace <= g1.trace
            && Guesses(g1.trace[|g.trace|..], key) == if GuessStep(g, step, key) then 1 else 0
  {
    var Respond(sid, response, audit) := step.action;
    var p := g.sessions[sid];
    var r := S.OnResponse(w.env, g.svc, p.ip, p.device, response, audit, step.at);
    F.ResponseFacts(w.env, g.svc, p.ip, p.device, response, audit, step.at);
    JudgedExactly(w.env, g.svc, p.ip, p.device, response, audit, step.at);
    assert Next(w, g, step).trace == g.trace + Events(sid, p.ip, r.note, step.at);
    JudgedGuesses(sid, p.ip, p.device, r.note, step.at, key);
  }

  lemma {:induction false} JudgedExactly(env: S.Env, s: S.State, ip: string, device: S.Registry.Device,
                                         msg: S.Response, audit: S.Writes, now: real)
    ensures var r := S.OnResponse(env, s, ip, device, msg, audit, now); r.note.Judged? <==> msg.ResponseGiven?
  {
    F.ChargeFacts(env, s, ip, Some(device.id), audit, now);
  }

  lemma {:induction false} HelloGuess(w: World, g: Global, step: Step, key: Key)
    requires Enabled(w, g, step) && step.action.Hello?
    ensures var g1 := Next(w, g, step); g.trace <= g1.trace && Guesses(g1.trace[|g.trace|..], key) == 0
  {
    var Hello(sid, hello, nonce, ms, audit) := step.action;
    var p := g.sessions[sid];
    F.HelloFacts(w.env, g.svc, p.ip, p.cert, hello, nonce, ms, audit, step.at);
    var r := S.OnHello(w.env, g.svc, p.ip, p.cert, hello, nonce, ms, audit, step.at);
    var e := Events(sid, p.ip, r.note, step.at);
    assert Next(w, g, step).trace == g.trace + e;
    assert |e| == 1 ==> e[1..] == [];
  }

  // ---- a lockout that leaks ------------------------------------------------------------------

  // The lockout of the key that runs in g still runs at the end, and no success cleared it.
  ghost predicate Lasts(w: World, g: Global, steps: seq<Step>, key: Key)
    requires ValidRun(w, g, steps)
  {
    && Backoffs.Remaining(TableOf(g.svc, key), key.name, Run(w, g, steps).clock) > 0.0
    && Uncleared(NewEvents(w, g, steps), key)
  }

  // No continuation checks a response for the key while the lockout lasts.
  ghost predicate Airtight(w: World, g: Global, key: Key) {
    forall steps | ValidRun(w, g, steps) && Lasts(w, g, steps, key) :: Guesses(NewEvents(w, g, steps), key) == 0
  }

  // No continuation has a session of the key that waits for its response while the lockout lasts.
  ghost predicate NoneAnswers(w: World, g: Global, key: Key) {
    forall steps | ValidRun(w, g, steps) && Lasts(w, g, steps, key) :: !SomeAnswering(Run(w, g, steps), key)
  }

  // A response without a nonce is a guess that clears nothing.
  lemma {:induction false} EmptyGuess(w: World, g: Global, sid: nat, key: Key) returns (step: Step)
    requires sid in g.sessions && Answering(g.sessions[sid], key)
    ensures Enabled(w, g, step) && step.at == g.clock && g.trace <= Next(w, g, step).trace
    ensures var e := Next(w, g, step).trace[|g.trace|..]; Guesses(e, key) == 1 && Uncleared(e, key)
  {
    step := Step(g.clock, Respond(sid, S.ResponseGiven(None, None), S.Writes(true, true)));
    var p := g.sessions[sid];
    GuessExactly(w, g, step, key);
    var r := S.OnResponse(w.env, g.svc, p.ip, p.device, step.action.response, step.action.audit, step.at);
    assert r.note.Judged? && r.note.verdict.MalformedNonce?;
    assert Next(w, g, step).trace == g.trace + Events(sid, p.ip, r.note, step.at);
  }

  lemma {:induction false} GuessesSplit(w: World, g: Global, steps: seq<Step>, last: Step, key: Key)
    requires ValidRun(w, g, steps) && Enabled(w, Run(w, g, steps), last)
    ensures ValidRun(w, g, steps + [last]) && Run(w, g, steps + [last]) == Next(w, Run(w, g, steps), last)
    ensures var g1 := Run(w, g, steps);
            && g1.trace <= Next(w, g1, last).trace
            && NewEvents(w, g, steps + [last]) == NewEvents(w, g, steps) + Next(w, g1, last).trace[|g1.trace|..]
  {
    var g1 := Run(w, g, steps);
    assert [last][1..] == [] && ValidRun(w, Next(w, g1, last), []) && ValidRun(w, g1, [last]);
    assert Run(w, g1, [last]) == Next(w, g1, last);
    RunAppend(w, g, steps, [last]);
    TraceGrows(w, g1, last);
    ClockRuns(w, g, steps);
  }

  // A continuation with a waiting session has one with a guess.
  lemma {:induction false} AnsweringLeaks(w: World, g: Global, steps: seq<Step>, key: Key)
    requires ValidRun(w, g, steps) && Lasts(w, g, steps, key) && SomeAnswering(Run(w, g, steps), key)
    ensures !Airtight(w, g, key)
  {
    var g1 := Run(w, g, steps);
    var sid :| sid in g1.sessions && Answering(g1.sessions[sid], key);
    var step := EmptyGuess(w, g1, sid, key);
    GuessesSplit(w, g, steps, step, key);
    TraceGrows(w, g1, step);
    var e, late := NewEvents(w, g, steps), Next(w, g1, step).trace[|g1.trace|..];
    GuessesAdd(e, late, key);
    assert Lasts(w, g, steps + [step], key);
  }

  // A continuation with a guess has one that ends with a waiting session.
  lemma {:induction false} LeakAnswers(w: World, g: Global, steps: seq<Step>, key: Key, until: real) returns (n: nat)
    requires ValidRun(w, g, steps) && Guesses(NewEvents(w, g, steps), key) > 0
    requires Run(w, g, steps).clock < until && Uncleared(NewEvents(w, g, steps), key)
    ensures n <= |steps| && ValidRun(w, g, steps[..n]) && SomeAnswering(Run(w, g, steps[..n]), key)
    ensures Run(w, g, steps[..n]).clock < until && Uncleared(NewEvents(w, g, steps[..n]), key)
    decreases |steps|
  {
    n := 0;
    if steps != [] {
      var step, rest := steps[0], steps[1..];
      var g1 := Next(w, g, step);
      ClockRuns(w, g, steps);
      ClockRuns(w, g1, rest);
      NewEventsSplit(w, g, steps);
      var e, later := g1.trace[|g.trace|..], NewEvents(w, g1, rest);
      GuessesAdd(e, later, key);
      UnclearedParts(e, later, key);
      GuessExactly(w, g, step, key);
      if GuessStep(g, step, key) {
        assert steps[..0] == [] && NewEvents(w, g, []) == [];
      } else {
        var m := LeakAnswers(w, g1, rest, key, until);
        n := m + 1;
        assert steps[..n][0] == step && steps[..n][1..] == rest[..m];
        NewEventsSplit(w, g, steps[..n]);
      }
    }
  }

  // A running lockout lets no guess through exactly when none of its sessions comes to wait for a
  // response; that is so when no session was past the gate when it started, and for the lockout of a
  // device, whose gate is the last one before the challenge, only then.
  lemma {:induction false} LockoutLeaks(w: World, g: Global, key: Key)
    requires Backoffs.Remaining(TableOf(g.svc, key), key.name, g.clock) > 0.0
    ensures Airtight(w, g, key) <==> NoneAnswers(w, g, key)
    ensures Armed(g, key) == {} ==> Airtight(w, g, key)
    ensures SomeAnswering(g, key) ==> !Airtight(w, g, key)
    ensures key.Device? ==> (Airtight(w, g, key) <==> Armed(g, key) == {})
  {
    var until := TableOf(g.svc, key)[key.name].until;
    if NoneAnswers(w, g, key) {
      forall steps | ValidRun(w, g, steps) && Lasts(w, g, steps, key)
        ensures Guesses(NewEvents(w, g, steps), key) == 0
      {
        if Guesses(NewEvents(w, g, steps), key) > 0 {
          var n := LeakAnswers(w, g, steps, key, until);
          assert Lasts(w, g, steps[..n], key);
        }
      }
    } else {
      var steps :| ValidRun(w, g, steps) && Lasts(w, g, steps, key) && SomeAnswering(Run(w, g, steps), key);
      AnsweringLeaks(w, g, steps, key);
    }
    if Armed(g, key) == {} {
      forall steps | ValidRun(w, g, steps) && Lasts(w, g, steps, key)
        ensures Guesses(NewEvents(w, g, steps), key) == 0
      {
        GuessesUseUpArmed(w, g, steps, key, until);
      }
    }
    if SomeAnswering(g, key) {
      assert ValidRun(w, g, []) && NewEvents(w, g, []) == [] && Lasts(w, g, [], key);
      AnsweringLeaks(w, g, [], key);
    }
    if key.Device? && Armed(g, key) != {} {
      var sid :| sid in Armed(g, key);
      assert Answering(g.sessions[sid], key);
    }
  }
}
