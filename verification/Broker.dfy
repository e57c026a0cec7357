/** listener.py, class GrantBroker: one slot for a single-use grant, and the coroutines waiting for it.

    `consume` is cut at its await. A coroutine suspended there is Scheduled until `Event.wait` has
    begun (older interpreters start it as a task of its own), Blocked once it is queued on the
    event, and Woken once the event released it but it has not run again yet. */
module Broker {
  datatype Phase = Scheduled | Blocked | Woken

  // `loops` counts the passes this consumer made through `while True`, `issues` the grants issued
  // since it called `consume`; both are history and no decision reads them.
  datatype Waiter = Waiter(phase: Phase, deadline: real, loops: nat, issues: nat)

  datatype State = State(expires: real, event: bool, waiting: map<nat, Waiter>)

  datatype Turn = Granted | Refused | Suspended

  const IDLE := State(0.0, false, map[])

  function WakeUp(w: Waiter): Waiter {
    w.(phase := if w.phase == Blocked then Woken else w.phase, issues := w.issues + 1)
  }

  function Issue(s: State, ttl: real, now: real): State {
    State(now + ttl, true, map id | id in s.waiting :: WakeUp(s.waiting[id]))
  }

  // One pass through the loop of `consume`, from reading the clock to returning or suspending.
  function Pass(s: State, id: nat, w: Waiter, now: real): (State, Turn) {
    if s.expires > now then (State(0.0, false, s.waiting - {id}), Granted)
    else if w.deadline - now <= 0.0 then (s.(waiting := s.waiting - {id}), Refused)
    else (State(s.expires, false, s.waiting[id := w.(phase := Scheduled, loops := w.loops + 1)]), Suspended)
  }

  function Enter(s: State, id: nat, timeout: real, now: real): (State, Turn) {
    Pass(s, id, Waiter(Scheduled, now + timeout, 0, 0), now)
  }

  // `Event.wait` begins: it returns at once when the event is set, and queues otherwise.
  function Begin(s: State, id: nat): State
    requires id in s.waiting
  {
    s.(waiting := s.waiting[id := s.waiting[id].(phase := if s.event then Woken else Blocked)])
  }

  function Resume(s: State, id: nat, now: real): (State, Turn)
    requires id in s.waiting
  {
    Pass(s, id, s.waiting[id], now)
  }

  function Expire(s: State, id: nat): State {
    s.(waiting := s.waiting - {id})
  }

  // ---- the invariant -------------------------------------------------------------------------

  predicate Live(s: State, now: real) {
    s.expires > now
  }

  // Each pass after the first was paid for by a grant issued while the consumer was waiting.
  predicate Paid(event: bool, w: Waiter) {
    match w.phase
    case Scheduled => w.loops <= w.issues + 1 && (event ==> w.loops <= w.issues)
    case Blocked => w.loops <= w.issues + 1
    case Woken => w.loops <= w.issues
  }

  ghost predicate Awake(s: State, now: real) {
    && (Live(s, now) ==> s.event)
    && (s.event ==> forall id <- s.waiting :: s.waiting[id].phase != Blocked)
    && (forall id <- s.waiting :: Paid(s.event, s.waiting[id]))
  }

  // No lost wakeup: while a grant can be claimed the event is set and nobody sleeps on it, and a
  // consumer has gone through its loop at most once more than grants were issued during its wait.
  lemma {:induction false} NoLostWakeup(s: State, now: real, id: nat)
    requires Awake(s, now) && id in s.waiting
    ensures Live(s, now) ==> s.event && s.waiting[id].phase != Blocked
    ensures s.waiting[id].loops <= 1 + s.waiting[id].issues
  {
  }

  lemma {:induction false} AwakeLater(s: State, before: real, now: real)
    requires Awake(s, before) && before <= now
    ensures Awake(s, now)
  {
  }

  lemma {:induction false} IssueKeepsAwake(s: State, ttl: real, now: real)
    requires Awake(s, now)
    ensures Awake(Issue(s, ttl, now), now)
  {
    var s1 := Issue(s, ttl, now);
    forall id <- s1.waiting
      ensures s1.waiting[id].phase != Blocked && Paid(true, s1.waiting[id])
    {
      assert Paid(s.event, s.waiting[id]);
    }
  }

  // A pass hands out at most the one live grant, and leaves none behind when it does; the event is
  // cleared unless it refuses.
  lemma {:induction false} PassKeepsAwake(s: State, id: nat, w: Waiter, now: real)
    requires Awake(s, now) && 0.0 <= now
    requires w.loops <= w.issues
    ensures var (s1, turn) := Pass(s, id, w, now);
            && Awake(s1, now)
            && (turn == Granted <==> Live(s, now))
            && (turn == Granted ==> forall later | now <= later :: !Live(s1, later))
            && (turn == Suspended <==> id in s1.waiting && !Live(s, now) && now < w.deadline)
            && (s1.event <==> s.event && turn == Refused)
  {
    var (s1, turn) := Pass(s, id, w, now);
    forall i <- s1.waiting
      ensures Paid(s1.event, s1.waiting[i])
    {
      if i != id {
        assert Paid(s.event, s.waiting[i]);
      }
    }
  }

  lemma {:induction false} BeginKeepsAwake(s: State, id: nat, now: real)
    requires Awake(s, now) && id in s.waiting && s.waiting[id].phase == Scheduled
    ensures Awake(Begin(s, id), now)
  {
    assert Paid(s.event, s.waiting[id]);
  }

  lemma {:induction false} ExpireKeepsAwake(s: State, id: nat, now: real)
    requires Awake(s, now)
    ensures Awake(Expire(s, id), now)
  {
  }

  // ---- the class -----------------------------------------------------------------------------

  class GrantBroker {
    const ttl: real
    var expires: real
    var event: bool
    var waiting: map<nat, Waiter>

    ghost function View(): State
      reads this
    {
      State(expires, event, waiting)
    }

    constructor (ttl: real)
      ensures this.ttl == ttl && View() == IDLE
    {
      this.ttl := ttl;
      expires, event, waiting := 0.0, false, map[];
    }

    method IssueGrant(now: real)
      modifies this
      ensures View() == Issue(old(View()), ttl, now)
    {
      expires := now + ttl;
      event := true;
      waiting := map id | id in waiting :: WakeUp(waiting[id]);
    }

    method LoopOnce(id: nat, w: Waiter, now: real) returns (turn: Turn)
      modifies this
      ensures (View(), turn) == Pass(old(View()), id, w, now)
    {
      if expires > now {
        expires := 0.0;
        event := false;
        waiting := waiting - {id};
        return Granted;
      }
      var remaining := w.deadline - now;
      if remaining <= 0.0 {
        waiting := waiting - {id};
        return Refused;
      }
      event := false;
      waiting := waiting[id := w.(phase := Scheduled, loops := w.loops + 1)];
      return Suspended;
    }

    method Consume(id: nat, timeout: real, now: real) returns (turn: Turn)
      modifies this
      ensures (View(), turn) == Enter(old(View()), id, timeout, now)
    {
      turn := LoopOnce(id, Waiter(Scheduled, now + timeout, 0, 0), now);
    }

    method WaitBegins(id: nat)
      requires id in waiting
      modifies this
      ensures View() == Begin(old(View()), id)
    {
      waiting := waiting[id := waiting[id].(phase := if event then Woken else Blocked)];
    }

    method WaitReturns(id: nat, now: real) returns (turn: Turn)
      requires id in waiting
      modifies this
      ensures (View(), turn) == Resume(old(View()), id, now)
    {
      turn := LoopOnce(id, waiting[id], now);
    }

    method WaitTimesOut(id: nat)
      modifies this
      ensures View() == Expire(old(View()), id)
    {
      waiting := waiting - {id};
    }
  }
}
