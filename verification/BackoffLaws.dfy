/** What the lockout table promises over every sequence of calls. */
module BackoffLaws {
  import opened Prelude
  import opened Backoffs

  datatype Op = Failure(key: string, at: real) | Success(key: string, at: real) | Ask(key: string, at: real)

  datatype Out = Started(lockout: bool) | Left(seconds: real) | Cleared

  // The table and the answer after one call, with or without pruning.
  function Call(p: Params, prune: bool, t: Table, op: Op): (Table, Out) {
    match op
    case Failure(k, at) =>
      var (t1, s) := if prune then Fail(p, t, k, at) else FailUnpruned(p, t, k, at);
      (t1, Started(s))
    case Success(k, _) => (Succeed(t, k), Cleared)
    case Ask(k, at) => (t, Left(Remaining(t, k, at)))
  }

  // The table after a whole call sequence that started from table t0.
  function After(p: Params, prune: bool, t0: Table, ops: seq<Op>): Table {
    if ops == [] then t0 else Call(p, prune, After(p, prune, t0, ops[..|ops| - 1]), ops[|ops| - 1]).0
  }

  // What the last call of a nonempty sequence answers.
  function Answer(p: Params, prune: bool, t0: Table, ops: seq<Op>): Out
    requires ops != []
  {
    Call(p, prune, After(p, prune, t0, ops[..|ops| - 1]), ops[|ops| - 1]).1
  }

  ghost predicate Clocked(ops: seq<Op>) {
    && (forall i | 0 <= i < |ops| :: 0.0 <= ops[i].at)
    && (forall i, j | 0 <= i <= j < |ops| :: ops[i].at <= ops[j].at)
  }

  function Now(ops: seq<Op>): real {
    if ops == [] then 0.0 else ops[|ops| - 1].at
  }

  // ---- pruning is invisible ------------------------------------------------------------------

  // Two entries that no later call can tell apart: all but an already expired `until` agree.
  predicate Alike(a: Entry, b: Entry, now: real) {
    && a.fails == b.fails && a.level == b.level && a.last == b.last
    && (a.until == b.until || (a.until <= now && b.until <= now))
  }

  // The pruned table against the unpruned one.
  ghost predicate Bisimilar(p: Params, pruned: Table, full: Table, now: real) {
    && pruned.Keys <= full.Keys
    && (forall k <- pruned :: Alike(pruned[k], full[k], now))
    && (forall k <- full :: k !in pruned ==> Stale(p, full[k], now))
  }

  lemma {:induction false} FailEntryAlike(p: Params, a: Entry, b: Entry, before: real, now: real)
    requires Alike(a, b, before) && before <= now
    ensures Alike(FailEntry(p, a, now).0, FailEntry(p, b, now).0, now)
    ensures FailEntry(p, a, now).1 == FailEntry(p, b, now).1
  {
  }

  // A key that was pruned and comes back behaves as the quietly reset key that was kept.
  lemma {:induction false} FreshAlikeStale(p: Params, b: Entry, now: real)
    requires Stale(p, b, now) && 0.0 <= now
    ensures Alike(FailEntry(p, Entry(0, 0, 0.0, now), now).0, FailEntry(p, b, now).0, now)
    ensures FailEntry(p, Entry(0, 0, 0.0, now), now).1 == FailEntry(p, b, now).1
  {
  }

  lemma {:induction false} BisimilarLater(p: Params, pruned: Table, full: Table, before: real, now: real)
    requires Bisimilar(p, pruned, full, before) && before <= now
    ensures Bisimilar(p, pruned, full, now)
  {
  }

  lemma {:induction false} BisimilarFail(p: Params, pruned: Table, full: Table, key: string, now: real)
    requires Bisimilar(p, pruned, full, now) && 0.0 <= now
    ensures Bisimilar(p, Fail(p, pruned, key, now).0, FailUnpruned(p, full, key, now).0, now)
    ensures Fail(p, pruned, key, now).1 == FailUnpruned(p, full, key, now).1
  {
    if key in pruned {
      FailEntryAlike(p, pruned[key], full[key], now, now);
    } else if key in full {
      FreshAlikeStale(p, full[key], now);
    }
    var t1 := FailUnpruned(p, pruned, key, now).0;
    assert Bisimilar(p, t1, FailUnpruned(p, full, key, now).0, now);
  }

  lemma {:induction false} BisimilarRun(p: Params, t0: Table, ops: seq<Op>)
    requires Clocked(ops)
    ensures Bisimilar(p, After(p, true, t0, ops), After(p, false, t0, ops), Now(ops))
    ensures ops != [] ==> Answer(p, true, t0, ops) == Answer(p, false, t0, ops)
  {
    if ops != [] {
      var init, op := ops[..|ops| - 1], ops[|ops| - 1];
      BisimilarRun(p, t0, init);
      BisimilarLater(p, After(p, true, t0, init), After(p, false, t0, init), Now(init), op.at);
      if op.Failure? {
        BisimilarFail(p, After(p, true, t0, init), After(p, false, t0, init), op.key, op.at);
      }
    }
  }

  // Pruning is invisible: every call of every sequence answers as if the table were never pruned,
  // and so does any question asked about any key at any later moment.
  lemma {:induction false} PruningInvisible(p: Params, t0: Table, ops: seq<Op>)
    requires Clocked(ops)
    ensures forall n | 0 < n <= |ops| :: Answer(p, true, t0, ops[..n]) == Answer(p, false, t0, ops[..n])
    ensures forall key, at | Now(ops) <= at ::
              Remaining(After(p, true, t0, ops), key, at) == Remaining(After(p, false, t0, ops), key, at)
  {
    forall n | 0 < n <= |ops|
      ensures Answer(p, true, t0, ops[..n]) == Answer(p, false, t0, ops[..n])
    {
      BisimilarRun(p, t0, ops[..n]);
    }
    BisimilarRun(p, t0, ops);
  }

  // ---- state invariant and isolation of keys -------------------------------------------------

  function Threshold(p: Params): int {
    if p.threshold < 1 then 1 else p.threshold
  }

  ghost predicate Sound(p: Params, t: Table, now: real) {
    forall k <- t ::
      0 <= t[k].fails < Threshold(p) && t[k].until <= t[k].last + p.maximum && t[k].last <= now
  }

  lemma {:induction false} SoundFail(p: Params, t: Table, before: real, key: string, now: real)
    requires 0.0 <= p.maximum && Sound(p, t, before) && before <= now && 0.0 <= now
    ensures Sound(p, Fail(p, t, key, now).0, now)
  {
    var e := EntryOrFresh(t, key, now);
    var e1 := FailEntry(p, e, now).0;
    assert 0 <= e.fails < Threshold(p) && e.until <= e.last + p.maximum;
    assert 0 <= e1.fails < Threshold(p) && e1.until <= e1.last + p.maximum && e1.last == now;
    assert Sound(p, t[key := e1], now);
  }

  lemma {:induction false} SoundRun(p: Params, t0: Table, start: real, ops: seq<Op>)
    requires Clocked(ops) && 0.0 <= p.maximum
    requires Sound(p, t0, start) && (ops != [] ==> start <= ops[0].at)
    ensures Sound(p, After(p, true, t0, ops), if ops == [] then start else Now(ops))
  {
    if ops != [] {
      var init, op := ops[..|ops| - 1], ops[|ops| - 1];
      SoundRun(p, t0, start, init);
      if op.Failure? {
        SoundFail(p, After(p, true, t0, init), if init == [] then start else Now(init), op.key, op.at);
      }
    }
  }

  // In every run of the service's tables, no key is ever locked for longer than the maximum.
  lemma {:induction false} LockoutsBounded(p: Params, ops: seq<Op>, key: string, at: real)
    requires Clocked(ops) && 0.0 <= p.maximum && Now(ops) <= at
    ensures 0.0 <= Remaining(After(p, true, map[], ops), key, at) <= p.maximum
  {
    SoundRun(p, map[], 0.0, ops);
  }

  // A call about one key leaves every other key's remaining lockout as it was.
  lemma {:induction false} KeysIsolated(p: Params, t: Table, op: Op, other: string, at: real)
    requires other != op.key && op.at <= at
    ensures Remaining(Call(p, true, t, op).0, other, at) == Remaining(t, other, at)
  {
    if op.Failure? {
      var t1 := FailUnpruned(p, t, op.key, op.at).0;
      assert Remaining(t1, other, at) == Remaining(t, other, at);
    }
  }

  // ---- the time budget -----------------------------------------------------------------------

  // Moments at which a failure of the key was answered with "this started a lockout".
  function LockStarts(p: Params, t0: Table, ops: seq<Op>, key: string): seq<real> {
    if ops == [] then [] else
    var op := ops[|ops| - 1];
    LockStarts(p, t0, ops[..|ops| - 1], key)
    + if op.Failure? && op.key == key && Answer(p, true, t0, ops) == Started(true) then [op.at] else []
  }

  // Failures of the key that were counted, that is, made while the key was not locked.
  function Counted(p: Params, t0: Table, ops: seq<Op>, key: string): nat {
    if ops == [] then 0 else
    var init, op := ops[..|ops| - 1], ops[|ops| - 1];
    Counted(p, t0, init, key)
    + if op.Failure? && op.key == key && Remaining(After(p, true, t0, init), key, op.at) == 0.0 then 1 else 0
  }

  // When the key fails for the first time in the stretch.
  function FirstFailure(ops: seq<Op>, key: string): Option<real> {
    if ops == [] then None else
    var first, op := FirstFailure(ops[..|ops| - 1], key), ops[|ops| - 1];
    if first.None? && op.Failure? && op.key == key then Some(op.at) else first
  }

  // When it failed last.
  function LastFailure(ops: seq<Op>, key: string): Option<real> {
    if ops == [] then None else
    var op := ops[|ops| - 1];
    if op.Failure? && op.key == key then Some(op.at) else LastFailure(ops[..|ops| - 1], key)
  }

  // More than the quiet time after the last failure, and with its lockout over.
  predicate Lapsed(p: Params, last: real, end: real, at: real) {
    last + p.quietReset < at && end <= at
  }

  // The entry without its history, if that has lapsed.
  function Refreshed(p: Params, e: Entry, at: real): Entry {
    if Lapsed(p, e.last, e.until, at) then e.(fails := 0, level := 0) else e
  }

  // What the stretch starts from: the entry as its first failure takes it.
  function Origin(p: Params, t0: Table, ops: seq<Op>, key: string): Entry {
    var first := FirstFailure(ops, key);
    var e := EntryOrFresh(t0, key, first.GetOr(0.0));
    if first.Some? then Refreshed(p, e, first.value) else e
  }

  // Lockouts of consecutive levels, none of which starts before the one before is over.
  ghost predicate Spaced(p: Params, o: Entry, starts: seq<real>) {
    && (starts != [] ==> o.until <= starts[0])
    && forall i | 0 < i < |starts| :: starts[i - 1] + Duration(p, o.level + i - 1) <= starts[i]
  }

  // When the last lockout is over.
  function LockoutEnd(p: Params, o: Entry, starts: seq<real>): real {
    if starts == [] then o.until else starts[|starts| - 1] + Duration(p, o.level + |starts| - 1)
  }

  // What an entry owes to its origin and to the lockouts started and the failures counted since.
  ghost predicate Ledger(p: Params, o: Entry, starts: seq<real>, counted: int, e: Entry) {
    && Spaced(p, o, starts)
    && e.level == o.level + |starts|
    && o.fails + counted == Threshold(p) * |starts| + e.fails
    && 0 <= o.fails && 0 <= e.fails < Threshold(p)
    && e.until == LockoutEnd(p, o, starts)
  }

  // When the last lockout of the stretch is over, or the one that it starts from.
  function EndOf(p: Params, t0: Table, ops: seq<Op>, key: string): real {
    LockoutEnd(p, Origin(p, t0, ops, key), LockStarts(p, t0, ops, key))
  }

  // The stretch holds no success of the key, and no failure of it but the first comes more than the
  // quiet time after the one before, unless the lockout is still running. The first may come as late
  // as it likes: then the stretch begins with it.
  ghost predicate Unrelieved(p: Params, t0: Table, ops: seq<Op>, key: string) {
    ops == [] ||
      var init, op := ops[..|ops| - 1], ops[|ops| - 1];
      var last := LastFailure(init, key);
      && Unrelieved(p, t0, init, key)
      && (op.key == key ==> !op.Success?)
      && (op.key == key && op.Failure? && last.Some? ==> !Lapsed(p, last.value, EndOf(p, t0, init, key), op.at))
  }

  ghost predicate SoundAt(p: Params, t: Table, key: string) {
    key in t ==> 0 <= t[key].fails < Threshold(p)
  }

  ghost predicate Budget(p: Params, t0: Table, ops: seq<Op>, key: string) {
    var t, starts, counted := After(p, false, t0, ops), LockStarts(p, t0, ops, key), Counted(p, t0, ops, key);
    if FirstFailure(ops, key).Some? then
      && key in t && Ledger(p, Origin(p, t0, ops, key), starts, counted, t[key])
      && LastFailure(ops, key) == Some(t[key].last)
    else
      && LastFailure(ops, key) == None && starts == [] && counted == 0
      && (key in t <==> key in t0) && (key in t ==> t[key] == t0[key])
  }

  lemma {:induction false} LedgerStep(p: Params, o: Entry, starts: seq<real>, counted: int, e: Entry, at: real)
    requires Ledger(p, o, starts, counted, e)
    requires Lapsed(p, e.last, e.until, at) ==> e.fails == 0 && e.level == 0
    ensures var (e1, started) := FailEntry(p, e, at);
            Ledger(p, o, if started then starts + [at] else starts, if at >= e.until then counted + 1 else counted, e1)
  {
    var th, n := Threshold(p), |starts|;
    assert th * (n + 1) == th * n + th;
  }

  lemma {:induction false} RefreshedFails(p: Params, e: Entry, at: real)
    ensures FailEntry(p, Refreshed(p, e, at), at) == FailEntry(p, e, at)
  {
  }

  lemma {:induction false} BudgetRun(p: Params, t0: Table, ops: seq<Op>, key: string)
    requires Clocked(ops) && SoundAt(p, t0, key) && Unrelieved(p, t0, ops, key)
    ensures Budget(p, t0, ops, key)
  {
    if ops != [] {
      var n := |ops| - 1;
      var init, op := ops[..n], ops[n];
      BudgetRun(p, t0, init, key);
      if op.Failure? && op.key == key {
        BisimilarRun(p, t0, init);
        BisimilarRun(p, t0, ops);
        var e := LedgerBefore(p, t0, ops, key);
        AfterFailure(p, t0, ops, key);
        BudgetStep(p, t0, ops, key, e);
      } else {
        BudgetStays(p, t0, ops, key);
      }
    }
  }

  // A call that is no failure of the key, nor a success of it, leaves its budget alone.
  lemma {:induction false} BudgetStays(p: Params, t0: Table, ops: seq<Op>, key: string)
    requires ops != [] && Budget(p, t0, ops[..|ops| - 1], key)
    requires ops[|ops| - 1].key == key ==> ops[|ops| - 1].Ask?
    ensures Budget(p, t0, ops, key)
  {
    var init := ops[..|ops| - 1];
    assert LockStarts(p, t0, ops, key) == LockStarts(p, t0, init, key);
    assert FirstFailure(ops, key) == FirstFailure(init, key) && LastFailure(ops, key) == LastFailure(init, key);
  }

  // A stretch that has failed before keeps its origin; one that has not starts from what it finds.
  lemma {:induction false} OriginStays(p: Params, t0: Table, ops: seq<Op>, key: string)
    requires ops != [] && FirstFailure(ops[..|ops| - 1], key).Some?
    ensures Origin(p, t0, ops, key) == Origin(p, t0, ops[..|ops| - 1], key)
  {
    assert FirstFailure(ops, key) == FirstFailure(ops[..|ops| - 1], key);
  }

  lemma {:induction false} OriginStarts(p: Params, t0: Table, ops: seq<Op>, key: string)
    requires ops != [] && FirstFailure(ops[..|ops| - 1], key).None?
    requires ops[|ops| - 1].Failure? && ops[|ops| - 1].key == key
    ensures var at := ops[|ops| - 1].at; Origin(p, t0, ops, key) == Refreshed(p, EntryOrFresh(t0, key, at), at)
  {
    assert FirstFailure(ops, key) == Some(ops[|ops| - 1].at);
  }

  // The ledger of the entry that a failure of the key meets.
  lemma {:induction false} LedgerBefore(p: Params, t0: Table, ops: seq<Op>, key: string) returns (e: Entry)
    requires SoundAt(p, t0, key) && Unrelieved(p, t0, ops, key) && ops != []
    requires ops[|ops| - 1].Failure? && ops[|ops| - 1].key == key
    requires Budget(p, t0, ops[..|ops| - 1], key)
    ensures var init, at := ops[..|ops| - 1], ops[|ops| - 1].at;
            var was := EntryOrFresh(After(p, false, t0, init), key, at);
            && Ledger(p, Origin(p, t0, ops, key), LockStarts(p, t0, init, key), Counted(p, t0, init, key), e)
            && (Lapsed(p, e.last, e.until, at) ==> e.fails == 0 && e.level == 0)
            && FailEntry(p, e, at) == FailEntry(p, was, at) && e.until == was.until
  {
    var init, at := ops[..|ops| - 1], ops[|ops| - 1].at;
    var was := EntryOrFresh(After(p, false, t0, init), key, at);
    if FirstFailure(init, key).Some? {
      e := was;
      OriginStays(p, t0, ops, key);
      InTime(p, t0, ops, key);
    } else {
      e := Refreshed(p, was, at);
      OriginStarts(p, t0, ops, key);
      RefreshedFails(p, was, at);
      FreshLedger(p, e);
    }
  }

  lemma {:induction false} FreshLedger(p: Params, e: Entry)
    requires 0 <= e.fails < Threshold(p)
    ensures Ledger(p, e, [], 0, e)
  {
    assert Threshold(p) * 0 == 0;
  }

  // A later failure of an unrelieved stretch finds an entry that has not lapsed.
  lemma {:induction false} InTime(p: Params, t0: Table, ops: seq<Op>, key: string)
    requires Unrelieved(p, t0, ops, key) && ops != [] && ops[|ops| - 1].Failure? && ops[|ops| - 1].key == key
    requires var init := ops[..|ops| - 1]; Budget(p, t0, init, key) && FirstFailure(init, key).Some?
    ensures var e := After(p, false, t0, ops[..|ops| - 1])[key]; !Lapsed(p, e.last, e.until, ops[|ops| - 1].at)
  {
    var init := ops[..|ops| - 1];
    var e := After(p, false, t0, init)[key];
    assert LastFailure(init, key) == Some(e.last) && EndOf(p, t0, init, key) == e.until;
  }

  // What the last call, a failure of the key, adds to the table, the starts and the count.
  lemma {:induction false} AfterFailure(p: Params, t0: Table, ops: seq<Op>, key: string)
    requires Clocked(ops) && ops != [] && ops[|ops| - 1].Failure? && ops[|ops| - 1].key == key
    requires var init := ops[..|ops| - 1];
             Bisimilar(p, After(p, true, t0, init), After(p, false, t0, init), Now(init))
    requires Answer(p, true, t0, ops) == Answer(p, false, t0, ops)
    ensures var init, at := ops[..|ops| - 1], ops[|ops| - 1].at;
            var was := EntryOrFresh(After(p, false, t0, init), key, at);
            var starts, counted := LockStarts(p, t0, init, key), Counted(p, t0, init, key);
            && key in After(p, false, t0, ops) && After(p, false, t0, ops)[key] == FailEntry(p, was, at).0
            && LockStarts(p, t0, ops, key) == (if FailEntry(p, was, at).1 then starts + [at] else starts)
            && Counted(p, t0, ops, key) == (if at >= was.until then counted + 1 else counted)
            && FirstFailure(ops, key).Some? && LastFailure(ops, key) == Some(at)
  {
    FailureEntry(p, t0, ops, key);
    FailureCounts(p, t0, ops, key);
  }

  lemma {:induction false} FailureEntry(p: Params, t0: Table, ops: seq<Op>, key: string)
    requires ops != [] && ops[|ops| - 1].Failure? && ops[|ops| - 1].key == key
    ensures var init, at := ops[..|ops| - 1], ops[|ops| - 1].at;
            var was := EntryOrFresh(After(p, false, t0, init), key, at);
            && key in After(p, false, t0, ops) && After(p, false, t0, ops)[key] == FailEntry(p, was, at).0
            && Answer(p, false, t0, ops) == Started(FailEntry(p, was, at).1)
  {
  }

  lemma {:induction false} FailureCounts(p: Params, t0: Table, ops: seq<Op>, key: string)
    requires Clocked(ops) && ops != [] && ops[|ops| - 1].Failure? && ops[|ops| - 1].key == key
    requires var init := ops[..|ops| - 1];
             Bisimilar(p, After(p, true, t0, init), After(p, false, t0, init), Now(init))
    ensures var init, at := ops[..|ops| - 1], ops[|ops| - 1].at;
            var was := EntryOrFresh(After(p, false, t0, init), key, at);
            Counted(p, t0, ops, key) == Counted(p, t0, init, key) + if at >= was.until then 1 else 0
  {
    var init, at := ops[..|ops| - 1], ops[|ops| - 1].at;
    var t := After(p, false, t0, init);
    assert Remaining(After(p, true, t0, init), key, at) == Remaining(t, key, at);
  }

  lemma {:induction false} FailEntryLast(p: Params, e: Entry, at: real)
    ensures FailEntry(p, e, at).0.last == at
  {
  }

  // The last call, a failure of the key, in the books.
  lemma {:induction false} BudgetStep(p: Params, t0: Table, ops: seq<Op>, key: string, e: Entry)
    requires ops != []
    requires var init, at := ops[..|ops| - 1], ops[|ops| - 1].at;
             var was := EntryOrFresh(After(p, false, t0, init), key, at);
             var starts, counted := LockStarts(p, t0, init, key), Counted(p, t0, init, key);
             && Ledger(p, Origin(p, t0, ops, key), starts, counted, e)
             && (Lapsed(p, e.last, e.until, at) ==> e.fails == 0 && e.level == 0)
             && FailEntry(p, e, at) == FailEntry(p, was, at) && e.until == was.until
             && key in After(p, false, t0, ops) && After(p, false, t0, ops)[key] == FailEntry(p, was, at).0
             && LockStarts(p, t0, ops, key) == (if FailEntry(p, was, at).1 then starts + [at] else starts)
             && Counted(p, t0, ops, key) == (if at >= was.until then counted + 1 else counted)
             && FirstFailure(ops, key).Some? && LastFailure(ops, key) == Some(at)
    ensures Budget(p, t0, ops, key)
  {
    var init, at := ops[..|ops| - 1], ops[|ops| - 1].at;
    LedgerStep(p, Origin(p, t0, ops, key), LockStarts(p, t0, init, key), Counted(p, t0, init, key), e, at);
    FailEntryLast(p, e, at);
  }

  // Sum of the first k lockout lengths.
  function Total(p: Params, k: nat): real {
    if k == 0 then 0.0 else Total(p, k - 1) + Duration(p, k - 1)
  }

  // Sum of k lockout lengths from the given level on.
  function TotalFrom(p: Params, level: nat, k: nat): real {
    if k == 0 then 0.0 else TotalFrom(p, level, k - 1) + Duration(p, level + k - 1)
  }

  lemma {:induction false} SpacedTotal(p: Params, o: Entry, starts: seq<real>, k: nat)
    requires Spaced(p, o, starts) && k < |starts|
    ensures starts[k] - starts[0] >= TotalFrom(p, o.level, k)
  {
    if k > 0 {
      SpacedTotal(p, o, starts, k - 1);
    }
  }

  // Later lockouts are no shorter, so a stretch from level 0 is the cheapest.
  lemma {:induction false} TotalGrows(p: Params, level: nat, k: nat)
    requires 0.0 <= p.base
    ensures TotalFrom(p, level, k) >= Total(p, k)
  {
    if k > 0 {
      TotalGrows(p, level, k - 1);
      DoubledGrows(p.base, k - 1, level + k - 1);
    }
  }

  lemma {:induction false} DoubledGrows(base: real, m: nat, n: nat)
    requires 0.0 <= base && m <= n
    ensures 0.0 <= Doubled(base, m) <= Doubled(base, n)
  {
    if m < n {
      DoubledGrows(base, m, n - 1);
      DoublingGrows(base, n - 1);
    } else {
      DoublingGrows(base, m);
    }
  }

  function Pow2(n: nat): real {
    if n == 0 then 1.0 else 2.0 * Pow2(n - 1)
  }

  lemma {:induction false} DoubledIsPower(base: real, n: nat)
    ensures Doubled(base, n) == base * Pow2(n)
  {
    if n > 0 {
      DoubledIsPower(base, n - 1);
      var x := Pow2(n - 1);
      assert base * (2.0 * x) == 2.0 * (base * x);
    }
  }

  lemma {:induction false} TotalUncapped(p: Params, k: nat)
    requires 0.0 <= p.base && (k > 0 ==> Doubled(p.base, k - 1) <= p.maximum)
    ensures Total(p, k) == Doubled(p.base, k) - p.base && 0.0 <= Doubled(p.base, k)
  {
    if k > 0 {
      if k > 1 {
        DoublingGrows(p.base, k - 2);
      }
      TotalUncapped(p, k - 1);
    }
  }

  lemma {:induction false} DoublingGrows(base: real, n: nat)
    requires 0.0 <= base
    ensures 0.0 <= Doubled(base, n) <= Doubled(base, n + 1)
  {
    if n > 0 {
      DoublingGrows(base, n - 1);
    }
  }

  // The time budget, from any table: in a stretch without success, in which each failure but the first
  // comes in time, the i-th lockout lasts exactly Duration(l0 + i), where l0 is the level that the
  // first failure finds, lockouts overlap neither each other nor the one running at the start, and
  // k + 1 of them span at least the sum of the first k lengths.
  lemma {:induction false} TimeBudget(p: Params, t0: Table, ops: seq<Op>, key: string)
    requires Clocked(ops) && SoundAt(p, t0, key) && Unrelieved(p, t0, ops, key)
    ensures var o, starts := Origin(p, t0, ops, key), LockStarts(p, t0, ops, key);
            && Spaced(p, o, starts)
            && (forall k | 0 <= k < |starts| :: starts[k] - starts[0] >= TotalFrom(p, o.level, k))
            && (0.0 <= p.base ==> forall k | 0 <= k < |starts| :: starts[k] - starts[0] >= Total(p, k))
  {
    BudgetRun(p, t0, ops, key);
    var o, starts := Origin(p, t0, ops, key), LockStarts(p, t0, ops, key);
    forall k | 0 <= k < |starts|
      ensures starts[k] - starts[0] >= TotalFrom(p, o.level, k)
      ensures 0.0 <= p.base ==> starts[k] - starts[0] >= Total(p, k)
    {
      SpacedTotal(p, o, starts, k);
      if 0.0 <= p.base {
        TotalGrows(p, o.level, k);
      }
    }
  }

  lemma {:induction false} UntilIsEnd(p: Params, t0: Table, ops: seq<Op>, key: string)
    requires Clocked(ops) && SoundAt(p, t0, key) && Unrelieved(p, t0, ops, key)
    ensures var t, end := After(p, false, t0, ops), LockoutEnd(p, Origin(p, t0, ops, key), LockStarts(p, t0, ops, key));
            if key in t then t[key].until == end else end == 0.0
  {
    BudgetRun(p, t0, ops, key);
  }

  // Between failures the remaining time is the rest of the last lockout.
  lemma {:induction false} LockoutRuns(p: Params, t0: Table, ops: seq<Op>, key: string, at: real)
    requires Clocked(ops) && SoundAt(p, t0, key) && Unrelieved(p, t0, ops, key) && 0.0 <= Now(ops) <= at
    ensures Remaining(After(p, true, t0, ops), key, at)
            == Max(0.0, LockoutEnd(p, Origin(p, t0, ops, key), LockStarts(p, t0, ops, key)) - at)
  {
    UntilIsEnd(p, t0, ops, key);
    SameRemaining(p, t0, ops, key, at);
    RestOf(After(p, false, t0, ops), key, at, LockoutEnd(p, Origin(p, t0, ops, key), LockStarts(p, t0, ops, key)));
  }

  lemma {:induction false} RestOf(t: Table, key: string, at: real, end: real)
    requires 0.0 <= at && if key in t then t[key].until == end else end == 0.0
    ensures Remaining(t, key, at) == Max(0.0, end - at)
  {
  }

  lemma {:induction false} SameRemaining(p: Params, t0: Table, ops: seq<Op>, key: string, at: real)
    requires Clocked(ops) && Now(ops) <= at
    ensures Remaining(After(p, true, t0, ops), key, at) == Remaining(After(p, false, t0, ops), key, at)
  {
    PruningInvisible(p, t0, ops);
  }

  lemma {:induction false} Quotient(d: int, q: int, r: int)
    requires 0 <= r < d
    ensures (d * q + r) / d == q
  {
    var n := d * q + r;
    var m := n / d - q;
    assert n == d * (n / d) + n % d;
    assert r == d * m + n % d;
    assert m >= 1 ==> d * m >= d;
    assert m <= -1 ==> d * m <= -d;
  }

  lemma {:induction false} OriginSound(p: Params, t0: Table, ops: seq<Op>, key: string)
    requires SoundAt(p, t0, key)
    ensures 0 <= Origin(p, t0, ops, key).fails < Threshold(p)
  {
  }

  // The failures counted, with those of the origin, lie in the range of the lockouts started.
  lemma {:induction false} FailuresInRange(p: Params, t0: Table, ops: seq<Op>, key: string) returns (r: int)
    requires Clocked(ops) && SoundAt(p, t0, key) && Unrelieved(p, t0, ops, key)
    ensures 0 <= r < Threshold(p)
    ensures Origin(p, t0, ops, key).fails + Counted(p, t0, ops, key) == Threshold(p) * |LockStarts(p, t0, ops, key)| + r
  {
    BudgetRun(p, t0, ops, key);
    OriginSound(p, t0, ops, key);
    if FirstFailure(ops, key).Some? {
      r := After(p, false, t0, ops)[key].fails;
    } else {
      r := Origin(p, t0, ops, key).fails;
      assert Threshold(p) * 0 == 0;
    }
  }

  // The same budget in failures: those counted, with the f0 that the stretch starts from, make one
  // lockout for every threshold of them.
  lemma {:induction false} FailuresPerLockout(p: Params, t0: Table, ops: seq<Op>, key: string)
    requires Clocked(ops) && SoundAt(p, t0, key) && Unrelieved(p, t0, ops, key)
    ensures (Origin(p, t0, ops, key).fails + Counted(p, t0, ops, key)) / Threshold(p) == |LockStarts(p, t0, ops, key)|
  {
    var r := FailuresInRange(p, t0, ops, key);
    Quotient(Threshold(p), |LockStarts(p, t0, ops, key)|, r);
  }

  lemma {:induction false} StartsWithin(p: Params, t0: Table, ops: seq<Op>, key: string)
    requires Clocked(ops)
    ensures forall s <- LockStarts(p, t0, ops, key) :: ops != [] && ops[0].at <= s <= Now(ops)
  {
    if ops != [] {
      StartsWithin(p, t0, ops[..|ops| - 1], key);
    }
  }

  lemma {:induction false} QuotientGrows(d: int, n: int, more: int)
    requires 0 < d && 0 <= more
    ensures n / d <= (more + n) / d
  {
    var q := n / d;
    var r := more + n - d * q;
    assert n == d * q + n % d;
    assert r == d * (r / d) + r % d;
    var m := r / d;
    assert d * q + d * m == d * (q + m);
    Quotient(d, q + m, r % d);
  }

  lemma {:induction false} FailuresNeedLockouts(p: Params, t0: Table, ops: seq<Op>, key: string, k: nat)
    requires Clocked(ops) && SoundAt(p, t0, key) && Unrelieved(p, t0, ops, key)
    requires Counted(p, t0, ops, key) / Threshold(p) > k
    ensures k < |LockStarts(p, t0, ops, key)|
  {
    FailuresPerLockout(p, t0, ops, key);
    OriginSound(p, t0, ops, key);
    QuotientGrows(Threshold(p), Counted(p, t0, ops, key), Origin(p, t0, ops, key).fails);
  }

  // Guessing is logarithmic while uncapped: getting threshold * (k + 1) failures counted takes at
  // least base * 2^k - base seconds, whatever the table holds at the start.
  lemma {:induction false} GuessingCost(p: Params, t0: Table, ops: seq<Op>, key: string, k: nat)
    requires Clocked(ops) && SoundAt(p, t0, key) && Unrelieved(p, t0, ops, key)
    requires 0.0 <= p.base && (k > 0 ==> Doubled(p.base, k - 1) <= p.maximum)
    requires Counted(p, t0, ops, key) / Threshold(p) > k
    ensures ops != [] && Now(ops) - ops[0].at >= Doubled(p.base, k) - p.base
  {
    FailuresNeedLockouts(p, t0, ops, key, k);
    TimeBudget(p, t0, ops, key);
    StartsWithin(p, t0, ops, key);
    TotalUncapped(p, k);
    var starts := LockStarts(p, t0, ops, key);
    assert starts[0] in starts && starts[k] in starts;
  }

  // ---- what is forgotten ---------------------------------------------------------------------

  // Tables that no later call about the key can tell apart: where only one has an entry, it has lapsed.
  ghost predicate Twins(p: Params, a: Table, b: Table, key: string, now: real) {
    if key in a && key in b then Alike(a[key], b[key], now)
    else
      && (key in a ==> Lapsed(p, a[key].last, a[key].until, now))
      && (key in b ==> Lapsed(p, b[key].last, b[key].until, now))
  }

  // A failure of the key from the entry that it finds, or from a fresh one where that has lapsed.
  lemma {:induction false} FreshFailure(p: Params, e: Entry, at: real)
    requires Lapsed(p, e.last, e.until, at) && 0.0 <= at
    ensures FailEntry(p, e, at).1 == FailEntry(p, Entry(0, 0, 0.0, at), at).1
    ensures Alike(FailEntry(p, e, at).0, FailEntry(p, Entry(0, 0, 0.0, at), at).0, at)
  {
  }

  // A failure leaves the entry of its own key, and other entries unless they have lapsed.
  lemma {:induction false} FailLeaves(p: Params, t: Table, who: string, key: string, at: real)
    requires 0.0 <= p.quietReset && 0.0 <= at
    ensures var t1 := Fail(p, t, who, at).0;
            if who == key then key in t1 && t1[key] == FailEntry(p, EntryOrFresh(t, key, at), at).0
            else
              && (key in t1 ==> key in t && t1[key] == t[key])
              && (key in t && key !in t1 ==> Lapsed(p, t[key].last, t[key].until, at))
  {
    var t1 := FailUnpruned(p, t, who, at).0;
    assert key in t1 <==> key in t || key == who;
  }

  lemma {:induction false} TwinsCall(p: Params, a: Table, b: Table, key: string, now: real, op: Op)
    requires Twins(p, a, b, key, now) && now <= op.at && 0.0 <= op.at && 0.0 <= p.quietReset
    ensures Twins(p, Call(p, true, a, op).0, Call(p, true, b, op).0, key, op.at)
    ensures op.key == key ==> Call(p, true, a, op).1 == Call(p, true, b, op).1
  {
    if op.Failure? {
      FailLeaves(p, a, op.key, key, op.at);
      FailLeaves(p, b, op.key, key, op.at);
      if key in a && key in b {
        FailEntryAlike(p, a[key], b[key], now, op.at);
      } else if key in a {
        FreshFailure(p, a[key], op.at);
      } else if key in b {
        FreshFailure(p, b[key], op.at);
      }
    }
  }

  // Every later call about the key, among any calls about other keys, gets the same answer.
  ghost predicate AnsweredAlike(p: Params, a: Table, b: Table, key: string, ops: seq<Op>) {
    forall n | 0 < n <= |ops| && ops[n - 1].key == key :: Answer(p, true, a, ops[..n]) == Answer(p, true, b, ops[..n])
  }

  // One more call at the end.
  lemma {:induction false} AlikeSnoc(p: Params, a: Table, b: Table, key: string, ops: seq<Op>)
    requires ops != [] && AnsweredAlike(p, a, b, key, ops[..|ops| - 1])
    requires ops[|ops| - 1].key == key ==> Answer(p, true, a, ops) == Answer(p, true, b, ops)
    ensures AnsweredAlike(p, a, b, key, ops)
  {
    var init := ops[..|ops| - 1];
    forall n | 0 < n <= |ops| && ops[n - 1].key == key
      ensures Answer(p, true, a, ops[..n]) == Answer(p, true, b, ops[..n])
    {
      if n < |ops| {
        assert ops[..n] == init[..n] && init[n - 1] == ops[n - 1];
      } else {
        assert ops[..n] == ops;
      }
    }
  }

  lemma {:induction false} TwinsRun(p: Params, a: Table, b: Table, key: string, now: real, ops: seq<Op>)
    requires Twins(p, a, b, key, now) && Clocked(ops) && (ops != [] ==> now <= ops[0].at) && 0.0 <= p.quietReset
    ensures Twins(p, After(p, true, a, ops), After(p, true, b, ops), key, if ops == [] then now else Now(ops))
    ensures AnsweredAlike(p, a, b, key, ops)
  {
    if ops != [] {
      var k := |ops| - 1;
      var init, op := ops[..k], ops[k];
      TwinsRun(p, a, b, key, now, init);
      TwinsCall(p, After(p, true, a, init), After(p, true, b, init), key, if init == [] then now else Now(init), op);
      AlikeSnoc(p, a, b, key, ops);
    }
  }

  // A success forgets: whatever is called later, the key is answered as if it had never failed.
  lemma {:induction false} SuccessForgets(p: Params, t: Table, key: string, at: real, later: seq<Op>)
    requires Clocked(later) && (later != [] ==> at <= later[0].at) && 0.0 <= p.quietReset
    ensures AnsweredAlike(p, Call(p, true, t, Success(key, at)).0, map[], key, later)
  {
    TwinsRun(p, Call(p, true, t, Success(key, at)).0, map[], key, at, later);
  }

  // So does time, and only time: a stretch goes on as long as each failure comes in time (the laws of
  // the time budget), and once the last one has lapsed, the key is answered as if it had never failed.
  lemma {:induction false} LapsedForgets(p: Params, t0: Table, ops: seq<Op>, key: string, later: seq<Op>)
    requires Clocked(ops) && SoundAt(p, t0, key) && Unrelieved(p, t0, ops, key) && LastFailure(ops, key).Some?
    requires Clocked(later) && later != [] && 0.0 <= p.quietReset && Now(ops) <= later[0].at
    requires Lapsed(p, LastFailure(ops, key).value, EndOf(p, t0, ops, key), later[0].at)
    ensures AnsweredAlike(p, After(p, true, t0, ops), map[], key, later)
  {
    BudgetRun(p, t0, ops, key);
    BisimilarRun(p, t0, ops);
    TwinsRun(p, After(p, true, t0, ops), map[], key, later[0].at, later);
  }

  // A failure that is counted and starts no lockout leaves a large table without lapsed entries.
  lemma {:induction false} LargeTablesArePruned(p: Params, t: Table, key: string, now: real)
    requires 0.0 <= now && Remaining(t, key, now) == 0.0
    ensures var (t1, started) := Fail(p, t, key, now);
            !started && |t1| > 2048 ==> forall k <- t1 :: !Lapsed(p, t1[k].last, t1[k].until, now)
  {
  }

  // The length of a lockout: doubled at each level, and never above the maximum.
  lemma {:induction false} DurationExactly(p: Params, level: nat)
    ensures var doubled := p.base * Pow2(level);
            Duration(p, level) == if doubled <= p.maximum then doubled else p.maximum
  {
    DoubledIsPower(p.base, level);
  }
}
