/** listener.py, class Backoff: a failure counter per key with exponentially growing lockouts.

    Times are seconds of a nonnegative nondecreasing clock, as reals. The functions below say what
    each call does to the table; the class carries the table and updates it in place. */
module Backoffs {
  import opened Prelude

  datatype Params = Params(threshold: int, base: real, maximum: real, quietReset: real)

  datatype Entry = Entry(fails: int, level: nat, until: real, last: real)

  type Table = map<string, Entry>

  // A table with more entries than this is pruned.
  const PRUNE_ABOVE := 2048

  // base * 2**n, as n doublings; BackoffLaws.DoubledIsPower proves the product form.
  function Doubled(base: real, n: nat): real {
    if n == 0 then base else 2.0 * Doubled(base, n - 1)
  }

  // Length of the lockout that starts at the given level.
  function Duration(p: Params, level: nat): real {
    Min(Doubled(p.base, level), p.maximum)
  }

  function Remaining(t: Table, key: string, now: real): real {
    if key in t then Max(0.0, t[key].until - now) else 0.0
  }

  predicate QuietReset(p: Params, e: Entry, now: real) {
    now - e.last > p.quietReset && now >= e.until
  }

  // One failure recorded on one entry, and whether it started a lockout.
  function FailEntry(p: Params, e: Entry, now: real): (Entry, bool) {
    var e1 := if QuietReset(p, e, now) then e.(fails := 0, level := 0) else e;
    var e2 := e1.(last := now);
    if now < e2.until then (e2, false)
    else if e2.fails + 1 >= p.threshold then
      (Entry(0, e2.level + 1, now + Duration(p, e2.level), now), true)
    else (e2.(fails := e2.fails + 1), false)
  }

  function EntryOrFresh(t: Table, key: string, now: real): Entry {
    if key in t then t[key] else Entry(0, 0, 0.0, now)
  }

  predicate Stale(p: Params, e: Entry, now: real) {
    now >= e.until && now - e.last > p.quietReset
  }

  function Pruned(p: Params, t: Table, now: real): Table {
    map k | k in t && !Stale(p, t[k], now) :: t[k]
  }

  // A failure in a table that is never pruned.
  function FailUnpruned(p: Params, t: Table, key: string, now: real): (Table, bool) {
    var (e, started) := FailEntry(p, EntryOrFresh(t, key, now), now);
    (t[key := e], started)
  }

  // The real call prunes a large table, but only after a counted failure that starts no lockout.
  function Fail(p: Params, t: Table, key: string, now: real): (Table, bool) {
    var (t1, started) := FailUnpruned(p, t, key, now);
    var counted := now >= EntryOrFresh(t, key, now).until;
    if counted && !started && |t1| > PRUNE_ABOVE then (Pruned(p, t1, now), false) else (t1, started)
  }

  function Succeed(t: Table, key: string): Table {
    t - {key}
  }

  class Backoff {
    const params: Params
    var state: Table

    constructor (params: Params)
      ensures this.params == params && state == map[]
    {
      this.params := params;
      state := map[];
    }

    method RemainingTime(key: string, now: real) returns (left: real)
      ensures left == Remaining(state, key, now)
    {
      if key in state {
        left := Max(0.0, state[key].until - now);
      } else {
        left := 0.0;
      }
    }

    method RecordFailure(key: string, now: real) returns (started: bool)
      modifies this
      ensures (state, started) == Fail(params, old(state), key, now)
    {
      var st := EntryOrFresh(state, key, now);
      if now - st.last > params.quietReset && now >= st.until {
        st := st.(fails := 0, level := 0);
      }
      st := st.(last := now);
      if now < st.until {
        state := state[key := st];
        return false;
      }
      st := st.(fails := st.fails + 1);
      if st.fails >= params.threshold {
        st := st.(until := now + Min(Doubled(params.base, st.level), params.maximum));
        st := st.(level := st.level + 1);
        st := st.(fails := 0);
        state := state[key := st];
        return true;
      }
      state := state[key := st];
      if |state| > PRUNE_ABOVE {
        Prune(now);
      }
      return false;
    }

    method Success(key: string)
      modifies this
      ensures state == Succeed(old(state), key)
    {
      state := state - {key};
    }

    method Prune(now: real)
      modifies this
      ensures state == Pruned(params, old(state), now)
    {
      var doomed := set k | k in state && Stale(params, state[k], now);
      var left := doomed;
      while left != {}
        invariant left <= doomed
        invariant state == map k | k in old(state) && k !in doomed - left :: old(state)[k]
        decreases |left|
      {
        var k :| k in left;
        state := state - {k};
        left := left - {k};
      }
      assert forall k <- old(state) :: k in doomed <==> Stale(params, old(state)[k], now);
      assert state.Keys == Pruned(params, old(state), now).Keys;
    }
  }
}
