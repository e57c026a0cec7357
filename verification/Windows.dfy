/** windows/listener_windows.py, class UnlockService: the nonce table and the sliding-window limiter.

    `verifies(text, signature)` is ECDSA verification of a hex signature under the phone's key, and
    `show` prints a timestamp; both are parameters. Times are those of a clock that never goes back;
    each reading of it inside a call is an argument of its own. */
module Windows {
  const NONCE_TTL := 10.0
  const MAX_CLOCK_SKEW := 5.0
  const RATE_LIMIT_WINDOW := 60.0
  const RATE_LIMIT_MAX_FAILS := 5

  datatype Env = Env(verifies: (string, string) -> bool, show: real -> string)

  datatype State = State(pending: map<string, real>, used: set<string>, fails: seq<real>)

  const FRESH := State(map[], {}, [])

  // The clock readings of one verify: in _rate_limited, for the age check, and in _record_failure.
  datatype Times = Times(gate: real, check: real, record: real)

  datatype Request = Request(nonce: string, timestamp: real, signature: string, action: string)

  function Purged(pending: map<string, real>, now: real): map<string, real> {
    map n | n in pending && now - pending[n] < NONCE_TTL :: pending[n]
  }

  function Issue(s: State, nonce: string, now: real): State {
    s.(pending := Purged(s.pending[nonce := now], now))
  }

  // The deque after popleft while its front is outside the window.
  function Slide(fails: seq<real>, now: real): seq<real> {
    if fails != [] && now - fails[0] > RATE_LIMIT_WINDOW then Slide(fails[1..], now) else fails
  }

  predicate KnownAction(action: string) {
    action == "unlock" || action == "shutdown"
  }

  function Text(env: Env, r: Request): string {
    r.action + ":" + r.nonce + ":" + env.show(r.timestamp)
  }

  predicate SkewOk(r: Request, now: real) {
    -(MAX_CLOCK_SKEW + NONCE_TTL) <= now - r.timestamp <= MAX_CLOCK_SKEW + NONCE_TTL
  }

  function Failed(s: State, at: real): State {
    s.(fails := s.fails + [at])
  }

  function Verify(env: Env, s: State, r: Request, t: Times): (State, bool) {
    if !KnownAction(r.action) then (Failed(s, t.record), false)
    else
      var s1 := s.(fails := Slide(s.fails, t.gate));
      if |s1.fails| >= RATE_LIMIT_MAX_FAILS then (s1, false)
      else if r.nonce !in s1.pending then (Failed(s1, t.record), false)
      else
        var issued := s1.pending[r.nonce];
        var s2 := s1.(pending := s1.pending - {r.nonce});
        if r.nonce in s2.used || t.check - issued > NONCE_TTL || !SkewOk(r, t.check)
           || !env.verifies(Text(env, r), r.signature)
        then (Failed(s2, t.record), false)
        else (s2.(used := s2.used + {r.nonce}), true)
  }

  class UnlockService {
    const env: Env
    var pending: map<string, real>
    var used: set<string>
    var fails: seq<real>

    ghost function View(): State
      reads this
    {
      State(pending, used, fails)
    }

    constructor (env: Env)
      ensures this.env == env && View() == FRESH
    {
      this.env := env;
      pending, used, fails := map[], {}, [];
    }

    method IssueChallenge(nonce: string, now: real)
      modifies this
      ensures View() == Issue(old(View()), nonce, now)
    {
      pending := pending[nonce := now];
      pending := map n | n in pending && now - pending[n] < NONCE_TTL :: pending[n];
    }

    method RateLimited(now: real) returns (limited: bool)
      modifies this`fails
      ensures fails == Slide(old(fails), now) && limited == (|fails| >= RATE_LIMIT_MAX_FAILS)
    {
      while fails != [] && now - fails[0] > RATE_LIMIT_WINDOW
        invariant Slide(fails, now) == Slide(old(fails), now)
        decreases |fails|
      {
        fails := fails[1..];
      }
      return |fails| >= RATE_LIMIT_MAX_FAILS;
    }

    method RecordFailure(now: real)
      modifies this`fails
      ensures fails == old(fails) + [now]
    {
      fails := fails + [now];
    }

    method VerifyResponse(r: Request, t: Times) returns (ok: bool)
      modifies this
      ensures (View(), ok) == Verify(env, old(View()), r, t)
    {
      if r.action != "unlock" && r.action != "shutdown" {
        RecordFailure(t.record);
        return false;
      }
      var limited := RateLimited(t.gate);
      if limited {
        return false;
      }
      if r.nonce !in pending {
        RecordFailure(t.record);
        return false;
      }
      var issued := pending[r.nonce];
      pending := pending - {r.nonce};
      if r.nonce in used {
        RecordFailure(t.record);
        return false;
      }
      if t.check - issued > NONCE_TTL {
        RecordFailure(t.record);
        return false;
      }
      if !SkewOk(r, t.check) {
        RecordFailure(t.record);
        return false;
      }
      if !env.verifies(r.action + ":" + r.nonce + ":" + env.show(r.timestamp), r.signature) {
        RecordFailure(t.record);
        return false;
      }
      used := used + {r.nonce};
      return true;
    }
  }
}

/** What the Windows service promises over every sequence of calls. */
module WindowsLaws {
  import opened Prelude
  import opened Windows
  import T = Text
  import Wire

  datatype Op = Challenge(nonce: string, at: real) | Attempt(request: Request, times: Times)

  // Everything that was recorded or consumed, with nothing ever dropped.
  // `swept` is the time of the last challenge, the last moment the table was purged.
  datatype History = History(issued: map<string, real>, taken: set<string>, swept: real,
                             failures: seq<real>, accepted: seq<Request>)

  datatype Run = Run(state: State, history: History)

  function Do(env: Env, r: Run, op: Op): Run {
    match op
    case Challenge(nonce, at) =>
      Run(Issue(r.state, nonce, at), r.history.(issued := r.history.issued[nonce := at], swept := at))
    case Attempt(q, t) =>
      var (s, ok) := Verify(env, r.state, q, t);
      var gate := KnownAction(q.action) && |Slide(r.state.fails, t.gate)| < RATE_LIMIT_MAX_FAILS;
      var recorded := !ok && (gate || !KnownAction(q.action));
      Run(s, History(r.history.issued,
                     if gate then r.history.taken + {q.nonce} else r.history.taken,
                     r.history.swept,
                     if recorded then r.history.failures + [t.record] else r.history.failures,
                     if ok then r.history.accepted + [q] else r.history.accepted))
  }

  function Play(env: Env, ops: seq<Op>): Run {
    if ops == [] then Run(FRESH, History(map[], {}, 0.0, [], []))
    else Do(env, Play(env, ops[..|ops| - 1]), ops[|ops| - 1])
  }

  function Begins(op: Op): real {
    if op.Challenge? then op.at else op.times.gate
  }

  function Ends(op: Op): real {
    if op.Challenge? then op.at else op.times.record
  }

  // The clock never goes back within or between calls, and drawn nonces are new hex strings.
  ghost predicate Fair(env: Env, ops: seq<Op>) {
    ops != [] ==>
      var init, op := ops[..|ops| - 1], ops[|ops| - 1];
      var h := Play(env, init).history;
      && Fair(env, init)
      && (init != [] ==> Ends(init[|init| - 1]) <= Begins(op))
      && (op.Attempt? ==> op.times.gate <= op.times.check <= op.times.record)
      && (op.Challenge? ==> Wire.IsNonce(op.nonce) && op.nonce !in h.issued && op.nonce !in h.taken)
  }

  // The dispatch in `handler` lets no other action through.
  ghost predicate Dispatched(ops: seq<Op>) {
    forall op <- ops :: op.Attempt? ==> KnownAction(op.request.action)
  }

  // ---- the sliding window --------------------------------------------------------------------

  // The failures of the last sixty seconds.
  function Recent(failures: seq<real>, now: real): seq<real> {
    if failures == [] then []
    else Recent(failures[..|failures| - 1], now)
         + if now - failures[|failures| - 1] > 60.0 then [] else [failures[|failures| - 1]]
  }

  ghost predicate Ascending(s: seq<real>) {
    forall i, j | 0 <= i <= j < |s| :: s[i] <= s[j]
  }

  lemma {:induction false} RecentOfAscending(s: seq<real>, now: real)
    requires Ascending(s)
    ensures Recent(s, now) == Slide(s, now)
  {
    if s != [] {
      var n := |s| - 1;
      var init := s[..n];
      RecentOfAscending(init, now);
      SlideSnoc(init, s[n], now);
      assert s == init + [s[n]];
    }
  }

  lemma {:induction false} SlideSnoc(s: seq<real>, x: real, now: real)
    requires Ascending(s + [x])
    ensures Slide(s + [x], now) == Slide(s, now) + if now - x > RATE_LIMIT_WINDOW then [] else [x]
  {
    var all := s + [x];
    if s == [] {
      assert all[1..] == [];
    } else {
      assert all[0] == s[0] && all[1..] == s[1..] + [x] && all[0] <= all[|all| - 1];
      if now - s[0] > RATE_LIMIT_WINDOW {
        forall i, j | 0 <= i <= j < |s[1..] + [x]|
          ensures (s[1..] + [x])[i] <= (s[1..] + [x])[j]
        {
          assert all[i + 1] <= all[j + 1];
        }
        SlideSnoc(s[1..], x, now);
      }
    }
  }

  lemma {:induction false} SlideSuffix(s: seq<real>, now: real)
    ensures |Slide(s, now)| <= |s| && Slide(s, now) == s[|s| - |Slide(s, now)|..]
    ensures forall i | 0 <= i < |s| - |Slide(s, now)| :: now - s[i] > RATE_LIMIT_WINDOW
  {
    if s != [] && now - s[0] > RATE_LIMIT_WINDOW {
      SlideSuffix(s[1..], now);
      var k := |Slide(s, now)|;
      assert s[1..][|s| - 1 - k..] == s[|s| - k..];
      forall i | 0 <= i < |s| - k
        ensures now - s[i] > RATE_LIMIT_WINDOW
      {
        assert i > 0 ==> s[i] == s[1..][i - 1];
      }
    }
  }

  // Leading failures that are already out of the window do not matter.
  lemma {:induction false} SlideDropsOld(s: seq<real>, k: nat, now: real)
    requires k <= |s| && forall i | 0 <= i < k :: now - s[i] > RATE_LIMIT_WINDOW
    ensures Slide(s, now) == Slide(s[k..], now)
  {
    if k > 0 {
      SlideDropsOld(s[1..], k - 1, now);
      assert s[1..][k - 1..] == s[k..];
    } else {
      assert s[0..] == s;
    }
  }

  // The deque is the end of the full history, and what it lacks is out of the window.
  ghost predicate Suffix(fails: seq<real>, all: seq<real>, now: real) {
    && |fails| <= |all| && fails == all[|all| - |fails|..]
    && forall i | 0 <= i < |all| - |fails| :: now - all[i] > RATE_LIMIT_WINDOW
  }

  ghost predicate Windowed(r: Run, now: real) {
    && Ascending(r.history.failures)
    && (forall x <- r.history.failures :: x <= now)
    && Suffix(r.state.fails, r.history.failures, now)
  }

  lemma {:induction false} SlideSuffixes(fails: seq<real>, all: seq<real>, t0: real, now: real)
    requires Suffix(fails, all, t0) && t0 <= now
    ensures Slide(fails, now) == Slide(all, now) && Suffix(Slide(fails, now), all, now)
  {
    SlideDropsOld(all, |all| - |fails|, now);
    SlideSuffix(all, now);
  }

  lemma {:induction false} AppendWindowed(all: seq<real>, fails: seq<real>, at: real, t0: real)
    requires Ascending(all) && (forall x <- all :: x <= t0) && t0 <= at && Suffix(fails, all, t0)
    ensures Ascending(all + [at]) && (forall x <- all + [at] :: x <= at) && Suffix(fails + [at], all + [at], at)
  {
    forall i, j | 0 <= i <= j < |all + [at]|
      ensures (all + [at])[i] <= (all + [at])[j]
    {
      assert i < |all| ==> all[i] in all;
    }
  }

  // How one attempt moves the deque and the full history.
  lemma {:induction false} AttemptRecords(env: Env, r: Run, op: Op)
    requires op.Attempt?
    ensures var r1 := Do(env, r, op);
            var fails, all, t := r.state.fails, r.history.failures, op.times;
            if !KnownAction(op.request.action)
            then r1.state.fails == fails + [t.record] && r1.history.failures == all + [t.record]
            else
              || (r1.state.fails == Slide(fails, t.gate) && r1.history.failures == all)
              || (r1.state.fails == Slide(fails, t.gate) + [t.record] && r1.history.failures == all + [t.record]
                  && |Slide(fails, t.gate)| < RATE_LIMIT_MAX_FAILS)
  {
  }

  lemma {:induction false} SuffixLater(fails: seq<real>, all: seq<real>, t0: real, now: real)
    requires Suffix(fails, all, t0) && t0 <= now
    ensures Suffix(fails, all, now)
  {
  }

  lemma {:induction false} AttemptWindowed(env: Env, r: Run, op: Op, before: real)
    requires op.Attempt? && Windowed(r, before) && before <= op.times.gate <= op.times.check <= op.times.record
    ensures Windowed(Do(env, r, op), op.times.record)
  {
    var all, fails, t := r.history.failures, r.state.fails, op.times;
    AttemptRecords(env, r, op);
    SlideSuffixes(fails, all, before, t.gate);
    SuffixLater(Slide(fails, t.gate), all, t.gate, t.record);
    AppendWindowed(all, fails, t.record, before);
    AppendWindowed(all, Slide(fails, t.gate), t.record, t.gate);
  }

  lemma {:induction false} PlayWindowed(env: Env, ops: seq<Op>)
    requires Fair(env, ops) && ops != []
    ensures Windowed(Play(env, ops), Ends(ops[|ops| - 1]))
  {
    var init, op := ops[..|ops| - 1], ops[|ops| - 1];
    if init != [] {
      PlayWindowed(env, init);
      if op.Attempt? {
        AttemptWindowed(env, Play(env, init), op, Ends(init[|init| - 1]));
      }
    } else if op.Attempt? {
      AttemptWindowed(env, Play(env, init), op, op.times.gate);
    }
  }

  // After _rate_limited the deque is exactly the full failure history of the last 60 seconds.
  lemma {:induction false} DequeIsWindow(env: Env, ops: seq<Op>, now: real)
    requires Fair(env, ops) && (ops != [] ==> Ends(ops[|ops| - 1]) <= now)
    ensures var r := Play(env, ops); Slide(r.state.fails, now) == Recent(r.history.failures, now)
  {
    var r := Play(env, ops);
    if ops != [] {
      PlayWindowed(env, ops);
      SlideSuffixes(r.state.fails, r.history.failures, Ends(ops[|ops| - 1]), now);
      RecentOfAscending(r.history.failures, now);
    }
  }

  ghost predicate SixSpanWindow(failures: seq<real>) {
    forall i | 0 <= i < |failures| - 5 :: failures[i + 5] - failures[i] > 60.0
  }

  // A failure that got past the limiter is far from the fifth one before it.
  lemma {:induction false} SixthFailure(all: seq<real>, fails: seq<real>, before: real, t: Times)
    requires SixSpanWindow(all) && Suffix(fails, all, before) && before <= t.gate <= t.record
    requires |Slide(fails, t.gate)| < RATE_LIMIT_MAX_FAILS
    ensures SixSpanWindow(all + [t.record])
  {
    SlideSuffixes(fails, all, before, t.gate);
    SlideSuffix(all, t.gate);
  }

  lemma {:induction false} FrontIsRecent(s: seq<real>, now: real)
    ensures var t := Slide(s, now); t != [] ==> |t| <= |s| && t[0] == s[|s| - |t|] && now - t[0] <= RATE_LIMIT_WINDOW
  {
    if s != [] && now - s[0] > RATE_LIMIT_WINDOW {
      FrontIsRecent(s[1..], now);
      SlideSuffix(s[1..], now);
    }
  }

  // Adding one failure: the six last ones span more than the window exactly when fewer than five of
  // the earlier ones are recent.
  lemma {:induction false} SixthExactly(all: seq<real>, at: real)
    requires Ascending(all) && forall x <- all :: x <= at
    ensures SixSpanWindow(all + [at]) <==> SixSpanWindow(all) && |Recent(all, at)| < RATE_LIMIT_MAX_FAILS
  {
    RecentOfAscending(all, at);
    SlideSuffix(all, at);
    var more, k := all + [at], |Slide(all, at)|;
    if SixSpanWindow(more) {
      forall i | 0 <= i < |all| - 5
        ensures all[i + 5] - all[i] > RATE_LIMIT_WINDOW
      {
        assert more[i + 5] - more[i] > RATE_LIMIT_WINDOW;
      }
      if k >= RATE_LIMIT_MAX_FAILS {
        var i := |all| - 5;
        assert more[i + 5] - more[i] > RATE_LIMIT_WINDOW;
        FrontIsRecent(all, at);
      }
    }
  }

  // An unknown action is recorded without asking the limiter: here it would have refused.
  ghost predicate SlipsPast(env: Env, before: seq<Op>, op: Op) {
    && op.Attempt? && !KnownAction(op.request.action)
    && |Recent(Play(env, before).history.failures, op.times.record)| >= RATE_LIMIT_MAX_FAILS
  }

  ghost predicate NoneSlipsPast(env: Env, ops: seq<Op>) {
    forall n | 0 <= n < |ops| :: !SlipsPast(env, ops[..n], ops[n])
  }

  lemma {:induction false} NoneSlipsPastSnoc(env: Env, ops: seq<Op>)
    requires ops != []
    ensures var init, op := ops[..|ops| - 1], ops[|ops| - 1];
            NoneSlipsPast(env, ops) <==> NoneSlipsPast(env, init) && !SlipsPast(env, init, op)
  {
    var init := ops[..|ops| - 1];
    assert forall n | 0 <= n < |init| :: init[..n] == ops[..n] && init[n] == ops[n];
    assert ops[..|ops| - 1] == init;
    if NoneSlipsPast(env, ops) {
      forall n | 0 <= n < |init|
        ensures !SlipsPast(env, init[..n], init[n])
      {
        assert !SlipsPast(env, ops[..n], ops[n]);
      }
    }
  }

  lemma {:induction false} AttemptExactly(env: Env, r: Run, op: Op, before: real)
    requires op.Attempt? && Windowed(r, before) && before <= op.times.gate <= op.times.check <= op.times.record
    ensures SixSpanWindow(Do(env, r, op).history.failures)
            <==> SixSpanWindow(r.history.failures)
                 && (KnownAction(op.request.action)
                     || |Recent(r.history.failures, op.times.record)| < RATE_LIMIT_MAX_FAILS)
  {
    var all, t := r.history.failures, op.times;
    AttemptRecords(env, r, op);
    SixthExactly(all, t.record);
    if KnownAction(op.request.action) && |Slide(r.state.fails, t.gate)| < RATE_LIMIT_MAX_FAILS && SixSpanWindow(all) {
      SixthFailure(all, r.state.fails, before, t);
    }
  }

  // Without the dispatch, any six failures in a row span more than the window exactly when no
  // unknown action arrived while five failures were recent.
  lemma {:induction false} SixFailuresExactly(env: Env, ops: seq<Op>)
    requires Fair(env, ops)
    ensures SixSpanWindow(Play(env, ops).history.failures) <==> NoneSlipsPast(env, ops)
  {
    if ops != [] {
      var init, op := ops[..|ops| - 1], ops[|ops| - 1];
      SixFailuresExactly(env, init);
      NoneSlipsPastSnoc(env, ops);
      var before := if init == [] then Begins(op) else Ends(init[|init| - 1]);
      if init != [] {
        PlayWindowed(env, init);
      }
      if op.Attempt? {
        AttemptExactly(env, Play(env, init), op, before);
      }
    }
  }

  // Behind the dispatch, any six failures recorded in a row span more than the window.
  lemma {:induction false} SixFailuresSpanWindow(env: Env, ops: seq<Op>)
    requires Fair(env, ops) && Dispatched(ops)
    ensures SixSpanWindow(Play(env, ops).history.failures)
  {
    SixFailuresExactly(env, ops);
    assert forall n | 0 <= n < |ops| :: ops[n] in ops;
  }

  const UNKNOWN := Attempt(Request("", 0.0, "", "x"), Times(0.0, 0.0, 0.0))

  function Unknowns(n: nat): seq<Op> {
    if n == 0 then [] else Unknowns(n - 1) + [UNKNOWN]
  }

  lemma {:induction false} UnknownsSnoc(n: nat)
    requires n > 0
    ensures var ops := Unknowns(n); ops != [] && ops[..|ops| - 1] == Unknowns(n - 1) && ops[|ops| - 1] == UNKNOWN
  {
  }

  lemma {:induction false} UnknownsFair(env: Env, n: nat)
    ensures Fair(env, Unknowns(n))
  {
    if n > 0 {
      UnknownsFair(env, n - 1);
      UnknownsSnoc(n);
      if n > 1 {
        UnknownsSnoc(n - 1);
      }
    }
  }

  lemma {:induction false} UnknownRecorded(env: Env, r: Run)
    ensures Do(env, r, UNKNOWN).history.failures == r.history.failures + [0.0]
  {
    assert "x"[0] == 'x';
  }

  lemma {:induction false} UnknownPlayed(env: Env, n: nat)
    ensures var f := Play(env, Unknowns(n)).history.failures; |f| == n && forall x <- f :: x == 0.0
  {
    if n > 0 {
      UnknownsSnoc(n);
      UnknownPlayed(env, n - 1);
      UnknownRecorded(env, Play(env, Unknowns(n - 1)));
    }
  }

  // Without the dispatch the bound is false: unknown actions are recorded before the limiter is asked.
  lemma {:induction false} UnknownActionsUnlimited(env: Env, n: nat)
    ensures Fair(env, Unknowns(n))
    ensures var f := Play(env, Unknowns(n)).history.failures; |f| == n && forall x <- f :: x == 0.0
  {
    UnknownsFair(env, n);
    UnknownPlayed(env, n);
  }

  // ---- what is signed ------------------------------------------------------------------------

  datatype Spoken = Spoken(action: string, nonce: string, timestamp: string)

  // A reader of the signed text that knows nothing but the separator: the action ends at the first
  // one, and the nonce at the next.
  function ReadText(text: string): Option<Spoken> {
    var i := T.IndexOf(text, ':');
    if i == |text| then None
    else
      var rest := text[i + 1..];
      var j := T.IndexOf(rest, ':');
      if j == |rest| then None else Some(Spoken(text[..i], rest[..j], rest[j + 1..]))
  }

  // The signature is good for a text that reads as this request.
  ghost predicate SignedAs(env: Env, q: Request) {
    exists text: string :: env.verifies(text, q.signature)
      && ReadText(text) == Some(Spoken(q.action, q.nonce, env.show(q.timestamp)))
  }

  lemma {:induction false} ReadsTwo(a: string, b: string, c: string)
    requires ':' !in a && ':' !in b
    ensures ReadText(a + ":" + (b + ":" + c)) == Some(Spoken(a, b, c))
  {
    T.FirstSeparator(a, b + ":" + c, ':');
    T.FirstSeparator(b, c, ':');
    var text := a + ":" + (b + ":" + c);
    assert text[..|a|] == a && text[|a| + 1..] == b + ":" + c;
    var rest := b + ":" + c;
    assert rest[..|b|] == b && rest[|b| + 1..] == c;
  }

  // Reading undoes printing: the signed text says action, nonce and timestamp.
  lemma {:induction false} TextReads(env: Env, q: Request)
    requires q.action == "unlock" || q.action == "shutdown"
    requires Wire.IsNonce(q.nonce)
    ensures ReadText(Text(env, q)) == Some(Spoken(q.action, q.nonce, env.show(q.timestamp)))
  {
    assert ':' !in "unlock" && ':' !in "shutdown";
    ReadsTwo(q.action, q.nonce, env.show(q.timestamp));
    assert Text(env, q) == q.action + ":" + (q.nonce + ":" + env.show(q.timestamp));
  }

  // No two texts read the same.
  lemma {:induction false} ReadTextOnce(a: string, b: string)
    requires ReadText(a).Some? && ReadText(a) == ReadText(b)
    ensures a == b
  {
    SpokenAgain(a);
    SpokenAgain(b);
  }

  lemma {:induction false} SpokenAgain(text: string)
    requires ReadText(text).Some?
    ensures var s := ReadText(text).value; text == s.action + ":" + (s.nonce + ":" + s.timestamp)
  {
    var i := T.IndexOf(text, ':');
    CutAt(text, i);
    CutAt(text[i + 1..], T.IndexOf(text[i + 1..], ':'));
  }

  lemma {:induction false} CutAt(text: string, i: nat)
    requires i < |text| && text[i] == ':'
    ensures text == text[..i] + ":" + text[i + 1..]
  {
  }

  // So equal texts come from the same action, nonce and timestamp.
  lemma {:induction false} TextsApart(env: Env, a: Request, b: Request)
    requires a.action == "unlock" || a.action == "shutdown"
    requires b.action == "unlock" || b.action == "shutdown"
    requires Wire.IsNonce(a.nonce) && Wire.IsNonce(b.nonce) && Text(env, a) == Text(env, b)
    ensures a.action == b.action && a.nonce == b.nonce && env.show(a.timestamp) == env.show(b.timestamp)
  {
    TextReads(env, a);
    TextReads(env, b);
  }

  // Whatever the nonces are, no shutdown is signed in the text of an unlock.
  lemma {:induction false} ActionsSignedApart(env: Env, a: Request, b: Request)
    requires a.action == "shutdown" && b.action == "unlock"
    ensures Text(env, a) != Text(env, b)
  {
    assert Text(env, a)[0] == 's' && Text(env, b)[0] == 'u';
  }

  lemma {:induction false} SignedExactly(env: Env, q: Request)
    requires (q.action == "unlock" || q.action == "shutdown") && Wire.IsNonce(q.nonce)
    ensures SignedAs(env, q) <==> env.verifies(Text(env, q), q.signature)
  {
    TextReads(env, q);
    if SignedAs(env, q) {
      var text: string :| env.verifies(text, q.signature)
        && ReadText(text) == Some(Spoken(q.action, q.nonce, env.show(q.timestamp)));
      ReadTextOnce(text, Text(env, q));
    }
  }

  // ---- one-shot nonces -----------------------------------------------------------------------

  ghost predicate Sound(env: Env, q: Request) {
    && (q.action == "unlock" || q.action == "shutdown") && Wire.IsNonce(q.nonce)
    && env.verifies(Text(env, q), q.signature)
  }

  ghost predicate OneShot(env: Env, r: Run) {
    var s, h := r.state, r.history;
    && (forall n :: n in s.pending <==> n in h.issued && n !in h.taken && h.swept - h.issued[n] < NONCE_TTL)
    && (forall n <- s.pending :: s.pending[n] == h.issued[n])
    && (forall n <- h.issued :: h.issued[n] <= h.swept && Wire.IsNonce(n))
    && s.used <= h.taken
    && (forall q <- h.accepted :: q.nonce in s.used && Sound(env, q))
    && (forall i, j | 0 <= i < j < |h.accepted| :: h.accepted[i].nonce != h.accepted[j].nonce)
  }

  ghost predicate SweptBy(r: Run, now: real) {
    r.history.issued != map[] ==> r.history.swept <= now
  }

  lemma {:induction false} PlayOnce(env: Env, ops: seq<Op>)
    requires Fair(env, ops)
    ensures OneShot(env, Play(env, ops))
    ensures ops != [] ==> SweptBy(Play(env, ops), Ends(ops[|ops| - 1]))
  {
    if ops != [] {
      var init, op := ops[..|ops| - 1], ops[|ops| - 1];
      PlayOnce(env, init);
      var r := Play(env, init);
      if op.Challenge? {
        ChallengeOnce(env, r, op);
      } else {
        AttemptOnce(env, r, op);
      }
    }
  }

  lemma {:induction false} ChallengeOnce(env: Env, r: Run, op: Op)
    requires OneShot(env, r) && op.Challenge? && SweptBy(r, op.at)
    requires Wire.IsNonce(op.nonce) && op.nonce !in r.history.issued && op.nonce !in r.history.taken
    ensures OneShot(env, Do(env, r, op))
  {
  }

  lemma {:induction false} AttemptOnce(env: Env, r: Run, op: Op)
    requires OneShot(env, r) && op.Attempt?
    ensures OneShot(env, Do(env, r, op))
  {
    var q := op.request;
    var r1 := Do(env, r, op);
    if Verify(env, r.state, q, op.times).1 {
      assert q.nonce !in r.state.used;
      assert r1.history.accepted == r.history.accepted + [q];
    }
  }

  // Each nonce yields at most one accepted attempt across both actions, pending and used nonces stay
  // apart, and what was accepted is signed in a text that reads as its own action, nonce and
  // timestamp; so no two accepted attempts are signed in the same text.
  lemma {:induction false} OneShotActions(env: Env, ops: seq<Op>)
    requires Fair(env, ops)
    ensures var r := Play(env, ops);
            var accepted := r.history.accepted;
            && (forall i, j | 0 <= i < j < |accepted| :: accepted[i].nonce != accepted[j].nonce)
            && r.state.pending.Keys !! r.state.used
            && (forall q <- accepted :: (q.action == "unlock" || q.action == "shutdown") && SignedAs(env, q))
            && (forall i, j | 0 <= i < j < |accepted| :: Text(env, accepted[i]) != Text(env, accepted[j]))
  {
    PlayOnce(env, ops);
    var accepted := Play(env, ops).history.accepted;
    forall q <- accepted
      ensures SignedAs(env, q)
    {
      assert Sound(env, q);
      SignedExactly(env, q);
    }
    forall i, j | 0 <= i < j < |accepted|
      ensures Text(env, accepted[i]) != Text(env, accepted[j])
    {
      assert Sound(env, accepted[i]) && Sound(env, accepted[j]);
      if Text(env, accepted[i]) == Text(env, accepted[j]) {
        TextsApart(env, accepted[i], accepted[j]);
      }
    }
  }

  function Abs(x: real): real {
    if x < 0.0 then -x else x
  }

  // Exactly when an attempt is accepted, told from the history: the recent failures are few, the
  // nonce was issued, never taken by an attempt that got past the limiter, is at most ten seconds
  // old, and had not yet reached that age at the last challenge; the timestamp is good, and the
  // signature is good for a text that reads as this request.
  lemma {:induction false} AcceptedExactly(env: Env, ops: seq<Op>, q: Request, t: Times)
    requires Fair(env, ops) && (ops != [] ==> Ends(ops[|ops| - 1]) <= t.gate)
    ensures var r := Play(env, ops);
            var h := r.history;
            Verify(env, r.state, q, t).1
            <==>
              && (q.action == "unlock" || q.action == "shutdown") && |Recent(h.failures, t.gate)| < 5
              && q.nonce in h.issued && q.nonce !in h.taken
              && t.check - h.issued[q.nonce] <= 10.0 && h.swept - h.issued[q.nonce] < 10.0
              && Abs(t.check - q.timestamp) <= 15.0 && SignedAs(env, q)
  {
    PlayOnce(env, ops);
    DequeIsWindow(env, ops, t.gate);
    if (q.action == "unlock" || q.action == "shutdown") && q.nonce in Play(env, ops).history.issued {
      SignedExactly(env, q);
    }
  }

  // The purge shows only at the boundary: a nonce that is exactly NONCE_TTL old is still good, unless
  // a challenge is issued to anybody at that very moment.
  lemma {:induction false} PurgeBoundary(env: Env, q: Request, other: string)
    requires q.action == "unlock" && q.timestamp == 0.0 && other != q.nonce && SignedAs(env, q)
    requires Wire.IsNonce(q.nonce) && Wire.IsNonce(other)
    ensures var t := Times(NONCE_TTL, NONCE_TTL, NONCE_TTL);
            var one, two := [Challenge(q.nonce, 0.0)], [Challenge(q.nonce, 0.0), Challenge(other, NONCE_TTL)];
            && Fair(env, one) && Verify(env, Play(env, one).state, q, t).1
            && Fair(env, two) && !Verify(env, Play(env, two).state, q, t).1
  {
    var one, two := [Challenge(q.nonce, 0.0)], [Challenge(q.nonce, 0.0), Challenge(other, NONCE_TTL)];
    SignedExactly(env, q);
    assert one[..0] == [] && two[..1] == one;
    assert Play(env, one) == Do(env, Play(env, []), one[0]);
    assert Play(env, two) == Do(env, Play(env, one), two[1]);
  }
}
