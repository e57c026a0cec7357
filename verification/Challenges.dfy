/** listener.py, issue_challenge and check_response: the table of pending nonces.

    `Verifies(key, text, signature)` stands for ECDSA verification of a hex signature: a relation,
    since several encodings of several signatures can be valid for one text. */
module Challenges {
  import opened Prelude
  import Registry
  import Wire

  type Verifies = (string, string, string) -> bool

  datatype Pending = Pending(device: string, at: real, issuedMs: int)

  type Table = map<string, Pending>

  const MAX_PENDING := 64

  // Refused raises before anything is stored; Unsigned raises after the nonce was stored.
  datatype Issue = Refused | Unsigned | Sent(text: string)

  function Purge(t: Table, ttl: real, now: real): Table {
    map n | n in t && now - t[n].at <= ttl :: t[n]
  }

  function IssueChallenge(t: Table, ttl: real, target: string, device: string, nonce: string, issuedMs: int, now: real)
    : (Table, Issue)
  {
    var kept := Purge(t, ttl, now);
    if |kept| >= MAX_PENDING then (kept, Refused)
    else
      var stored := kept[nonce := Pending(device, now, issuedMs)];
      match Wire.SignedMessage(Wire.CHALLENGE, nonce, issuedMs, device, target)
      case None => (stored, Unsigned)
      case Some(text) => (stored, Sent(text))
  }

  datatype Verdict =
    | Accepted(nonce: string, record: Pending)
    | MalformedNonce
    | UnknownNonce
    | OtherDevice
    | Expired
    | BadSignature
    | Raised

  // verify_sig refuses anything that is not a string of at most MAX_SIG_HEX characters.
  predicate SignatureHolds(verifies: Verifies, key: string, text: string, signature: Option<string>) {
    signature.Some? && |signature.value| <= Wire.MAX_SIG_HEX && verifies(key, text, signature.value)
  }

  // The verdict on a record that was taken out of the table. Raised stands for the ValueErrors of
  // signed_message and load_public_key.
  function Judge(verifies: Verifies, ttl: real, target: string, device: Registry.Device, nonce: string, r: Pending,
                 signature: Option<string>, now: real): Verdict {
    if r.device != device.id then OtherDevice
    else if now - r.at > ttl then Expired
    else match Wire.SignedMessage(Wire.RESPONSE, nonce, r.issuedMs, r.device, target)
    case None => Raised
    case Some(text) =>
      if device.key.None? then Raised
      else if SignatureHolds(verifies, device.key.value, text, signature) then Accepted(nonce, r)
      else BadSignature
  }

  // A nonce that is not a string is None.
  function CheckResponse(verifies: Verifies, t: Table, ttl: real, target: string, device: Registry.Device,
                         nonce: Option<string>, signature: Option<string>, now: real): (Table, Verdict) {
    if nonce.None? || !Wire.MatchesNonce(nonce.value) then (t, MalformedNonce)
    else if nonce.value !in t then (t, UnknownNonce)
    else (t - {nonce.value}, Judge(verifies, ttl, target, device, nonce.value, t[nonce.value], signature, now))
  }
}

/** The purged, bounded table against the full history of what was issued and presented. */
module PendingLaws {
  import opened Prelude
  import opened Challenges
  import Registry
  import Wire

  // Every challenge ever stored, every nonce any connection ever presented, and when a challenge was
  // last asked for, whether or not there was room for it.
  datatype History = History(issued: Table, presented: set<string>, swept: real)

  datatype Op =
    | Issue(device: string, nonce: string, issuedMs: int, target: string, at: real)
    | Present(sender: Registry.Device, shown: Option<string>, signature: Option<string>, target: string, at: real)

  datatype State = State(pending: Table, history: History)

  function Live(h: History, ttl: real, now: real): Table {
    map n | n in h.issued && n !in h.presented && now - h.issued[n].at <= ttl :: h.issued[n]
  }

  function Next(verifies: Verifies, ttl: real, s: State, op: Op): State {
    match op
    case Issue(device, nonce, ms, target, at) =>
      var (t, r) := IssueChallenge(s.pending, ttl, target, device, nonce, ms, at);
      State(t, s.history.(swept := at,
                          issued := if r.Refused? then s.history.issued
                                    else s.history.issued[nonce := Pending(device, at, ms)]))
    case Present(device, nonce, signature, target, at) =>
      State(CheckResponse(verifies, s.pending, ttl, target, device, nonce, signature, at).0,
            if nonce.Some? then s.history.(presented := s.history.presented + {nonce.value}) else s.history)
  }

  function Run(verifies: Verifies, ttl: real, ops: seq<Op>): State {
    if ops == [] then State(map[], History(map[], {}, 0.0))
    else Next(verifies, ttl, Run(verifies, ttl, ops[..|ops| - 1]), ops[|ops| - 1])
  }

  // The clock never goes back, and a drawn nonce was never seen before, neither issued nor sent in.
  ghost predicate Fair(verifies: Verifies, ttl: real, ops: seq<Op>) {
    && (forall i, j | 0 <= i <= j < |ops| :: ops[i].at <= ops[j].at)
    && (forall n | 0 <= n < |ops| && ops[n].Issue? ::
          var h := Run(verifies, ttl, ops[..n]).history;
          Drawn(h, ops[n].nonce))
  }

  // secrets.token_hex(16), assumed not to repeat anything seen.
  predicate Drawn(h: History, nonce: string) {
    Wire.IsNonce(nonce) && nonce !in h.issued && nonce !in h.presented
  }

  // What acceptance means, told from the history alone.
  ghost predicate Deserved(verifies: Verifies, ttl: real, h: History, op: Op)
    requires op.Present?
  {
    && op.shown.Some? && Wire.MatchesNonce(op.shown.value)
    && op.shown.value in h.issued && op.shown.value !in h.presented
    && var r := h.issued[op.shown.value];
    && r.device == op.sender.id
    && op.at - r.at <= ttl
    && op.sender.key.Some?
    && var text := Wire.SignedMessage(Wire.RESPONSE, op.shown.value, r.issuedMs, op.sender.id, op.target);
    && text.Some? && op.signature.Some? && |op.signature.value| <= 200
    && verifies(op.sender.key.value, text.value, op.signature.value)
  }

  // The table holds only unpresented challenges, and all of those that are still in time.
  ghost predicate Refines(ttl: real, s: State, now: real) {
    && (forall n <- s.pending ::
          n in s.history.issued && n !in s.history.presented && s.pending[n] == s.history.issued[n])
    && (forall n <- Live(s.history, ttl, now) :: n in s.pending)
    && (forall n <- s.pending :: Wire.IsNonce(n))
    && |s.pending| <= MAX_PENDING
  }

  lemma {:induction false} PurgeIsLive(ttl: real, s: State, before: real, now: real)
    requires Refines(ttl, s, before) && before <= now
    ensures Purge(s.pending, ttl, now) == Live(s.history, ttl, now)
  {
    forall n <- Live(s.history, ttl, now)
      ensures n in Purge(s.pending, ttl, now)
    {
      assert n in Live(s.history, ttl, before);
    }
  }

  lemma {:induction false} Smaller(a: Table, b: Table)
    requires a.Keys <= b.Keys
    ensures |a| <= |b|
  {
    SubsetSize(a.Keys, b.Keys);
  }

  lemma {:induction false} RefinesRun(verifies: Verifies, ttl: real, ops: seq<Op>, now: real)
    requires Fair(verifies, ttl, ops) && (ops != [] ==> ops[|ops| - 1].at <= now)
    ensures Refines(ttl, Run(verifies, ttl, ops), now)
  {
    if ops != [] {
      var n := |ops| - 1;
      var init, op := ops[..n], ops[n];
      assert Fair(verifies, ttl, init) by {
        forall m | 0 <= m < n && init[m].Issue?
          ensures var h := Run(verifies, ttl, init[..m]).history; Drawn(h, init[m].nonce)
        {
          assert init[..m] == ops[..m];
        }
      }
      RefinesRun(verifies, ttl, init, op.at);
      StepRefines(verifies, ttl, Run(verifies, ttl, init), op, now);
    }
  }

  lemma {:induction false} StepRefines(verifies: Verifies, ttl: real, s: State, op: Op, now: real)
    requires Refines(ttl, s, op.at) && op.at <= now
    requires op.Issue? ==> Drawn(s.history, op.nonce)
    ensures Refines(ttl, Next(verifies, ttl, s, op), now)
  {
    if op.Issue? {
      IssueRefines(verifies, ttl, s, op, now);
    } else {
      PresentRefines(verifies, ttl, s, op, now);
    }
  }

  // What issuing leaves in the table: what is live, and the new challenge if there is room.
  lemma {:induction false} IssueKeepsLive(verifies: Verifies, ttl: real, s: State, op: Op)
    requires op.Issue? && Refines(ttl, s, op.at)
    ensures var s1, live := Next(verifies, ttl, s, op), Live(s.history, ttl, op.at);
            var issued := Pending(op.device, op.at, op.issuedMs);
            && |s1.pending| <= MAX_PENDING
            && if |live| >= MAX_PENDING then s1 == State(live, s.history.(swept := op.at))
               else s1 == State(live[op.nonce := issued],
                                s.history.(swept := op.at, issued := s.history.issued[op.nonce := issued]))
  {
    PurgeIsLive(ttl, s, op.at, op.at);
    Smaller(Purge(s.pending, ttl, op.at), s.pending);
  }

  lemma {:induction false} IssueRefines(verifies: Verifies, ttl: real, s: State, op: Op, now: real)
    requires op.Issue? && Refines(ttl, s, op.at) && op.at <= now && Drawn(s.history, op.nonce)
    ensures Refines(ttl, Next(verifies, ttl, s, op), now)
  {
    var s1 := Next(verifies, ttl, s, op);
    IssueKeepsLive(verifies, ttl, s, op);
    forall m <- Live(s1.history, ttl, now)
      ensures m in s1.pending
    {
      assert m == op.nonce || m in Live(s.history, ttl, op.at);
    }
    forall m <- Live(s.history, ttl, op.at)
      ensures Wire.IsNonce(m)
    {
      assert m in s.pending;
    }
  }

  lemma {:induction false} PresentRefines(verifies: Verifies, ttl: real, s: State, op: Op, now: real)
    requires op.Present? && Refines(ttl, s, op.at) && op.at <= now
    ensures Refines(ttl, Next(verifies, ttl, s, op), now)
  {
    var s1 := Next(verifies, ttl, s, op);
    assert s1.pending == if op.shown.Some? then s.pending - {op.shown.value} else s.pending;
    Smaller(s1.pending, s.pending);
    forall m <- Live(s1.history, ttl, now)
      ensures m in s1.pending
    {
      assert m in Live(s.history, ttl, op.at);
    }
  }

  // What a table that refines its history answers.
  lemma {:induction false} Judges(verifies: Verifies, ttl: real, s: State, op: Op)
    requires Refines(ttl, s, op.at)
    ensures Answers(verifies, ttl, s, op)
  {
    if op.Issue? {
      PurgeIsLive(ttl, s, op.at, op.at);
      Smaller(Purge(s.pending, ttl, op.at), s.pending);
    } else if Deserved(verifies, ttl, s.history, op) {
      assert op.shown.value in Live(s.history, ttl, op.at);
    }
  }

  // A challenge is refused exactly when too many are live, and a response accepted exactly when it
  // deserves it.
  ghost predicate Answers(verifies: Verifies, ttl: real, s: State, op: Op) {
    match op
    case Issue(device, nonce, ms, target, at) =>
      var (t, r) := IssueChallenge(s.pending, ttl, target, device, nonce, ms, at);
      (r.Refused? <==> |Live(s.history, ttl, at)| >= 64) && |t| <= 64
    case Present(device, nonce, signature, target, at) =>
      CheckResponse(verifies, s.pending, ttl, target, device, nonce, signature, at).1.Accepted?
      <==> Deserved(verifies, ttl, s.history, op)
  }

  // With a constant lifetime, a response is accepted exactly when its nonce was issued to this
  // device, was never presented before by anyone, is at most `ttl` old and is properly signed;
  // and purging shows nowhere: what is pending never exceeds the bound, and a challenge is refused
  // exactly when that many unpresented challenges are still in time.
  lemma {:induction false} PendingRefinesHistory(verifies: Verifies, ttl: real, ops: seq<Op>, op: Op)
    requires Fair(verifies, ttl, ops + [op])
    ensures Answers(verifies, ttl, Run(verifies, ttl, ops), op)
  {
    var all := ops + [op];
    var s := Run(verifies, ttl, ops);
    assert all[..|ops|] == ops;
    assert Fair(verifies, ttl, ops) by {
      forall m | 0 <= m < |ops| && ops[m].Issue?
        ensures var h := Run(verifies, ttl, ops[..m]).history; Drawn(h, ops[m].nonce)
      {
        assert ops[..m] == all[..m] && all[m] == ops[m];
      }
    }
    RefinesRun(verifies, ttl, ops, op.at) by {
      if ops != [] {
        assert all[|ops| - 1].at <= all[|ops|].at;
      }
    }
    Judges(verifies, ttl, s, op);
  }

  lemma {:induction false} FairInit(verifies: Verifies, ttl: real, ops: seq<Op>)
    requires ops != [] && Fair(verifies, ttl, ops)
    ensures Fair(verifies, ttl, ops[..|ops| - 1])
  {
    var init := ops[..|ops| - 1];
    forall m | 0 <= m < |init| && init[m].Issue?
      ensures var h := Run(verifies, ttl, init[..m]).history; Drawn(h, init[m].nonce)
    {
      assert init[..m] == ops[..m];
    }
  }

  // Exactly what is in the table: the unpresented challenges that were in time when one was last asked for.
  function Kept(h: History, ttl: real): Table {
    map n | n in h.issued && n !in h.presented && h.swept - h.issued[n].at <= ttl :: h.issued[n]
  }

  ghost predicate KeepsExactly(ttl: real, s: State, now: real) {
    && s.pending == Kept(s.history, ttl)
    && (s.history.issued != map[] ==> s.history.swept <= now)
    && forall n <- s.history.issued :: s.history.issued[n].at <= s.history.swept
  }

  lemma {:induction false} PurgeKeeps(ttl: real, s: State, before: real, at: real)
    requires KeepsExactly(ttl, s, before) && before <= at
    ensures Purge(s.pending, ttl, at) == Kept(s.history.(swept := at), ttl)
  {
  }

  lemma {:induction false} KeptGrows(h: History, ttl: real, nonce: string, r: Pending)
    requires 0.0 <= ttl && nonce !in h.issued && nonce !in h.presented && r.at == h.swept
    ensures Kept(h.(issued := h.issued[nonce := r]), ttl) == Kept(h, ttl)[nonce := r]
  {
  }

  lemma {:induction false} IssueKeeps(verifies: Verifies, ttl: real, s: State, op: Op, before: real)
    requires 0.0 <= ttl && op.Issue? && KeepsExactly(ttl, s, before) && before <= op.at
    requires op.nonce !in s.history.issued && op.nonce !in s.history.presented
    ensures KeepsExactly(ttl, Next(verifies, ttl, s, op), op.at)
  {
    var h := s.history.(swept := op.at);
    PurgeKeeps(ttl, s, before, op.at);
    KeptGrows(h, ttl, op.nonce, Pending(op.device, op.at, op.issuedMs));
    IssueStores(verifies, ttl, s, op);
    forall n <- h.issued
      ensures h.issued[n].at <= op.at
    {
    }
  }

  lemma {:induction false} IssueStores(verifies: Verifies, ttl: real, s: State, op: Op)
    requires op.Issue?
    ensures var s1, h := Next(verifies, ttl, s, op), s.history.(swept := op.at);
            var kept, r := Purge(s.pending, ttl, op.at), Pending(op.device, op.at, op.issuedMs);
            || s1 == State(kept, h)
            || s1 == State(kept[op.nonce := r], h.(issued := h.issued[op.nonce := r]))
  {
  }

  lemma {:induction false} PresentKeeps(verifies: Verifies, ttl: real, s: State, op: Op, before: real)
    requires op.Present? && KeepsExactly(ttl, s, before) && before <= op.at
    requires forall n <- s.history.issued :: Wire.IsNonce(n)
    ensures KeepsExactly(ttl, Next(verifies, ttl, s, op), op.at)
  {
    var s1 := Next(verifies, ttl, s, op);
    assert s1.pending == if op.shown.Some? then s.pending - {op.shown.value} else s.pending;
  }

  lemma {:induction false} KeepsRun(verifies: Verifies, ttl: real, ops: seq<Op>, now: real)
    requires 0.0 <= ttl && Fair(verifies, ttl, ops) && (ops != [] ==> ops[|ops| - 1].at <= now)
    ensures KeepsExactly(ttl, Run(verifies, ttl, ops), now)
    ensures forall n <- Run(verifies, ttl, ops).history.issued :: Wire.IsNonce(n)
  {
    if ops != [] {
      var init, op := ops[..|ops| - 1], ops[|ops| - 1];
      FairInit(verifies, ttl, ops);
      KeepsRun(verifies, ttl, init, op.at);
      var s := Run(verifies, ttl, init);
      if op.Issue? {
        assert Drawn(s.history, op.nonce);
        IssueKeeps(verifies, ttl, s, op, op.at);
      } else {
        PresentKeeps(verifies, ttl, s, op, op.at);
      }
    }
  }

  // What a response is answered, told from the history alone.
  function Due(verifies: Verifies, ttl: real, h: History, op: Op): Verdict
    requires op.Present?
  {
    if op.shown.None? || !Wire.MatchesNonce(op.shown.value) then MalformedNonce else
    var n := op.shown.value;
    if n !in h.issued || n in h.presented || h.swept - h.issued[n].at > ttl then UnknownNonce
    else if h.issued[n].device != op.sender.id then OtherDevice
    else if op.at - h.issued[n].at > ttl then Expired
    else
      var text := Wire.SignedMessage("response", n, h.issued[n].issuedMs, op.sender.id, op.target);
      if text.None? || op.sender.key.None? then Raised
      else if op.signature.Some? && |op.signature.value| <= 200
              && verifies(op.sender.key.value, text.value, op.signature.value)
      then Accepted(n, h.issued[n])
      else BadSignature
  }

  lemma {:induction false} JudgesDue(verifies: Verifies, ttl: real, pending: Table, h: History, op: Op)
    requires op.Present? && pending == Kept(h, ttl)
    ensures CheckResponse(verifies, pending, ttl, op.target, op.sender, op.shown, op.signature, op.at).1
            == Due(verifies, ttl, h, op)
  {
    if op.shown.Some? && Wire.MatchesNonce(op.shown.value) {
      var n := op.shown.value;
      assert n in pending <==> n in h.issued && n !in h.presented && h.swept - h.issued[n].at <= ttl;
    }
  }

  // With a constant lifetime, every response gets the verdict that the history makes due: a nonce is
  // unknown exactly when it was never issued, was presented before by anyone, or was out of time when
  // a challenge was last asked for, and it has expired when it ran out of time since.
  lemma {:induction false} VerdictExactly(verifies: Verifies, ttl: real, ops: seq<Op>, op: Op)
    requires 0.0 <= ttl && Fair(verifies, ttl, ops + [op]) && op.Present?
    ensures var s := Run(verifies, ttl, ops);
            CheckResponse(verifies, s.pending, ttl, op.target, op.sender, op.shown, op.signature, op.at).1
            == Due(verifies, ttl, s.history, op)
  {
    var all := ops + [op];
    assert all[..|all| - 1] == ops && all[|ops|] == op;
    FairInit(verifies, ttl, all);
    if ops != [] {
      assert all[|ops| - 1] == ops[|ops| - 1];
    }
    KeepsRun(verifies, ttl, ops, op.at);
    var s := Run(verifies, ttl, ops);
    JudgesDue(verifies, ttl, s.pending, s.history, op);
  }
}
