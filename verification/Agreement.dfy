/** Injective agreement between authorisations, challenges and honest phone runs. */
module Agreement {
  import opened Prelude
  import opened Protocol
  import opened StepFacts
  import Challenges
  import Client
  import S = Service
  import F = ServiceFacts
  import Wire

  // The challenge at j prompted the phone run at k: the laptop signed it, for the same nonce,
  // issue time, device and target.
  predicate Prompted(trace: seq<Event>, j: nat, k: nat) {
    && j < k < |trace| && trace[j].Issued? && trace[k].Signed?
    && trace[j].text.Some?
    && trace[j].nonce == trace[k].nonce && trace[j].issuedMs == trace[k].issuedMs
    && trace[j].device == trace[k].device && trace[j].target == trace[k].target
  }

  // The authorisation at i rests on the challenge at j and on the phone run at k.
  predicate Vouched(trace: seq<Event>, i: nat, j: nat, k: nat) {
    && i < |trace| && trace[i].Authorized? && k < i && Prompted(trace, j, k)
    && trace[k].key == trace[i].key
    && trace[k].nonce == trace[i].nonce && trace[k].issuedMs == trace[i].issuedMs
    && trace[k].device == trace[i].device && trace[k].target == trace[i].target
    && 0.0 <= trace[i].at - trace[j].at <= trace[i].ttl
  }

  // The authorisation at i used up the challenge at j: it was issued to that device, with that nonce,
  // and no longer ago than the lifetime in force.
  predicate Uses(trace: seq<Event>, i: nat, j: nat) {
    && j < i < |trace| && trace[i].Authorized? && trace[j].Issued?
    && trace[j].nonce == trace[i].nonce && trace[j].device == trace[i].device
    && trace[j].issuedMs == trace[i].issuedMs && 0.0 <= trace[i].at - trace[j].at <= trace[i].ttl
  }

  predicate IssuedAs(e: Event, nonce: string, r: Challenges.Pending, now: real) {
    && e.Issued? && e.nonce == nonce && e.device == r.device && e.issuedMs == r.issuedMs && e.at == r.at
    && r.at <= now
  }

  // What was signed says what it was signed for.
  ghost predicate Honest(e: Event) {
    && (e.Issued? && e.text.Some? ==>
          e.text == Wire.SignedMessage(Wire.CHALLENGE, e.nonce, e.issuedMs, e.device, e.target))
    && (e.Signed? ==> Some(e.response) == Wire.SignedMessage(Wire.RESPONSE, e.nonce, e.issuedMs, e.device, e.target))
  }

  ghost predicate PendingIssued(trace: seq<Event>, pending: Challenges.Table, now: real) {
    && (forall n <- pending :: exists e <- trace :: IssuedAs(e, n, pending[n], now))
    && (forall e <- trace :: e.Authorized? ==> e.nonce !in pending)
  }

  ghost predicate NoncesOnce(trace: seq<Event>) {
    && (forall i, j | 0 <= i < j < |trace| && trace[i].Issued? && trace[j].Issued? :: trace[i].nonce != trace[j].nonce)
    && (forall i, j | 0 <= i < j < |trace| && trace[i].Authorized? && trace[j].Authorized? ::
          trace[i].nonce != trace[j].nonce)
    // what was authorised had been issued before
    && (forall e <- trace :: e.Authorized? ==> exists f <- trace :: f.Issued? && f.nonce == e.nonce)
  }

  ghost predicate HasPrompt(trace: seq<Event>, k: nat) {
    exists j: nat :: Prompted(trace, j, k)
  }

  ghost predicate HasVouchers(trace: seq<Event>, i: nat) {
    exists j: nat, k: nat :: Vouched(trace, i, j, k)
  }

  ghost predicate HasChallenge(trace: seq<Event>, i: nat) {
    exists j: nat :: Uses(trace, i, j)
  }

  ghost predicate Backed(w: World, trace: seq<Event>) {
    && (forall i: nat | i < |trace| && trace[i].Authorized? :: HasChallenge(trace, i))
    && (forall e <- trace :: Honest(e))
    && (forall k: nat | k < |trace| && trace[k].Signed? :: HasPrompt(trace, k))
    && (forall i: nat | i < |trace| && trace[i].Authorized? && trace[i].key in w.honest :: HasVouchers(trace, i))
  }

  ghost predicate Agreed(w: World, trace: seq<Event>, pending: Challenges.Table, now: real) {
    && PendingIssued(trace, pending, now)
    && NoncesOnce(trace)
    && Backed(w, trace)
  }

  ghost predicate Inv(w: World, g: Global) {
    Agreed(w, g.trace, g.svc.pending, g.clock)
  }

  // ---- growing the trace ---------------------------------------------------------------------

  lemma {:induction false} HasPromptGrows(trace: seq<Event>, more: seq<Event>, k: nat)
    requires HasPrompt(trace, k)
    ensures HasPrompt(trace + more, k)
  {
    var j: nat :| Prompted(trace, j, k);
    assert Prompted(trace + more, j, k);
  }

  lemma {:induction false} HasVouchersGrows(trace: seq<Event>, more: seq<Event>, i: nat)
    requires HasVouchers(trace, i)
    ensures HasVouchers(trace + more, i)
  {
    var j: nat, k: nat :| Vouched(trace, i, j, k);
    assert Prompted(trace + more, j, k);
    assert Vouched(trace + more, i, j, k);
  }

  lemma {:induction false} HasChallengeGrows(trace: seq<Event>, more: seq<Event>, i: nat)
    requires HasChallenge(trace, i)
    ensures HasChallenge(trace + more, i)
  {
    var j: nat :| Uses(trace, i, j);
    assert Uses(trace + more, i, j);
  }

  // Only the new events need backing.
  lemma {:induction false} BackedGrows(w: World, trace: seq<Event>, more: seq<Event>)
    requires Backed(w, trace) && forall e <- more :: Honest(e)
    requires forall k: nat | |trace| <= k < |trace + more| && (trace + more)[k].Signed? :: HasPrompt(trace + more, k)
    requires forall i: nat | |trace| <= i < |trace + more| && (trace + more)[i].Authorized?
                       && (trace + more)[i].key in w.honest ::
               HasVouchers(trace + more, i)
    requires forall i: nat | |trace| <= i < |trace + more| && (trace + more)[i].Authorized? ::
               HasChallenge(trace + more, i)
    ensures Backed(w, trace + more)
  {
    var all := trace + more;
    forall i: nat | i < |all| && all[i].Authorized?
      ensures HasChallenge(all, i)
    {
      if i < |trace| {
        assert trace[i] == all[i];
        HasChallengeGrows(trace, more, i);
      }
    }
    forall k: nat | k < |all| && all[k].Signed?
      ensures HasPrompt(all, k)
    {
      if k < |trace| {
        assert trace[k] == all[k];
        HasPromptGrows(trace, more, k);
      }
    }
    forall i: nat | i < |all| && all[i].Authorized? && all[i].key in w.honest
      ensures HasVouchers(all, i)
    {
      if i < |trace| {
        assert trace[i] == all[i];
        HasVouchersGrows(trace, more, i);
      }
    }
  }

  // Events that are neither challenges nor authorisations leave the nonces alone.
  predicate Plain(e: Event) {
    !e.Issued? && !e.Authorized?
  }

  lemma {:induction false} NoncesOnceGrows(trace: seq<Event>, e: Event)
    requires NoncesOnce(trace)
    requires e.Issued? ==> forall f <- trace :: f.Issued? ==> f.nonce != e.nonce
    requires e.Authorized? ==> (forall f <- trace :: f.Authorized? ==> f.nonce != e.nonce)
    requires e.Authorized? ==> exists f <- trace :: f.Issued? && f.nonce == e.nonce
    ensures NoncesOnce(trace + [e])
  {
    var all := trace + [e];
    forall x <- all | x.Authorized?
      ensures exists f <- all :: f.Issued? && f.nonce == x.nonce
    {
      var f :| f in trace && f.Issued? && f.nonce == x.nonce;
      assert f in all;
    }
  }

  lemma {:induction false} PendingIssuedGrows(trace: seq<Event>, more: seq<Event>, before: Challenges.Table,
                                              after: Challenges.Table, t0: real, now: real)
    requires PendingIssued(trace, before, t0) && t0 <= now
    requires after.Keys <= before.Keys && forall n <- after :: after[n] == before[n]
    requires forall e <- more :: e.Authorized? ==> e.nonce !in after
    ensures PendingIssued(trace + more, after, now)
  {
    forall n <- after
      ensures exists e <- trace + more :: IssuedAs(e, n, after[n], now)
    {
      var e :| e in trace && IssuedAs(e, n, before[n], t0);
      assert e in trace + more && IssuedAs(e, n, after[n], now);
    }
  }

  // A step that shrinks the table and adds at most one plain event of no phone keeps the invariant.
  lemma {:induction false} PlainStep(w: World, trace: seq<Event>, more: seq<Event>, before: Challenges.Table,
                                     after: Challenges.Table, t0: real, now: real)
    requires Agreed(w, trace, before, t0) && t0 <= now && F.Within(after, before)
    requires |more| <= 1 && forall e <- more :: Plain(e) && !e.Signed?
    ensures Agreed(w, trace + more, after, now)
  {
    PendingIssuedGrows(trace, more, before, after, t0, now);
    BackedGrows(w, trace, more);
    if more != [] {
      assert more[0] in more && more == [more[0]];
      NoncesOnceGrows(trace, more[0]);
    } else {
      assert trace + more == trace;
    }
  }

  // ---- signatures ----------------------------------------------------------------------------

  // A text can only have been signed by the laptop as a challenge, or by a phone as a response,
  // and says for what.
  lemma {:induction false} SignerOf(w: World, trace: seq<Event>, e: Event, key: string, role: string, nonce: string,
                                    ms: int, device: string, target: string)
    requires e in trace && Honest(e)
    requires Wire.SignedMessage(role, nonce, ms, device, target).Some?
    requires MakesSign(w, e, key, Wire.SignedMessage(role, nonce, ms, device, target).value)
    ensures role == Wire.CHALLENGE ==>
              e.Issued? && e.text.Some? && e.nonce == nonce && e.issuedMs == ms
              && e.device == device && e.target == target
    ensures role == Wire.RESPONSE ==>
              e.Signed? && e.key == key && e.nonce == nonce && e.issuedMs == ms
              && e.device == device && e.target == target
  {
    var a := Wire.Fields(role, nonce, ms, device, target);
    if e.Issued? {
      Wire.SignedBytesInjective(a, Wire.Fields(Wire.CHALLENGE, e.nonce, e.issuedMs, e.device, e.target));
    } else {
      Wire.SignedBytesInjective(a, Wire.Fields(Wire.RESPONSE, e.nonce, e.issuedMs, e.device, e.target));
    }
  }

  // What a phone run that signed had in front of it: a signature only the laptop can have made.
  lemma {:induction false} PhoneSaw(w: World, trace: seq<Event>, run: Event, ch: Client.Challenge)
    requires run.Signed? && run.nonce == ch.nonce && run.issuedMs == ch.issuedMs
    requires Client.Unlock(w.env.verifies, w.laptopKey, run.device, run.target, ch).Some?
    requires ch.signature.Some? ==> Unforged(w, trace, ch.signature.value)
    ensures var text := Wire.SignedMessage(Wire.CHALLENGE, run.nonce, run.issuedMs, run.device, run.target);
            text.Some? && exists e <- trace :: MakesSign(w, e, w.laptopKey, text.value)
  {
    var text := Wire.SignedMessage(Wire.CHALLENGE, ch.nonce, ch.issuedMs, run.device, run.target).value;
    assert w.env.verifies(w.laptopKey, text, ch.signature.value);
  }

  lemma {:induction false} PhonePrompted(w: World, trace: seq<Event>, run: Event)
    requires run.Signed? && forall e <- trace :: Honest(e)
    requires var text := Wire.SignedMessage(Wire.CHALLENGE, run.nonce, run.issuedMs, run.device, run.target);
             text.Some? && exists e <- trace :: MakesSign(w, e, w.laptopKey, text.value)
    ensures HasPrompt(trace + [run], |trace|)
  {
    var text := Wire.SignedMessage(Wire.CHALLENGE, run.nonce, run.issuedMs, run.device, run.target).value;
    var e :| e in trace && MakesSign(w, e, w.laptopKey, text);
    SignerOf(w, trace, e, w.laptopKey, Wire.CHALLENGE, run.nonce, run.issuedMs, run.device, run.target);
    var j: nat :| j < |trace| && trace[j] == e;
    assert Prompted(trace + [run], j, |trace|);
  }

  lemma {:induction false} PhoneStep(w: World, trace: seq<Event>, pending: Challenges.Table, t0: real, now: real,
                                     run: Event)
    requires Agreed(w, trace, pending, t0) && t0 <= now
    requires run.Signed? && Honest(run) && HasPrompt(trace + [run], |trace|)
    ensures Agreed(w, trace + [run], pending, now)
  {
    BackedGrows(w, trace, [run]);
    NoncesOnceGrows(trace, run);
    PendingIssuedGrows(trace, [run], pending, pending, t0, now);
  }

  // ---- challenges ----------------------------------------------------------------------------

  lemma {:induction false} ChallengeStep(w: World, trace: seq<Event>, before: Challenges.Table,
                                         kept: Challenges.Table, t0: real, now: real, e: Event)
    requires Agreed(w, trace, before, t0) && t0 <= now && F.Within(kept, before)
    requires e.Issued? && Honest(e) && e.at == now && Fresh(trace, e.nonce)
    ensures Agreed(w, trace + [e], kept[e.nonce := Challenges.Pending(e.device, now, e.issuedMs)], now)
  {
    var record := Challenges.Pending(e.device, now, e.issuedMs);
    var after, all := kept[e.nonce := record], trace + [e];
    PendingIssuedGrows(trace, [e], before, kept, t0, now);
    assert IssuedAs(e, e.nonce, record, now) && e in all;
    forall f <- all | f.Authorized?
      ensures f.nonce !in after
    {
      assert f in trace;
      var issue :| issue in trace && issue.Issued? && issue.nonce == f.nonce;
    }
    forall n <- after
      ensures exists x <- all :: IssuedAs(x, n, after[n], now)
    {
      if n != e.nonce {
        assert after[n] == kept[n];
      }
    }
    NoncesOnceGrows(trace, e);
    BackedGrows(w, trace, [e]);
  }

  // ---- authorisations ------------------------------------------------------------------------

  // The phone run has the fields of the authorisation.
  predicate SignedFor(run: Event, e: Event)
    requires e.Authorized?
  {
    && run.Signed? && run.key == e.key && run.nonce == e.nonce && run.issuedMs == e.issuedMs
    && run.device == e.device && run.target == e.target
  }

  // The response that was accepted was signed in a phone run.
  lemma {:induction false} ResponseSigned(w: World, trace: seq<Event>, e: Event) returns (k: nat)
    requires e.Authorized? && forall f <- trace :: Honest(f)
    requires var text := Wire.SignedMessage(Wire.RESPONSE, e.nonce, e.issuedMs, e.device, e.target);
             text.Some? && exists f <- trace :: MakesSign(w, f, e.key, text.value)
    ensures k < |trace| && SignedFor(trace[k], e)
  {
    var text := Wire.SignedMessage(Wire.RESPONSE, e.nonce, e.issuedMs, e.device, e.target).value;
    var f :| f in trace && MakesSign(w, f, e.key, text);
    SignerOf(w, trace, f, e.key, Wire.RESPONSE, e.nonce, e.issuedMs, e.device, e.target);
    k :| k < |trace| && trace[k] == f;
  }

  // There is one challenge with a nonce, so the prompt is the pending one.
  lemma {:induction false} PromptIsPending(trace: seq<Event>, pending: Challenges.Table, now: real, j: nat, k: nat)
    requires PendingIssued(trace, pending, now) && NoncesOnce(trace) && Prompted(trace, j, k)
    requires trace[k].nonce in pending
    ensures trace[j].at == pending[trace[k].nonce].at <= now
  {
    var nonce := trace[k].nonce;
    var c :| c in trace && IssuedAs(c, nonce, pending[nonce], now);
    var m: nat :| m < |trace| && trace[m] == c;
    assert m == j;
  }

  lemma {:induction false} AuthorizedVouched(w: World, trace: seq<Event>, pending: Challenges.Table,
                                             t0: real, now: real, e: Event, r: Challenges.Pending, more: seq<Event>)
    requires Agreed(w, trace, pending, t0) && t0 <= now && e.Authorized? && e.key in w.honest && e.at == now
    requires e.nonce in pending && pending[e.nonce] == r
    requires r.device == e.device && r.issuedMs == e.issuedMs && now - r.at <= e.ttl
    requires var text := Wire.SignedMessage(Wire.RESPONSE, e.nonce, e.issuedMs, e.device, e.target);
             text.Some? && exists f <- trace :: MakesSign(w, f, e.key, text.value)
    requires |more| == 2 && more[1] == e
    ensures HasVouchers(trace + more, |trace| + 1)
  {
    var k := ResponseSigned(w, trace, e);
    assert HasPrompt(trace, k);
    var j: nat :| Prompted(trace, j, k);
    PromptIsPending(trace, pending, t0, j, k);
    VouchedAtEnd(trace, e, more, j, k);
  }

  lemma {:induction false} VouchedAtEnd(trace: seq<Event>, e: Event, more: seq<Event>, j: nat, k: nat)
    requires e.Authorized? && |more| == 2 && more[1] == e && Prompted(trace, j, k)
    requires SignedFor(trace[k], e)
    requires 0.0 <= e.at - trace[j].at <= e.ttl
    ensures HasVouchers(trace + more, |trace| + 1)
  {
    var all, i := trace + more, |trace| + 1;
    assert all[i] == e && all[j] == trace[j] && all[k] == trace[k];
    assert Vouched(all, i, j, k);
  }

  lemma {:induction false} AuthorizedUses(trace: seq<Event>, pending: Challenges.Table, t0: real, now: real, e: Event,
                                          r: Challenges.Pending, more: seq<Event>)
    requires PendingIssued(trace, pending, t0) && t0 <= now && e.Authorized? && e.at == now
    requires e.nonce in pending && pending[e.nonce] == r
    requires r.device == e.device && r.issuedMs == e.issuedMs && now - r.at <= e.ttl
    requires |more| == 2 && more[1] == e
    ensures HasChallenge(trace + more, |trace| + 1)
  {
    var c :| c in trace && IssuedAs(c, e.nonce, r, t0);
    var j: nat :| j < |trace| && trace[j] == c;
    assert (trace + more)[|trace| + 1] == e && (trace + more)[j] == c;
    assert Uses(trace + more, |trace| + 1, j);
  }

  lemma {:induction false} AuthorizeStep(w: World, trace: seq<Event>, pending: Challenges.Table, t0: real, now: real,
                                         e0: Event, e: Event, r: Challenges.Pending)
    requires Agreed(w, trace, pending, t0) && t0 <= now && e0.Evaluated? && e.Authorized? && e.at == now
    requires e.nonce in pending && pending[e.nonce] == r
    requires r.device == e.device && r.issuedMs == e.issuedMs && now - r.at <= e.ttl
    requires e.key in w.honest ==> HasVouchers(trace + [e0, e], |trace| + 1)
    ensures Agreed(w, trace + [e0, e], pending - {e.nonce}, now)
  {
    var more := [e0, e];
    AuthorizedUses(trace, pending, t0, now, e, r, more);
    BackedGrows(w, trace, more);
    PendingIssuedGrows(trace, more, pending, pending - {e.nonce}, t0, now);
    NoncesOnceGrows(trace, e0);
    var c :| c in trace && IssuedAs(c, e.nonce, r, t0);
    assert c in trace + [e0];
    NoncesOnceGrows(trace + [e0], e);
    assert trace + more == trace + [e0] + [e];
  }

  // ---- every step ----------------------------------------------------------------------------

  lemma {:induction false} HelloKeeps(w: World, g: Global, step: Step)
    requires Inv(w, g) && Enabled(w, g, step) && step.action.Hello?
    ensures Inv(w, Next(w, g, step))
  {
    var Hello(sid, hello, nonce, ms, audit) := step.action;
    var p := g.sessions[sid];
    var r := S.OnHello(w.env, g.svc, p.ip, p.cert, hello, nonce, ms, audit, step.at);
    F.HelloFacts(w.env, g.svc, p.ip, p.cert, hello, nonce, ms, audit, step.at);
    var more := Events(sid, p.ip, r.note, step.at);
    if r.note.Stored? {
      var e := more[0];
      var kept: Challenges.Table :| F.Within(kept, g.svc.pending)
        && r.state.pending == kept[nonce := Challenges.Pending(r.note.device, step.at, ms)];
      ChallengeStep(w, g.trace, g.svc.pending, kept, g.clock, step.at, e);
    } else {
      PlainStep(w, g.trace, more, g.svc.pending, r.state.pending, g.clock, step.at);
    }
  }

  lemma {:induction false} ResultKeeps(w: World, trace: seq<Event>, svc: S.State, sid: nat, ip: string,
                                       device: S.Registry.Device, response: S.Response, r: S.Result, t0: real,
                                       now: real)
    requires Agreed(w, trace, svc.pending, t0) && t0 <= now
    requires F.Answered(w.env, svc, device, response, r, now)
    requires response.ResponseGiven? && response.signature.Some? ==> Unforged(w, trace, response.signature.value)
    ensures Agreed(w, trace + Events(sid, ip, r.note, now), r.state.pending, now)
  {
    var more := Events(sid, ip, r.note, now);
    if r.note.Judged? && r.note.verdict.Accepted? {
      var record, e := r.note.verdict.record, more[1];
      assert more == [more[0], e];
      if e.key in w.honest {
        assert Unforged(w, trace, response.signature.value);
        AuthorizedVouched(w, trace, svc.pending, t0, now, e, record, more);
      }
      AuthorizeStep(w, trace, svc.pending, t0, now, more[0], e, record);
    } else {
      PlainStep(w, trace, more, svc.pending, r.state.pending, t0, now);
    }
  }

  lemma {:induction false} RespondKeeps(w: World, g: Global, step: Step)
    requires Inv(w, g) && Enabled(w, g, step) && step.action.Respond?
    ensures Inv(w, Next(w, g, step))
  {
    var Respond(sid, response, audit) := step.action;
    var p := g.sessions[sid];
    var r := S.OnResponse(w.env, g.svc, p.ip, p.device, response, audit, step.at);
    F.ResponseFacts(w.env, g.svc, p.ip, p.device, response, audit, step.at);
    ResultKeeps(w, g.trace, g.svc, sid, p.ip, p.device, response, r, g.clock, step.at);
  }

  lemma {:induction false} PhoneKeeps(w: World, g: Global, step: Step)
    requires Inv(w, g) && Enabled(w, g, step) && step.action.Phone?
    ensures Inv(w, Next(w, g, step))
  {
    var Phone(key, device, target, ch) := step.action;
    var text := Client.Unlock(w.env.verifies, w.laptopKey, device, target, ch);
    if text.Some? {
      var run := Signed(key, ch.nonce, ch.issuedMs, device, target, text.value);
      Client.UnlockExactly(w.env.verifies, w.laptopKey, device, target, ch);
      PhoneSaw(w, g.trace, run, ch);
      PhonePrompted(w, g.trace, run);
      PhoneStep(w, g.trace, g.svc.pending, g.clock, step.at, run);
    } else {
      PlainStep(w, g.trace, [], g.svc.pending, g.svc.pending, g.clock, step.at);
    }
  }

  // What all other steps have in common: no challenge, no phone run and no response is judged.
  ghost predicate Elsewhere(g: Global, g1: Global, at: real) {
    && g1.svc.pending == g.svc.pending && g1.clock == at
    && Unsigned(g, g1)
  }

  lemma {:induction false} SessionEdges(w: World, g: Global, step: Step)
    requires Enabled(w, g, step) && (step.action.Open? || step.action.Finish?)
    ensures Elsewhere(g, Next(w, g, step), step.at)
  {
    var g1 := Next(w, g, step);
    if step.action.Open? {
      var Open(sid, ip, fingerprint, access, audit) := step.action;
      var reading := S.Registry.Observe(g.disk, access).0;
      F.OpenFacts(w.env, g.svc, ip, fingerprint, reading, audit, step.at);
    } else {
      var Finish(sid, audit) := step.action;
      var p := g.sessions[sid];
      F.FinishFacts(w.env, g.svc, p.ip, p.owes, audit, step.at);
    }
    assert g1.trace == g.trace + [];
  }

  lemma {:induction false} OtherSteps(w: World, g: Global, step: Step)
    requires Enabled(w, g, step)
    requires !SessionAction(step.action) && !step.action.Phone?
    ensures Elsewhere(g, Next(w, g, step), step.at)
  {
    SideSteps(w, g, step);
  }

  lemma {:induction false} StepKeeps(w: World, g: Global, step: Step)
    requires Inv(w, g) && Enabled(w, g, step)
    ensures Inv(w, Next(w, g, step))
  {
    match step.action
    case Hello(_, _, _, _, _) => HelloKeeps(w, g, step);
    case Respond(_, _, _) => RespondKeeps(w, g, step);
    case Phone(_, _, _, _) => PhoneKeeps(w, g, step);
    case Open(_, _, _, _, _) =>
      SessionEdges(w, g, step);
      ElsewhereKeeps(w, g, Next(w, g, step), step.at);
    case Finish(_, _) =>
      SessionEdges(w, g, step);
      ElsewhereKeeps(w, g, Next(w, g, step), step.at);
    case _ =>
      OtherSteps(w, g, step);
      ElsewhereKeeps(w, g, Next(w, g, step), step.at);
  }

  lemma {:induction false} ElsewhereKeeps(w: World, g: Global, g1: Global, at: real)
    requires Inv(w, g) && g.clock <= at && Elsewhere(g, g1, at)
    ensures Inv(w, g1)
  {
    if g1.trace == g.trace {
      PlainStep(w, g.trace, [], g.svc.pending, g1.svc.pending, g.clock, at);
      assert g.trace + [] == g.trace;
    } else {
      var e: Event :| (e.Consumed? || e.Yes?) && g1.trace == g.trace + [e];
      PlainStep(w, g.trace, [e], g.svc.pending, g1.svc.pending, g.clock, at);
    }
  }

  lemma {:induction false} RunKeeps(w: World, g: Global, steps: seq<Step>)
    requires Inv(w, g) && ValidRun(w, g, steps)
    ensures Inv(w, Run(w, g, steps))
    decreases |steps|
  {
    if steps != [] {
      StepKeeps(w, g, steps[0]);
      RunKeeps(w, Next(w, g, steps[0]), steps[1..]);
    }
  }

  lemma {:induction false} VouchersOf(w: World, cfg: S.Registry.Data, steps: seq<Step>, i: nat) returns (j: nat, k: nat)
    requires ValidRun(w, Init(cfg), steps)
    requires var trace := Run(w, Init(cfg), steps).trace;
             i < |trace| && trace[i].Authorized? && trace[i].key in w.honest
    ensures Vouched(Run(w, Init(cfg), steps).trace, i, j, k)
  {
    RunKeeps(w, Init(cfg), steps);
    var trace := Run(w, Init(cfg), steps).trace;
    assert HasVouchers(trace, i);
    j, k :| Vouched(trace, i, j, k);
  }

  // Injective agreement, in every interleaving and whatever the network does: each authorisation,
  // whatever its key, used up an earlier challenge issued to that device and no older than the
  // lifetime in force, and a challenge of its own; each one under an honest device key rests also on
  // a later but still earlier run of an honest phone with that key, which verified the laptop's
  // signature over the same nonce, issue time, device and target before it signed; no two
  // authorisations share a challenge or a phone run; and every phone run, used or not, was prompted
  // by a challenge that the laptop issued and signed before.
  lemma {:induction false} InjectiveAgreement(w: World, cfg: S.Registry.Data, steps: seq<Step>)
    requires ValidRun(w, Init(cfg), steps)
    ensures var trace := Run(w, Init(cfg), steps).trace;
            && (forall i: nat | i < |trace| && trace[i].Authorized? && trace[i].key in w.honest ::
                  exists j: nat, k: nat :: Vouched(trace, i, j, k))
            && (forall i: nat, j: nat, k: nat, i': nat, j': nat, k': nat |
                  i != i' && Vouched(trace, i, j, k) && Vouched(trace, i', j', k') :: j != j' && k != k')
            && (forall k: nat | k < |trace| && trace[k].Signed? :: exists j: nat :: Prompted(trace, j, k))
            && (forall i: nat | i < |trace| && trace[i].Authorized? :: exists j: nat :: Uses(trace, i, j))
            && (forall i: nat, j: nat, i': nat, j': nat |
                  i != i' && Uses(trace, i, j) && Uses(trace, i', j') :: j != j')
  {
    RunKeeps(w, Init(cfg), steps);
    var trace := Run(w, Init(cfg), steps).trace;
    forall i: nat | i < |trace| && trace[i].Authorized? && trace[i].key in w.honest
      ensures exists j: nat, k: nat :: Vouched(trace, i, j, k)
    {
      assert HasVouchers(trace, i);
    }
    forall k: nat | k < |trace| && trace[k].Signed?
      ensures exists j: nat :: Prompted(trace, j, k)
    {
      assert HasPrompt(trace, k);
    }
    forall i: nat | i < |trace| && trace[i].Authorized?
      ensures exists j: nat :: Uses(trace, i, j)
    {
      assert HasChallenge(trace, i);
    }
  }
}
