/** What the stretches of the service do to the pending table, stated once for the protocol proofs. */
module ServiceFacts {
  import opened Prelude
  import opened Service
  import Backoffs
  import Broker
  import Challenges
  import Registry
  import Wire

  ghost predicate Within(a: Challenges.Table, b: Challenges.Table) {
    a.Keys <= b.Keys && forall n <- a :: a[n] == b[n]
  }

  // A charge touches nothing but the two lockout tables, and nobody is told yes.
  predicate Charged(s: State, r: Result) {
    && r.note.Nothing? && r.phase.Closing? && r.phase.told != Some(true)
    && r.state.pending == s.pending && r.state.broker == s.broker && r.state.cfg == s.cfg
    && r.state.mtime == s.mtime && r.state.active == s.active
  }

  lemma {:induction false} ChargeFacts(env: Env, s: State, ip: string, device: Option<string>, audit: Writes, now: real)
    ensures Charged(s, HandlerFail(env, s, ip, audit, now))
    ensures Charged(s, Reject(env, s, ip, device, audit, now))
    ensures Charged(s, TurnAway(env, s, ip, audit, now))
  {
  }

  lemma {:induction false} OpenFacts(env: Env, s: State, ip: string, fingerprint: Option<string>,
                                     reading: Option<Registry.Reading>, audit: Writes, now: real)
    ensures var r := Open(env, s, ip, fingerprint, reading, audit, now);
            && r.note == Nothing && r.state.pending == s.pending && r.state.broker == s.broker
            && (r.phase.Closing? ==> r.phase.told != Some(true))
  {
    var (cfg, mtime) := Registry.Reload(s.cfg, s.mtime, reading);
    ChargeFacts(env, s.(active := s.active + 1, cfg := cfg, mtime := mtime), ip, None, audit, now);
  }

  lemma {:induction false} FinishFacts(env: Env, s: State, ip: string, owes: bool, audit: Writes, now: real)
    ensures var r := Finish(env, s, ip, owes, audit, now);
            r.note == Nothing && r.state.pending == s.pending && r.state.broker == s.broker
  {
  }

  ghost predicate Challenged(s: State, r: Result, nonce: string, issuedMs: int, now: real) {
    && r.state.broker == s.broker
    && (r.phase.Closing? ==> r.phase.told != Some(true))
    && (r.note.Nothing? || r.note.Stored?)
    && (r.note.Nothing? ==> Within(r.state.pending, s.pending))
    && (r.note.Stored? ==>
          && r.note.nonce == nonce && r.note.issuedMs == issuedMs
          && (exists kept: Challenges.Table :: Within(kept, s.pending)
                && r.state.pending == kept[nonce := Challenges.Pending(r.note.device, now, issuedMs)])
          && (r.note.issue.Sent? ==>
                Some(r.note.issue.text)
                == Wire.SignedMessage(Wire.CHALLENGE, nonce, issuedMs, r.note.device, r.note.target)))
  }

  lemma {:induction false} ChallengeFacts(env: Env, s: State, ip: string, device: Registry.Device, nonce: string,
                                          issuedMs: int, audit: Writes, now: real)
    ensures Challenged(s, Challenge(env, s, ip, device, nonce, issuedMs, audit, now), nonce, issuedMs, now)
  {
    var st := s.cfg.settings;
    var kept := Challenges.Purge(s.pending, st.challengeTtl, now);
    assert Within(kept, s.pending);
    var (pending, issue) :=
      Challenges.IssueChallenge(s.pending, st.challengeTtl, st.targetId, device.id, nonce, issuedMs, now);
    ChargeFacts(env, s.(pending := pending), ip, None, audit, now);
    if !issue.Refused? {
      assert pending == kept[nonce := Challenges.Pending(device.id, now, issuedMs)];
    }
  }

  // How a hello can end: without a challenge, or with one for the chosen device, whose lockout is over.
  lemma {:induction false} HelloChoice(env: Env, s: State, ip: string, cert: Option<Registry.Device>, msg: Hello,
                                       nonce: string, issuedMs: int, audit: Writes, now: real)
    returns (chosen: Option<Registry.Device>)
    ensures var r := OnHello(env, s, ip, cert, msg, nonce, issuedMs, audit, now);
            if chosen.None? then
              || r == Drop(s) || r == HandlerFail(env, s, ip, audit, now)
              || r == Reject(env, s, ip, None, audit, now) || r == TurnAway(env, s, ip, audit, now)
            else r == Challenge(env, s, ip, chosen.value, nonce, issuedMs, audit, now)
    ensures chosen.Some? ==>
              && Backoffs.Remaining(s.dev, chosen.value.id, now) == 0.0
              && chosen == if cert.Some? then cert else Registry.DeviceById(s.cfg.devices, chosen.value.id)
  {
    chosen := None;
    if msg.HelloFrom? {
      var id := msg.device;
      var device := if cert.Some? then cert else Registry.DeviceById(s.cfg.devices, id);
      if device.Some? && device.value.id == id && Backoffs.Remaining(s.dev, id, now) <= 0.0 {
        chosen := device;
      }
    }
  }

  // A hello stores at most one challenge, under the drawn nonce, and signs what it stored.
  lemma {:induction false} HelloFacts(env: Env, s: State, ip: string, cert: Option<Registry.Device>, msg: Hello,
                                      nonce: string, issuedMs: int, audit: Writes, now: real)
    ensures Challenged(s, OnHello(env, s, ip, cert, msg, nonce, issuedMs, audit, now), nonce, issuedMs, now)
  {
    ChargeFacts(env, s, ip, None, audit, now);
    var chosen := HelloChoice(env, s, ip, cert, msg, nonce, issuedMs, audit, now);
    if chosen.Some? {
      ChallengeFacts(env, s, ip, chosen.value, nonce, issuedMs, audit, now);
    }
  }

  predicate Accepts(n: Note) {
    n.Judged? && n.verdict.Accepted?
  }

  // What it takes for check_response to accept.
  predicate AcceptedMeans(env: Env, pending: Challenges.Table, device: Registry.Device, msg: Response, nonce: string,
                          record: Challenges.Pending, target: string, ttl: real, now: real) {
    && nonce in pending && pending[nonce] == record
    && record.device == device.id && now - record.at <= ttl
    && device.key.Some? && msg.ResponseGiven? && msg.signature.Some?
    && var text := Wire.SignedMessage(Wire.RESPONSE, nonce, record.issuedMs, device.id, target);
    text.Some? && env.verifies(device.key.value, text.value, msg.signature.value)
  }

  // A response takes at most its own nonce out of the table, and a grant is issued exactly when
  // the verdict is Accepted.
  ghost predicate Answered(env: Env, s: State, device: Registry.Device, msg: Response, r: Result, now: real) {
    && (r.note.Nothing? || r.note.Judged?)
    && Within(r.state.pending, s.pending)
    && (r.note.Judged? ==> r.note.sender == device && msg.ResponseGiven?)
    && if r.note.Judged? && r.note.verdict.Accepted?
       then
         var v := r.note.verdict;
         && r.state.broker == Broker.Issue(s.broker, env.grantTtl, now)
         && AcceptedMeans(env, s.pending, device, msg, v.nonce, v.record, r.note.target, r.note.ttl, now)
         && r.state.pending == s.pending - {v.nonce}
       else r.state.broker == s.broker
  }

  lemma {:induction false} ResponseFacts(env: Env, s: State, ip: string, device: Registry.Device, msg: Response,
                                         audit: Writes, now: real)
    ensures Answered(env, s, device, msg, OnResponse(env, s, ip, device, msg, audit, now), now)
  {
    if msg.ResponseGiven? {
      GivenFacts(env, s, ip, device, msg, audit, now);
    } else {
      ChargeFacts(env, s, ip, Some(device.id), audit, now);
    }
  }

  lemma {:induction false} GivenFacts(env: Env, s: State, ip: string, device: Registry.Device, msg: Response,
                                      audit: Writes, now: real)
    requires msg.ResponseGiven?
    ensures Answered(env, s, device, msg, OnResponse(env, s, ip, device, msg, audit, now), now)
  {
    var st := s.cfg.settings;
    var (pending, verdict) :=
      Challenges.CheckResponse(env.verifies, s.pending, st.challengeTtl, st.targetId, device,
                               msg.nonce, msg.signature, now);
    var s1 := s.(pending := pending);
    CheckFacts(env, s.pending, st.challengeTtl, st.targetId, device, msg, now);
    if verdict.Accepted? {
      AuthorizeFacts(env, s1, ip, device.id, audit, now);
    } else {
      ChargeFacts(env, s1, ip, Some(device.id), audit, now);
    }
  }

  lemma {:induction false} CheckFacts(env: Env, pending: Challenges.Table, ttl: real, target: string,
                                      device: Registry.Device, msg: Response, now: real)
    requires msg.ResponseGiven?
    ensures var (after, v) := Challenges.CheckResponse(env.verifies, pending, ttl, target, device,
                                                       msg.nonce, msg.signature, now);
            && Within(after, pending)
            && (v.Accepted? ==>
                  && AcceptedMeans(env, pending, device, msg, v.nonce, v.record, target, ttl, now)
                  && after == pending - {v.nonce})
  {
  }

  lemma {:induction false} AuthorizeFacts(env: Env, s: State, ip: string, device: string, audit: Writes, now: real)
    ensures var r := Authorize(env, s, ip, device, audit, now);
            && r.state.pending == s.pending && r.state.broker == Broker.Issue(s.broker, env.grantTtl, now)
  {
  }

  // What the phone is told. A response issues a grant exactly when it is accepted; the phone is told
  // yes exactly when that is recorded too, and a phone whose response issued a grant is told no exactly
  // when recording it raised and the exception handler could record its rejection.
  lemma {:induction false} ToldExactly(env: Env, s: State, ip: string, device: Registry.Device, msg: Response,
                                       audit: Writes, now: real)
    ensures var r := OnResponse(env, s, ip, device, msg, audit, now);
            && (Accepts(r.note) ==> r.phase.Closing? && r.state.broker == Broker.Issue(s.broker, env.grantTtl, now))
            && (!Accepts(r.note) ==> r.state.broker == s.broker)
            && (r.phase.Closing? && r.phase.told == Some(true) <==> Accepts(r.note) && audit.session)
            && (r.phase.Closing? && r.phase.told == Some(false) && Accepts(r.note)
                <==> Accepts(r.note) && !audit.session && audit.handler)
  {
    ResponseFacts(env, s, ip, device, msg, audit, now);
    ChargeFacts(env, s, ip, Some(device.id), audit, now);
    if msg.ResponseGiven? {
      GivenTold(env, s, ip, device, msg, audit, now);
    }
  }

  lemma {:induction false} GivenTold(env: Env, s: State, ip: string, device: Registry.Device, msg: Response,
                                     audit: Writes, now: real)
    requires msg.ResponseGiven?
    ensures var r := OnResponse(env, s, ip, device, msg, audit, now);
            && r.phase.Closing?
            && (Accepts(r.note) ==>
                  r.phase.told == if audit.session then Some(true) else if audit.handler then Some(false) else None)
            && (!Accepts(r.note) ==> r.phase.told != Some(true))
  {
    var st := s.cfg.settings;
    var (pending, verdict) :=
      Challenges.CheckResponse(env.verifies, s.pending, st.challengeTtl, st.targetId, device,
                               msg.nonce, msg.signature, now);
    var s1 := s.(pending := pending);
    ChargeFacts(env, s1, ip, Some(device.id), audit, now);
  }

  // ---- seats and lockouts --------------------------------------------------------------------

  // A seat is given up exactly when the session is over, and a session that goes on was not charged.
  predicate Orderly(s: State, r: Result) {
    && r.state.active == s.active - (if r.phase.Closed? then 1 else 0)
    && (r.phase.HelloWait? || r.phase.ResponseWait? ==> r.state.ip == s.ip && r.state.dev == s.dev)
  }

  // The key is locked until `until`.
  predicate Held(t: Backoffs.Table, key: string, until: real) {
    key in t && t[key].until == until
  }

  // A running lockout is moved by no failure and by no other key's success.
  lemma {:induction false} HeldFacts(p: Backoffs.Params, t: Backoffs.Table, key: string, until: real, other: string,
                                     now: real)
    requires Held(t, key, until) && now < until
    ensures Held(Backoffs.Fail(p, t, other, now).0, key, until)
    ensures other != key ==> Held(Backoffs.Succeed(t, other), key, until)
  {
  }

  // Both tables keep the given lockouts, where there are any.
  predicate BothHeld(s: State, r: State, ip: string, device: string, until: real) {
    && (Held(s.ip, ip, until) ==> Held(r.ip, ip, until))
    && (Held(s.dev, device, until) ==> Held(r.dev, device, until))
  }

  lemma {:induction false} ChargeHolds(env: Env, s: State, ip: string, device: Option<string>, audit: Writes,
                                       now: real, lockedIp: string, lockedDevice: string, until: real)
    requires now < until
    ensures BothHeld(s, ChargeIp(env, s, ip, now), lockedIp, lockedDevice, until)
    ensures BothHeld(s, Reject(env, s, ip, device, audit, now).state, lockedIp, lockedDevice, until)
    ensures BothHeld(s, TurnAway(env, s, ip, audit, now).state, lockedIp, lockedDevice, until)
  {
    var t := Backoffs.Fail(env.lockout, s.ip, ip, now).0;
    if Held(s.ip, lockedIp, until) {
      HeldFacts(env.lockout, s.ip, lockedIp, until, ip, now);
      HeldFacts(env.lockout, t, lockedIp, until, ip, now);
    }
    if Held(s.dev, lockedDevice, until) && device.Some? {
      HeldFacts(env.lockout, s.dev, lockedDevice, until, device.value, now);
    }
  }

  lemma {:induction false} OpenSeats(env: Env, s: State, ip: string, fingerprint: Option<string>,
                                     reading: Option<Registry.Reading>, audit: Writes, now: real, lockedIp: string,
                                     lockedDevice: string, until: real)
    requires now < until
    ensures var r := Open(env, s, ip, fingerprint, reading, audit, now);
            && BothHeld(s, r.state, lockedIp, lockedDevice, until)
            && (if r.phase.Closed? then r.state == s
                else r.state.active == s.active + 1 && s.active < s.cfg.settings.maxConnections)
            && (r.phase.HelloWait? ==>
                  r.phase.ip == ip && Backoffs.Remaining(s.ip, ip, now) == 0.0
                  && r.state.ip == s.ip && r.state.dev == s.dev)
            && !r.phase.ResponseWait?
  {
    var (cfg, mtime) := Registry.Reload(s.cfg, s.mtime, reading);
    var s1 := s.(active := s.active + 1, cfg := cfg, mtime := mtime);
    ChargeFacts(env, s1, ip, None, audit, now);
    ChargeHolds(env, s1, ip, None, audit, now, lockedIp, lockedDevice, until);
  }

  lemma {:induction false} HelloSeats(env: Env, s: State, ip: string, cert: Option<Registry.Device>, msg: Hello,
                                      nonce: string, issuedMs: int, audit: Writes, now: real, lockedIp: string,
                                      lockedDevice: string, until: real)
    requires now < until
    ensures var r := OnHello(env, s, ip, cert, msg, nonce, issuedMs, audit, now);
            && BothHeld(s, r.state, lockedIp, lockedDevice, until)
            && Orderly(s, r) && !r.phase.HelloWait?
            && (r.phase.ResponseWait? ==>
                  r.phase.ip == ip && Backoffs.Remaining(s.dev, r.phase.device.id, now) == 0.0)
  {
    ChargeFacts(env, s, ip, None, audit, now);
    ChargeHolds(env, s, ip, None, audit, now, lockedIp, lockedDevice, until);
    var chosen := HelloChoice(env, s, ip, cert, msg, nonce, issuedMs, audit, now);
    if chosen.Some? {
      ChallengeSeats(env, s, ip, chosen.value, nonce, issuedMs, audit, now, lockedIp, lockedDevice, until);
    }
  }

  lemma {:induction false} ChallengeSeats(env: Env, s: State, ip: string, device: Registry.Device, nonce: string,
                                          issuedMs: int, audit: Writes, now: real, lockedIp: string,
                                          lockedDevice: string, until: real)
    requires now < until
    ensures var r := Challenge(env, s, ip, device, nonce, issuedMs, audit, now);
            && BothHeld(s, r.state, lockedIp, lockedDevice, until)
            && Orderly(s, r) && !r.phase.HelloWait?
            && (r.phase.ResponseWait? ==> r.phase.ip == ip && r.phase.device == device)
  {
    var st := s.cfg.settings;
    var s1 := s.(pending := Challenges.IssueChallenge(s.pending, st.challengeTtl, st.targetId,
                                                      device.id, nonce, issuedMs, now).0);
    ChargeHolds(env, s1, ip, None, audit, now, lockedIp, lockedDevice, until);
  }

  // Both tables keep the given lockouts, except for the keys that an authorisation clears.
  predicate HeldUnlessCleared(s: State, r: State, cleared: bool, ip: string, device: string, lockedIp: string,
                              lockedDevice: string, until: real) {
    && (Held(s.ip, lockedIp, until) && (cleared ==> ip != lockedIp) ==> Held(r.ip, lockedIp, until))
    && (Held(s.dev, lockedDevice, until) && (cleared ==> device != lockedDevice) ==> Held(r.dev, lockedDevice, until))
  }

  lemma {:induction false} ResponseSeats(env: Env, s: State, ip: string, device: Registry.Device, msg: Response,
                                         audit: Writes, now: real, lockedIp: string, lockedDevice: string,
                                         until: real)
    requires now < until
    ensures var r := OnResponse(env, s, ip, device, msg, audit, now);
            && HeldUnlessCleared(s, r.state, Accepts(r.note), ip, device.id, lockedIp, lockedDevice, until)
            && Orderly(s, r) && (r.phase.Closing? || r.phase.Closed?)
  {
    if msg.ResponseGiven? {
      GivenSeats(env, s, ip, device, msg, audit, now, lockedIp, lockedDevice, until);
    } else {
      ChargeFacts(env, s, ip, Some(device.id), audit, now);
      ChargeHolds(env, s, ip, Some(device.id), audit, now, lockedIp, lockedDevice, until);
    }
  }

  lemma {:induction false} GivenSeats(env: Env, s: State, ip: string, device: Registry.Device, msg: Response,
                                      audit: Writes, now: real, lockedIp: string, lockedDevice: string, until: real)
    requires now < until && msg.ResponseGiven?
    ensures var r := OnResponse(env, s, ip, device, msg, audit, now);
            && HeldUnlessCleared(s, r.state, Accepts(r.note), ip, device.id, lockedIp, lockedDevice, until)
            && r.state.active == s.active && r.phase.Closing?
  {
    var st := s.cfg.settings;
    var (pending, verdict) :=
      Challenges.CheckResponse(env.verifies, s.pending, st.challengeTtl, st.targetId, device,
                               msg.nonce, msg.signature, now);
    var s1 := s.(pending := pending);
    if verdict.Accepted? {
      AuthorizeSeats(env, s1, ip, device.id, audit, now, lockedIp, lockedDevice, until);
    } else {
      ChargeFacts(env, s1, ip, Some(device.id), audit, now);
      ChargeHolds(env, s1, ip, Some(device.id), audit, now, lockedIp, lockedDevice, until);
    }
  }

  lemma {:induction false} AuthorizeSeats(env: Env, s: State, ip: string, device: string, audit: Writes, now: real,
                                          lockedIp: string, lockedDevice: string, until: real)
    requires now < until
    ensures var r := Authorize(env, s, ip, device, audit, now);
            && HeldUnlessCleared(s, r.state, true, ip, device, lockedIp, lockedDevice, until)
            && r.phase.Closing? && r.state.active == s.active
  {
    var s1 := s.(ip := Backoffs.Succeed(s.ip, ip), dev := Backoffs.Succeed(s.dev, device),
                 broker := Broker.Issue(s.broker, env.grantTtl, now));
    SucceedHolds(s, s1, ip, device, lockedIp, lockedDevice, until);
    ChargeHolds(env, s1, ip, None, audit, now, lockedIp, lockedDevice, until);
  }

  lemma {:induction false} SucceedHolds(s: State, s1: State, ip: string, device: string, lockedIp: string,
                                        lockedDevice: string, until: real)
    requires s1.ip == Backoffs.Succeed(s.ip, ip) && s1.dev == Backoffs.Succeed(s.dev, device)
    ensures HeldUnlessCleared(s, s1, true, ip, device, lockedIp, lockedDevice, until)
  {
  }

  lemma {:induction false} FinishSeats(env: Env, s: State, ip: string, owes: bool, audit: Writes, now: real,
                                       lockedIp: string, lockedDevice: string, until: real)
    requires now < until
    ensures var r := Finish(env, s, ip, owes, audit, now);
            BothHeld(s, r.state, lockedIp, lockedDevice, until) && Orderly(s, r) && r.phase.Closed?
  {
    ChargeHolds(env, s, ip, None, audit, now, lockedIp, lockedDevice, until);
  }

  // ---- PAM requests --------------------------------------------------------------------------

  // A PAM stretch touches nothing but the broker.
  predicate BrokerOnly(s: State, r: State) {
    r == s.(broker := r.broker)
  }

  lemma {:induction false} PamFacts(s: State, id: nat, uid: int, user: Option<string>, name: string, auditOk: bool,
                                    now: real)
    ensures BrokerOnly(s, PamAsk(s, id, uid, user, auditOk, now).state)
    ensures BrokerOnly(s, PamTimeout(s, id).state) && !PamTimeout(s, id).granted
    ensures id in s.broker.waiting ==> BrokerOnly(s, PamResume(s, id, uid, name, auditOk, now).state)
  {
  }

  // ---- devices -------------------------------------------------------------------------------

  // The device a session stands for is an enabled record of the configuration it looked at.
  lemma {:induction false} OpenDevice(env: Env, s: State, ip: string, fingerprint: Option<string>,
                                      reading: Option<Registry.Reading>, audit: Writes, now: real)
    ensures var r := Open(env, s, ip, fingerprint, reading, audit, now);
            && (if r.phase.Closed? then r.state.cfg == s.cfg && r.state.mtime == s.mtime
                else (r.state.cfg, r.state.mtime) == Registry.Reload(s.cfg, s.mtime, reading))
            && (r.phase.HelloWait? && r.phase.cert.Some? ==>
                  && r.phase.cert.value in r.state.cfg.devices && r.phase.cert.value.enabled
                  && fingerprint == Some(r.phase.cert.value.fingerprint))
            && (r.phase.HelloWait? && r.state.cfg.settings.requireMtls ==> r.phase.cert.Some?)
            && !r.phase.ResponseWait?
  {
    var (cfg, mtime) := Registry.Reload(s.cfg, s.mtime, reading);
    ChargeFacts(env, s.(active := s.active + 1, cfg := cfg, mtime := mtime), ip, None, audit, now);
  }

  lemma {:induction false} AdmittedOpen(env: Env, s: State, ip: string, fingerprint: Option<string>,
                                        reading: Option<Registry.Reading>, audit: Writes, now: real)
    requires s.active < s.cfg.settings.maxConnections
    ensures !Open(env, s, ip, fingerprint, reading, audit, now).phase.Closed?
  {
    var (cfg, mtime) := Registry.Reload(s.cfg, s.mtime, reading);
    ChargeFacts(env, s.(active := s.active + 1, cfg := cfg, mtime := mtime), ip, None, audit, now);
  }

  lemma {:induction false} HelloDevice(env: Env, s: State, ip: string, cert: Option<Registry.Device>, msg: Hello,
                                       nonce: string, issuedMs: int, audit: Writes, now: real)
    ensures var r := OnHello(env, s, ip, cert, msg, nonce, issuedMs, audit, now);
            && r.state.cfg == s.cfg && r.state.mtime == s.mtime && !r.phase.HelloWait?
            && (r.phase.ResponseWait? ==>
                  if cert.Some? then r.phase.device == cert.value
                  else r.phase.device in s.cfg.devices && r.phase.device.enabled)
  {
    ChargeFacts(env, s, ip, None, audit, now);
    var chosen := HelloChoice(env, s, ip, cert, msg, nonce, issuedMs, audit, now);
    if chosen.Some? {
      ChallengeDevice(env, s, ip, chosen.value, nonce, issuedMs, audit, now);
    }
  }

  lemma {:induction false} ChallengeDevice(env: Env, s: State, ip: string, device: Registry.Device, nonce: string,
                                           issuedMs: int, audit: Writes, now: real)
    ensures var r := Challenge(env, s, ip, device, nonce, issuedMs, audit, now);
            && r.state.cfg == s.cfg && r.state.mtime == s.mtime && !r.phase.HelloWait?
            && (r.phase.ResponseWait? ==> r.phase.device == device)
  {
  }

  lemma {:induction false} ResponseDevice(env: Env, s: State, ip: string, device: Registry.Device, msg: Response,
                                          audit: Writes, now: real)
    ensures var r := OnResponse(env, s, ip, device, msg, audit, now);
            && r.state.cfg == s.cfg && r.state.mtime == s.mtime
            && (r.phase.Closing? || r.phase.Closed?)
            && (r.note.Nothing? || (r.note.Judged? && r.note.sender == device))
  {
    ChargeFacts(env, s, ip, Some(device.id), audit, now);
    if msg.ResponseGiven? {
      var st := s.cfg.settings;
      var s1 := s.(pending := Challenges.CheckResponse(env.verifies, s.pending, st.challengeTtl, st.targetId,
                                                       device, msg.nonce, msg.signature, now).0);
      ChargeFacts(env, s1, ip, Some(device.id), audit, now);
    }
  }

  lemma {:induction false} FinishDevice(env: Env, s: State, ip: string, owes: bool, audit: Writes, now: real)
    ensures var r := Finish(env, s, ip, owes, audit, now);
            r.state.cfg == s.cfg && r.state.mtime == s.mtime && r.phase.Closed?
  {
  }
}
