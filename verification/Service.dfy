/** listener.py, class UnlockService: one WebSocket session and one PAM request, cut at their awaits.

    asyncio runs each stretch between two awaits without interruption, so a stretch is one function
    of the shared state, the suspended session or request, and whatever the stretch reads: the
    message, the clock, the random nonce, the configuration file, and whether the audit log can be
    written; when it cannot, `record` raises. */
module Service {
  import opened Prelude
  import Registry
  import Challenges
  import Backoffs
  import Broker

  // Fixed when the service starts.
  datatype Env = Env(verifies: Challenges.Verifies, lockout: Backoffs.Params, grantTtl: real)

  // Everything the sessions and the PAM requests share.
  datatype State = State(
    cfg: Registry.Data,
    mtime: int,
    pending: Challenges.Table,
    ip: Backoffs.Table,
    dev: Backoffs.Table,
    broker: Broker.State,
    active: int)

  // Whether the audit log takes what the session records in a stretch, and what the exception handler
  // of `handle` records after it.
  datatype Writes = Writes(session: bool, handler: bool)

  // Where a session is suspended. A Closing session is sending its result: `told` is its "ok", and None
  // when the connection is closed without one; `owes` tells that a lockout record is to be written
  // after that, inside the session.
  datatype Phase =
    | HelloWait(ip: string, cert: Option<Registry.Device>)
    | ResponseWait(ip: string, device: Registry.Device)
    | Closing(ip: string, owes: bool, told: Option<bool>)
    | Closed

  datatype Hello = HelloDropped | HelloUnreadable | HelloWrong | HelloFrom(device: string)

  datatype Response =
    | ResponseDropped
    | ResponseUnreadable
    | ResponseWrongType
    | ResponseGiven(nonce: Option<string>, signature: Option<string>)

  // What a stretch did besides changing the state.
  datatype Note =
    | Nothing
    | Stored(device: string, nonce: string, issuedMs: int, target: string, issue: Challenges.Issue)
    | Judged(sender: Registry.Device, target: string, ttl: real, verdict: Challenges.Verdict)

  datatype Result = Result(state: State, phase: Phase, note: Note)

  function ChargeIp(env: Env, s: State, ip: string, now: real): State {
    s.(ip := Backoffs.Fail(env.lockout, s.ip, ip, now).0)
  }

  // `_fail` called by the exception handler of `handle`: when recording raises again, the session
  // ends without a result.
  function HandlerFail(env: Env, s: State, ip: string, audit: Writes, now: real): Result {
    Result(ChargeIp(env, s, ip, now), Closing(ip, false, if audit.handler then Some(false) else None), Nothing)
  }

  // `_fail` called by the session itself: when recording raises, the handler charges the IP again.
  function Reject(env: Env, s: State, ip: string, device: Option<string>, audit: Writes, now: real): Result {
    var (ipTable, ipHit) := Backoffs.Fail(env.lockout, s.ip, ip, now);
    var (devTable, devHit) :=
      if device.Some? && device.value != "" then Backoffs.Fail(env.lockout, s.dev, device.value, now)
      else (s.dev, false);
    var s1 := s.(ip := ipTable, dev := devTable);
    if audit.session then Result(s1, Closing(ip, ipHit || devHit, Some(false)), Nothing)
    else HandlerFail(env, s1, ip, audit, now)
  }

  // A locked key is turned away, unless the throttled record was due and raised.
  function TurnAway(env: Env, s: State, ip: string, audit: Writes, now: real): Result {
    if audit.session then Result(s, Closing(ip, false, None), Nothing) else HandlerFail(env, s, ip, audit, now)
  }

  function Open(env: Env, s: State, ip: string, fingerprint: Option<string>, reading: Option<Registry.Reading>,
                audit: Writes, now: real): Result {
    if s.active >= s.cfg.settings.maxConnections then Result(s, Closed, Nothing)
    else
      var (cfg, mtime) := Registry.Reload(s.cfg, s.mtime, reading);
      Begin(env, s.(active := s.active + 1, cfg := cfg, mtime := mtime), ip, fingerprint, audit, now)
  }

  // The session up to its first await.
  function Begin(env: Env, s: State, ip: string, fingerprint: Option<string>, audit: Writes, now: real): Result {
    if Backoffs.Remaining(s.ip, ip, now) > 0.0 then TurnAway(env, s, ip, audit, now)
    else
      var cert := if fingerprint.Some? then Registry.DeviceByFingerprint(s.cfg.devices, fingerprint.value) else None;
      if s.cfg.settings.requireMtls && cert.None? then Reject(env, s, ip, None, audit, now)
      else Result(s, HelloWait(ip, cert), Nothing)
  }

  // ConnectionClosed ends a session without a charge.
  function Drop(s: State): Result {
    Result(s.(active := s.active - 1), Closed, Nothing)
  }

  function OnHello(env: Env, s: State, ip: string, cert: Option<Registry.Device>, msg: Hello, nonce: string,
                   issuedMs: int, audit: Writes, now: real): Result {
    match msg
    case HelloDropped => Drop(s)
    case HelloUnreadable => HandlerFail(env, s, ip, audit, now)
    case HelloWrong => Reject(env, s, ip, None, audit, now)
    case HelloFrom(id) =>
      var device := if cert.Some? then cert else Registry.DeviceById(s.cfg.devices, id);
      if device.None? || device.value.id != id then Reject(env, s, ip, None, audit, now)
      else if Backoffs.Remaining(s.dev, id, now) > 0.0 then TurnAway(env, s, ip, audit, now)
      else Challenge(env, s, ip, device.value, nonce, issuedMs, audit, now)
  }

  function Challenge(env: Env, s: State, ip: string, device: Registry.Device, nonce: string, issuedMs: int,
                     audit: Writes, now: real): Result {
    var st := s.cfg.settings;
    var (pending, issue) :=
      Challenges.IssueChallenge(s.pending, st.challengeTtl, st.targetId, device.id, nonce, issuedMs, now);
    var s1 := s.(pending := pending);
    match issue
    case Refused => HandlerFail(env, s1, ip, audit, now)
    case Unsigned =>
      HandlerFail(env, s1, ip, audit, now).(note := Stored(device.id, nonce, issuedMs, st.targetId, issue))
    case Sent(_) =>
      Result(s1, ResponseWait(ip, device), Stored(device.id, nonce, issuedMs, st.targetId, issue))
  }

  function OnResponse(env: Env, s: State, ip: string, device: Registry.Device, msg: Response, audit: Writes,
                      now: real): Result {
    match msg
    case ResponseDropped => Drop(s)
    case ResponseUnreadable => HandlerFail(env, s, ip, audit, now)
    case ResponseWrongType => Reject(env, s, ip, Some(device.id), audit, now)
    case ResponseGiven(nonce, signature) =>
      var st := s.cfg.settings;
      var (pending, verdict) :=
        Challenges.CheckResponse(env.verifies, s.pending, st.challengeTtl, st.targetId, device, nonce, signature, now);
      var s1 := s.(pending := pending);
      var note := Judged(device, st.targetId, st.challengeTtl, verdict);
      (match verdict
       case Raised => HandlerFail(env, s1, ip, audit, now)
       case Accepted(_, _) => Authorize(env, s1, ip, device.id, audit, now)
       case _ => Reject(env, s1, ip, Some(device.id), audit, now)).(note := note)
  }

  // The grant is issued before the audit write: when that raises the grant stays, although the phone
  // is told that it was rejected, or nothing, and its IP is charged.
  function Authorize(env: Env, s: State, ip: string, device: string, audit: Writes, now: real): Result {
    var s1 := s.(ip := Backoffs.Succeed(s.ip, ip),
                 dev := Backoffs.Succeed(s.dev, device),
                 broker := Broker.Issue(s.broker, env.grantTtl, now));
    if audit.session then Result(s1, Closing(ip, false, Some(true)), Nothing) else HandlerFail(env, s1, ip, audit, now)
  }

  // The result was sent; a pending lockout record is written and the session is over.
  function Finish(env: Env, s: State, ip: string, owes: bool, audit: Writes, now: real): Result {
    Drop(if owes && !audit.session then ChargeIp(env, s, ip, now) else s)
  }

  // ---- PAM requests --------------------------------------------------------------------------

  datatype PamPhase = PamReading(uid: int) | PamWaiting(uid: int, user: string) | PamReplying(ok: bool) | PamClosed

  datatype PamResult = PamResult(state: State, phase: PamPhase, granted: bool)

  function PamConnect(s: State, uid: int): PamPhase {
    if uid in s.cfg.settings.pamUids then PamReading(uid) else PamReplying(false)
  }

  // How a turn of the grant loop goes on; `record` raising after a grant turns the reply into a no.
  function PamTurn(s: State, broker: Broker.State, turn: Broker.Turn, uid: int, user: string,
                   auditOk: bool): PamResult {
    var s1 := s.(broker := broker);
    match turn
    case Granted => PamResult(s1, PamReplying(auditOk), true)
    case Refused => PamResult(s1, PamReplying(false), false)
    case Suspended => PamResult(s1, PamWaiting(uid, user), false)
  }

  // The request line arrived, or (None) it was late, unreadable or named no user.
  function PamAsk(s: State, id: nat, uid: int, user: Option<string>, auditOk: bool, now: real): PamResult {
    if user != Some(s.cfg.settings.unlockUser) then PamResult(s, PamReplying(false), false)
    else
      var (broker, turn) := Broker.Enter(s.broker, id, s.cfg.settings.pamWait, now);
      PamTurn(s, broker, turn, uid, user.value, auditOk)
  }

  // The wait on the event begins.
  function PamBegin(s: State, id: nat): State
    requires id in s.broker.waiting
  {
    s.(broker := Broker.Begin(s.broker, id))
  }

  function PamResume(s: State, id: nat, uid: int, user: string, auditOk: bool, now: real): PamResult
    requires id in s.broker.waiting
  {
    var (broker, turn) := Broker.Resume(s.broker, id, now);
    PamTurn(s, broker, turn, uid, user, auditOk)
  }

  function PamTimeout(s: State, id: nat): PamResult {
    PamResult(s.(broker := Broker.Expire(s.broker, id)), PamReplying(false), false)
  }

  // ---- the class -----------------------------------------------------------------------------

  class UnlockService {
    const env: Env
    const cfg: Registry.Config
    const ipBackoff: Backoffs.Backoff
    const devBackoff: Backoffs.Backoff
    const broker: Broker.GrantBroker
    var pending: Challenges.Table
    var active: int

    ghost predicate Valid()
      reads this
    {
      && ipBackoff != devBackoff
      && ipBackoff.params == devBackoff.params == env.lockout
      && broker.ttl == env.grantTtl
    }

    ghost function View(): State
      reads this, cfg, ipBackoff, devBackoff, broker
    {
      State(cfg.data, cfg.mtime, pending, ipBackoff.state, devBackoff.state, broker.View(), active)
    }

    constructor (env: Env, cfg: Registry.Config)
      ensures Valid() && this.env == env && this.cfg == cfg
      ensures fresh(ipBackoff) && fresh(devBackoff) && fresh(broker)
      ensures View() == State(cfg.data, cfg.mtime, map[], map[], map[], Broker.IDLE, 0)
    {
      this.env, this.cfg := env, cfg;
      ipBackoff := new Backoffs.Backoff(env.lockout);
      devBackoff := new Backoffs.Backoff(env.lockout);
      broker := new Broker.GrantBroker(env.grantTtl);
      pending, active := map[], 0;
    }

    method IssueChallenge(device: string, nonce: string, issuedMs: int, now: real) returns (issue: Challenges.Issue)
      modifies this`pending
      ensures var st := cfg.data.settings;
              (pending, issue)
              == Challenges.IssueChallenge(old(pending), st.challengeTtl, st.targetId, device, nonce, issuedMs, now)
    {
      var ttl := cfg.data.settings.challengeTtl;
      pending := map n | n in pending && now - pending[n].at <= ttl :: pending[n];
      if |pending| >= Challenges.MAX_PENDING {
        return Challenges.Refused;
      }
      pending := pending[nonce := Challenges.Pending(device, now, issuedMs)];
      var msg := Challenges.Wire.SignedMessage(
        Challenges.Wire.CHALLENGE, nonce, issuedMs, device, cfg.data.settings.targetId);
      return if msg.None? then Challenges.Unsigned else Challenges.Sent(msg.value);
    }

    method CheckResponse(device: Registry.Device, nonce: Option<string>, signature: Option<string>, now: real)
      returns (verdict: Challenges.Verdict)
      modifies this`pending
      ensures var st := cfg.data.settings;
              (pending, verdict)
              == Challenges.CheckResponse(env.verifies, old(pending), st.challengeTtl, st.targetId,
                                          device, nonce, signature, now)
    {
      if nonce.None? || !Challenges.Wire.MatchesNonce(nonce.value) {
        return Challenges.MalformedNonce;
      }
      if nonce.value !in pending {
        return Challenges.UnknownNonce;
      }
      var r := pending[nonce.value];
      pending := pending - {nonce.value};
      if r.device != device.id {
        return Challenges.OtherDevice;
      }
      if now - r.at > cfg.data.settings.challengeTtl {
        return Challenges.Expired;
      }
      var msg := Challenges.Wire.SignedMessage(
        Challenges.Wire.RESPONSE, nonce.value, r.issuedMs, r.device, cfg.data.settings.targetId);
      if msg.None? || device.key.None? {
        return Challenges.Raised;
      }
      if !Challenges.SignatureHolds(env.verifies, device.key.value, msg.value, signature) {
        return Challenges.BadSignature;
      }
      return Challenges.Accepted(nonce.value, r);
    }

    method FailInHandler(ip: string, audit: Writes, now: real) returns (phase: Phase)
      requires Valid()
      modifies ipBackoff
      ensures var r := HandlerFail(env, old(View()), ip, audit, now); View() == r.state && phase == r.phase
    {
      var _ := ipBackoff.RecordFailure(ip, now);
      return Closing(ip, false, if audit.handler then Some(false) else None);
    }

    method FailInSession(ip: string, device: Option<string>, audit: Writes, now: real) returns (phase: Phase)
      requires Valid()
      modifies ipBackoff, devBackoff
      ensures var r := Reject(env, old(View()), ip, device, audit, now); View() == r.state && phase == r.phase
    {
      var lockIp := ipBackoff.RecordFailure(ip, now);
      var lockDev := false;
      if device.Some? && device.value != "" {
        lockDev := devBackoff.RecordFailure(device.value, now);
      }
      if !audit.session {
        phase := FailInHandler(ip, audit, now);
        return;
      }
      return Closing(ip, lockIp || lockDev, Some(false));
    }

    method SessionOpens(ip: string, fingerprint: Option<string>, reading: Option<Registry.Reading>, audit: Writes,
                        now: real) returns (phase: Phase)
      requires Valid()
      modifies this, cfg, ipBackoff, devBackoff
      ensures Valid()
      ensures var r := Open(env, old(View()), ip, fingerprint, reading, audit, now);
              View() == r.state && phase == r.phase
    {
      if active >= cfg.data.settings.maxConnections {
        return Closed;
      }
      active := active + 1;
      cfg.ReloadIfChanged(reading);
      phase := SessionBegins(ip, fingerprint, audit, now);
    }

    method SessionBegins(ip: string, fingerprint: Option<string>, audit: Writes, now: real) returns (phase: Phase)
      requires Valid()
      modifies ipBackoff, devBackoff
      ensures var r := Begin(env, old(View()), ip, fingerprint, audit, now); View() == r.state && phase == r.phase
    {
      var left := ipBackoff.RemainingTime(ip, now);
      if left > 0.0 {
        if audit.session {
          return Closing(ip, false, None);
        }
        phase := FailInHandler(ip, audit, now);
        return;
      }
      var cert := None;
      if fingerprint.Some? {
        cert := cfg.ByFingerprint(fingerprint.value);
      }
      if cfg.data.settings.requireMtls && cert.None? {
        phase := FailInSession(ip, None, audit, now);
        return;
      }
      return HelloWait(ip, cert);
    }

    method HelloArrives(ip: string, cert: Option<Registry.Device>, msg: Hello, nonce: string, issuedMs: int,
                        audit: Writes, now: real) returns (phase: Phase)
      requires Valid()
      modifies this, ipBackoff, devBackoff
      ensures Valid()
      ensures var r := OnHello(env, old(View()), ip, cert, msg, nonce, issuedMs, audit, now);
              View() == r.state && phase == r.phase
    {
      match msg
      case HelloDropped =>
        active := active - 1;
        return Closed;
      case HelloUnreadable =>
        phase := FailInHandler(ip, audit, now);
      case HelloWrong =>
        phase := FailInSession(ip, None, audit, now);
      case HelloFrom(id) =>
        var device := cert;
        if cert.None? {
          device := cfg.ById(id);
        }
        if device.None? || device.value.id != id {
          phase := FailInSession(ip, None, audit, now);
          return;
        }
        var left := devBackoff.RemainingTime(id, now);
        if left > 0.0 {
          if audit.session {
            return Closing(ip, false, None);
          }
          phase := FailInHandler(ip, audit, now);
          return;
        }
        var issue := IssueChallenge(id, nonce, issuedMs, now);
        if !issue.Sent? {
          phase := FailInHandler(ip, audit, now);
          return;
        }
        return ResponseWait(ip, device.value);
    }

    method ResponseArrives(ip: string, device: Registry.Device, msg: Response, audit: Writes, now: real)
      returns (phase: Phase)
      requires Valid()
      modifies this, ipBackoff, devBackoff, broker
      ensures Valid()
      ensures var r := OnResponse(env, old(View()), ip, device, msg, audit, now);
              View() == r.state && phase == r.phase
    {
      match msg
      case ResponseDropped =>
        active := active - 1;
        return Closed;
      case ResponseUnreadable =>
        phase := FailInHandler(ip, audit, now);
      case ResponseWrongType =>
        phase := FailInSession(ip, Some(device.id), audit, now);
      case ResponseGiven(nonce, signature) =>
        var verdict := CheckResponse(device, nonce, signature, now);
        if verdict.Raised? {
          phase := FailInHandler(ip, audit, now);
          return;
        }
        if !verdict.Accepted? {
          phase := FailInSession(ip, Some(device.id), audit, now);
          return;
        }
        ipBackoff.Success(ip);
        devBackoff.Success(device.id);
        broker.IssueGrant(now);
        if !audit.session {
          phase := FailInHandler(ip, audit, now);
          return;
        }
        return Closing(ip, false, Some(true));
    }

    method SessionEnds(ip: string, owes: bool, audit: Writes, now: real)
      requires Valid()
      modifies this, ipBackoff
      ensures Valid() && View() == Finish(env, old(View()), ip, owes, audit, now).state
    {
      if owes && !audit.session {
        var _ := FailInHandler(ip, audit, now);
      }
      active := active - 1;
    }

    method PamConnects(uid: int) returns (phase: PamPhase)
      requires Valid()
      ensures phase == PamConnect(View(), uid)
    {
      return if uid in cfg.data.settings.pamUids then PamReading(uid) else PamReplying(false);
    }

    method PamLineArrives(id: nat, uid: int, user: Option<string>, auditOk: bool, now: real) returns (phase: PamPhase)
      requires Valid()
      modifies broker
      ensures var r := PamAsk(old(View()), id, uid, user, auditOk, now); View() == r.state && phase == r.phase
    {
      if user != Some(cfg.data.settings.unlockUser) {
        return PamReplying(false);
      }
      var turn := broker.Consume(id, cfg.data.settings.pamWait, now);
      match turn
      case Granted => return PamReplying(auditOk);
      case Refused => return PamReplying(false);
      case Suspended => return PamWaiting(uid, user.value);
    }

    method PamWaitBegins(id: nat)
      requires Valid() && id in broker.waiting
      modifies broker
      ensures View() == PamBegin(old(View()), id)
    {
      broker.WaitBegins(id);
    }

    method PamWaitReturns(id: nat, uid: int, user: string, auditOk: bool, now: real) returns (phase: PamPhase)
      requires Valid() && id in broker.waiting
      modifies broker
      ensures var r := PamResume(old(View()), id, uid, user, auditOk, now); View() == r.state && phase == r.phase
    {
      var turn := broker.WaitReturns(id, now);
      match turn
      case Granted => return PamReplying(auditOk);
      case Refused => return PamReplying(false);
      case Suspended => return PamWaiting(uid, user);
    }

    method PamWaitTimesOut(id: nat) returns (phase: PamPhase)
      requires Valid()
      modifies broker
      ensures var r := PamTimeout(old(View()), id); View() == r.state && phase == r.phase
    {
      broker.WaitTimesOut(id);
      return PamReplying(false);
    }
  }
}
