/** What lets a session through each of its gates, and what its phone is told where it ends. */
module Gates {
  import opened Prelude
  import opened Service
  import Backoffs
  import Challenges
  import F = ServiceFacts
  import Registry
  import Wire

  // What the phone of a rejected session is told, and of one whose rejection comes from the exception
  // handler: no, if one of those could record it, and nothing otherwise.
  function RejectionWord(audit: Writes): Option<bool> {
    if audit.session || audit.handler then Some(false) else None
  }

  function HandlerWord(audit: Writes): Option<bool> {
    if audit.handler then Some(false) else None
  }

  // A locked key is told nothing, unless turning it away could not be recorded.
  function LockedWord(audit: Writes): Option<bool> {
    if audit.session then None else HandlerWord(audit)
  }

  // Rejecting starts a lockout of the IP or of the named device, which is recorded after the answer.
  predicate StartsLockout(env: Env, s: State, ip: string, device: string, now: real) {
    || Backoffs.Fail(env.lockout, s.ip, ip, now).1
    || (device != "" && Backoffs.Fail(env.lockout, s.dev, device, now).1)
  }

  function Rejected(env: Env, s: State, ip: string, device: string, audit: Writes, now: real): Phase {
    Closing(ip, audit.session && StartsLockout(env, s, ip, device, now), RejectionWord(audit))
  }

  // The three ways to end a session early.
  lemma {:induction false} Endings(env: Env, s: State, ip: string, device: Option<string>, audit: Writes, now: real)
    ensures Reject(env, s, ip, device, audit, now).phase == Rejected(env, s, ip, device.GetOr(""), audit, now)
    ensures HandlerFail(env, s, ip, audit, now).phase == Closing(ip, false, HandlerWord(audit))
    ensures TurnAway(env, s, ip, audit, now).phase == Closing(ip, false, LockedWord(audit))
  {
  }

  // The certificate that the peer showed, if it is that of an enabled device.
  function Certified(cfg: Registry.Data, fingerprint: Option<string>): Option<Registry.Device> {
    if fingerprint.None? then None else Registry.DeviceByFingerprint(cfg.devices, fingerprint.value)
  }

  // The first gates. A session is refused at once exactly when the limit is reached. Otherwise it gets
  // to say hello exactly when its IP is not locked and its certificate is known or none is required; it
  // is told nothing when the IP is locked, and no when the certificate is missing.
  lemma {:induction false} OpenExactly(env: Env, s: State, ip: string, fingerprint: Option<string>,
                                       reading: Option<Registry.Reading>, audit: Writes, now: real)
    ensures var r := Open(env, s, ip, fingerprint, reading, audit, now);
            var cert := Certified(r.state.cfg, fingerprint);
            && (r.phase.Closed? <==> s.active >= s.cfg.settings.maxConnections)
            && if r.phase.Closed? then r.state == s
               else
                 && r.state.active == s.active + 1
                 && r.phase == if Backoffs.Remaining(s.ip, ip, now) > 0.0 then Closing(ip, false, LockedWord(audit))
                               else if r.state.cfg.settings.requireMtls && cert.None?
                               then Rejected(env, s, ip, "", audit, now)
                               else HelloWait(ip, cert)
  {
    var (cfg, mtime) := Registry.Reload(s.cfg, s.mtime, reading);
    var s1 := s.(active := s.active + 1, cfg := cfg, mtime := mtime);
    F.ChargeFacts(env, s1, ip, None, audit, now);
    Endings(env, s1, ip, None, audit, now);
  }

  // The device that a hello is about: the one of the certificate if there is one, or else the enabled
  // one that it names, and in either case the one that it names.
  function Named(s: State, cert: Option<Registry.Device>, id: string): Option<Registry.Device> {
    var device := if cert.Some? then cert else Registry.DeviceById(s.cfg.devices, id);
    if device.Some? && device.value.id == id then device else None
  }

  // The challenge can be made: there is room for it, and its text can be formed.
  predicate Challengeable(s: State, device: Registry.Device, nonce: string, issuedMs: int, now: real) {
    && |Challenges.Purge(s.pending, s.cfg.settings.challengeTtl, now)| < 64
    && Wire.SignedMessage("challenge", nonce, issuedMs, device.id, s.cfg.settings.targetId).Some?
  }

  // The gates of a hello. It is answered with a challenge exactly when it names a known device that is
  // not locked and the challenge can be made; otherwise the phone is told no, or nothing.
  lemma {:induction false} HelloExactly(env: Env, s: State, ip: string, cert: Option<Registry.Device>, msg: Hello,
                                        nonce: string, issuedMs: int, audit: Writes, now: real)
    ensures var r := OnHello(env, s, ip, cert, msg, nonce, issuedMs, audit, now);
            match msg
            case HelloDropped => r.phase.Closed? && r.state == s.(active := s.active - 1)
            case HelloUnreadable => r.phase == Closing(ip, false, HandlerWord(audit))
            case HelloWrong => r.phase == Rejected(env, s, ip, "", audit, now)
            case HelloFrom(id) =>
              var device := Named(s, cert, id);
              r.phase == if device.None? then Rejected(env, s, ip, "", audit, now)
                         else if Backoffs.Remaining(s.dev, id, now) > 0.0
                         then Closing(ip, false, LockedWord(audit))
                         else if !Challengeable(s, device.value, nonce, issuedMs, now)
                         then Closing(ip, false, HandlerWord(audit))
                         else ResponseWait(ip, device.value)
  {
    Endings(env, s, ip, None, audit, now);
    if msg.HelloFrom? && Named(s, cert, msg.device).Some? {
      ChallengeExactly(env, s, ip, Named(s, cert, msg.device).value, nonce, issuedMs, audit, now);
    }
  }

  lemma {:induction false} ChallengeExactly(env: Env, s: State, ip: string, device: Registry.Device, nonce: string,
                                            issuedMs: int, audit: Writes, now: real)
    ensures Challenge(env, s, ip, device, nonce, issuedMs, audit, now).phase
            == if Challengeable(s, device, nonce, issuedMs, now) then ResponseWait(ip, device)
               else Closing(ip, false, HandlerWord(audit))
  {
    var st := s.cfg.settings;
    var s1 := s.(pending := Challenges.IssueChallenge(s.pending, st.challengeTtl, st.targetId, device.id, nonce,
                                                      issuedMs, now).0);
    Endings(env, s1, ip, None, audit, now);
  }

  // How a response ends, by its verdict: a session that is rejected and could record it may owe the
  // record of a lockout, and what the phone is told depends on who could record what.
  function Ending(env: Env, s: State, ip: string, device: string, msg: Response, note: Note, audit: Writes,
                  now: real): Phase {
    if msg.ResponseDropped? then Closed
    else if F.Accepts(note) then Closing(ip, false, if audit.session then Some(true) else HandlerWord(audit))
    else if msg.ResponseUnreadable? || (note.Judged? && note.verdict.Raised?)
    then Closing(ip, false, HandlerWord(audit))
    else Rejected(env, s, ip, device, audit, now)
  }

  lemma {:induction false} ResponseExactly(env: Env, s: State, ip: string, device: Registry.Device, msg: Response,
                                           audit: Writes, now: real)
    ensures var r := OnResponse(env, s, ip, device, msg, audit, now);
            r.phase == Ending(env, s, ip, device.id, msg, r.note, audit, now)
  {
    Endings(env, s, ip, Some(device.id), audit, now);
    if msg.ResponseGiven? {
      var st := s.cfg.settings;
      var s1 := s.(pending := Challenges.CheckResponse(env.verifies, s.pending, st.challengeTtl, st.targetId, device,
                                                       msg.nonce, msg.signature, now).0);
      Endings(env, s1, ip, Some(device.id), audit, now);
    }
  }
}
