/** The whole system as interleaved atomic steps: any number of WebSocket sessions and PAM requests
    over one service, honest phones, pair.py and hand edits rewriting the configuration, PAM helpers, and a network
    that delivers what it likes.

    Signatures are symbolic: a signature that verifies under an honest key is over a text that the
    holder of the key signed before (some signature of it, not necessarily this one). Nonces are
    fresh 32-digit hex strings and the clock is nonnegative and never goes back; a step reads it once. */
module Protocol {
  import opened Prelude
  import Broker
  import Client
  import PamHelper
  import Registry
  import S = Service
  import Wire

  // `honest` are the device keys held by phones that only ever run Client.Unlock with the laptop's
  // real public key pinned. The laptop's key is honest; it may even be one of the device keys.
  datatype World = World(env: S.Env, laptopKey: string, honest: set<string>, serviceUid: int)

  datatype Event =
    // A challenge was stored; `text` is what the laptop signed for it, None when signing raised.
    | Issued(nonce: string, device: string, issuedMs: int, target: string, at: real, text: Option<string>)
    // An honest phone verified a challenge for this device and target, and signed `response`.
    | Signed(key: string, nonce: string, issuedMs: int, device: string, target: string, response: string)
    // check_response ran for a session of this device and IP; it may have raised.
    | Evaluated(session: nat, ip: string, device: string, raised: bool)
    // It accepted, and a grant was issued.
    | Authorized(session: nat, ip: string, fingerprint: string, key: string, nonce: string, issuedMs: int,
                 device: string, target: string, ttl: real, at: real)
    // A PAM request took the grant.
    | Consumed(request: nat, uid: int, user: string, at: real)
    // The PAM helper behind the request reported success.
    | Yes(request: nat)

  datatype Asking = Asking(at: real, settings: Registry.Settings)

  datatype Global = Global(
    svc: S.State,
    disk: Registry.Disk,                   // the configuration file
    clock: real,
    sessions: map<nat, S.Phase>,
    peers: map<nat, Option<string>>,       // certificate fingerprint each session's peer showed
    requests: map<nat, S.PamPhase>,
    written: map<nat, string>,             // what the service wrote to each PAM peer
    answered: set<nat>,                    // requests whose helper has finished
    admitted: map<nat, Registry.Settings>, // settings in force when a PAM peer was admitted
    asked: map<nat, Asking>,               // when its request line was read, and under which settings
    cap: int,                              // highest connection limit a session was admitted under
    trace: seq<Event>)

  datatype Action =
    | Open(session: nat, ip: string, fingerprint: Option<string>, access: Registry.Access, audit: S.Writes)
    | Hello(session: nat, hello: S.Hello, nonce: string, issuedMs: int, audit: S.Writes)
    | Respond(session: nat, response: S.Response, audit: S.Writes)
    | Finish(session: nat, audit: S.Writes)
    | Phone(key: string, device: string, target: string, challenge: Client.Challenge)
    | PamOpen(request: nat, uid: int)
    | PamLine(request: nat, user: Option<string>, auditOk: bool)
    | PamBegin(request: nat)
    | PamWake(request: nat, auditOk: bool)
    | PamExpire(request: nat)
    | PamWrite(request: nat)
    | Helper(request: nat, peerUid: int, input: seq<PamHelper.Read>)
    | Save(edit: Registry.Edit)

  datatype Step = Step(at: real, action: Action)

  // The edits of the configuration file that fall into a step, in their order.
  function Edits(a: Action): seq<Registry.Edit> {
    match a
    case Save(e) => [e]
    case Open(_, _, _, access, _) => access.early + access.late
    case _ => []
  }

  function Init(cfg: Registry.Data): Global {
    Global(S.State(cfg, 0, map[], map[], map[], Broker.IDLE, 0), Registry.Disk(cfg, 0), 0.0,
           map[], map[], map[], map[], {}, map[], map[], 0, [])
  }

  // ---- what the network may deliver ----------------------------------------------------------

  // The event made the holder of `key` sign `text`.
  predicate MakesSign(w: World, e: Event, key: string, text: string) {
    match e
    case Issued(_, _, _, _, _, t) => key == w.laptopKey && t == Some(text)
    case Signed(k, _, _, _, _, t) => key == k && t == text
    case _ => false
  }

  ghost predicate Unforged(w: World, trace: seq<Event>, signature: string) {
    forall key, text | (key in w.honest || key == w.laptopKey) && w.env.verifies(key, text, signature) ::
      exists e <- trace :: MakesSign(w, e, key, text)
  }

  ghost predicate Fresh(trace: seq<Event>, nonce: string) {
    Wire.IsNonce(nonce) && forall e <- trace :: e.Issued? ==> e.nonce != nonce
  }

  predicate Waiting(g: Global, request: nat) {
    request in g.requests && g.requests[request].PamWaiting? && request in g.svc.broker.waiting
  }

  ghost predicate Enabled(w: World, g: Global, step: Step) {
    && g.clock <= step.at
    && match step.action
       case Open(sid, _, _, _, _) => sid !in g.sessions
       case Hello(sid, _, nonce, _, _) =>
         sid in g.sessions && g.sessions[sid].HelloWait? && Fresh(g.trace, nonce)
       case Respond(sid, response, _) =>
         && sid in g.sessions && g.sessions[sid].ResponseWait?
         && (response.ResponseGiven? && response.signature.Some? ==> Unforged(w, g.trace, response.signature.value))
       case Finish(sid, _) => sid in g.sessions && g.sessions[sid].Closing?
       case Phone(key, _, _, challenge) =>
         key in w.honest && (challenge.signature.Some? ==> Unforged(w, g.trace, challenge.signature.value))
       case PamOpen(rid, _) => rid !in g.requests
       case PamLine(rid, _, _) => rid in g.requests && g.requests[rid].PamReading?
       case PamBegin(rid) => Waiting(g, rid) && g.svc.broker.waiting[rid].phase.Scheduled?
       case PamWake(rid, _) => Waiting(g, rid) && g.svc.broker.waiting[rid].phase.Woken?
       case PamExpire(rid) => Waiting(g, rid) && g.svc.broker.waiting[rid].deadline <= step.at
       case PamWrite(rid) => rid in g.requests && g.requests[rid].PamReplying?
       case Helper(rid, peerUid, input) =>
         && rid !in g.answered
         && (peerUid == w.serviceUid ==> PamHelper.Stream(input) <= if rid in g.written then g.written[rid] else "")
       case Save(_) => true
  }

  // ---- the steps -----------------------------------------------------------------------------

  function Events(sid: nat, ip: string, note: S.Note, at: real): seq<Event> {
    match note
    case Nothing => []
    case Stored(device, nonce, ms, target, issue) =>
      [Issued(nonce, device, ms, target, at, if issue.Sent? then Some(issue.text) else None)]
    case Judged(sender, target, ttl, verdict) =>
      [Evaluated(sid, ip, sender.id, verdict.Raised?)]
      + match verdict
        case Accepted(nonce, r) =>
          [Authorized(sid, ip, sender.fingerprint, sender.key.GetOr(""), nonce, r.issuedMs, sender.id, target, ttl, at)]
        case _ => []
  }

  function PhoneRun(w: World, key: string, device: string, target: string, ch: Client.Challenge): seq<Event> {
    match Client.Unlock(w.env.verifies, w.laptopKey, device, target, ch)
    case None => []
    case Some(text) => [Signed(key, ch.nonce, ch.issuedMs, device, target, text)]
  }

  function AfterSession(g: Global, sid: nat, ip: string, r: S.Result, at: real): Global {
    g.(svc := r.state, sessions := g.sessions[sid := r.phase], clock := at,
       trace := g.trace + Events(sid, ip, r.note, at))
  }

  function AfterPam(g: Global, rid: nat, uid: int, user: string, r: S.PamResult, at: real): Global {
    g.(svc := r.state, requests := g.requests[rid := r.phase], clock := at,
       trace := g.trace + if r.granted then [Consumed(rid, uid, user, at)] else [])
  }

  function Reply(ok: bool): string {
    if ok then PamHelper.YES else PamHelper.NO
  }

  function Next(w: World, g: Global, step: Step): Global
    requires Enabled(w, g, step)
  {
    var at := step.at;
    match step.action
    case Open(sid, ip, fingerprint, access, audit) =>
      var (reading, disk) := Registry.Observe(g.disk, access);
      var limit := g.svc.cfg.settings.maxConnections;
      AfterSession(g.(cap := if g.cap < limit then limit else g.cap, peers := g.peers[sid := fingerprint],
                     disk := disk), sid, ip,
                   S.Open(w.env, g.svc, ip, fingerprint, reading, audit, at), at)
    case Hello(sid, hello, nonce, ms, audit) =>
      var p := g.sessions[sid];
      AfterSession(g, sid, p.ip, S.OnHello(w.env, g.svc, p.ip, p.cert, hello, nonce, ms, audit, at), at)
    case Respond(sid, response, audit) =>
      var p := g.sessions[sid];
      AfterSession(g, sid, p.ip, S.OnResponse(w.env, g.svc, p.ip, p.device, response, audit, at), at)
    case Finish(sid, audit) =>
      var p := g.sessions[sid];
      AfterSession(g, sid, p.ip, S.Finish(w.env, g.svc, p.ip, p.owes, audit, at), at)
    case Phone(key, device, target, ch) =>
      g.(clock := at, trace := g.trace + PhoneRun(w, key, device, target, ch))
    case PamOpen(rid, uid) =>
      g.(clock := at, requests := g.requests[rid := S.PamConnect(g.svc, uid)],
         admitted := g.admitted[rid := g.svc.cfg.settings])
    case PamLine(rid, user, auditOk) =>
      var uid := g.requests[rid].uid;
      AfterPam(g.(asked := g.asked[rid := Asking(at, g.svc.cfg.settings)]), rid, uid, user.GetOr(""),
               S.PamAsk(g.svc, rid, uid, user, auditOk, at), at)
    case PamBegin(rid) =>
      g.(clock := at, svc := S.PamBegin(g.svc, rid))
    case PamWake(rid, auditOk) =>
      var p := g.requests[rid];
      AfterPam(g, rid, p.uid, p.user, S.PamResume(g.svc, rid, p.uid, p.user, auditOk, at), at)
    case PamExpire(rid) =>
      var p := g.requests[rid];
      AfterPam(g, rid, p.uid, p.user, S.PamTimeout(g.svc, rid), at)
    case PamWrite(rid) =>
      g.(clock := at, requests := g.requests[rid := S.PamClosed],
         written := g.written[rid := Reply(g.requests[rid].ok)])
    case Helper(rid, peerUid, input) =>
      g.(clock := at, answered := g.answered + {rid},
         trace := g.trace + if PamHelper.RequestUnlock(peerUid, w.serviceUid, input) then [Yes(rid)] else [])
    case Save(edit) =>
      g.(clock := at, disk := Registry.Apply(g.disk, edit))
  }

  ghost predicate ValidRun(w: World, g: Global, steps: seq<Step>)
    decreases |steps|
  {
    steps == [] || (Enabled(w, g, steps[0]) && ValidRun(w, Next(w, g, steps[0]), steps[1..]))
  }

  ghost function Run(w: World, g: Global, steps: seq<Step>): Global
    requires ValidRun(w, g, steps)
    decreases |steps|
  {
    if steps == [] then g else Run(w, Next(w, g, steps[0]), steps[1..])
  }
}
