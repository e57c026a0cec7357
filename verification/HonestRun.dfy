/** The undisturbed run: an honest phone is authorised, and the PAM helper that asks next says yes. */
module HonestRun {
  import opened Prelude
  import opened Protocol
  import opened StepFacts
  import Backoffs
  import Broker
  import Challenges
  import Client
  import PamHelper
  import Registry
  import S = Service
  import Wire

  // The audit log can be written.
  const FINE := S.Writes(true, true)

  // One phone, one session and what is signed in it.
  datatype Attempt = Attempt(
    session: nat, ip: string, device: Registry.Device, key: string, target: string,
    nonce: string, issuedMs: int, laptopSignature: string, phoneSignature: string)

  function ChallengeText(a: Attempt): Option<string> {
    Wire.SignedMessage(Wire.CHALLENGE, a.nonce, a.issuedMs, a.device.id, a.target)
  }

  // The challenge message, as the phone gets it.
  function Asked(a: Attempt): Client.Challenge {
    Client.Challenge("challenge", a.target, a.nonce, a.issuedMs, Some(a.laptopSignature))
  }

  // The text that the phone signs for it.
  function Approval(w: World, a: Attempt): Option<string> {
    Client.Unlock(w.env.verifies, w.laptopKey, a.device.id, a.target, Asked(a))
  }

  // The signature is good for this text under this key, and for nothing else of an honest holder.
  ghost predicate SignsOnly(w: World, signature: string, key: string, text: string) {
    && |signature| <= Wire.MAX_SIG_HEX && w.env.verifies(key, text, signature)
    && forall k, t | (k in w.honest || k == w.laptopKey) && w.env.verifies(k, t, signature) :: k == key && t == text
  }

  // The phone is registered and its signatures are proper.
  ghost predicate Prepared(w: World, cfg: Registry.Data, a: Attempt) {
    && Registry.DeviceByFingerprint(cfg.devices, a.device.fingerprint) == Some(a.device)
    && a.device.key == Some(a.key) && a.key in w.honest
    && a.target == cfg.settings.targetId
    && ChallengeText(a).Some? && SignsOnly(w, a.laptopSignature, w.laptopKey, ChallengeText(a).value)
    && SignsOnly(w, a.phoneSignature, a.key, Approval(w, a).GetOr(""))
  }

  // When the four steps are taken, how the reload in the first goes, and whether the authorisation can
  // be recorded in the last.
  datatype Course = Course(
    connect: real, greet: real, approve: real, respond: real, access: Registry.Access, audit: S.Writes)

  // What the phone is told in the end: the recording of its success decides.
  function Told(c: Course): Option<bool> {
    if c.audit.session then Some(true) else if c.audit.handler then Some(false) else None
  }

  // The configuration that the session works with: what is on disk when it reads, if the file has
  // another mtime than the service remembers and can be read.
  function ConfigOf(g: Global, c: Course): Registry.Data {
    if g.svc.mtime == g.disk.mtime || c.access.reach.NoStat? || c.access.reach.NoText? then g.svc.cfg
    else Registry.ApplyAll(g.disk, c.access.early).data
  }

  // The response is in time.
  ghost predicate InTime(g: Global, c: Course) {
    && g.clock <= c.connect <= c.greet <= c.approve <= c.respond
    && c.respond - c.greet <= ConfigOf(g, c).settings.challengeTtl
  }

  // There is room, and each lockout is over when it is looked at.
  ghost predicate Welcome(g: Global, a: Attempt, c: Course) {
    && a.session !in g.sessions && g.svc.active < g.svc.cfg.settings.maxConnections
    && Backoffs.Remaining(g.svc.ip, a.ip, c.connect) == 0.0
    && Backoffs.Remaining(g.svc.dev, a.device.id, c.greet) == 0.0
    && |Challenges.Purge(g.svc.pending, ConfigOf(g, c).settings.challengeTtl, c.greet)| < Challenges.MAX_PENDING
    && Fresh(g.trace, a.nonce)
  }

  function Connects(a: Attempt, c: Course): Step {
    Step(c.connect, Open(a.session, a.ip, Some(a.device.fingerprint), c.access, FINE))
  }

  function Greets(a: Attempt, c: Course): Step {
    Step(c.greet, Hello(a.session, S.HelloFrom(a.device.id), a.nonce, a.issuedMs, FINE))
  }

  function Approves(a: Attempt, c: Course): Step {
    Step(c.approve, Phone(a.key, a.device.id, a.target, Asked(a)))
  }

  function Responds(a: Attempt, c: Course): Step {
    Step(c.respond, Respond(a.session, S.ResponseGiven(Some(a.nonce), Some(a.phoneSignature)), c.audit))
  }

  function UnlockSteps(a: Attempt, c: Course): seq<Step> {
    [Connects(a, c), Greets(a, c), Approves(a, c), Responds(a, c)]
  }

  lemma {:induction false} Connected(w: World, g: Global, a: Attempt, c: Course)
    requires Prepared(w, ConfigOf(g, c), a) && Welcome(g, a, c) && g.clock <= c.connect
    ensures Enabled(w, g, Connects(a, c))
    ensures var g1 := Next(w, g, Connects(a, c));
            && g1.svc.cfg == ConfigOf(g, c)
            && g1.svc.ip == g.svc.ip && g1.svc.dev == g.svc.dev
            && g1.svc.pending == g.svc.pending && g1.svc.broker == g.svc.broker
            && g1.sessions == g.sessions[a.session := S.HelloWait(a.ip, Some(a.device))]
            && g1.trace == g.trace && g1.clock == c.connect
            && g1.requests == g.requests && g1.answered == g.answered
  {
    assert g.trace + [] == g.trace;
  }

  // The stretch that answers the hello of a welcome phone.
  lemma {:induction false} HelloAnswered(w: World, s: S.State, a: Attempt, now: real)
    requires Prepared(w, s.cfg, a) && Backoffs.Remaining(s.dev, a.device.id, now) == 0.0
    requires |Challenges.Purge(s.pending, s.cfg.settings.challengeTtl, now)| < Challenges.MAX_PENDING
    ensures var hello := S.HelloFrom(a.device.id);
            var r := S.OnHello(w.env, s, a.ip, Some(a.device), hello, a.nonce, a.issuedMs, FINE, now);
            var record := Challenges.Pending(a.device.id, now, a.issuedMs);
            var kept := Challenges.Purge(s.pending, s.cfg.settings.challengeTtl, now);
            && r.state == s.(pending := kept[a.nonce := record]) && r.phase == S.ResponseWait(a.ip, a.device)
            && r.note == S.Stored(a.device.id, a.nonce, a.issuedMs, a.target, Challenges.Sent(ChallengeText(a).value))
  {
  }

  lemma {:induction false} Greeted(w: World, g: Global, a: Attempt, c: Course)
    requires Prepared(w, g.svc.cfg, a) && g.clock <= c.greet && Fresh(g.trace, a.nonce)
    requires a.session in g.sessions && g.sessions[a.session] == S.HelloWait(a.ip, Some(a.device))
    requires Backoffs.Remaining(g.svc.dev, a.device.id, c.greet) == 0.0
    requires |Challenges.Purge(g.svc.pending, g.svc.cfg.settings.challengeTtl, c.greet)| < Challenges.MAX_PENDING
    ensures Enabled(w, g, Greets(a, c))
    ensures var g1 := Next(w, g, Greets(a, c));
            && g1.svc.cfg == g.svc.cfg && g1.clock == c.greet
            && g1.requests == g.requests && g1.answered == g.answered
            && a.nonce in g1.svc.pending
            && g1.svc.pending[a.nonce] == Challenges.Pending(a.device.id, c.greet, a.issuedMs)
            && a.session in g1.sessions && g1.sessions[a.session] == S.ResponseWait(a.ip, a.device)
            && g1.trace == g.trace + [Issued(a.nonce, a.device.id, a.issuedMs, a.target, c.greet, ChallengeText(a))]
  {
    HelloAnswered(w, g.svc, a, c.greet);
  }

  // The event of the phone's run.
  function Signing(w: World, a: Attempt): Event {
    Signed(a.key, a.nonce, a.issuedMs, a.device.id, a.target, Approval(w, a).GetOr(""))
  }

  // The phone approves, and what it signs is what the laptop will check.
  lemma {:induction false} PhoneApproves(w: World, cfg: Registry.Data, a: Attempt)
    requires Prepared(w, cfg, a)
    ensures Approval(w, a).Some?
    ensures Approval(w, a) == Wire.SignedMessage(Wire.RESPONSE, a.nonce, a.issuedMs, a.device.id, a.target)
  {
    Client.UnlockExactly(w.env.verifies, w.laptopKey, a.device.id, a.target, Asked(a));
  }

  lemma {:induction false} Approved(w: World, g: Global, a: Attempt, c: Course)
    requires Prepared(w, g.svc.cfg, a) && g.clock <= c.approve
    requires Issued(a.nonce, a.device.id, a.issuedMs, a.target, c.greet, ChallengeText(a)) in g.trace
    ensures Enabled(w, g, Approves(a, c))
    ensures var g1 := Next(w, g, Approves(a, c));
            && g1.svc == g.svc && g1.sessions == g.sessions && g1.clock == c.approve
            && g1.requests == g.requests && g1.answered == g.answered
            && g1.trace == g.trace + [Signing(w, a)]
  {
    var e := Issued(a.nonce, a.device.id, a.issuedMs, a.target, c.greet, ChallengeText(a));
    PhoneApproves(w, g.svc.cfg, a);
    assert MakesSign(w, e, w.laptopKey, ChallengeText(a).value);
  }

  lemma {:induction false} Responded(w: World, g: Global, a: Attempt, c: Course)
    requires Prepared(w, g.svc.cfg, a) && g.clock <= c.respond
    requires c.respond - c.greet <= g.svc.cfg.settings.challengeTtl
    requires a.nonce in g.svc.pending && g.svc.pending[a.nonce] == Challenges.Pending(a.device.id, c.greet, a.issuedMs)
    requires a.session in g.sessions && g.sessions[a.session] == S.ResponseWait(a.ip, a.device)
    requires Signing(w, a) in g.trace
    ensures Enabled(w, g, Responds(a, c))
    ensures var g1 := Next(w, g, Responds(a, c));
            && g1.svc.broker == Broker.Issue(g.svc.broker, w.env.grantTtl, c.respond) && g1.svc.cfg == g.svc.cfg
            && g1.clock == c.respond
            && a.session in g1.sessions && g1.sessions[a.session] == S.Closing(a.ip, false, Told(c))
            && g1.requests == g.requests && g1.answered == g.answered
            && g1.trace == g.trace + [Evaluated(a.session, a.ip, a.device.id, false)]
                           + [Authorized(a.session, a.ip, a.device.fingerprint, a.key, a.nonce, a.issuedMs, a.device.id,
                                         a.target, g.svc.cfg.settings.challengeTtl, c.respond)]
  {
    PhoneApproves(w, g.svc.cfg, a);
    assert MakesSign(w, Signing(w, a), a.key, Approval(w, a).value);
    assert Challenges.CheckResponse(w.env.verifies, g.svc.pending, g.svc.cfg.settings.challengeTtl, a.target, a.device,
                                    Some(a.nonce), Some(a.phoneSignature), c.respond).1
           == Challenges.Accepted(a.nonce, g.svc.pending[a.nonce]);
  }

  lemma {:induction false} RunCons(w: World, g: Global, step: Step, rest: seq<Step>)
    requires Enabled(w, g, step) && ValidRun(w, Next(w, g, step), rest)
    ensures ValidRun(w, g, [step] + rest) && Run(w, g, [step] + rest) == Run(w, Next(w, g, step), rest)
  {
    assert ([step] + rest)[0] == step && ([step] + rest)[1..] == rest;
  }

  lemma {:induction false} RunFour(w: World, g: Global, a: Step, b: Step, c: Step, d: Step)
    requires Enabled(w, g, a)
    requires Enabled(w, Next(w, g, a), b)
    requires Enabled(w, Next(w, Next(w, g, a), b), c)
    requires Enabled(w, Next(w, Next(w, Next(w, g, a), b), c), d)
    ensures ValidRun(w, g, [a, b, c, d])
    ensures Run(w, g, [a, b, c, d]) == Next(w, Next(w, Next(w, Next(w, g, a), b), c), d)
  {
    var g1 := Next(w, g, a);
    var g2 := Next(w, g1, b);
    var g3 := Next(w, g2, c);
    RunCons(w, g3, d, []);
    RunCons(w, g2, c, [d] + []);
    RunCons(w, g1, b, [c] + ([d] + []));
    RunCons(w, g, a, [b] + ([c] + ([d] + [])));
    assert [a] + ([b] + ([c] + ([d] + []))) == [a, b, c, d];
  }

  // A registered phone that is welcome is authorised by its four steps, if nothing comes between them
  // and its response is in time, and a grant with the whole lifetime is there; the phone is told so if
  // that can be recorded, and otherwise that it was rejected, or nothing.
  lemma {:induction false} HonestUnlockSucceeds(w: World, g: Global, a: Attempt, c: Course)
    requires Prepared(w, ConfigOf(g, c), a) && Welcome(g, a, c) && InTime(g, c)
    ensures ValidRun(w, g, UnlockSteps(a, c))
    ensures var g4 := Run(w, g, UnlockSteps(a, c));
            && g4.trace != [] && g4.trace[|g4.trace| - 1].Authorized?
            && g4.trace[|g4.trace| - 1].session == a.session && g4.trace[|g4.trace| - 1].device == a.device.id
            && g4.clock == c.respond && g4.svc.cfg == ConfigOf(g, c)
            && g4.svc.broker.expires == c.respond + w.env.grantTtl
            && a.session in g4.sessions && g4.sessions[a.session] == S.Closing(a.ip, false, Told(c))
            && g4.requests == g.requests && g4.answered == g.answered
  {
    Connected(w, g, a, c);
    var g1 := Next(w, g, Connects(a, c));
    Greeted(w, g1, a, c);
    var g2 := Next(w, g1, Greets(a, c));
    Approved(w, g2, a, c);
    var g3 := Next(w, g2, Approves(a, c));
    Responded(w, g3, a, c);
    RunFour(w, g, Connects(a, c), Greets(a, c), Approves(a, c), Responds(a, c));
  }

  // ---- from pairing to unlock ----------------------------------------------------------------

  // What a freshly paired phone brings along: its key is honest, its signatures are proper, and the
  // configuration has a target that can be named.
  ghost predicate Equipped(w: World, target: string, a: Attempt) {
    && a.device == Registry.Device(a.device.id, Some(a.key), a.device.fingerprint, true) && a.key in w.honest
    && a.target == target && Wire.MatchesId(target) && Wire.IsNonce(a.nonce)
    && SignsOnly(w, a.laptopSignature, w.laptopKey, ChallengeText(a).GetOr(""))
    && SignsOnly(w, a.phoneSignature, a.key, Approval(w, a).GetOr(""))
  }

  // A device that pair.py has just added is as registered as a phone needs to be.
  lemma {:induction false} PairedIsPrepared(w: World, devices: seq<Registry.Device>, cfg: Registry.Data, a: Attempt)
    requires var (after, outcome) := Registry.Add(devices, a.device.id, Some(a.key), a.device.fingerprint);
             outcome.Added? && cfg.devices == after
    requires Registry.DeviceByFingerprint(devices, a.device.fingerprint).None?
    requires Equipped(w, cfg.settings.targetId, a)
    ensures Prepared(w, cfg, a)
  {
    Registry.AddFrame(devices, a.device.id, Some(a.key), a.device.fingerprint, "", "");
    Wire.SignsExactly(Wire.CHALLENGE, a.nonce, a.issuedMs, a.device.id, a.target);
  }

  function Pairs(a: Attempt, at: real, mtime: int): Step {
    var command := Registry.AddDevice(a.device.id, Some(a.key), a.device.fingerprint);
    Step(at, Save(Registry.Edit(Registry.Command(command), mtime)))
  }

  // The file as the pairing leaves it.
  function Paired(g: Global, a: Attempt, mtime: int): Registry.Disk {
    var devices := Registry.Add(g.disk.data.devices, a.device.id, Some(a.key), a.device.fingerprint).0;
    Registry.Disk(g.disk.data.(devices := devices), mtime)
  }

  lemma {:induction false} PairsSaves(w: World, g: Global, a: Attempt, at: real, mtime: int)
    requires Registry.Add(g.disk.data.devices, a.device.id, Some(a.key), a.device.fingerprint).1.Added?
    requires g.clock <= at
    ensures Enabled(w, g, Pairs(a, at, mtime))
    ensures Next(w, g, Pairs(a, at, mtime)) == g.(clock := at, disk := Paired(g, a, mtime))
  {
  }

  // A new name and certificate for the phone.
  ghost predicate Pairable(g: Global, a: Attempt) {
    && Wire.MatchesId(a.device.id) && (forall d <- g.disk.data.devices :: d.id != a.device.id)
    && Registry.DeviceByFingerprint(g.disk.data.devices, a.device.fingerprint).None?
  }

  lemma {:induction false} PairableAdds(g: Global, a: Attempt)
    requires Pairable(g, a)
    ensures Registry.Add(g.disk.data.devices, a.device.id, Some(a.key), a.device.fingerprint).1.Added?
  {
    Registry.AddFrame(g.disk.data.devices, a.device.id, Some(a.key), a.device.fingerprint, "", "");
  }

  // What the first session loads has the phone registered.
  lemma {:induction false} PairingPrepares(w: World, g: Global, g1: Global, a: Attempt, c: Course, mtime: int)
    requires Pairable(g, a) && Equipped(w, g.disk.data.settings.targetId, a)
    requires g1.disk == Paired(g, a, mtime) && mtime != g1.svc.mtime
    requires c.access == Registry.Access(Registry.Full, [], [])
    ensures Prepared(w, ConfigOf(g1, c), a)
  {
    PairableAdds(g, a);
    assert ConfigOf(g1, c) == g1.disk.data;
    PairedIsPrepared(w, g.disk.data.devices, ConfigOf(g1, c), a);
  }

  // The run ends with an authorisation of the device.
  ghost predicate Authorises(w: World, g: Global, steps: seq<Step>, id: string) {
    && ValidRun(w, g, steps)
    && var trace := Run(w, g, steps).trace;
       trace != [] && trace[|trace| - 1].Authorized? && trace[|trace| - 1].device == id
  }

  lemma {:induction false} AuthorisesLater(w: World, g: Global, step: Step, rest: seq<Step>, id: string)
    requires Enabled(w, g, step) && Authorises(w, Next(w, g, step), rest, id)
    ensures Authorises(w, g, [step] + rest, id)
  {
    RunCons(w, g, step, rest);
  }

  lemma {:induction false} HonestUnlockAuthorises(w: World, g: Global, a: Attempt, c: Course)
    requires Prepared(w, ConfigOf(g, c), a) && Welcome(g, a, c) && InTime(g, c)
    ensures Authorises(w, g, UnlockSteps(a, c), a.device.id)
  {
    HonestUnlockSucceeds(w, g, a, c);
  }

  // From pairing to unlock: pair.py adds the device, with a new name and certificate, and saves under
  // an mtime that the service does not remember; then the first session of the phone is authorised.
  lemma {:induction false} PairingUnlocks(w: World, g: Global, a: Attempt, c: Course, at: real, mtime: int)
    requires Pairable(g, a) && Equipped(w, g.disk.data.settings.targetId, a)
    requires g.clock <= at && mtime != g.svc.mtime && c.access == Registry.Access(Registry.Full, [], [])
    requires var g1 := g.(clock := at, disk := Paired(g, a, mtime)); Welcome(g1, a, c) && InTime(g1, c)
    ensures Authorises(w, g, [Pairs(a, at, mtime)] + UnlockSteps(a, c), a.device.id)
  {
    PairableAdds(g, a);
    PairsSaves(w, g, a, at, mtime);
    var g1 := g.(clock := at, disk := Paired(g, a, mtime));
    PairingPrepares(w, g, g1, a, c, mtime);
    HonestUnlockAuthorises(w, g1, a, c);
    AuthorisesLater(w, g, Pairs(a, at, mtime), UnlockSteps(a, c), a.device.id);
  }

  // ---- from the grant to the yes -------------------------------------------------------------

  // When a PAM request connects, asks and is answered, and when its helper has read the answer.
  datatype Claim = Claim(request: nat, uid: int, user: string, connect: real, ask: real, answer: real, read: real)

  function ClaimSteps(w: World, c: Claim): seq<Step> {
    [Step(c.connect, PamOpen(c.request, c.uid)), Step(c.ask, PamLine(c.request, Some(c.user), true)),
     Step(c.answer, PamWrite(c.request)),
     Step(c.read, Helper(c.request, w.serviceUid, [PamHelper.Chunk(PamHelper.YES)]))]
  }

  // A request of an allowed peer for the configured user, that asks while the grant is live.
  ghost predicate Claimable(g: Global, c: Claim, expires: real) {
    && g.clock <= c.connect <= c.ask <= c.answer <= c.read && c.ask < expires
    && c.request !in g.requests && c.request !in g.answered
    && c.uid in g.svc.cfg.settings.pamUids && c.user == g.svc.cfg.settings.unlockUser
  }

  lemma {:induction false} YesIsRead(uid: int)
    ensures PamHelper.RequestUnlock(uid, uid, [PamHelper.Chunk(PamHelper.YES)])
    ensures PamHelper.Stream([PamHelper.Chunk(PamHelper.YES)]) == PamHelper.YES
  {
    var input := [PamHelper.Chunk(PamHelper.YES)];
    assert input[1..] == [] && "" + PamHelper.YES == PamHelper.YES && PamHelper.YES + "" == PamHelper.YES;
    assert PamHelper.Collect(PamHelper.YES, []) == Some(PamHelper.YES);
  }

  lemma {:induction false} Claimed(w: World, g: Global, c: Claim)
    requires Claimable(g, c, g.svc.broker.expires)
    ensures var one := Step(c.connect, PamOpen(c.request, c.uid));
            var two := Step(c.ask, PamLine(c.request, Some(c.user), true));
            && Enabled(w, g, one) && Enabled(w, Next(w, g, one), two)
            && var g2 := Next(w, Next(w, g, one), two);
            && c.request in g2.requests && g2.requests[c.request] == S.PamReplying(true)
            && g2.answered == g.answered && g2.clock == c.ask
            && g2.trace == g.trace + [Consumed(c.request, c.uid, c.user, c.ask)]
  {
  }

  // While a grant is live, the first PAM request of an allowed peer for the configured user gets
  // it, and its helper says yes.
  lemma {:induction false} LiveGrantIsClaimed(w: World, g: Global, c: Claim)
    requires Claimable(g, c, g.svc.broker.expires)
    ensures ValidRun(w, g, ClaimSteps(w, c))
    ensures var trace := Run(w, g, ClaimSteps(w, c)).trace;
            trace == g.trace + [Consumed(c.request, c.uid, c.user, c.ask)] + [Yes(c.request)]
  {
    Claimed(w, g, c);
    YesIsRead(w.serviceUid);
    var steps := ClaimSteps(w, c);
    RunFour(w, g, steps[0], steps[1], steps[2], steps[3]);
  }

  // From hello to yes: the unlock of a welcome phone, followed by a claim that asks before the grant
  // is over, ends with the helper's yes, whether or not the audit log could be written.
  lemma {:induction false} HelloToYes(w: World, g: Global, a: Attempt, c: Course, claim: Claim)
    requires Prepared(w, ConfigOf(g, c), a) && Welcome(g, a, c) && InTime(g, c)
    requires Claimable(g.(clock := c.respond, svc := g.svc.(cfg := ConfigOf(g, c))), claim, c.respond + w.env.grantTtl)
    ensures var steps := UnlockSteps(a, c) + ClaimSteps(w, claim);
            && ValidRun(w, g, steps)
            && var trace := Run(w, g, steps).trace;
            && trace != [] && trace[|trace| - 1] == Yes(claim.request)
  {
    HonestUnlockSucceeds(w, g, a, c);
    var g4 := Run(w, g, UnlockSteps(a, c));
    LiveGrantIsClaimed(w, g4, claim);
    RunAppend(w, g, UnlockSteps(a, c), ClaimSteps(w, claim));
  }
}
