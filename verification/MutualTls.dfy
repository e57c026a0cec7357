/** With require_mtls on, an authorisation always belongs to the certificate on the connection. */
module MutualTls {
  import opened Prelude
  import opened Protocol
  import opened StepFacts
  import Registry
  import S = Service
  import F = ServiceFacts

  // The session's peer showed the certificate that is pinned to the device it stands for.
  ghost predicate Pinned(g: Global, sid: nat)
    requires sid in g.sessions
  {
    match g.sessions[sid]
    case HelloWait(_, cert) => cert.Some? && sid in g.peers && g.peers[sid] == Some(cert.value.fingerprint)
    case ResponseWait(_, device) => sid in g.peers && g.peers[sid] == Some(device.fingerprint)
    case _ => true
  }

  ghost predicate Inv(g: Global) {
    && g.svc.cfg.settings.requireMtls && g.disk.data.settings.requireMtls
    && g.peers.Keys <= g.sessions.Keys
    && (forall sid <- g.sessions :: Pinned(g, sid))
    && (forall e <- g.trace :: e.Authorized? ==> e.session in g.peers && g.peers[e.session] == Some(e.fingerprint))
  }

  // No edit switches mutual TLS off.
  ghost predicate Strict(edits: seq<Registry.Edit>) {
    forall e <- edits :: e.change.NewSettings? ==> e.change.settings.requireMtls
  }

  lemma {:induction false} StrictKeeps(d: Registry.Disk, edits: seq<Registry.Edit>)
    requires d.data.settings.requireMtls && Strict(edits)
    ensures Registry.ApplyAll(d, edits).data.settings.requireMtls
    decreases |edits|
  {
    if edits != [] {
      StrictKeeps(Registry.Apply(d, edits[0]), edits[1..]);
    }
  }

  lemma {:induction false} ObserveKeeps(d: Registry.Disk, access: Registry.Access)
    requires d.data.settings.requireMtls && Strict(access.early + access.late)
    ensures var (reading, after) := Registry.Observe(d, access);
            && after.data.settings.requireMtls
            && (reading.Some? && reading.value.content.Some? ==> reading.value.content.value.settings.requireMtls)
  {
    assert forall e <- access.early :: e in access.early + access.late;
    assert forall e <- access.late :: e in access.early + access.late;
    StrictKeeps(d, access.early);
    StrictKeeps(Registry.ApplyAll(d, access.early), access.late);
  }

  // A session's step: others stay as they are, and what it adds to the trace is its own.
  lemma {:induction false} SessionKeeps(g: Global, g1: Global, sid: nat, e: seq<Event>)
    requires Inv(g) && sid in g1.sessions && Pinned(g1, sid)
    requires g1.svc.cfg.settings.requireMtls && g1.disk.data.settings.requireMtls && g1.trace == g.trace + e
    requires g1.sessions == g.sessions[sid := g1.sessions[sid]]
    requires sid in g1.peers && g1.peers == g.peers[sid := g1.peers[sid]]
    requires sid in g.peers ==> g1.peers == g.peers
    requires forall x <- e :: x.Authorized? ==> x.session in g1.peers && g1.peers[x.session] == Some(x.fingerprint)
    ensures Inv(g1)
  {
    forall s <- g1.sessions
      ensures Pinned(g1, s)
    {
      assert s != sid ==> Pinned(g, s);
    }
  }

  lemma {:induction false} OpenKeeps(w: World, g: Global, step: Step)
    requires Inv(g) && Enabled(w, g, step) && step.action.Open? && Strict(Edits(step.action))
    ensures Inv(Next(w, g, step))
  {
    OpenStep(w, g, step);
    ObserveKeeps(g.disk, step.action.access);
    assert Next(w, g, step).trace == g.trace + [];
    SessionKeeps(g, Next(w, g, step), step.action.session, []);
  }

  lemma {:induction false} HelloKeeps(w: World, g: Global, step: Step)
    requires Inv(g) && Enabled(w, g, step) && step.action.Hello? && step.action.session in g.peers
    ensures Inv(Next(w, g, step))
  {
    var Hello(sid, hello, nonce, ms, audit) := step.action;
    var p := g.sessions[sid];
    assert Pinned(g, sid);
    F.HelloDevice(w.env, g.svc, p.ip, p.cert, hello, nonce, ms, audit, step.at);
    F.HelloFacts(w.env, g.svc, p.ip, p.cert, hello, nonce, ms, audit, step.at);
    var r := S.OnHello(w.env, g.svc, p.ip, p.cert, hello, nonce, ms, audit, step.at);
    SessionKeeps(g, Next(w, g, step), sid, Events(sid, p.ip, r.note, step.at));
  }

  lemma {:induction false} RespondKeeps(w: World, g: Global, step: Step)
    requires Inv(g) && Enabled(w, g, step) && step.action.Respond? && step.action.session in g.peers
    ensures Inv(Next(w, g, step))
  {
    var Respond(sid, response, audit) := step.action;
    var p := g.sessions[sid];
    assert Pinned(g, sid);
    F.ResponseDevice(w.env, g.svc, p.ip, p.device, response, audit, step.at);
    var r := S.OnResponse(w.env, g.svc, p.ip, p.device, response, audit, step.at);
    SessionKeeps(g, Next(w, g, step), sid, Events(sid, p.ip, r.note, step.at));
  }

  lemma {:induction false} FinishKeeps(w: World, g: Global, step: Step)
    requires Inv(g) && Enabled(w, g, step) && step.action.Finish? && step.action.session in g.peers
    ensures Inv(Next(w, g, step))
  {
    var Finish(sid, audit) := step.action;
    var p := g.sessions[sid];
    F.FinishDevice(w.env, g.svc, p.ip, p.owes, audit, step.at);
    F.FinishFacts(w.env, g.svc, p.ip, p.owes, audit, step.at);
    SessionKeeps(g, Next(w, g, step), sid, []);
  }

  lemma {:induction false} SideKeeps(w: World, g: Global, step: Step)
    requires Inv(g) && Enabled(w, g, step) && !SessionAction(step.action) && Strict(Edits(step.action))
    ensures Inv(Next(w, g, step))
  {
    SideSteps(w, g, step);
    if step.action.Save? {
      assert step.action.edit in Edits(step.action);
    }
    var g1 := Next(w, g, step);
    forall sid <- g1.sessions
      ensures Pinned(g1, sid)
    {
      assert Pinned(g, sid);
    }
  }

  lemma {:induction false} RunKeeps(w: World, g: Global, steps: seq<Step>)
    requires Inv(g) && g.peers.Keys == g.sessions.Keys && ValidRun(w, g, steps)
    requires forall step <- steps :: Strict(Edits(step.action))
    ensures Inv(Run(w, g, steps))
    decreases |steps|
  {
    if steps != [] {
      var step := steps[0];
      match step.action {
        case Open(_, _, _, _, _) => OpenKeeps(w, g, step);
        case Hello(_, _, _, _, _) => HelloKeeps(w, g, step);
        case Respond(_, _, _) => RespondKeeps(w, g, step);
        case Finish(_, _) => FinishKeeps(w, g, step);
        case _ => SideKeeps(w, g, step);
      }
      PeersAreSessions(w, g, step);
      RunKeeps(w, Next(w, g, step), steps[1..]);
    }
  }

  lemma {:induction false} PeersAreSessions(w: World, g: Global, step: Step)
    requires g.peers.Keys == g.sessions.Keys && Enabled(w, g, step)
    ensures Next(w, g, step).peers.Keys == Next(w, g, step).sessions.Keys
  {
    if !SessionAction(step.action) {
      SideSteps(w, g, step);
    }
  }

  // As long as every configuration requires mutual TLS, each authorisation belongs to a session
  // whose peer showed the very certificate that is pinned to the authorised device.
  lemma {:induction false} AuthorisedByCertificate(w: World, cfg: Registry.Data, steps: seq<Step>)
    requires cfg.settings.requireMtls && ValidRun(w, Init(cfg), steps)
    requires forall step <- steps :: Strict(Edits(step.action))
    ensures var g := Run(w, Init(cfg), steps);
            forall e <- g.trace :: e.Authorized? ==>
              e.session in g.peers && g.peers[e.session] == Some(e.fingerprint)
  {
    RunKeeps(w, Init(cfg), steps);
  }
}
