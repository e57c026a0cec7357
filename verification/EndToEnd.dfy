/** From the phone to the PAM helper: when every registered key is an honest phone's, each yes goes
    back to a run of that phone of its own. */
module EndToEnd {
  import opened Prelude
  import opened Protocol
  import opened StepFacts
  import Agreement
  import F = ServiceFacts
  import Grants
  import Registry
  import S = Service

  // The key of the device, if it has a usable one, is held by an honest phone.
  predicate Trusted(w: World, d: Registry.Device) {
    d.key.Some? ==> d.key.value in w.honest
  }

  ghost predicate AllTrusted(w: World, devices: seq<Registry.Device>) {
    forall d <- devices :: Trusted(w, d)
  }

  // The device that the session stands for, if any.
  ghost predicate StandsTrusted(w: World, p: S.Phase) {
    match p
    case HelloWait(_, cert) => cert.Some? ==> Trusted(w, cert.value)
    case ResponseWait(_, device) => Trusted(w, device)
    case _ => true
  }

  ghost predicate Inv(w: World, g: Global) {
    && AllTrusted(w, g.disk.data.devices) && AllTrusted(w, g.svc.cfg.devices)
    && (forall sid <- g.sessions :: StandsTrusted(w, g.sessions[sid]))
    && (forall e <- g.trace :: e.Authorized? ==> e.key in w.honest)
  }

  // Only keys of honest phones are registered.
  ghost predicate Enrols(w: World, edits: seq<Registry.Edit>) {
    forall e <- edits | e.change.Command? && e.change.command.AddDevice? && e.change.command.key.Some? ::
      e.change.command.key.value in w.honest
  }

  lemma {:induction false} PerformTrusted(w: World, devices: seq<Registry.Device>, c: Registry.Command)
    requires AllTrusted(w, devices)
    requires c.AddDevice? && c.key.Some? ==> c.key.value in w.honest
    ensures AllTrusted(w, Registry.Perform(devices, c))
  {
    Registry.FindIdFinds(devices, c.name);
    var after := Registry.Perform(devices, c);
    forall d <- after
      ensures Trusted(w, d)
    {
      var i :| 0 <= i < |after| && after[i] == d;
      assert i < |devices| ==> Trusted(w, devices[i]) && after[i].key == devices[i].key;
    }
  }

  lemma {:induction false} EditsTrusted(w: World, d: Registry.Disk, edits: seq<Registry.Edit>)
    requires AllTrusted(w, d.data.devices) && Enrols(w, edits)
    ensures AllTrusted(w, Registry.ApplyAll(d, edits).data.devices)
    decreases |edits|
  {
    if edits != [] {
      if edits[0].change.Command? {
        PerformTrusted(w, d.data.devices, edits[0].change.command);
      }
      EditsTrusted(w, Registry.Apply(d, edits[0]), edits[1..]);
    }
  }

  lemma {:induction false} ObserveTrusted(w: World, d: Registry.Disk, access: Registry.Access)
    requires AllTrusted(w, d.data.devices) && Enrols(w, access.early + access.late)
    ensures var (reading, after) := Registry.Observe(d, access);
            && AllTrusted(w, after.data.devices)
            && (reading.Some? && reading.value.content.Some? ==> AllTrusted(w, reading.value.content.value.devices))
  {
    assert forall e <- access.early :: e in access.early + access.late;
    assert forall e <- access.late :: e in access.early + access.late;
    EditsTrusted(w, d, access.early);
    EditsTrusted(w, Registry.ApplyAll(d, access.early), access.late);
  }

  lemma {:induction false} SaveKeeps(w: World, g: Global, step: Step)
    requires Inv(w, g) && Enabled(w, g, step) && step.action.Save? && Enrols(w, Edits(step.action))
    ensures Inv(w, Next(w, g, step))
  {
    var e := step.action.edit;
    EditsTrusted(w, g.disk, [e]);
    assert [e][1..] == [] && Registry.ApplyAll(g.disk, [e]) == Registry.Apply(g.disk, e);
  }

  // A session's step: what it loads, stands for and adds to the trace is trusted.
  lemma {:induction false} SessionKeeps(w: World, g: Global, g1: Global, sid: nat, e: seq<Event>)
    requires Inv(w, g) && g1.trace == g.trace + e
    requires AllTrusted(w, g1.svc.cfg.devices) && AllTrusted(w, g1.disk.data.devices)
    requires sid in g1.sessions && g1.sessions == g.sessions[sid := g1.sessions[sid]]
    requires StandsTrusted(w, g1.sessions[sid])
    requires forall x <- e :: x.Authorized? ==> x.key in w.honest
    ensures Inv(w, g1)
  {
    forall s <- g1.sessions
      ensures StandsTrusted(w, g1.sessions[s])
    {
      assert s != sid ==> StandsTrusted(w, g.sessions[s]);
    }
  }

  lemma {:induction false} OpenKeeps(w: World, g: Global, step: Step)
    requires Inv(w, g) && Enabled(w, g, step) && step.action.Open? && Enrols(w, Edits(step.action))
    ensures Inv(w, Next(w, g, step))
  {
    OpenStep(w, g, step);
    ObserveTrusted(w, g.disk, step.action.access);
    assert Next(w, g, step).trace == g.trace + [];
    SessionKeeps(w, g, Next(w, g, step), step.action.session, []);
  }

  lemma {:induction false} HelloKeeps(w: World, g: Global, step: Step)
    requires Inv(w, g) && Enabled(w, g, step) && step.action.Hello?
    ensures Inv(w, Next(w, g, step))
  {
    var Hello(sid, hello, nonce, ms, audit) := step.action;
    var p := g.sessions[sid];
    assert StandsTrusted(w, p);
    F.HelloDevice(w.env, g.svc, p.ip, p.cert, hello, nonce, ms, audit, step.at);
    F.HelloFacts(w.env, g.svc, p.ip, p.cert, hello, nonce, ms, audit, step.at);
    var r := S.OnHello(w.env, g.svc, p.ip, p.cert, hello, nonce, ms, audit, step.at);
    SessionKeeps(w, g, Next(w, g, step), sid, Events(sid, p.ip, r.note, step.at));
  }

  lemma {:induction false} RespondKeeps(w: World, g: Global, step: Step)
    requires Inv(w, g) && Enabled(w, g, step) && step.action.Respond?
    ensures Inv(w, Next(w, g, step))
  {
    var Respond(sid, response, audit) := step.action;
    var p := g.sessions[sid];
    assert StandsTrusted(w, p);
    F.ResponseDevice(w.env, g.svc, p.ip, p.device, response, audit, step.at);
    F.ResponseFacts(w.env, g.svc, p.ip, p.device, response, audit, step.at);
    var r := S.OnResponse(w.env, g.svc, p.ip, p.device, response, audit, step.at);
    SessionKeeps(w, g, Next(w, g, step), sid, Events(sid, p.ip, r.note, step.at));
  }

  lemma {:induction false} FinishKeeps(w: World, g: Global, step: Step)
    requires Inv(w, g) && Enabled(w, g, step) && step.action.Finish?
    ensures Inv(w, Next(w, g, step))
  {
    var Finish(sid, audit) := step.action;
    var p := g.sessions[sid];
    F.FinishDevice(w.env, g.svc, p.ip, p.owes, audit, step.at);
    F.FinishFacts(w.env, g.svc, p.ip, p.owes, audit, step.at);
    SessionKeeps(w, g, Next(w, g, step), sid, []);
  }

  lemma {:induction false} OtherKeeps(w: World, g: Global, step: Step)
    requires Inv(w, g) && Enabled(w, g, step)
    requires !SessionAction(step.action) && !step.action.Save?
    ensures Inv(w, Next(w, g, step))
  {
    SideSteps(w, g, step);
  }

  lemma {:induction false} RunKeeps(w: World, g: Global, steps: seq<Step>)
    requires Inv(w, g) && ValidRun(w, g, steps) && forall step <- steps :: Enrols(w, Edits(step.action))
    ensures Inv(w, Run(w, g, steps))
    decreases |steps|
  {
    if steps != [] {
      var step := steps[0];
      match step.action {
        case Open(_, _, _, _, _) => OpenKeeps(w, g, step);
        case Hello(_, _, _, _, _) => HelloKeeps(w, g, step);
        case Respond(_, _, _) => RespondKeeps(w, g, step);
        case Finish(_, _) => FinishKeeps(w, g, step);
        case Save(_) => SaveKeeps(w, g, step);
        case _ => OtherKeeps(w, g, step);
      }
      RunKeeps(w, Next(w, g, step), steps[1..]);
    }
  }

  // The yes at m was given to the request that, at k, took the grant of the authorisation at i, which
  // rests on the challenge at j and on the phone run at h.
  ghost predicate Traced(trace: seq<Event>, ttl: real, m: nat, k: nat, i: nat, j: nat, h: nat) {
    && Grants.Rests(trace, ttl, m, k, i) && Agreement.Vouched(trace, i, j, h)
    && trace[h].key == trace[i].key
    && 0.0 <= trace[k].at - trace[j].at < trace[i].ttl + ttl
  }

  // End to end: if only keys of honest phones are ever registered, then in every run each yes of a
  // PAM helper goes back, through its own grant and its own authorisation, to a run of an honest
  // phone and to the challenge that the laptop signed for it, which was issued less than its lifetime
  // and the grant's together before the grant was taken; and no two yeses share a phone run or a
  // challenge.
  lemma {:induction false} YesNeedsPhone(w: World, cfg: Registry.Data, steps: seq<Step>)
    requires ValidRun(w, Init(cfg), steps)
    requires AllTrusted(w, cfg.devices) && forall step <- steps :: Enrols(w, Edits(step.action))
    ensures var trace, ttl := Run(w, Init(cfg), steps).trace, w.env.grantTtl;
            && (forall m: nat | m < |trace| && trace[m].Yes? ::
                  exists k: nat, i: nat, j: nat, h: nat ::
                    Traced(trace, ttl, m, k, i, j, h) && trace[h].key in w.honest)
            && (forall m: nat, k: nat, i: nat, j: nat, h: nat, m': nat, k': nat, i': nat, j': nat, h': nat |
                  m != m' && Traced(trace, ttl, m, k, i, j, h) && Traced(trace, ttl, m', k', i', j', h') ::
                  j != j' && h != h')
  {
    var trace, ttl := Run(w, Init(cfg), steps).trace, w.env.grantTtl;
    RunKeeps(w, Init(cfg), steps);
    forall m: nat | m < |trace| && trace[m].Yes?
      ensures exists k: nat, i: nat, j: nat, h: nat :: Traced(trace, ttl, m, k, i, j, h) && trace[h].key in w.honest
    {
      var k, i := Grants.YesRests(w, cfg, steps, m);
      assert trace[i] in trace;
      var j, h := Agreement.VouchersOf(w, cfg, steps, i);
      assert Traced(trace, ttl, m, k, i, j, h);
    }
    Grants.GrantConservation(w, cfg, steps);
    Agreement.InjectiveAgreement(w, cfg, steps);
  }
}
