/** Revocation: what the service has loaded, it never forgets; and when it loads what is on disk. */
module Revocations {
  import opened Prelude
  import opened Protocol
  import opened Registry
  import opened StepFacts
  import F = ServiceFacts
  import HonestRun
  import S = Service

  // What the service has loaded was on disk, so a revocation that it knows of is there.
  ghost predicate Loaded(g: Global, id: string) {
    Revoked(g.svc.cfg.devices, id) ==> Revoked(g.disk.data.devices, id)
  }

  // No session but the given ones stands for the device.
  ghost predicate NotStanding(g: Global, earlier: set<nat>, id: string) {
    forall sid <- g.sessions | sid !in earlier ::
      match g.sessions[sid]
      case HelloWait(_, cert) => cert.Some? ==> cert.value.id != id
      case ResponseWait(_, device) => device.id != id
      case _ => true
  }

  ghost predicate Inert(g: Global, earlier: set<nat>, id: string) {
    && Loaded(g, id) && NotStanding(g, earlier, id) && Revoked(g.svc.cfg.devices, id)
  }

  // A session's step: only a session that opens can change the configuration, and then by loading it.
  lemma {:induction false} SessionConfig(w: World, g: Global, step: Step)
    requires Enabled(w, g, step) && (step.action.Hello? || step.action.Respond? || step.action.Finish?)
    ensures SameConfig(g, Next(w, g, step))
  {
    var p := g.sessions[step.action.session];
    match step.action
    case Hello(_, hello, nonce, ms, audit) =>
      F.HelloDevice(w.env, g.svc, p.ip, p.cert, hello, nonce, ms, audit, step.at);
    case Respond(_, response, audit) =>
      F.ResponseDevice(w.env, g.svc, p.ip, p.device, response, audit, step.at);
    case Finish(_, audit) =>
      F.FinishDevice(w.env, g.svc, p.ip, p.owes, audit, step.at);
  }

  lemma {:induction false} OtherConfig(w: World, g: Global, step: Step)
    requires Enabled(w, g, step) && !SessionAction(step.action) && !step.action.Save?
    ensures SameConfig(g, Next(w, g, step))
  {
    SideSteps(w, g, step);
  }

  lemma {:induction false} SaveLoaded(w: World, g: Global, step: Step, id: string)
    requires Loaded(g, id) && Enabled(w, g, step) && step.action.Save?
    ensures Loaded(Next(w, g, step), id) && Next(w, g, step).svc == g.svc
  {
    var e := step.action.edit;
    if Revoked(g.disk.data.devices, id) {
      EditsKeepRevoked(g.disk, [e], id);
      assert [e][1..] == [] && ApplyAll(g.disk, [e]) == Apply(g.disk, e);
    }
  }

  // A connection loads the file as it is read: later than all that was loaded before.
  lemma {:induction false} OpenLoaded(w: World, g: Global, step: Step, id: string)
    requires Loaded(g, id) && Enabled(w, g, step) && step.action.Open?
    ensures Loaded(Next(w, g, step), id)
    ensures Revoked(g.svc.cfg.devices, id) ==> Revoked(Next(w, g, step).svc.cfg.devices, id)
  {
    OpenStep(w, g, step);
    var access := step.action.access;
    var read := ApplyAll(g.disk, access.early);
    if Revoked(g.disk.data.devices, id) {
      EditsKeepRevoked(g.disk, access.early, id);
    }
    if Revoked(read.data.devices, id) {
      EditsKeepRevoked(read, access.late, id);
    }
  }

  lemma {:induction false} LoadedStep(w: World, g: Global, step: Step, id: string)
    requires Loaded(g, id) && Enabled(w, g, step)
    ensures Loaded(Next(w, g, step), id)
    ensures Revoked(g.svc.cfg.devices, id) ==> Revoked(Next(w, g, step).svc.cfg.devices, id)
  {
    match step.action
    case Open(_, _, _, _, _) => OpenLoaded(w, g, step, id);
    case Hello(_, _, _, _, _) => SessionConfig(w, g, step);
    case Respond(_, _, _) => SessionConfig(w, g, step);
    case Finish(_, _) => SessionConfig(w, g, step);
    case Save(_) => SaveLoaded(w, g, step, id);
    case _ => OtherConfig(w, g, step);
  }

  lemma {:induction false} LoadedRun(w: World, g: Global, steps: seq<Step>, id: string)
    requires Loaded(g, id) && ValidRun(w, g, steps)
    ensures Loaded(Run(w, g, steps), id)
    decreases |steps|
  {
    if steps != [] {
      LoadedStep(w, g, steps[0], id);
      LoadedRun(w, Next(w, g, steps[0]), steps[1..], id);
    }
  }

  ghost predicate Blames(e: Event, earlier: set<nat>, id: string) {
    e.Authorized? && e.device == id ==> e.session in earlier
  }

  ghost predicate KeptOut(g: Global, g1: Global, earlier: set<nat>, id: string) {
    && NotStanding(g1, earlier, id)
    && g.trace <= g1.trace
    && forall e <- g1.trace[|g.trace|..] :: Blames(e, earlier, id)
  }

  lemma {:induction false} OpenKeepsOut(w: World, g: Global, step: Step, earlier: set<nat>, id: string)
    requires NotStanding(g, earlier, id) && Enabled(w, g, step) && step.action.Open?
    requires Revoked(Next(w, g, step).svc.cfg.devices, id)
    ensures KeptOut(g, Next(w, g, step), earlier, id)
  {
    OpenStep(w, g, step);
    assert Next(w, g, step).trace[|g.trace|..] == [];
  }

  lemma {:induction false} HelloKeepsOut(w: World, g: Global, step: Step, earlier: set<nat>, id: string)
    requires NotStanding(g, earlier, id) && Enabled(w, g, step) && step.action.Hello?
    requires Revoked(Next(w, g, step).svc.cfg.devices, id)
    ensures KeptOut(g, Next(w, g, step), earlier, id)
  {
    var Hello(sid, hello, nonce, ms, audit) := step.action;
    var p := g.sessions[sid];
    F.HelloDevice(w.env, g.svc, p.ip, p.cert, hello, nonce, ms, audit, step.at);
    F.HelloFacts(w.env, g.svc, p.ip, p.cert, hello, nonce, ms, audit, step.at);
    var r := S.OnHello(w.env, g.svc, p.ip, p.cert, hello, nonce, ms, audit, step.at);
    assert Next(w, g, step).trace == g.trace + Events(sid, p.ip, r.note, step.at);
  }

  lemma {:induction false} RespondKeepsOut(w: World, g: Global, step: Step, earlier: set<nat>, id: string)
    requires NotStanding(g, earlier, id) && Enabled(w, g, step) && (step.action.Respond? || step.action.Finish?)
    ensures KeptOut(g, Next(w, g, step), earlier, id)
  {
    var sid := step.action.session;
    var p := g.sessions[sid];
    var g1 := Next(w, g, step);
    if step.action.Respond? {
      var Respond(_, response, audit) := step.action;
      F.ResponseDevice(w.env, g.svc, p.ip, p.device, response, audit, step.at);
      var r := S.OnResponse(w.env, g.svc, p.ip, p.device, response, audit, step.at);
      assert g1.trace == g.trace + Events(sid, p.ip, r.note, step.at);
    } else {
      F.FinishDevice(w.env, g.svc, p.ip, p.owes, step.action.audit, step.at);
      F.FinishFacts(w.env, g.svc, p.ip, p.owes, step.action.audit, step.at);
      assert g1.trace == g.trace + [];
    }
  }

  lemma {:induction false} OtherTrace(w: World, g: Global, step: Step)
    requires Enabled(w, g, step) && !SessionAction(step.action)
    ensures var g1 := Next(w, g, step);
            g1.sessions == g.sessions && g.trace <= g1.trace && forall e <- g1.trace[|g.trace|..] :: !e.Authorized?
  {
    SideSteps(w, g, step);
    var g1 := Next(w, g, step);
    if g1.trace != g.trace {
      var e: Event :| Minor(e) && g1.trace == g.trace + [e];
      assert g1.trace[|g.trace|..] == [e];
    }
  }

  lemma {:induction false} OtherKeepsOut(w: World, g: Global, step: Step, earlier: set<nat>, id: string)
    requires NotStanding(g, earlier, id) && Enabled(w, g, step) && !SessionAction(step.action)
    ensures KeptOut(g, Next(w, g, step), earlier, id)
  {
    OtherTrace(w, g, step);
  }

  // A step keeps the device out, given that the configuration it leaves behind revokes it.
  lemma {:induction false} NotStandingStep(w: World, g: Global, step: Step, earlier: set<nat>, id: string)
    requires NotStanding(g, earlier, id) && Enabled(w, g, step)
    requires Revoked(Next(w, g, step).svc.cfg.devices, id)
    ensures KeptOut(g, Next(w, g, step), earlier, id)
  {
    match step.action
    case Open(_, _, _, _, _) => OpenKeepsOut(w, g, step, earlier, id);
    case Hello(_, _, _, _, _) => HelloKeepsOut(w, g, step, earlier, id);
    case Respond(_, _, _) => RespondKeepsOut(w, g, step, earlier, id);
    case Finish(_, _) => RespondKeepsOut(w, g, step, earlier, id);
    case _ => OtherKeepsOut(w, g, step, earlier, id);
  }

  lemma {:induction false} InertRun(w: World, g: Global, steps: seq<Step>, earlier: set<nat>, id: string)
    requires Inert(g, earlier, id) && ValidRun(w, g, steps)
    ensures forall e <- NewEvents(w, g, steps) :: Blames(e, earlier, id)
    decreases |steps|
  {
    if steps != [] {
      var g1 := Next(w, g, steps[0]);
      LoadedStep(w, g, steps[0], id);
      NotStandingStep(w, g, steps[0], earlier, id);
      InertRun(w, g1, steps[1..], earlier, id);
      NewEventsSplit(w, g, steps);
    }
  }

  // Once the service has loaded a configuration that revokes a device, no session that starts
  // afterwards is ever authorised for it, whatever pair.py and the network do next.
  lemma {:induction false} RevokedNeverAuthorised(w: World, cfg: Data, before: seq<Step>, after: seq<Step>, id: string)
    requires ValidRun(w, Init(cfg), before)
    requires var g := Run(w, Init(cfg), before);
             ValidRun(w, g, after) && Revoked(g.svc.cfg.devices, id)
    ensures var g := Run(w, Init(cfg), before);
            forall e <- NewEvents(w, g, after) :: e.Authorized? && e.device == id ==> e.session in g.sessions
  {
    LoadedRun(w, Init(cfg), before, id);
    var g := Run(w, Init(cfg), before);
    InertRun(w, g, after, g.sessions.Keys, id);
    forall e <- NewEvents(w, g, after)
      ensures e.Authorized? && e.device == id ==> e.session in g.sessions
    {
      assert Blames(e, g.sessions.Keys, id);
    }
  }

  // ---- when a revocation on disk is loaded ---------------------------------------------------

  // The session is admitted, and its reload gets as far as reading the file.
  predicate Reads(g: Global, step: Step) {
    && step.action.Open? && g.svc.active < g.svc.cfg.settings.maxConnections
    && (step.action.access.reach.Full? || step.action.access.reach.NoStamp?)
  }

  // What a session loads: nothing, unless it is admitted, can read the file and sees another mtime than
  // the one remembered; and then all of the configuration as it is when it reads, settings and devices,
  // under the mtime that the file shows afterwards.
  lemma {:induction false} LoadsExactly(w: World, g: Global, step: Step)
    requires Enabled(w, g, step) && step.action.Open?
    ensures var g1, access := Next(w, g, step), step.action.access;
            && g1.disk == ApplyAll(ApplyAll(g.disk, access.early), access.late)
            && if Reads(g, step) && g.svc.mtime != g.disk.mtime
               then
                 && g1.svc.cfg == ApplyAll(g.disk, access.early).data
                 && g1.svc.mtime == (if access.reach.NoStamp? then g.svc.mtime else g1.disk.mtime)
               else g1.svc.cfg == g.svc.cfg && g1.svc.mtime == g.svc.mtime
  {
    OpenStep(w, g, step);
    if g.svc.active >= g.svc.cfg.settings.maxConnections {
      assert Next(w, g, step).sessions[step.action.session].Closed?;
    }
  }

  // A revocation on disk binds the next admitted session that can read the file, and every one after
  // it, if and only if the file does not show the mtime that the service remembers, or the service has
  // loaded the revocation already.
  lemma {:induction false} RevocationBinds(w: World, cfg: Data, before: seq<Step>, step: Step, after: seq<Step>,
                                           id: string)
    requires ValidRun(w, Init(cfg), before)
    requires var g := Run(w, Init(cfg), before);
             && Revoked(g.disk.data.devices, id)
             && Enabled(w, g, step) && Reads(g, step) && ValidRun(w, Next(w, g, step), after)
    ensures var g := Run(w, Init(cfg), before);
            var g1 := Next(w, g, step);
            && (Revoked(g1.svc.cfg.devices, id) <==> g.svc.mtime != g.disk.mtime || Revoked(g.svc.cfg.devices, id))
            && (g.svc.mtime != g.disk.mtime || Revoked(g.svc.cfg.devices, id) ==>
                  forall e <- NewEvents(w, g1, after) :: e.Authorized? && e.device == id ==> e.session in g.sessions)
  {
    LoadedRun(w, Init(cfg), before, id);
    var g := Run(w, Init(cfg), before);
    var g1 := Next(w, g, step);
    ReadsRevoked(w, g, step, id);
    if Revoked(g1.svc.cfg.devices, id) {
      LoadedStep(w, g, step, id);
      NotStandingStep(w, g, step, g.sessions.Keys, id);
      InertRun(w, g1, after, g.sessions.Keys, id);
      forall e <- NewEvents(w, g1, after)
        ensures e.Authorized? && e.device == id ==> e.session in g.sessions
      {
        assert Blames(e, g.sessions.Keys, id);
      }
    }
  }

  lemma {:induction false} ReadsRevoked(w: World, g: Global, step: Step, id: string)
    requires Enabled(w, g, step) && Reads(g, step) && Revoked(g.disk.data.devices, id)
    ensures Revoked(Next(w, g, step).svc.cfg.devices, id)
            <==> g.svc.mtime != g.disk.mtime || Revoked(g.svc.cfg.devices, id)
  {
    OpenStep(w, g, step);
    EditsKeepRevoked(g.disk, step.action.access.early, id);
  }

  // While the file shows the mtime that the service remembers, nothing is loaded without an edit.
  lemma {:induction false} UneditedStep(w: World, g: Global, step: Step)
    requires Enabled(w, g, step) && g.svc.mtime == g.disk.mtime && Edits(step.action) == []
    ensures SameConfig(g, Next(w, g, step))
  {
    match step.action
    case Open(_, _, _, access, _) =>
      OpenStep(w, g, step);
      assert access.early == [] && access.late == [];
    case Hello(_, _, _, _, _) => SessionConfig(w, g, step);
    case Respond(_, _, _) => SessionConfig(w, g, step);
    case Finish(_, _) => SessionConfig(w, g, step);
    case Save(_) => assert false;
    case _ => OtherConfig(w, g, step);
  }

  lemma {:induction false} UneditedRun(w: World, g: Global, steps: seq<Step>)
    requires ValidRun(w, g, steps) && g.svc.mtime == g.disk.mtime
    requires forall step <- steps :: Edits(step.action) == []
    ensures SameConfig(g, Run(w, g, steps))
    decreases |steps|
  {
    if steps != [] {
      UneditedStep(w, g, steps[0]);
      UneditedRun(w, Next(w, g, steps[0]), steps[1..]);
    }
  }

  // ---- a revocation that is missed -----------------------------------------------------------

  // The file is saved, a session opens and reads it, and pair.py revokes the device before the reload
  // takes its second stat.
  function RacedSteps(cfg: Data, name: string): seq<Step> {
    var revoke := Edit(Command(RevokeDevice(name)), 2);
    [Step(0.0, Save(Edit(NewSettings(cfg.settings), 1))),
     Step(0.0, Open(0, "", None, Access(Full, [], [revoke]), S.Writes(true, true)))]
  }

  // Then the service remembers the mtime of a file that it has not read: the device is revoked on
  // disk and enabled in the service, and stays so in every continuation without a further edit.
  lemma {:induction false} RacedRevocation(w: World, cfg: Data, name: string, later: seq<Step>)
    requires DistinctIds(cfg.devices) && DeviceById(cfg.devices, name).Some? && 0 < cfg.settings.maxConnections
    ensures ValidRun(w, Init(cfg), RacedSteps(cfg, name))
    ensures var g := Run(w, Init(cfg), RacedSteps(cfg, name));
            && Revoked(g.disk.data.devices, name) && g.svc.cfg == cfg && g.svc.mtime == g.disk.mtime
            && (ValidRun(w, g, later) && (forall step <- later :: Edits(step.action) == []) ==>
                  DeviceById(Run(w, g, later).svc.cfg.devices, name).Some?)
  {
    var steps := RacedSteps(cfg, name);
    var g0 := Init(cfg);
    var g1 := Next(w, g0, steps[0]);
    assert g1.disk == Disk(cfg, 1) && g1.svc == g0.svc;
    RacedObservation(cfg, name);
    OpenStep(w, g1, steps[1]);
    var g2 := Next(w, g1, steps[1]);
    assert steps[1..] == [steps[1]] && [steps[1]][1..] == [];
    assert ValidRun(w, g2, []) && Run(w, g2, []) == g2;
    assert ValidRun(w, g1, [steps[1]]) && Run(w, g1, [steps[1]]) == g2;
    if ValidRun(w, g2, later) && forall step <- later :: Edits(step.action) == [] {
      UneditedRun(w, g2, later);
    }
  }

  lemma {:induction false} RacedObservation(cfg: Data, name: string)
    requires DistinctIds(cfg.devices) && DeviceById(cfg.devices, name).Some?
    ensures var (reading, after) := Observe(Disk(cfg, 1), Access(Full, [], [Edit(Command(RevokeDevice(name)), 2)]));
            && reading == Some(Reading(1, Some(cfg), Some(2)))
            && after.mtime == 2 && Revoked(after.data.devices, name)
  {
    var revoke := Edit(Command(RevokeDevice(name)), 2);
    var d := Disk(cfg, 1);
    assert DeviceById(cfg.devices, name).value in cfg.devices;
    RevokeFrame(cfg.devices, name, name, "");
    assert Saves(cfg.devices, RevokeDevice(name));
    assert Apply(d, revoke) == Disk(cfg.(devices := Revoke(cfg.devices, name).0), 2);
    assert [revoke][1..] == [] && ApplyAll(d, []) == d && ApplyAll(d, [revoke]) == Apply(d, revoke);
  }

  // Such a revocation is missed for good: a phone of the device that is welcome by the configuration
  // in the service is authorised.
  lemma {:induction false} RevocationMissed(w: World, g: Global, a: HonestRun.Attempt, c: HonestRun.Course)
    requires g.svc.mtime == g.disk.mtime && Revoked(g.disk.data.devices, a.device.id)
    requires HonestRun.Prepared(w, g.svc.cfg, a) && HonestRun.Welcome(g, a, c) && HonestRun.InTime(g, c)
    ensures ValidRun(w, g, HonestRun.UnlockSteps(a, c))
    ensures var trace := Run(w, g, HonestRun.UnlockSteps(a, c)).trace;
            && trace != [] && trace[|trace| - 1].Authorized?
            && trace[|trace| - 1].session !in g.sessions && trace[|trace| - 1].device == a.device.id
  {
    HonestRun.HonestUnlockSucceeds(w, g, a, c);
  }

  // ---- when nothing is missed ----------------------------------------------------------------

  // Every save leaves a later mtime behind.
  ghost predicate Rising(d: Disk, edits: seq<Edit>)
    decreases |edits|
  {
    edits == [] || (d.mtime < edits[0].mtime && Rising(Apply(d, edits[0]), edits[1..]))
  }

  // No edit falls between the reading of a reload and its second stat, and mtimes rise.
  ghost predicate Apart(g: Global, step: Step) {
    match step.action
    case Save(e) => Rising(g.disk, [e])
    case Open(_, _, _, access, _) => access.late == [] && Rising(g.disk, access.early)
    case _ => true
  }

  ghost predicate ApartRun(w: World, g: Global, steps: seq<Step>)
    requires ValidRun(w, g, steps)
    decreases |steps|
  {
    steps == [] || (Apart(g, steps[0]) && ApartRun(w, Next(w, g, steps[0]), steps[1..]))
  }

  // The service has the newest configuration when it remembers the newest mtime.
  ghost predicate Current(g: Global) {
    g.svc.mtime <= g.disk.mtime && (g.svc.mtime == g.disk.mtime ==> g.svc.cfg == g.disk.data)
  }

  lemma {:induction false} RisingGrows(d: Disk, edits: seq<Edit>)
    requires Rising(d, edits)
    ensures var after := ApplyAll(d, edits); d.mtime <= after.mtime && (d.mtime == after.mtime ==> after == d)
    decreases |edits|
  {
    if edits != [] {
      RisingGrows(Apply(d, edits[0]), edits[1..]);
    }
  }

  // A reload of the file in which nothing falls behind the reading.
  lemma {:induction false} CurrentReload(data: Data, mtime: int, d: Disk, access: Access)
    requires mtime <= d.mtime && (mtime == d.mtime ==> data == d.data)
    requires access.late == [] && Rising(d, access.early)
    ensures var (reading, after) := Observe(d, access);
            var (data1, mtime1) := Reload(data, mtime, reading);
            mtime1 <= after.mtime && (mtime1 == after.mtime ==> data1 == after.data)
            && mtime <= after.mtime && (mtime == after.mtime ==> data == after.data)
  {
    RisingGrows(d, access.early);
    assert ApplyAll(ApplyAll(d, access.early), []) == ApplyAll(d, access.early);
  }

  lemma {:induction false} CurrentOpen(w: World, g: Global, step: Step)
    requires Current(g) && Enabled(w, g, step) && Apart(g, step) && step.action.Open?
    ensures Current(Next(w, g, step))
  {
    OpenStep(w, g, step);
    CurrentReload(g.svc.cfg, g.svc.mtime, g.disk, step.action.access);
  }

  lemma {:induction false} CurrentSave(w: World, g: Global, step: Step)
    requires Current(g) && Enabled(w, g, step) && Apart(g, step) && step.action.Save?
    ensures Current(Next(w, g, step))
  {
    var e := step.action.edit;
    RisingGrows(g.disk, [e]);
    assert [e][1..] == [] && ApplyAll(g.disk, [e]) == Apply(g.disk, e);
  }

  lemma {:induction false} CurrentStep(w: World, g: Global, step: Step)
    requires Current(g) && Enabled(w, g, step) && Apart(g, step)
    ensures Current(Next(w, g, step))
  {
    match step.action
    case Open(_, _, _, _, _) => CurrentOpen(w, g, step);
    case Hello(_, _, _, _, _) => SessionConfig(w, g, step);
    case Respond(_, _, _) => SessionConfig(w, g, step);
    case Finish(_, _) => SessionConfig(w, g, step);
    case Save(_) => CurrentSave(w, g, step);
    case _ => OtherConfig(w, g, step);
  }

  lemma {:induction false} CurrentRun(w: World, g: Global, steps: seq<Step>)
    requires Current(g) && ValidRun(w, g, steps) && ApartRun(w, g, steps)
    ensures Current(Run(w, g, steps))
    decreases |steps|
  {
    if steps != [] {
      CurrentStep(w, g, steps[0]);
      CurrentRun(w, Next(w, g, steps[0]), steps[1..]);
    }
  }

  // As long as edits keep clear of reloads and mtimes rise, every revocation on disk takes effect at
  // the first session that is admitted and can read the file: that session and all later ones are
  // never authorised for the device.
  lemma {:induction false} RevocationTakesEffect(w: World, cfg: Data, before: seq<Step>, step: Step, after: seq<Step>,
                                                 id: string)
    requires ValidRun(w, Init(cfg), before) && ApartRun(w, Init(cfg), before)
    requires var g := Run(w, Init(cfg), before);
             && Revoked(g.disk.data.devices, id)
             && Enabled(w, g, step) && Reads(g, step) && ValidRun(w, Next(w, g, step), after)
    ensures var g := Run(w, Init(cfg), before);
            forall e <- NewEvents(w, Next(w, g, step), after) ::
              e.Authorized? && e.device == id ==> e.session in g.sessions
  {
    CurrentRun(w, Init(cfg), before);
    RevocationBinds(w, cfg, before, step, after, id);
  }
}
