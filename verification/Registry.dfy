/** common.py, class Config, and pair.py, add_device and revoke_device: the registered devices.

    A public key that load_public_key refuses is None; keys, certificates and fingerprints are
    otherwise opaque names. */
module Registry {
  import opened Prelude
  import Wire

  datatype Device = Device(id: string, key: Option<string>, fingerprint: string, enabled: bool)

  // The settings the running service reads on every use.
  datatype Settings = Settings(
    challengeTtl: real,
    pamWait: real,
    maxConnections: int,
    pamUids: set<int>,
    unlockUser: string,
    requireMtls: bool,
    targetId: string)

  datatype Data = Data(settings: Settings, devices: seq<Device>)

  // One pass of reload_if_changed over the file: its mtime at the first stat, what its text said when
  // it was read (None when reading or parsing raised), and its mtime at the stat after that (None when
  // that raised). Other processes write the file in between.
  datatype Reading = Reading(seen: int, content: Option<Data>, stamp: Option<int>)

  datatype AddOutcome = Added | BadName | AlreadyExists | BadKey

  function FindId(devices: seq<Device>, id: string): Option<nat> {
    if devices == [] then None
    else if devices[0].id == id then Some(0)
    else match FindId(devices[1..], id) case Some(k) => Some(k + 1) case None => None
  }

  function DeviceById(devices: seq<Device>, id: string): (r: Option<Device>)
    ensures r.Some? ==> r.value in devices && r.value.enabled && r.value.id == id
    ensures r.None? ==> forall d <- devices :: d.enabled ==> d.id != id
  {
    if devices == [] then None
    else if devices[0].enabled && devices[0].id == id then Some(devices[0])
    else DeviceById(devices[1..], id)
  }

  function DeviceByFingerprint(devices: seq<Device>, fingerprint: string): (r: Option<Device>)
    ensures r.Some? ==> r.value in devices && r.value.enabled && r.value.fingerprint == fingerprint
    ensures r.None? ==> forall d <- devices :: d.enabled ==> d.fingerprint != fingerprint
  {
    if devices == [] then None
    else if devices[0].enabled && devices[0].fingerprint == fingerprint then Some(devices[0])
    else DeviceByFingerprint(devices[1..], fingerprint)
  }

  function Add(devices: seq<Device>, name: string, key: Option<string>, fingerprint: string): (seq<Device>,
               AddOutcome) {
    if !Wire.MatchesId(name) then (devices, BadName)
    else if FindId(devices, name).Some? then (devices, AlreadyExists)
    else if key.None? then (devices, BadKey)
    else (devices + [Device(name, key, fingerprint, true)], Added)
  }

  // False when there is no such device.
  function Revoke(devices: seq<Device>, name: string): (seq<Device>, bool) {
    match FindId(devices, name)
    case None => (devices, false)
    case Some(k) =>
      FindIdFinds(devices, name);
      (devices[k := devices[k].(enabled := false)], true)
  }

  lemma {:induction false} FindIdFinds(devices: seq<Device>, id: string)
    ensures match FindId(devices, id)
            case Some(k) => k < |devices| && devices[k].id == id && forall j | 0 <= j < k :: devices[j].id != id
            case None => forall d <- devices :: d.id != id
  {
    if devices != [] && devices[0].id != id {
      FindIdFinds(devices[1..], id);
      assert devices == [devices[0]] + devices[1..];
    }
  }

  // reload_if_changed: keeps the last good data when the first stat raises (None), shows the known
  // mtime, or nothing can be read. The mtime it remembers is that of the second stat.
  function Reload(data: Data, mtime: int, reading: Option<Reading>): (Data, int) {
    if reading.None? || reading.value.seen == mtime || reading.value.content.None? then (data, mtime)
    else (reading.value.content.value, reading.value.stamp.GetOr(mtime))
  }

  // ---- what command sequences keep -----------------------------------------------------------

  datatype Command =
    | AddDevice(name: string, key: Option<string>, fingerprint: string)
    | RevokeDevice(name: string)

  function Perform(devices: seq<Device>, c: Command): seq<Device> {
    match c
    case AddDevice(name, key, fp) => Add(devices, name, key, fp).0
    case RevokeDevice(name) => Revoke(devices, name).0
  }

  // The file as other processes see it: every save replaces it as a whole.
  datatype Disk = Disk(data: Data, mtime: int)

  datatype Change = Command(command: Command) | NewSettings(settings: Settings)

  // A change, and the mtime that its save leaves behind.
  datatype Edit = Edit(change: Change, mtime: int)

  // A command that fails saves nothing.
  predicate Saves(devices: seq<Device>, c: Command) {
    match c
    case AddDevice(name, key, fp) => Add(devices, name, key, fp).1.Added?
    case RevokeDevice(name) => Revoke(devices, name).1
  }

  function Apply(d: Disk, e: Edit): Disk {
    match e.change
    case Command(c) =>
      if Saves(d.data.devices, c) then Disk(d.data.(devices := Perform(d.data.devices, c)), e.mtime) else d
    case NewSettings(settings) => Disk(d.data.(settings := settings), e.mtime)
  }

  function ApplyAll(d: Disk, edits: seq<Edit>): Disk
    decreases |edits|
  {
    if edits == [] then d else ApplyAll(Apply(d, edits[0]), edits[1..])
  }

  lemma {:induction false} ApplyAppend(d: Disk, a: seq<Edit>, b: seq<Edit>)
    ensures ApplyAll(d, a + b) == ApplyAll(ApplyAll(d, a), b)
    decreases |a|
  {
    if a == [] {
      assert a + b == b;
    } else {
      ApplyAppend(Apply(d, a[0]), a[1..], b);
      assert (a + b)[1..] == a[1..] + b;
    }
  }

  // How far a reload gets, and the edits that fall between its first stat and its reading, and between
  // that and its second stat.
  datatype Reach = NoStat | NoText | NoStamp | Full

  datatype Access = Access(reach: Reach, early: seq<Edit>, late: seq<Edit>)

  // What the reload sees of a file that is edited meanwhile, and the file afterwards.
  function Observe(d: Disk, a: Access): (Option<Reading>, Disk) {
    var read := ApplyAll(d, a.early);
    var after := ApplyAll(read, a.late);
    var content := if a.reach.NoText? then None else Some(read.data);
    var stamp := if a.reach.NoStamp? then None else Some(after.mtime);
    (if a.reach.NoStat? then None else Some(Reading(d.mtime, content, stamp)), after)
  }

  function PerformAll(devices: seq<Device>, cs: seq<Command>): seq<Device>
    decreases |cs|
  {
    if cs == [] then devices else PerformAll(Perform(devices, cs[0]), cs[1..])
  }

  ghost predicate DistinctIds(devices: seq<Device>) {
    forall i, j | 0 <= i < j < |devices| :: devices[i].id != devices[j].id
  }

  // The id is registered, and no enabled record carries it.
  ghost predicate Revoked(devices: seq<Device>, id: string) {
    && (exists d <- devices :: d.id == id)
    && (forall d <- devices :: d.id == id ==> !d.enabled)
  }

  lemma {:induction false} PerformKeeps(devices: seq<Device>, c: Command, id: string)
    ensures DistinctIds(devices) ==> DistinctIds(Perform(devices, c))
    ensures Revoked(devices, id) ==> Revoked(Perform(devices, c), id)
  {
    FindIdFinds(devices, c.name);
    var after := Perform(devices, c);
    if Revoked(devices, id) {
      var k :| 0 <= k < |devices| && devices[k].id == id;
      assert after[k] in after && after[k].id == id;
    }
  }

  // The settings that were edited last.
  function LastSettings(settings: Settings, edits: seq<Edit>): Settings {
    if edits == [] then settings
    else
      var last := edits[|edits| - 1].change;
      if last.NewSettings? then last.settings else LastSettings(settings, edits[..|edits| - 1])
  }

  // What edits leave on disk: the settings that were edited last, and the devices as the commands alone
  // leave them.
  lemma {:induction false} EditsExactly(d: Disk, edits: seq<Edit>)
    ensures ApplyAll(d, edits).data.settings == LastSettings(d.data.settings, edits)
    ensures ApplyAll(d, edits).data.devices == PerformAll(d.data.devices, Commands(edits))
    decreases |edits|
  {
    if edits != [] {
      var init, e := edits[..|edits| - 1], edits[|edits| - 1];
      EditsExactly(d, init);
      assert edits == init + [e] && [e][1..] == [];
      ApplyAppend(d, init, [e]);
      assert ApplyAll(ApplyAll(d, init), [e]) == Apply(ApplyAll(d, init), e);
      if e.change.Command? {
        PerformSnoc(d.data.devices, Commands(init), e.change.command);
        IdleCommand(PerformAll(d.data.devices, Commands(init)), e.change.command);
      } else {
        assert Commands(init) + [] == Commands(init);
      }
    }
  }

  // The commands among the edits.
  function Commands(edits: seq<Edit>): seq<Command> {
    if edits == [] then []
    else
      var last := edits[|edits| - 1].change;
      Commands(edits[..|edits| - 1]) + if last.Command? then [last.command] else []
  }

  lemma {:induction false} PerformSnoc(devices: seq<Device>, cs: seq<Command>, c: Command)
    ensures PerformAll(devices, cs + [c]) == Perform(PerformAll(devices, cs), c)
    decreases |cs|
  {
    if cs == [] {
      assert [c][1..] == [] && [] + [c] == [c];
    } else {
      PerformSnoc(Perform(devices, cs[0]), cs[1..], c);
      assert (cs + [c])[1..] == cs[1..] + [c];
    }
  }

  // A command that saves nothing would change nothing.
  lemma {:induction false} IdleCommand(devices: seq<Device>, c: Command)
    ensures !Saves(devices, c) ==> Perform(devices, c) == devices
  {
  }

  // No edit of the file brings a revoked device back.
  lemma {:induction false} EditsKeepRevoked(d: Disk, edits: seq<Edit>, id: string)
    requires Revoked(d.data.devices, id)
    ensures Revoked(ApplyAll(d, edits).data.devices, id)
    decreases |edits|
  {
    if edits != [] {
      if edits[0].change.Command? {
        PerformKeeps(d.data.devices, edits[0].change.command, id);
      }
      EditsKeepRevoked(Apply(d, edits[0]), edits[1..], id);
    }
  }

  // Ids stay pairwise distinct, and a revoked id is never enabled or registered again.
  lemma {:induction false} RevokedForever(devices: seq<Device>, cs: seq<Command>, id: string)
    requires DistinctIds(devices)
    ensures DistinctIds(PerformAll(devices, cs))
    ensures Revoked(devices, id) ==>
              && Revoked(PerformAll(devices, cs), id)
              && DeviceById(PerformAll(devices, cs), id) == None
              && forall fp :: DeviceByFingerprint(PerformAll(devices, cs), fp).Some? ==>
                                DeviceByFingerprint(PerformAll(devices, cs), fp).value.id != id
    decreases |cs|
  {
    if cs != [] {
      PerformKeeps(devices, cs[0], id);
      RevokedForever(Perform(devices, cs[0]), cs[1..], id);
    }
  }

  // Revoking takes the id out of every lookup and leaves every other lookup as it was: by id for
  // every other id, by fingerprint for every fingerprint the revoked record does not carry.
  lemma {:induction false} RevokeFrame(devices: seq<Device>, name: string, other: string, fp: string)
    requires DistinctIds(devices)
    ensures var (after, found) := Revoke(devices, name);
            && (found <==> exists d <- devices :: d.id == name)
            && (found ==> Revoked(after, name))
            && DeviceById(after, name) == None
            && (other != name ==> DeviceById(after, other) == DeviceById(devices, other))
            && ((forall d <- devices :: d.id == name ==> d.fingerprint != fp) ==>
                  DeviceByFingerprint(after, fp) == DeviceByFingerprint(devices, fp))
  {
    FindIdFinds(devices, name);
    var (after, found) := Revoke(devices, name);
    if found {
      var k := FindId(devices, name).value;
      assert devices[k] in devices && after[k] in after;
      if other != name {
        ByIdUpdate(devices, k, other);
      }
      if forall d <- devices :: d.id == name ==> d.fingerprint != fp {
        ByFingerprintUpdate(devices, k, fp);
      }
    }
  }

  lemma {:induction false} ByIdUpdate(devices: seq<Device>, k: nat, other: string)
    requires k < |devices| && devices[k].id != other
    ensures DeviceById(devices[k := devices[k].(enabled := false)], other) == DeviceById(devices, other)
  {
    var after := devices[k := devices[k].(enabled := false)];
    if k > 0 {
      ByIdUpdate(devices[1..], k - 1, other);
      assert after[1..] == devices[1..][k - 1 := devices[k].(enabled := false)];
    } else {
      assert after[1..] == devices[1..];
    }
  }

  lemma {:induction false} ByFingerprintUpdate(devices: seq<Device>, k: nat, fp: string)
    requires k < |devices| && devices[k].fingerprint != fp
    ensures DeviceByFingerprint(devices[k := devices[k].(enabled := false)], fp) == DeviceByFingerprint(devices, fp)
  {
    var after := devices[k := devices[k].(enabled := false)];
    if k > 0 {
      ByFingerprintUpdate(devices[1..], k - 1, fp);
      assert after[1..] == devices[1..][k - 1 := devices[k].(enabled := false)];
    } else {
      assert after[1..] == devices[1..];
    }
  }

  lemma {:induction false} ByIdSnoc(devices: seq<Device>, d: Device, id: string)
    ensures DeviceById(devices + [d], id)
            == if DeviceById(devices, id).Some? || !d.enabled || d.id != id then DeviceById(devices, id) else Some(d)
  {
    if devices == [] {
      assert [d][1..] == [];
    } else {
      ByIdSnoc(devices[1..], d, id);
      assert (devices + [d])[1..] == devices[1..] + [d];
    }
  }

  lemma {:induction false} ByFingerprintSnoc(devices: seq<Device>, d: Device, fp: string)
    ensures DeviceByFingerprint(devices + [d], fp)
            == if DeviceByFingerprint(devices, fp).Some? || !d.enabled || d.fingerprint != fp
               then DeviceByFingerprint(devices, fp) else Some(d)
  {
    if devices == [] {
      assert [d][1..] == [];
    } else {
      ByFingerprintSnoc(devices[1..], d, fp);
      assert (devices + [d])[1..] == devices[1..] + [d];
    }
  }

  // Pairing succeeds exactly for a proper new name and a good key. Then the device is found under its
  // id and, unless an enabled one shares it, under its fingerprint; every record stays, and every other
  // lookup is as it was. A pairing that fails changes nothing.
  lemma {:induction false} AddFrame(devices: seq<Device>, name: string, key: Option<string>, fp: string,
                                    other: string, otherFp: string)
    ensures var (after, outcome) := Add(devices, name, key, fp);
            var added := Some(Device(name, key, fp, true));
            && (outcome.BadName? <==> !Wire.MatchesId(name))
            && (outcome.AlreadyExists? <==> Wire.MatchesId(name) && exists d <- devices :: d.id == name)
            && (outcome.Added? <==> Wire.MatchesId(name) && (forall d <- devices :: d.id != name) && key.Some?)
            && (!outcome.Added? ==> after == devices)
            && (outcome.Added? ==>
                  && devices <= after && DeviceById(after, name) == added
                  && (DeviceByFingerprint(devices, fp).None? ==> DeviceByFingerprint(after, fp) == added)
                  && (other != name ==> DeviceById(after, other) == DeviceById(devices, other))
                  && (otherFp != fp || DeviceByFingerprint(devices, fp).Some? ==>
                        DeviceByFingerprint(after, otherFp) == DeviceByFingerprint(devices, otherFp)))
  {
    FindIdFinds(devices, name);
    var d := Device(name, key, fp, true);
    ByIdSnoc(devices, d, name);
    ByIdSnoc(devices, d, other);
    ByFingerprintSnoc(devices, d, fp);
    ByFingerprintSnoc(devices, d, otherFp);
  }

  // Both lookups take the first enabled record that matches.
  lemma {:induction false} FirstById(devices: seq<Device>, id: string) returns (k: nat)
    ensures k <= |devices| && forall j | 0 <= j < k :: !devices[j].enabled || devices[j].id != id
    ensures if k == |devices| then DeviceById(devices, id) == None
            else devices[k].enabled && devices[k].id == id && DeviceById(devices, id) == Some(devices[k])
  {
    if devices == [] || (devices[0].enabled && devices[0].id == id) {
      k := 0;
    } else {
      k := FirstById(devices[1..], id);
      k := k + 1;
    }
  }

  lemma {:induction false} FirstByFingerprint(devices: seq<Device>, fp: string) returns (k: nat)
    ensures k <= |devices| && forall j | 0 <= j < k :: !devices[j].enabled || devices[j].fingerprint != fp
    ensures if k == |devices| then DeviceByFingerprint(devices, fp) == None
            else
              && devices[k].enabled && devices[k].fingerprint == fp
              && DeviceByFingerprint(devices, fp) == Some(devices[k])
  {
    if devices == [] || (devices[0].enabled && devices[0].fingerprint == fp) {
      k := 0;
    } else {
      k := FirstByFingerprint(devices[1..], fp);
      k := k + 1;
    }
  }

  // ---- the class -----------------------------------------------------------------------------

  class Config {
    var data: Data
    var mtime: int

    constructor (data: Data, mtime: int)
      ensures this.data == data && this.mtime == mtime
    {
      this.data, this.mtime := data, mtime;
    }

    method ReloadIfChanged(reading: Option<Reading>)
      modifies this
      ensures (data, mtime) == Reload(old(data), old(mtime), reading)
    {
      if reading.Some? && reading.value.seen != mtime {
        if reading.value.content.Some? {
          data := reading.value.content.value;
          if reading.value.stamp.Some? {
            mtime := reading.value.stamp.value;
          }
        }
      }
    }

    method ByFingerprint(fingerprint: string) returns (r: Option<Device>)
      ensures r == DeviceByFingerprint(data.devices, fingerprint)
    {
      var devices := data.devices;
      for i := 0 to |devices|
        invariant DeviceByFingerprint(devices, fingerprint) == DeviceByFingerprint(devices[i..], fingerprint)
      {
        var d := devices[i];
        assert devices[i..][1..] == devices[i + 1..];
        if d.enabled && d.fingerprint == fingerprint {
          return Some(d);
        }
      }
      return None;
    }

    method ById(id: string) returns (r: Option<Device>)
      ensures r == DeviceById(data.devices, id)
    {
      var devices := data.devices;
      for i := 0 to |devices|
        invariant DeviceById(devices, id) == DeviceById(devices[i..], id)
      {
        var d := devices[i];
        assert devices[i..][1..] == devices[i + 1..];
        if d.enabled && d.id == id {
          return Some(d);
        }
      }
      return None;
    }

    method AddTo(name: string, key: Option<string>, fingerprint: string) returns (outcome: AddOutcome)
      modifies this`data
      ensures (data.devices, outcome) == Add(old(data.devices), name, key, fingerprint)
      ensures data.settings == old(data.settings)
    {
      if !Wire.MatchesId(name) {
        return BadName;
      }
      FindIdFinds(data.devices, name);
      if exists d <- data.devices :: d.id == name {
        return AlreadyExists;
      }
      if key.None? {
        return BadKey;
      }
      data := data.(devices := data.devices + [Device(name, key, fingerprint, true)]);
      return Added;
    }

    method RevokeIn(name: string) returns (found: bool)
      modifies this`data
      ensures (data.devices, found) == Revoke(old(data.devices), name)
      ensures data.settings == old(data.settings)
    {
      FindIdFinds(data.devices, name);
      for i := 0 to |data.devices|
        invariant data == old(data)
        invariant forall j | 0 <= j < i :: data.devices[j].id != name
      {
        if data.devices[i].id == name {
          var d := data.devices[i].(enabled := false);
          data := data.(devices := data.devices[i := d]);
          return true;
        }
      }
      return false;
    }
  }
}
