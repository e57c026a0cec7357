/** How many guesses a key can make in how much time: the lockout table, the gates and the sessions
    in flight together. */
module GuessBudget {
  import opened Prelude
  import opened Protocol
  import opened StepFacts
  import opened Lockouts
  import opened Backoffs
  import BackoffLaws
  import Registry
  import S = Service
  import F = ServiceFacts
  import Gates

  // ---- what a stretch charges ----------------------------------------------------------------

  // The table after one failure of `who`, and after one or two.
  function FailOnce(p: Params, t: Table, who: string, at: real): Table {
    Fail(p, t, who, at).0
  }

  predicate Debited(p: Params, t: Table, t1: Table, who: string, at: real) {
    t1 == FailOnce(p, t, who, at) || t1 == FailOnce(p, FailOnce(p, t, who, at), who, at)
  }

  predicate MayDebit(p: Params, t: Table, t1: Table, who: string, at: real) {
    t1 == t || Debited(p, t, t1, who, at)
  }

  // The table after n failures of `who` at one moment.
  function Fails(p: Params, t: Table, who: string, at: real, n: nat): Table {
    if n == 0 then t else FailOnce(p, Fails(p, t, who, at, n - 1), who, at)
  }

  lemma {:induction false} FailsDebit(p: Params, t: Table, who: string, at: real, n: nat)
    requires n <= 2
    ensures MayDebit(p, t, Fails(p, t, who, at, n), who, at)
    ensures n >= 1 ==> Debited(p, t, Fails(p, t, who, at, n), who, at)
  {
    assert Fails(p, t, who, at, 0) == t;
    assert Fails(p, t, who, at, 1) == FailOnce(p, t, who, at);
    if n == 2 {
      assert Fails(p, t, who, at, 2) == FailOnce(p, Fails(p, t, who, at, 1), who, at);
    }
  }

  // What a stretch costs: failures of the IP and of the device, and whether both are cleared first.
  datatype Bill = Bill(ip: nat, device: nat, clears: bool)

  // A device without a name is never charged.
  predicate Settles(p: Params, s: S.State, r: S.State, ip: string, id: string, bill: Bill, now: real) {
    && r.ip == Fails(p, if bill.clears then Succeed(s.ip, ip) else s.ip, ip, now, bill.ip)
    && r.dev == Fails(p, if bill.clears then Succeed(s.dev, id) else s.dev, id, now,
                      if id == "" then 0 else bill.device)
  }

  const FREE := Bill(0, 0, false)

  // The exception handler charges the IP.
  const RAISED := Bill(1, 0, false)

  // A rejection charges the IP, and the device where it is known; when recording it raises, the
  // handler charges the IP again.
  function RejectBill(known: bool, audit: S.Writes): Bill {
    Bill(if audit.session then 1 else 2, if known then 1 else 0, false)
  }

  function TurnAwayBill(audit: S.Writes): Bill {
    if audit.session then FREE else RAISED
  }

  lemma {:induction false} RejectCharges(env: S.Env, s: S.State, ip: string, device: Option<string>, audit: S.Writes,
                                         now: real)
    ensures var id := device.GetOr("");
            && Settles(env.lockout, s, S.HandlerFail(env, s, ip, audit, now).state, ip, id, RAISED, now)
            && Settles(env.lockout, s, S.TurnAway(env, s, ip, audit, now).state, ip, id, TurnAwayBill(audit), now)
            && Settles(env.lockout, s, S.Reject(env, s, ip, device, audit, now).state, ip, id,
                       RejectBill(device.Some?, audit), now)
  {
    var p, id := env.lockout, device.GetOr("");
    assert forall t, who :: Fails(p, t, who, now, 0) == t;
    assert Fails(p, s.ip, ip, now, 1) == FailOnce(p, s.ip, ip, now);
    assert Fails(p, s.ip, ip, now, 2) == FailOnce(p, FailOnce(p, s.ip, ip, now), ip, now);
    assert Fails(p, s.dev, id, now, 1) == FailOnce(p, s.dev, id, now);
  }

  // ---- up to the response --------------------------------------------------------------------

  lemma {:induction false} SettlesIp(p: Params, s: S.State, r: S.State, ip: string, id: string, bill: Bill, now: real)
    requires Settles(p, s, r, ip, id, bill, now) && bill.ip <= 2 && bill.device == 0 && !bill.clears
    ensures MayDebit(p, s.ip, r.ip, ip, now) && r.dev == s.dev
  {
    FailsDebit(p, s.ip, ip, now, bill.ip);
    assert Fails(p, s.dev, id, now, 0) == s.dev;
  }

  lemma {:induction false} BeginCharges(env: S.Env, s: S.State, ip: string, fingerprint: Option<string>,
                                        audit: S.Writes, now: real)
    ensures var r := S.Begin(env, s, ip, fingerprint, audit, now).state;
            MayDebit(env.lockout, s.ip, r.ip, ip, now) && r.dev == s.dev
  {
    RejectCharges(env, s, ip, None, audit, now);
    SettlesIp(env.lockout, s, S.TurnAway(env, s, ip, audit, now).state, ip, "", TurnAwayBill(audit), now);
    SettlesIp(env.lockout, s, S.Reject(env, s, ip, None, audit, now).state, ip, "", RejectBill(false, audit), now);
  }

  lemma {:induction false} OpenCharges(env: S.Env, s: S.State, ip: string, fingerprint: Option<string>,
                                       reading: Option<Registry.Reading>, audit: S.Writes, now: real)
    ensures var r := S.Open(env, s, ip, fingerprint, reading, audit, now).state;
            MayDebit(env.lockout, s.ip, r.ip, ip, now) && r.dev == s.dev
  {
    var (cfg, mtime) := Registry.Reload(s.cfg, s.mtime, reading);
    var s1 := s.(active := s.active + 1, cfg := cfg, mtime := mtime);
    BeginCharges(env, s1, ip, fingerprint, audit, now);
  }

  // What opening a session costs: nothing when it is not admitted or gets to say hello.
  function BeginBill(s: S.State, ip: string, fingerprint: Option<string>, audit: S.Writes, now: real): Bill {
    if Remaining(s.ip, ip, now) > 0.0 then TurnAwayBill(audit)
    else if s.cfg.settings.requireMtls && Gates.Certified(s.cfg, fingerprint).None? then RejectBill(false, audit)
    else FREE
  }

  lemma {:induction false} BeginBilled(env: S.Env, s: S.State, ip: string, fingerprint: Option<string>,
                                       audit: S.Writes, now: real)
    ensures var r := S.Begin(env, s, ip, fingerprint, audit, now).state;
            && Settles(env.lockout, s, r, ip, "", BeginBill(s, ip, fingerprint, audit, now), now)
            && r.cfg == s.cfg
  {
    RejectCharges(env, s, ip, None, audit, now);
    F.ChargeFacts(env, s, ip, None, audit, now);
    Free(env.lockout, s, ip);
  }

  // The bill of a session that is admitted, by the configuration that it has loaded.
  lemma {:induction false} OpenBilled(env: S.Env, s: S.State, ip: string, fingerprint: Option<string>,
                                      reading: Option<Registry.Reading>, audit: S.Writes, now: real, r: S.Result)
    requires r == S.Open(env, s, ip, fingerprint, reading, audit, now)
    ensures if s.active >= s.cfg.settings.maxConnections then r.state == s
            else Settles(env.lockout, s, r.state, ip, "",
                         BeginBill(s.(cfg := r.state.cfg), ip, fingerprint, audit, now), now)
  {
    if s.active < s.cfg.settings.maxConnections {
      var s1 := OpenBegins(env, s, ip, fingerprint, reading, audit, now);
      BeginBilled(env, s1, ip, fingerprint, audit, now);
      SameBill(env.lockout, s, s1, r.state, ip, fingerprint, audit, now);
    }
  }

  lemma {:induction false} OpenBegins(env: S.Env, s: S.State, ip: string, fingerprint: Option<string>,
                                      reading: Option<Registry.Reading>, audit: S.Writes, now: real)
    returns (s1: S.State)
    requires s.active < s.cfg.settings.maxConnections
    ensures S.Open(env, s, ip, fingerprint, reading, audit, now) == S.Begin(env, s1, ip, fingerprint, audit, now)
    ensures s1.ip == s.ip && s1.dev == s.dev
  {
    var (cfg, mtime) := Registry.Reload(s.cfg, s.mtime, reading);
    s1 := s.(active := s.active + 1, cfg := cfg, mtime := mtime);
  }

  lemma {:induction false} SameBill(p: Params, s: S.State, s1: S.State, r: S.State, ip: string,
                                    fingerprint: Option<string>, audit: S.Writes, now: real)
    requires s1.ip == s.ip && s1.dev == s.dev && r.cfg == s1.cfg
    requires Settles(p, s1, r, ip, "", BeginBill(s1, ip, fingerprint, audit, now), now)
    ensures Settles(p, s, r, ip, "", BeginBill(s.(cfg := r.cfg), ip, fingerprint, audit, now), now)
  {
  }

  // What the end of a session costs: the IP once, when a lockout record is owed and raises.
  lemma {:induction false} FinishBilled(env: S.Env, s: S.State, ip: string, owes: bool, audit: S.Writes, now: real)
    ensures Settles(env.lockout, s, S.Finish(env, s, ip, owes, audit, now).state, ip, "",
                    if owes && !audit.session then RAISED else FREE, now)
  {
    RejectCharges(env, s, ip, None, audit, now);
    Free(env.lockout, s, ip);
  }

  // What a hello costs: `sent` tells that a challenge went out.
  function HelloBill(s: S.State, cert: Option<Registry.Device>, msg: S.Hello, sent: bool, audit: S.Writes,
                     now: real): Bill {
    match msg
    case HelloDropped => FREE
    case HelloUnreadable => RAISED
    case HelloWrong => RejectBill(false, audit)
    case HelloFrom(id) =>
      var device := if cert.Some? then cert else Registry.DeviceById(s.cfg.devices, id);
      if device.None? || device.value.id != id then RejectBill(false, audit)
      else if Remaining(s.dev, id, now) > 0.0 then TurnAwayBill(audit)
      else if sent then FREE else RAISED
  }

  // Up to the challenge a session charges its own IP only: once for a message that is malformed or a
  // challenge that cannot be made, once or, when recording raises, twice for a rejection, and for a
  // locked device only when recording raises.
  lemma {:induction false} HelloCharges(env: S.Env, s: S.State, ip: string, cert: Option<Registry.Device>,
                                        msg: S.Hello, nonce: string, issuedMs: int, audit: S.Writes, now: real)
    ensures var r := S.OnHello(env, s, ip, cert, msg, nonce, issuedMs, audit, now);
            var bill := HelloBill(s, cert, msg, r.phase.ResponseWait?, audit, now);
            && bill.ip <= 2 && bill.device == 0 && !bill.clears
            && Settles(env.lockout, s, r.state, ip, "", bill, now)
  {
    RejectCharges(env, s, ip, None, audit, now);
    Free(env.lockout, s, ip);
    if msg.HelloFrom? {
      var device := if cert.Some? then cert else Registry.DeviceById(s.cfg.devices, msg.device);
      if device.Some? {
        ChallengeCharges(env, s, ip, device.value, nonce, issuedMs, audit, now);
      }
    }
  }

  lemma {:induction false} Free(p: Params, s: S.State, ip: string)
    ensures forall r: S.State, now | r.ip == s.ip && r.dev == s.dev :: Settles(p, s, r, ip, "", FREE, now)
  {
    assert forall now :: Fails(p, s.ip, ip, now, 0) == s.ip && Fails(p, s.dev, "", now, 0) == s.dev;
  }

  lemma {:induction false} ChallengeCharges(env: S.Env, s: S.State, ip: string, device: Registry.Device,
                                            nonce: string, issuedMs: int, audit: S.Writes, now: real)
    ensures var r := S.Challenge(env, s, ip, device, nonce, issuedMs, audit, now);
            Settles(env.lockout, s, r.state, ip, "", if r.phase.ResponseWait? then FREE else RAISED, now)
  {
    var p := env.lockout;
    assert Fails(p, s.ip, ip, now, 0) == s.ip && Fails(p, s.dev, "", now, 0) == s.dev;
    assert Fails(p, s.ip, ip, now, 1) == FailOnce(p, s.ip, ip, now);
  }

  lemma {:induction false} HelloDebits(env: S.Env, s: S.State, ip: string, cert: Option<Registry.Device>,
                                       msg: S.Hello, nonce: string, issuedMs: int, audit: S.Writes, now: real)
    ensures var r := S.OnHello(env, s, ip, cert, msg, nonce, issuedMs, audit, now).state;
            MayDebit(env.lockout, s.ip, r.ip, ip, now) && r.dev == s.dev
  {
    HelloCharges(env, s, ip, cert, msg, nonce, issuedMs, audit, now);
    var r := S.OnHello(env, s, ip, cert, msg, nonce, issuedMs, audit, now);
    SettlesIp(env.lockout, s, r.state, ip, "", HelloBill(s, cert, msg, r.phase.ResponseWait?, audit, now), now);
  }

  // ---- the response --------------------------------------------------------------------------

  // What a response costs, by what arrived and how it was judged.
  function ResponseBill(msg: S.Response, note: S.Note, audit: S.Writes): Bill {
    if note.Judged? then
      match note.verdict
      case Raised => RAISED
      case Accepted(_, _) => Bill(if audit.session then 0 else 1, 0, true)
      case _ => RejectBill(true, audit)
    else if msg.ResponseDropped? then FREE
    else if msg.ResponseUnreadable? then RAISED
    else RejectBill(true, audit)
  }

  // Who pays for a response: nobody when the connection drops; the IP alone when the message is late or
  // unreadable or checking it raises; IP and device when it is of the wrong type or fails the check,
  // the IP twice when recording that raises; and a response that is accepted clears both, and charges
  // the IP once when recording that raises.
  lemma {:induction false} ResponseCharges(env: S.Env, s: S.State, ip: string, device: Registry.Device,
                                           msg: S.Response, audit: S.Writes, now: real)
    ensures var r := S.OnResponse(env, s, ip, device, msg, audit, now);
            && (r.note.Judged? <==> msg.ResponseGiven?)
            && Settles(env.lockout, s, r.state, ip, device.id, ResponseBill(msg, r.note, audit), now)
  {
    if msg.ResponseGiven? {
      GivenCharges(env, s, ip, device, msg, audit, now);
    } else {
      RejectCharges(env, s, ip, Some(device.id), audit, now);
      assert Fails(env.lockout, s.ip, ip, now, 0) == s.ip && Fails(env.lockout, s.dev, device.id, now, 0) == s.dev;
    }
  }

  lemma {:induction false} AuthorizeCharges(env: S.Env, s: S.State, ip: string, device: string, audit: S.Writes,
                                            now: real)
    ensures Settles(env.lockout, s, S.Authorize(env, s, ip, device, audit, now).state, ip, device,
                    Bill(if audit.session then 0 else 1, 0, true), now)
  {
    var p, t := env.lockout, Succeed(s.ip, ip);
    assert Fails(p, t, ip, now, 0) == t && Fails(p, Succeed(s.dev, device), device, now, 0) == Succeed(s.dev, device);
    assert Fails(p, t, ip, now, 1) == FailOnce(p, t, ip, now);
  }

  lemma {:induction false} GivenCharges(env: S.Env, s: S.State, ip: string, device: Registry.Device, msg: S.Response,
                                        audit: S.Writes, now: real)
    requires msg.ResponseGiven?
    ensures var r := S.OnResponse(env, s, ip, device, msg, audit, now);
            && r.note.Judged?
            && Settles(env.lockout, s, r.state, ip, device.id, ResponseBill(msg, r.note, audit), now)
  {
    var st := s.cfg.settings;
    var (pending, verdict) := S.Challenges.CheckResponse(
      env.verifies, s.pending, st.challengeTtl, st.targetId, device, msg.nonce, msg.signature, now);
    var s1 := s.(pending := pending);
    if verdict.Accepted? {
      AuthorizeCharges(env, s1, ip, device.id, audit, now);
    } else {
      RejectCharges(env, s1, ip, Some(device.id), audit, now);
    }
  }

  // The same as debits: a response that is judged and not accepted charges its IP, and its device
  // unless judging raised.
  ghost predicate Billed(p: Params, s: S.State, ip: string, id: string, r: S.Result, now: real) {
    if F.Accepts(r.note) then
      && MayDebit(p, Succeed(s.ip, ip), r.state.ip, ip, now) && r.state.dev == Succeed(s.dev, id)
    else
      && MayDebit(p, s.ip, r.state.ip, ip, now) && MayDebit(p, s.dev, r.state.dev, id, now)
      && (r.note.Judged? ==> Debited(p, s.ip, r.state.ip, ip, now))
      && (r.note.Judged? && !r.note.verdict.Raised? && id != "" ==> r.state.dev == FailOnce(p, s.dev, id, now))
  }

  lemma {:induction false} ResponseDebits(env: S.Env, s: S.State, ip: string, device: Registry.Device,
                                          msg: S.Response, audit: S.Writes, now: real)
    ensures Billed(env.lockout, s, ip, device.id, S.OnResponse(env, s, ip, device, msg, audit, now), now)
  {
    ResponseCharges(env, s, ip, device, msg, audit, now);
    var r := S.OnResponse(env, s, ip, device, msg, audit, now);
    BillDebits(env.lockout, s, r, ip, device.id, msg, audit, now);
  }

  lemma {:induction false} OneDebits(p: Params, t: Table, who: string, at: real, n: nat)
    requires n <= 1
    ensures MayDebit(p, t, Fails(p, t, who, at, n), who, at)
    ensures n == 1 ==> Fails(p, t, who, at, n) == FailOnce(p, t, who, at)
  {
    assert Fails(p, t, who, at, 0) == t;
    assert Fails(p, t, who, at, 1) == FailOnce(p, Fails(p, t, who, at, 0), who, at);
  }

  lemma {:induction false} BillDebits(p: Params, s: S.State, r: S.Result, ip: string, id: string, msg: S.Response,
                                      audit: S.Writes, now: real)
    requires r.note.Judged? <==> msg.ResponseGiven?
    requires Settles(p, s, r.state, ip, id, ResponseBill(msg, r.note, audit), now)
    ensures Billed(p, s, ip, id, r, now)
  {
    if F.Accepts(r.note) {
      AcceptedDebits(p, s, r.state, ip, id, ResponseBill(msg, r.note, audit), now);
    } else {
      RefusedDebits(p, s, r.state, ip, id, ResponseBill(msg, r.note, audit), now);
    }
  }

  lemma {:induction false} AcceptedDebits(p: Params, s: S.State, r: S.State, ip: string, id: string, bill: Bill,
                                          now: real)
    requires Settles(p, s, r, ip, id, bill, now) && bill.clears && bill.ip <= 1 && bill.device == 0
    ensures MayDebit(p, Succeed(s.ip, ip), r.ip, ip, now) && r.dev == Succeed(s.dev, id)
  {
    OneDebits(p, Succeed(s.ip, ip), ip, now, bill.ip);
    assert Fails(p, Succeed(s.dev, id), id, now, 0) == Succeed(s.dev, id);
  }

  lemma {:induction false} RefusedDebits(p: Params, s: S.State, r: S.State, ip: string, id: string, bill: Bill,
                                         now: real)
    requires Settles(p, s, r, ip, id, bill, now) && !bill.clears && bill.ip <= 2 && bill.device <= 1
    ensures MayDebit(p, s.ip, r.ip, ip, now) && MayDebit(p, s.dev, r.dev, id, now)
    ensures bill.ip >= 1 ==> Debited(p, s.ip, r.ip, ip, now)
    ensures bill.device == 1 && id != "" ==> r.dev == FailOnce(p, s.dev, id, now)
  {
    FailsDebit(p, s.ip, ip, now, bill.ip);
    OneDebits(p, s.dev, id, now, if id == "" then 0 else bill.device);
  }

  lemma {:induction false} FinishCharges(env: S.Env, s: S.State, ip: string, owes: bool, audit: S.Writes, now: real)
    ensures var r := S.Finish(env, s, ip, owes, audit, now).state;
            MayDebit(env.lockout, s.ip, r.ip, ip, now) && r.dev == s.dev
  {
  }

  // ---- what a charge does to one entry -------------------------------------------------------

  function FailTimes(p: Params, e: Entry, at: real, n: nat): Entry {
    if n == 0 then e else FailEntry(p, FailTimes(p, e, at, n - 1), at).0
  }

  // The key's last failure and lockout are not forgotten yet.
  predicate Restless(p: Params, t: Table, name: string, at: real) {
    name in t ==> !BackoffLaws.Lapsed(p, t[name].last, t[name].until, at)
  }

  // The entry of `name` after n failures at this moment; only a quiet entry can have been pruned.
  ghost predicate Pays(p: Params, t: Table, t1: Table, name: string, at: real, n: nat) {
    if n == 0 then
      && (name in t1 ==> name in t && t1[name] == t[name])
      && (name in t && Restless(p, t, name, at) ==> name in t1)
    else name in t1 && t1[name] == FailTimes(p, EntryOrFresh(t, name, at), at, n)
  }

  lemma {:induction false} OncePays(p: Params, t: Table, who: string, name: string, at: real)
    requires 0.0 <= p.quietReset
    ensures Pays(p, t, FailOnce(p, t, who, at), name, at, if who == name then 1 else 0)
  {
    if who == name {
      assert FailTimes(p, EntryOrFresh(t, name, at), at, 0) == EntryOrFresh(t, name, at);
    }
  }

  lemma {:induction false} TwicePays(p: Params, t: Table, who: string, name: string, at: real)
    requires 0.0 <= p.quietReset
    ensures Pays(p, t, FailOnce(p, FailOnce(p, t, who, at), who, at), name, at, if who == name then 2 else 0)
  {
    OncePays(p, t, who, name, at);
    OncePays(p, FailOnce(p, t, who, at), who, name, at);
    if who == name {
      var e := EntryOrFresh(t, name, at);
      assert FailTimes(p, e, at, 2) == FailEntry(p, FailTimes(p, e, at, 1), at).0;
    }
  }

  lemma {:induction false} DebitPays(p: Params, t: Table, t1: Table, who: string, name: string, at: real)
    returns (n: nat)
    requires 0.0 <= p.quietReset && MayDebit(p, t, t1, who, at)
    ensures Pays(p, t, t1, name, at, n)
    ensures who == name && Debited(p, t, t1, who, at) ==> n >= 1
  {
    if t1 == FailOnce(p, t, who, at) {
      OncePays(p, t, who, name, at);
      n := if who == name then 1 else 0;
    } else if t1 == t {
      n := 0;
    } else {
      TwicePays(p, t, who, name, at);
      n := if who == name then 2 else 0;
    }
  }

  // ---- what a step does to one entry ---------------------------------------------------------

  // A guess that the key is charged for when it fails.
  predicate Try(e: Event, key: Key) {
    Guess(e, key) && (key.Device? ==> !e.raised && key.name != "")
  }

  function Tries(trace: seq<Event>, key: Key): nat {
    if trace == [] then 0 else (if Try(trace[0], key) then 1 else 0) + Tries(trace[1..], key)
  }

  lemma {:induction false} TriesAdd(a: seq<Event>, b: seq<Event>, key: Key)
    ensures Tries(a + b, key) == Tries(a, key) + Tries(b, key)
  {
    if a == [] {
      assert a + b == b;
    } else {
      TriesAdd(a[1..], b, key);
      assert (a + b)[1..] == a[1..] + b;
    }
  }

  lemma {:induction false} TriesAreGuesses(trace: seq<Event>, key: Key)
    ensures Tries(trace, key) <= Guesses(trace, key)
  {
    if trace != [] {
      TriesAreGuesses(trace[1..], key);
    }
  }

  // The step charges the key n times, and at least once if it judged a guess of it.
  ghost predicate StepPays(p: Params, g: Global, g1: Global, key: Key, at: real, n: nat) {
    && g.trace <= g1.trace
    && Pays(p, TableOf(g.svc, key), TableOf(g1.svc, key), key.name, at, n)
    && Tries(g1.trace[|g.trace|..], key) <= (if n >= 1 then 1 else 0)
  }

  predicate At(key: Key, ip: string, device: string) {
    key == Ip(ip) || key == Device(device)
  }

  lemma {:induction false} JudgedTries(sid: nat, ip: string, device: Registry.Device, note: S.Note, at: real, key: Key)
    requires note.Nothing? || (note.Judged? && note.sender == device)
    ensures var e := Events(sid, ip, note, at);
            && Tries(e, key) <= 1
            && (Tries(e, key) == 1 ==>
                  note.Judged? && At(key, ip, device.id) && (key.Device? ==> !note.verdict.Raised? && device.id != ""))
            && (F.Accepts(note) && At(key, ip, device.id) ==> !Uncleared(e, key))
  {
    JudgedGuesses(sid, ip, device, note, at, key);
    var e := Events(sid, ip, note, at);
    TriesAreGuesses(e, key);
    if note.Judged? {
      if |e| == 1 {
        assert e[1..] == [];
      } else {
        assert e[1..] == [e[1]] && [e[1]][1..] == [];
        assert e[1].Authorized? && Tries([e[1]], key) == 0;
      }
    }
  }

  // A stretch before the response: only the IP can be charged.
  lemma {:induction false} EarlyPays(p: Params, s: S.State, s1: S.State, ip: string, key: Key, at: real)
    returns (n: nat)
    requires 0.0 <= p.quietReset
    requires MayDebit(p, s.ip, s1.ip, ip, at) && s1.dev == s.dev
    ensures Pays(p, TableOf(s, key), TableOf(s1, key), key.name, at, n)
  {
    if key.Ip? {
      n := DebitPays(p, s.ip, s1.ip, ip, key.name, at);
    } else {
      n := 0;
    }
  }

  lemma {:induction false} SucceedPays(p: Params, t: Table, t1: Table, who: string, name: string, at: real)
    returns (n: nat)
    requires 0.0 <= p.quietReset && who != name && MayDebit(p, Succeed(t, who), t1, who, at)
    ensures Pays(p, t, t1, name, at, n)
  {
    n := DebitPays(p, Succeed(t, who), t1, who, name, at);
  }

  lemma {:induction false} BilledPays(p: Params, s: S.State, ip: string, id: string, r: S.Result, key: Key, now: real)
    returns (n: nat)
    requires 0.0 <= p.quietReset
    requires Billed(p, s, ip, id, r, now) && (F.Accepts(r.note) ==> !At(key, ip, id))
    ensures Pays(p, TableOf(s, key), TableOf(r.state, key), key.name, now, n)
    ensures r.note.Judged? && At(key, ip, id) && (key.Device? ==> !r.note.verdict.Raised? && id != "") ==> n >= 1
  {
    if F.Accepts(r.note) {
      if key.Ip? {
        n := SucceedPays(p, s.ip, r.state.ip, ip, key.name, now);
      } else {
        n := SucceedPays(p, s.dev, r.state.dev, id, key.name, now);
      }
    } else if key.Ip? {
      n := DebitPays(p, s.ip, r.state.ip, ip, key.name, now);
    } else {
      n := DebitPays(p, s.dev, r.state.dev, id, key.name, now);
    }
  }

  lemma {:induction false} RespondPays(w: World, g: Global, step: Step, key: Key) returns (n: nat)
    requires Enabled(w, g, step) && step.action.Respond?
    requires 0.0 <= w.env.lockout.quietReset
    requires var g1 := Next(w, g, step); g.trace <= g1.trace && Uncleared(g1.trace[|g.trace|..], key)
    ensures StepPays(w.env.lockout, g, Next(w, g, step), key, step.at, n)
  {
    var Respond(sid, response, audit) := step.action;
    var q := g.sessions[sid];
    var r := S.OnResponse(w.env, g.svc, q.ip, q.device, response, audit, step.at);
    var e := Events(sid, q.ip, r.note, step.at);
    assert Next(w, g, step).trace == g.trace + e && Next(w, g, step).svc == r.state;
    F.ResponseDevice(w.env, g.svc, q.ip, q.device, response, audit, step.at);
    ResponseDebits(w.env, g.svc, q.ip, q.device, response, audit, step.at);
    JudgedTries(sid, q.ip, q.device, r.note, step.at, key);
    n := BilledPays(w.env.lockout, g.svc, q.ip, q.device.id, r, key, step.at);
  }

  lemma {:induction false} EarlyStepPays(w: World, g: Global, step: Step, key: Key) returns (n: nat)
    requires Enabled(w, g, step) && (step.action.Open? || step.action.Hello? || step.action.Finish?)
    requires 0.0 <= w.env.lockout.quietReset
    ensures StepPays(w.env.lockout, g, Next(w, g, step), key, step.at, n)
  {
    var g1 := Next(w, g, step);
    var p := w.env.lockout;
    match step.action
    case Open(sid, ip, fingerprint, access, audit) =>
      var reading := Registry.Observe(g.disk, access).0;
      F.OpenFacts(w.env, g.svc, ip, fingerprint, reading, audit, step.at);
      OpenCharges(w.env, g.svc, ip, fingerprint, reading, audit, step.at);
      assert g1.trace == g.trace + [];
      n := EarlyPays(p, g.svc, g1.svc, ip, key, step.at);
    case Hello(sid, hello, nonce, ms, audit) =>
      var q := g.sessions[sid];
      F.HelloFacts(w.env, g.svc, q.ip, q.cert, hello, nonce, ms, audit, step.at);
      HelloDebits(w.env, g.svc, q.ip, q.cert, hello, nonce, ms, audit, step.at);
      var r := S.OnHello(w.env, g.svc, q.ip, q.cert, hello, nonce, ms, audit, step.at);
      assert g1.trace == g.trace + Events(sid, q.ip, r.note, step.at);
      n := EarlyPays(p, g.svc, g1.svc, q.ip, key, step.at);
    case Finish(sid, audit) =>
      var q := g.sessions[sid];
      F.FinishFacts(w.env, g.svc, q.ip, q.owes, audit, step.at);
      FinishCharges(w.env, g.svc, q.ip, q.owes, audit, step.at);
      assert g1.trace == g.trace + [];
      n := EarlyPays(p, g.svc, g1.svc, q.ip, key, step.at);
  }

  lemma {:induction false} EveryStepPays(w: World, g: Global, step: Step, key: Key) returns (n: nat)
    requires Enabled(w, g, step)
    requires 0.0 <= w.env.lockout.quietReset
    requires var g1 := Next(w, g, step); g.trace <= g1.trace && Uncleared(g1.trace[|g.trace|..], key)
    ensures StepPays(w.env.lockout, g, Next(w, g, step), key, step.at, n)
  {
    if step.action.Respond? {
      n := RespondPays(w, g, step, key);
    } else if SessionAction(step.action) {
      n := EarlyStepPays(w, g, step, key);
    } else {
      n := 0;
      OtherEffects(w, g, step, key);
      TriesAreGuesses(Next(w, g, step).trace[|g.trace|..], key);
    }
  }

  // ---- sound tables --------------------------------------------------------------------------

  // Every key has failed less often than the threshold since its last lockout.
  ghost predicate SoundCounts(p: Params, t: Table) {
    forall k <- t :: BackoffLaws.SoundAt(p, t, k)
  }

  lemma {:induction false} DebitSound(p: Params, t: Table, t1: Table, who: string, at: real)
    requires SoundCounts(p, t) && MayDebit(p, t, t1, who, at)
    ensures SoundCounts(p, t1)
  {
    OnceSound(p, t, who, at);
    OnceSound(p, FailOnce(p, t, who, at), who, at) by {
      OnceSound(p, t, who, at);
    }
  }

  lemma {:induction false} OnceSound(p: Params, t: Table, who: string, at: real)
    requires SoundCounts(p, t)
    ensures SoundCounts(p, FailOnce(p, t, who, at))
  {
    var e := EntryOrFresh(t, who, at);
    assert who in t ==> BackoffLaws.SoundAt(p, t, who);
    assert 0 <= FailEntry(p, e, at).0.fails < BackoffLaws.Threshold(p);
    var t1 := FailUnpruned(p, t, who, at).0;
    forall k <- t1
      ensures BackoffLaws.SoundAt(p, t1, k)
    {
      assert k != who ==> BackoffLaws.SoundAt(p, t, k);
    }
    forall k <- FailOnce(p, t, who, at)
      ensures BackoffLaws.SoundAt(p, FailOnce(p, t, who, at), k)
    {
      assert BackoffLaws.SoundAt(p, t1, k);
    }
  }

  lemma {:induction false} SucceedSound(p: Params, t: Table, who: string)
    requires SoundCounts(p, t)
    ensures SoundCounts(p, Succeed(t, who))
  {
    forall k <- Succeed(t, who)
      ensures BackoffLaws.SoundAt(p, Succeed(t, who), k)
    {
      assert BackoffLaws.SoundAt(p, t, k);
    }
  }

  ghost predicate BothSound(p: Params, s: S.State) {
    SoundCounts(p, s.ip) && SoundCounts(p, s.dev)
  }

  lemma {:induction false} BilledSound(p: Params, s: S.State, ip: string, id: string, r: S.Result, now: real)
    requires BothSound(p, s) && Billed(p, s, ip, id, r, now)
    ensures BothSound(p, r.state)
  {
    if F.Accepts(r.note) {
      SucceedSound(p, s.ip, ip);
      SucceedSound(p, s.dev, id);
      DebitSound(p, Succeed(s.ip, ip), r.state.ip, ip, now);
    } else {
      DebitSound(p, s.ip, r.state.ip, ip, now);
      DebitSound(p, s.dev, r.state.dev, id, now);
    }
  }

  // A step that charges an IP at most.
  lemma {:induction false} EarlySound(p: Params, s: S.State, s1: S.State, ip: string, at: real)
    requires BothSound(p, s) && MayDebit(p, s.ip, s1.ip, ip, at) && s1.dev == s.dev
    ensures BothSound(p, s1)
  {
    DebitSound(p, s.ip, s1.ip, ip, at);
  }

  lemma {:induction false} OpenSound(w: World, g: Global, step: Step)
    requires Enabled(w, g, step) && BothSound(w.env.lockout, g.svc) && step.action.Open?
    ensures BothSound(w.env.lockout, Next(w, g, step).svc)
  {
    var Open(_, ip, fingerprint, access, audit) := step.action;
    var reading := Registry.Observe(g.disk, access).0;
    OpenCharges(w.env, g.svc, ip, fingerprint, reading, audit, step.at);
    EarlySound(w.env.lockout, g.svc, Next(w, g, step).svc, ip, step.at);
  }

  lemma {:induction false} HelloSound(w: World, g: Global, step: Step)
    requires Enabled(w, g, step) && BothSound(w.env.lockout, g.svc) && (step.action.Hello? || step.action.Finish?)
    ensures BothSound(w.env.lockout, Next(w, g, step).svc)
  {
    var q := g.sessions[step.action.session];
    if step.action.Hello? {
      var Hello(sid, hello, nonce, ms, audit) := step.action;
      HelloDebits(w.env, g.svc, q.ip, q.cert, hello, nonce, ms, audit, step.at);
    } else {
      FinishCharges(w.env, g.svc, q.ip, q.owes, step.action.audit, step.at);
    }
    EarlySound(w.env.lockout, g.svc, Next(w, g, step).svc, q.ip, step.at);
  }

  lemma {:induction false} RespondSound(w: World, g: Global, step: Step)
    requires Enabled(w, g, step) && BothSound(w.env.lockout, g.svc) && step.action.Respond?
    ensures BothSound(w.env.lockout, Next(w, g, step).svc)
  {
    var Respond(sid, response, audit) := step.action;
    var q := g.sessions[sid];
    ResponseDebits(w.env, g.svc, q.ip, q.device, response, audit, step.at);
    var r := S.OnResponse(w.env, g.svc, q.ip, q.device, response, audit, step.at);
    BilledSound(w.env.lockout, g.svc, q.ip, q.device.id, r, step.at);
  }

  lemma {:induction false} StepSound(w: World, g: Global, step: Step)
    requires Enabled(w, g, step) && BothSound(w.env.lockout, g.svc)
    ensures BothSound(w.env.lockout, Next(w, g, step).svc)
  {
    match step.action
    case Open(_, _, _, _, _) => OpenSound(w, g, step);
    case Hello(_, _, _, _, _) => HelloSound(w, g, step);
    case Finish(_, _) => HelloSound(w, g, step);
    case Respond(_, _, _) => RespondSound(w, g, step);
    case _ => SideSteps(w, g, step);
  }

  lemma {:induction false} RunSound(w: World, g: Global, steps: seq<Step>)
    requires ValidRun(w, g, steps) && BothSound(w.env.lockout, g.svc)
    ensures BothSound(w.env.lockout, Run(w, g, steps).svc)
    decreases |steps|
  {
    if steps != [] {
      StepSound(w, g, steps[0]);
      RunSound(w, Next(w, g, steps[0]), steps[1..]);
    }
  }

  // ---- the account of a key ------------------------------------------------------------------

  // Sessions that can still guess during the lockout that is running.
  function Exposed(g: Global, key: Key): nat {
    if Remaining(TableOf(g.svc, key), key.name, g.clock) > 0.0 then |Armed(g, key)| else 0
  }

  // Since t0: the entry it began with, lockouts started, failures counted, guesses made while locked,
  // `lost` on the key, and the entry as the last charge left it.
  datatype Account = Account(origin: Entry, starts: seq<real>, counted: nat, lost: nat, entry: Entry)

  // The step changed the entry of the key, or made it.
  predicate Touched(t: Table, t1: Table, name: string) {
    name in t1 && (name !in t || t1[name] != t[name])
  }

  // `since` is the time of the last charge since t0. The entry of the key is what that left, unless it
  // has lapsed and was pruned. The sessions exposed at t0 and those exposed by each lockout since cover
  // what was lost.
  ghost predicate Balanced(p: Params, g: Global, key: Key, t0: real, a: Account, since: Option<real>) {
    var t := TableOf(g.svc, key);
    && 0.0 <= t0 <= g.clock
    && (forall i | 0 <= i < |a.starts| :: t0 <= a.starts[i] <= g.clock)
    && Booked(p, t, key.name, a, since, g.clock)
    && a.lost + Exposed(g, key) <= (|a.starts| + 1) * g.cap
  }

  ghost predicate Booked(p: Params, t: Table, name: string, a: Account, since: Option<real>, now: real) {
    if since.None? then
      && a.starts == [] && a.counted == 0
      && (name in t ==> BackoffLaws.Ledger(p, a.origin, [], 0, t[name]))
    else
      && BackoffLaws.Ledger(p, a.origin, a.starts, a.counted, a.entry) && a.entry.last == since.value
      && if name in t then t[name] == a.entry else BackoffLaws.Lapsed(p, a.entry.last, a.entry.until, now)
  }

  // When the key was charged last, one step on.
  function Since(t: Table, t1: Table, name: string, since: Option<real>, at: real): Option<real> {
    if Touched(t, t1, name) then Some(at) else since
  }

  // More failures at one moment only add to the ledger, and the first one that is not turned away counts.
  ghost predicate Extends(starts: seq<real>, starts1: seq<real>, at: real) {
    starts <= starts1 && forall i | |starts| <= i < |starts1| :: starts1[i] == at
  }

  lemma {:induction false} LedgerTimes(p: Params, o: Entry, starts: seq<real>, counted: nat, e: Entry, at: real, n: nat)
    returns (starts1: seq<real>, counted1: nat)
    requires 0.0 <= p.quietReset && BackoffLaws.Ledger(p, o, starts, counted, e)
    requires BackoffLaws.Lapsed(p, e.last, e.until, at) ==> e.fails == 0 && e.level == 0
    ensures BackoffLaws.Ledger(p, o, starts1, counted1, FailTimes(p, e, at, n))
    ensures Extends(starts, starts1, at) && counted <= counted1
    ensures n >= 1 && at >= e.until ==> counted < counted1
    ensures n >= 1 ==> FailTimes(p, e, at, n).last == at
  {
    if n == 0 {
      starts1, counted1 := starts, counted;
    } else {
      starts1, counted1 := LedgerTimes(p, o, starts, counted, e, at, n - 1);
      var e1 := FailTimes(p, e, at, n - 1);
      BackoffLaws.LedgerStep(p, o, starts1, counted1, e1, at);
      if FailEntry(p, e1, at).1 {
        starts1 := starts1 + [at];
      }
      if at >= e1.until {
        counted1 := counted1 + 1;
      }
    }
  }

  lemma {:induction false} RefreshedTimes(p: Params, e: Entry, at: real, n: nat)
    requires n >= 1
    ensures FailTimes(p, BackoffLaws.Refreshed(p, e, at), at, n) == FailTimes(p, e, at, n)
  {
    if n == 1 {
      BackoffLaws.RefreshedFails(p, e, at);
      assert FailTimes(p, e, at, 0) == e;
      assert FailTimes(p, BackoffLaws.Refreshed(p, e, at), at, 0) == BackoffLaws.Refreshed(p, e, at);
    } else {
      RefreshedTimes(p, e, at, n - 1);
    }
  }

  lemma {:induction false} LockedTimes(p: Params, e: Entry, at: real, n: nat)
    requires at < e.until
    ensures FailTimes(p, e, at, n) == if n == 0 then e else e.(last := at)
  {
    if n > 0 {
      LockedTimes(p, e, at, n - 1);
    }
  }

  lemma {:induction false} CapGrows(w: World, g: Global, step: Step)
    requires Enabled(w, g, step)
    ensures g.cap <= Next(w, g, step).cap
  {
    if !SessionAction(step.action) {
      SideSteps(w, g, step);
    }
  }

  // A failure during the lockout changes nothing that the ledger reads.
  lemma {:induction false} LockedBooks(p: Params, t: Table, t1: Table, name: string, at: real, n: nat, a: Account,
                                       since: Option<real>, now: real)
    requires Remaining(t, name, at) > 0.0 && Pays(p, t, t1, name, at, n) && Booked(p, t, name, a, since, now)
    ensures name in t1 && Remaining(t1, name, at) == Remaining(t, name, at)
    ensures Booked(p, t1, name, a.(entry := t1[name]), Since(t, t1, name, since, at), at)
  {
    LockedTimes(p, t[name], at, n);
  }

  lemma {:induction false} Scale(k: nat, cap: int, cap1: int)
    requires cap <= cap1
    ensures k * cap <= k * cap1
  {
  }

  // The key is locked: a guess uses up a session, and the ledger stands still.
  lemma {:induction false} LockedSettles(p: Params, g: Global, g1: Global, key: Key, t0: real, a: Account,
                                         since: Option<real>, at: real, n: nat, tries: nat) returns (a1: Account)
    requires Balanced(p, g, key, t0, a, since)
    requires g.clock <= at && g1.clock == at && g.cap <= g1.cap
    requires Remaining(TableOf(g.svc, key), key.name, at) > 0.0
    requires Pays(p, TableOf(g.svc, key), TableOf(g1.svc, key), key.name, at, n)
    requires tries + |Armed(g1, key)| <= |Armed(g, key)|
    ensures Balanced(p, g1, key, t0, a1, Since(TableOf(g.svc, key), TableOf(g1.svc, key), key.name, since, at))
    ensures a1.counted == a.counted && a1.lost == a.lost + tries
  {
    var t, t1 := TableOf(g.svc, key), TableOf(g1.svc, key);
    LockedBooks(p, t, t1, key.name, at, n, a, since, g.clock);
    Scale(|a.starts| + 1, g.cap, g1.cap);
    assert Exposed(g, key) == |Armed(g, key)| && Exposed(g1, key) <= |Armed(g1, key)|;
    a1 := a.(lost := a.lost + tries, entry := t1[key.name]);
  }

  lemma {:induction false} LockedBalance(w: World, g: Global, step: Step, key: Key, t0: real, a: Account,
                                         since: Option<real>, n: nat) returns (a1: Account)
    requires Enabled(w, g, step) && Balanced(w.env.lockout, g, key, t0, a, since)
    requires Remaining(TableOf(g.svc, key), key.name, step.at) > 0.0
    requires StepPays(w.env.lockout, g, Next(w, g, step), key, step.at, n)
    ensures var g1 := Next(w, g, step);
            Balanced(w.env.lockout, g1, key, t0, a1,
                     Since(TableOf(g.svc, key), TableOf(g1.svc, key), key.name, since, step.at))
    ensures a1.counted + a1.lost >= a.counted + a.lost + Tries(Next(w, g, step).trace[|g.trace|..], key)
  {
    var g1 := Next(w, g, step);
    var tries := Tries(g1.trace[|g.trace|..], key);
    TraceGrows(w, g, step);
    CapGrows(w, g, step);
    StepGuesses(w, g, step, key, TableOf(g.svc, key)[key.name].until);
    TriesAreGuesses(g1.trace[|g.trace|..], key);
    a1 := LockedSettles(w.env.lockout, g, g1, key, t0, a, since, step.at, n, tries);
  }

  // A charge that comes in time: at most the quiet time after the one before, or during the lockout.
  predicate Timely(p: Params, t: Table, name: string, since: Option<real>, at: real) {
    since.Some? ==> at - since.value <= p.quietReset || Remaining(t, name, at) > 0.0
  }

  ghost predicate Prompt(w: World, g: Global, step: Step, key: Key, since: Option<real>)
    requires Enabled(w, g, step)
  {
    var t := TableOf(g.svc, key);
    Touched(t, TableOf(Next(w, g, step).svc, key), key.name) ==>
      Timely(w.env.lockout, t, key.name, since, step.at)
  }

  // A counted failure moves the level on, or the count at the same level, or is the first since long.
  lemma {:induction false} TimesMove(p: Params, e: Entry, at: real, n: nat)
    requires 0.0 <= p.quietReset && e.last == at
    ensures var e1 := FailTimes(p, e, at, n);
            e1.last == at && (e1 == e || e1.level > e.level || (e1.level == e.level && e1.fails > e.fails))
  {
    if n > 0 {
      TimesMove(p, e, at, n - 1);
    }
  }

  lemma {:induction false} FirstFirst(p: Params, e: Entry, at: real, n: nat)
    requires n >= 1
    ensures FailTimes(p, e, at, n) == FailTimes(p, FailEntry(p, e, at).0, at, n - 1)
  {
    if n > 1 {
      FirstFirst(p, e, at, n - 1);
      assert FailTimes(p, e, at, n) == FailEntry(p, FailTimes(p, e, at, n - 1), at).0;
    } else {
      assert FailTimes(p, e, at, 0) == e;
    }
  }

  // Failures that are not all turned away change the entry.
  lemma {:induction false} ChargeTouches(p: Params, t: Table, t1: Table, name: string, at: real, n: nat)
    requires 0.0 <= p.quietReset && 0.0 <= at && Pays(p, t, t1, name, at, n) && n >= 1
    requires Remaining(t, name, at) == 0.0
    ensures Touched(t, t1, name)
  {
    if name in t {
      var e := t[name];
      FirstFirst(p, e, at, n);
      TimesMove(p, FailEntry(p, e, at).0, at, n - 1);
    }
  }

  // What failures make of the ledger when the key is not locked. The first one since t0 may come after
  // any time: then the account begins with it.
  lemma {:induction false} OpenLedger(p: Params, t: Table, t1: Table, name: string, a: Account, since: Option<real>,
                                      now: real, at: real, n: nat) returns (a1: Account)
    requires 0.0 <= p.quietReset && 0.0 <= now <= at && Pays(p, t, t1, name, at, n) && Booked(p, t, name, a, since, now)
    requires Remaining(t, name, at) == 0.0
    requires Touched(t, t1, name) ==> Timely(p, t, name, since, at)
    ensures Booked(p, t1, name, a1, Since(t, t1, name, since, at), at)
    ensures Extends(a.starts, a1.starts, at) && a.counted <= a1.counted && a1.lost == a.lost
    ensures n >= 1 ==> a.counted < a1.counted
    ensures Remaining(t1, name, at) > 0.0 ==> |a.starts| < |a1.starts|
  {
    if n == 0 {
      a1 := a;
    } else {
      a1 := OpenCharge(p, t, t1, name, a, since, now, at, n);
    }
  }

  lemma {:induction false} OpenCharge(p: Params, t: Table, t1: Table, name: string, a: Account, since: Option<real>,
                                      now: real, at: real, n: nat) returns (a1: Account)
    requires 0.0 <= p.quietReset && 0.0 <= now <= at && Pays(p, t, t1, name, at, n) && Booked(p, t, name, a, since, now)
    requires Remaining(t, name, at) == 0.0 && n >= 1
    requires Touched(t, t1, name) ==> Timely(p, t, name, since, at)
    ensures Touched(t, t1, name) && Booked(p, t1, name, a1, Some(at), at)
    ensures Extends(a.starts, a1.starts, at) && a.counted < a1.counted && a1.lost == a.lost
    ensures Remaining(t1, name, at) > 0.0 ==> |a.starts| < |a1.starts|
  {
    var e := EntryOrFresh(t, name, at);
    ChargeTouches(p, t, t1, name, at, n);
    var e0 := BackoffLaws.Refreshed(p, e, at);
    var o := if since.Some? then a.origin else e0;
    var starts1, counted1 := LedgerTimes(p, o, a.starts, a.counted, e0, at, n);
    RefreshedTimes(p, e, at, n);
    a1 := Account(o, starts1, counted1, a.lost, t1[name]);
    if |starts1| == |a.starts| {
      assert starts1 == a.starts;
    }
  }

  lemma {:induction false} Covers(k: nat, k1: nat, cap: int, cap1: int, lost: nat, exposed: nat)
    requires k <= k1 && cap <= cap1 && lost <= k * cap && exposed <= cap1 && 0 <= cap1
    requires exposed > 0 ==> k < k1
    ensures lost + exposed <= k1 * cap1
  {
    assert k * cap <= k * cap1;
    if exposed > 0 {
      assert (k + 1) * cap1 == k * cap1 + cap1;
      assert (k + 1) * cap1 <= k1 * cap1;
    } else {
      assert k * cap1 <= k1 * cap1;
    }
  }

  // The key is not locked: a guess is counted, and a lockout that starts exposes few sessions.
  lemma {:induction false} OpenSettles(p: Params, g: Global, g1: Global, key: Key, t0: real, a: Account, at: real,
                                       since: Option<real>, n: nat) returns (a1: Account)
    requires Balanced(p, g, key, t0, a, since) && 0.0 <= p.quietReset
    requires g.clock <= at && g1.clock == at && g.cap <= g1.cap && 0 <= g1.cap
    requires Remaining(TableOf(g.svc, key), key.name, at) == 0.0
    requires var t := TableOf(g.svc, key);
             Touched(t, TableOf(g1.svc, key), key.name) ==> Timely(p, t, key.name, since, at)
    requires Pays(p, TableOf(g.svc, key), TableOf(g1.svc, key), key.name, at, n)
    requires Exposed(g1, key) <= g1.cap
    ensures Balanced(p, g1, key, t0, a1, Since(TableOf(g.svc, key), TableOf(g1.svc, key), key.name, since, at))
    ensures a1.lost == a.lost && a1.counted >= a.counted + if n >= 1 then 1 else 0
  {
    a1 := OpenLedger(p, TableOf(g.svc, key), TableOf(g1.svc, key), key.name, a, since, g.clock, at, n);
    Covers(|a.starts| + 1, |a1.starts| + 1, g.cap, g1.cap, a.lost, Exposed(g1, key));
  }

  lemma {:induction false} OpenBalance(w: World, g: Global, step: Step, key: Key, t0: real, a: Account,
                                       since: Option<real>, n: nat) returns (a1: Account)
    requires Enabled(w, g, step) && Seated(g) && Balanced(w.env.lockout, g, key, t0, a, since)
    requires 0.0 <= w.env.lockout.quietReset
    requires Remaining(TableOf(g.svc, key), key.name, step.at) == 0.0
    requires Prompt(w, g, step, key, since)
    requires StepPays(w.env.lockout, g, Next(w, g, step), key, step.at, n)
    ensures var g1 := Next(w, g, step);
            Balanced(w.env.lockout, g1, key, t0, a1,
                     Since(TableOf(g.svc, key), TableOf(g1.svc, key), key.name, since, step.at))
    ensures a1.counted + a1.lost >= a.counted + a.lost + Tries(Next(w, g, step).trace[|g.trace|..], key)
  {
    var g1 := Next(w, g, step);
    TraceGrows(w, g, step);
    CapGrows(w, g, step);
    SeatedStep(w, g, step);
    if Remaining(TableOf(g1.svc, key), key.name, step.at) > 0.0 {
      FewArmed(w, g, step, key);
    }
    a1 := OpenSettles(w.env.lockout, g, g1, key, t0, a, step.at, since, n);
  }

  // ---- runs ----------------------------------------------------------------------------------

  // Each charge of the key after the first comes at most the quiet time after the one before, or during
  // the lockout.
  ghost predicate NeverQuiet(w: World, g: Global, steps: seq<Step>, key: Key, since: Option<real>)
    requires ValidRun(w, g, steps)
    decreases |steps|
  {
    steps == [] ||
      var g1 := Next(w, g, steps[0]);
      && Prompt(w, g, steps[0], key, since)
      && NeverQuiet(w, g1, steps[1..], key,
                    Since(TableOf(g.svc, key), TableOf(g1.svc, key), key.name, since, steps[0].at))
  }

  lemma {:induction false} BalanceStep(w: World, g: Global, step: Step, key: Key, t0: real, a: Account,
                                       since: Option<real>) returns (a1: Account)
    requires Enabled(w, g, step) && Seated(g) && Balanced(w.env.lockout, g, key, t0, a, since)
    requires 0.0 <= w.env.lockout.quietReset && Prompt(w, g, step, key, since)
    requires var g1 := Next(w, g, step); g.trace <= g1.trace && Uncleared(g1.trace[|g.trace|..], key)
    ensures var g1 := Next(w, g, step);
            Balanced(w.env.lockout, g1, key, t0, a1,
                     Since(TableOf(g.svc, key), TableOf(g1.svc, key), key.name, since, step.at))
    ensures a1.counted + a1.lost >= a.counted + a.lost + Tries(Next(w, g, step).trace[|g.trace|..], key)
  {
    var n := EveryStepPays(w, g, step, key);
    if Remaining(TableOf(g.svc, key), key.name, step.at) > 0.0 {
      a1 := LockedBalance(w, g, step, key, t0, a, since, n);
    } else {
      a1 := OpenBalance(w, g, step, key, t0, a, since, n);
    }
  }

  lemma {:induction false} BalanceRun(w: World, g: Global, steps: seq<Step>, key: Key, t0: real, a: Account,
                                      since: Option<real>) returns (a1: Account, since1: Option<real>)
    requires ValidRun(w, g, steps) && NeverQuiet(w, g, steps, key, since) && Uncleared(NewEvents(w, g, steps), key)
    requires Seated(g) && Balanced(w.env.lockout, g, key, t0, a, since) && 0.0 <= w.env.lockout.quietReset
    ensures Balanced(w.env.lockout, Run(w, g, steps), key, t0, a1, since1)
    ensures a1.counted + a1.lost >= a.counted + a.lost + Tries(NewEvents(w, g, steps), key)
    decreases |steps|
  {
    if steps == [] {
      a1, since1 := a, since;
      assert NewEvents(w, g, steps) == [];
    } else {
      var step, rest := steps[0], steps[1..];
      var g1 := Next(w, g, step);
      NewEventsSplit(w, g, steps);
      var e, later := g1.trace[|g.trace|..], NewEvents(w, g1, rest);
      UnclearedParts(e, later, key);
      TriesAdd(e, later, key);
      SeatedStep(w, g, step);
      var a' := BalanceStep(w, g, step, key, t0, a, since);
      a1, since1 := BalanceRun(w, g1, rest, key, t0, a',
                               Since(TableOf(g.svc, key), TableOf(g1.svc, key), key.name, since, step.at));
    }
  }

  // The account that a stretch begins with.
  lemma {:induction false} OpeningBalance(p: Params, g: Global, key: Key) returns (a: Account)
    requires Seated(g) && BothSound(p, g.svc) && 0.0 <= g.clock
    ensures Balanced(p, g, key, g.clock, a, None) && a.counted == 0 && a.lost == 0
  {
    var t := TableOf(g.svc, key);
    var e := EntryOrFresh(t, key.name, g.clock);
    a := Account(e, [], 0, 0, e);
    assert key.name in t ==> BackoffLaws.SoundAt(p, t, key.name);
    SubsetSize(Armed(g, key), OpenSessions(g));
  }

  lemma {:induction false} MoreLockouts(th: int, cap: int, l: nat, k: nat, counted: int, lost: int)
    requires 0 < th && 0 <= cap && counted < th * l + th && lost <= (l + 1) * cap
    requires counted + lost >= (th + cap) * (k + 1)
    ensures k < l
  {
    var x := th + cap;
    assert th * (l + 1) == th * l + th;
    assert x * (l + 1) == th * (l + 1) + (l + 1) * cap;
    assert l <= k ==> x * (l + 1) <= x * (k + 1);
  }

  lemma {:induction false} Solvent(p: Params, g: Global, key: Key, t0: real, a: Account,
    since: Option<real>, k: nat)
    requires Balanced(p, g, key, t0, a, since) && 0 <= g.cap
    requires a.counted + a.lost >= (BackoffLaws.Threshold(p) + g.cap) * (k + 1)
    ensures k < |a.starts| && BackoffLaws.Spaced(p, a.origin, a.starts)
  {
    if since.None? {
      assert BackoffLaws.Threshold(p) * 0 == 0;
    }
    MoreLockouts(BackoffLaws.Threshold(p), g.cap, |a.starts|, k, a.counted, a.lost);
  }

  // The account of a whole stretch.
  lemma {:induction false} StretchBalance(w: World, cfg: Registry.Data, before: seq<Step>, steps: seq<Step>, key: Key)
    returns (a: Account, since: Option<real>)
    requires ValidRun(w, Init(cfg), before) && 0.0 <= w.env.lockout.quietReset
    requires var g := Run(w, Init(cfg), before);
             ValidRun(w, g, steps) && NeverQuiet(w, g, steps, key, None) && Uncleared(NewEvents(w, g, steps), key)
    ensures var g := Run(w, Init(cfg), before);
            && 0 <= Run(w, g, steps).cap
            && Balanced(w.env.lockout, Run(w, g, steps), key, g.clock, a, since)
            && a.counted + a.lost >= Tries(NewEvents(w, g, steps), key)
  {
    var g := Run(w, Init(cfg), before);
    assert OpenSessions(Init(cfg)) == {};
    SeatedRun(w, Init(cfg), before);
    RunSound(w, Init(cfg), before);
    ClockRuns(w, Init(cfg), before);
    var a0 := OpeningBalance(w.env.lockout, g, key);
    a, since := BalanceRun(w, g, steps, key, g.clock, a0, None);
    SeatedRun(w, g, steps);
  }

  // What the first k lockouts take, from some level on; it is the least from level 0 on.
  ghost predicate Takes(p: Params, elapsed: real, k: nat) {
    && (exists level: nat :: elapsed >= BackoffLaws.TotalFrom(p, level, k))
    && (0.0 <= p.base ==> elapsed >= BackoffLaws.Total(p, k))
    && (0.0 <= p.base && (k > 0 ==> Doubled(p.base, k - 1) <= p.maximum) ==> elapsed >= Doubled(p.base, k) - p.base)
  }

  lemma {:induction false} BalanceTakes(p: Params, g: Global, key: Key, t0: real, a: Account,
    since: Option<real>, k: nat)
    requires Balanced(p, g, key, t0, a, since) && 0 <= g.cap
    requires a.counted + a.lost >= (BackoffLaws.Threshold(p) + g.cap) * (k + 1)
    ensures Takes(p, g.clock - t0, k)
  {
    Solvent(p, g, key, t0, a, since, k);
    BackoffLaws.SpacedTotal(p, a.origin, a.starts, k);
    if 0.0 <= p.base {
      BackoffLaws.TotalGrows(p, a.origin.level, k);
      if k > 0 ==> Doubled(p.base, k - 1) <= p.maximum {
        BackoffLaws.TotalUncapped(p, k);
      }
    }
  }

  // Guessing costs time, over the whole protocol: from any reachable state, through any steps in
  // which no success clears the key and each charge after the first comes at most the quiet time after
  // the one before or during a lockout, (threshold + connections) * (k + 1) responses checked for the
  // key take at least as long as the first k lockouts from some level on, and so as the first k of
  // all; while uncapped that is base * 2^k - base seconds.
  lemma {:induction false} GuessesTakeTime(w: World, cfg: Registry.Data, before: seq<Step>, steps: seq<Step>,
                                           key: Key, k: nat)
    requires ValidRun(w, Init(cfg), before) && 0.0 <= w.env.lockout.quietReset
    requires var g := Run(w, Init(cfg), before);
             && ValidRun(w, g, steps) && NeverQuiet(w, g, steps, key, None) && Uncleared(NewEvents(w, g, steps), key)
             && Tries(NewEvents(w, g, steps), key)
                >= (BackoffLaws.Threshold(w.env.lockout) + Run(w, g, steps).cap) * (k + 1)
    ensures var g := Run(w, Init(cfg), before); Takes(w.env.lockout, Run(w, g, steps).clock - g.clock, k)
  {
    var a, since := StretchBalance(w, cfg, before, steps, key);
    var g := Run(w, Init(cfg), before);
    BalanceTakes(w.env.lockout, Run(w, g, steps), key, g.clock, a, since, k);
  }
}
