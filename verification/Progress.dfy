/** What can be done: from every reachable state an election can be brought to its end, and every voter can vote. */
module Progress {
  import opened Prelude
  import opened Timestamps
  import opened Records
  import opened Hashing
  import opened Verifier
  import opened Export
  import opened Acceptance
  import opened Transactions
  import opened Invariants
  import opened Runs
  import opened Freeze
  import opened Completeness
  import opened Answers
  import opened Effects

  const EPOCH: DateTime := DateTimeFields(1970, 1, 1, 0, 0, 0, 0)

  /** Some request with this command. */
  function Ask(c: Command): Request {
    Request(c, "admin", EPOCH)
  }

  // ---------- steps and runs ----------

  /** A request without a ground for refusal has its effect. */
  lemma Granted(p: Primitives, db: Database, r: Request)
    requires p.Sound() && Inv(p, db) && Refusal(db, r.command) == None
    ensures Serve(p, db, r).Accepted? && Effect(p, db, r, Step(p, db, r)) && Inv(p, Step(p, db, r))
  {
    hide Inv, TablesOk, Serve, Refusal, Effect, Step;
    InvTables(p, db);
    AnsweredExactly(p, db, r);
    EffectExactly(p, db, r);
    StepKeepsInv(p, db, r);
  }

  lemma RunOne(p: Primitives, db: Database, r: Request)
    ensures Run(p, db, []) == db && Run(p, db, [r]) == Step(p, db, r)
  {
    hide Step;
    assert [r][..0] == [];
  }

  lemma RunMore(p: Primitives, db: Database, r: Request, rs: seq<Request>)
    ensures Run(p, db, [r] + rs) == Run(p, Step(p, db, r), rs)
  {
    hide Step;
    RunOne(p, db, r);
    RunConcat(p, db, [r], rs);
  }

  // ---------- moving an election ----------

  /** The election is there and in this state. */
  predicate At(db: Database, e: string, s: ElectionState) {
    e in db.elections && db.elections[e].state == s
  }

  ghost predicate SomeActive(db: Database, e: string) {
    exists d :: DeviceIs(db, e, d, Active)
  }

  function Move(e: string, to: ElectionState): Request {
    Ask(ChangeState(e, to, None))
  }

  /** Every listed move is granted, opening only with an active device. */
  lemma Moves(p: Primitives, db: Database, r: Request)
    requires p.Sound() && Inv(p, db) && r.command.ChangeState?
    requires var e := r.command.electionId;
             && e in db.elections && (db.elections[e].state, r.command.newState) in ELECTION_MOVES
             && (db.elections[e].state == Locked ==> SomeActive(db, e))
    ensures At(Step(p, db, r), r.command.electionId, r.command.newState) && Inv(p, Step(p, db, r))
    ensures Step(p, db, r).devices == db.devices
  {
    hide Inv, Step, DeviceIs;
    assert Refusal(db, r.command) == None;
    Granted(p, db, r);
    hide EntryAdded;
  }

  /** Suspending and resuming, once each: from OPEN one request suspends, and a further one reopens or closes. */
  lemma SuspendAndReturn(p: Primitives, rs: seq<Request>, e: string, suspend: Request, next: Request)
    requires p.Sound() && At(Run(p, EMPTY, rs), e, Open)
    requires suspend.command.ChangeState? && suspend.command.electionId == e && suspend.command.newState == Suspended
    requires next.command.ChangeState? && next.command.electionId == e && next.command.newState in {Open, Closed}
    ensures At(Run(p, EMPTY, rs + [suspend]), e, Suspended)
    ensures At(Run(p, EMPTY, rs + [suspend, next]), e, next.command.newState)
  {
    hide Inv, Step;
    var db := Run(p, EMPTY, rs);
    ReachableInv(p, rs);
    Moves(p, db, suspend);
    Moves(p, Step(p, db, suspend), next);
    RunConcat(p, EMPTY, rs, [suspend]);
    RunConcat(p, EMPTY, rs, [suspend, next]);
    RunOne(p, db, suspend);
    assert [suspend, next] == [suspend] + [next];
    RunMore(p, db, suspend, [next]);
    RunOne(p, Step(p, db, suspend), next);
  }

  // ---------- fresh keys ----------

  function Longest(ids: seq<string>): (n: nat)
    ensures forall i :: 0 <= i < |ids| ==> |ids[i]| <= n
  {
    if ids == [] then 0
    else
      var n := Longest(ids[1..]);
      assert forall i :: 0 < i < |ids| ==> ids[i] == ids[1..][i - 1];
      if |ids[0]| > n then |ids[0]| else n
  }

  /** A text that is none of these. */
  function Unused(ids: seq<string>): (s: string)
    ensures forall i :: 0 <= i < |ids| ==> ids[i] != s
  {
    seq(Longest(ids) + 1, _ => 'x')
  }

  function DeviceNames(db: Database): seq<string> {
    Map((d: Device) => d.id, db.devices)
  }

  lemma FreshDevice(db: Database)
    ensures !DeviceExists(db, Unused(DeviceNames(db)))
  {
    var ids := DeviceNames(db);
    var s := Unused(ids);
    assert forall i :: 0 <= i < |db.devices| ==> ids[i] == db.devices[i].id;
    hide Unused;
  }

  // ---------- a working device ----------

  /** The devices of db, one more active one for e, which has cast no vote. */
  ghost predicate OneMoreActive(db: Database, db': Database, e: string, d: string) {
    && !DeviceExists(db, d)
    && (exists name :: db'.devices == db.devices + [Device(d, e, name, Active, 0, 0)])
    && db' == db.(devices := db'.devices, audit := db'.audit)
  }

  lemma Registers(p: Primitives, db: Database, e: string, d: string)
    requires p.Sound() && Inv(p, db) && e in db.elections && db.elections[e].state in {Configured, Locked, Open}
    requires !DeviceExists(db, d)
    ensures var db' := Step(p, db, Ask(RegisterDevice(e, d, d)));
            && Inv(p, db')
            && db' == db.(devices := db.devices + [Device(d, e, d, Registered, 0, 0)], audit := db'.audit)
  {
    hide Inv, Step, DeviceExists;
    var r := Ask(RegisterDevice(e, d, d));
    assert db.elections[e].state !in {Created, Suspended, Closed, Published} by {
      OtherStates(db.elections[e].state);
    }
    assert Refusal(db, r.command) == None;
    Granted(p, db, r);
    hide EntryAdded;
  }

  lemma MayActivate(db: Database, e: string, ds: seq<Device>, d: string)
    requires db.devices == ds + [Device(d, e, d, Registered, 0, 0)]
    ensures Refusal(db, UpdateDeviceStatus(e, d, Active)) == None
  {
    assert db.devices[|ds|].id == d;
    assert DeviceIs(db, e, d, Registered);
    assert (Registered, Active) in DEVICE_MOVES;
    hide DeviceIs;
  }

  lemma Activated(p: Primitives, db: Database, r: Request, e: string, ds: seq<Device>, d: string, db': Database)
    requires r.command == UpdateDeviceStatus(e, d, Active) && StatusSet(p, db, r, db')
    requires db.devices == ds + [Device(d, e, d, Registered, 0, 0)]
    requires forall k :: 0 <= k < |ds| ==> ds[k].id != d
    ensures db' == db.(devices := ds + [Device(d, e, d, Active, 0, 0)], audit := db'.audit)
  {
    hide EntryAdded;
    var x := Device(d, e, d, Active, 0, 0);
    assert db.devices[|ds|].id == d && db.devices[|ds|].status == Registered;
    assert forall k :: 0 <= k < |db.devices| && db.devices[k].id == d ==> k == |ds|;
    assert db.devices[|ds| := x] == ds + [x];
  }

  lemma Activates(p: Primitives, db: Database, e: string, ds: seq<Device>, d: string)
    requires p.Sound() && Inv(p, db) && db.devices == ds + [Device(d, e, d, Registered, 0, 0)]
    requires forall k :: 0 <= k < |ds| ==> ds[k].id != d
    ensures var db' := Step(p, db, Ask(UpdateDeviceStatus(e, d, Active)));
            && Inv(p, db')
            && db' == db.(devices := ds + [Device(d, e, d, Active, 0, 0)], audit := db'.audit)
  {
    hide Inv, Step, StatusSet, Refusal;
    var r := Ask(UpdateDeviceStatus(e, d, Active));
    MayActivate(db, e, ds, d);
    Granted(p, db, r);
    Activated(p, db, r, e, ds, d, Step(p, db, r));
  }

  /** Two requests give an election between CONFIGURED and OPEN one more active device. */
  lemma GetDevice(p: Primitives, db: Database, e: string) returns (rs: seq<Request>, d: string)
    requires p.Sound() && Inv(p, db) && e in db.elections && db.elections[e].state in {Configured, Locked, Open}
    ensures |rs| == 2 && OneMoreActive(db, Run(p, db, rs), e, d) && Inv(p, Run(p, db, rs))
  {
    hide Inv, Step, DeviceExists;
    d := Unused(DeviceNames(db));
    FreshDevice(db);
    var register, activate := Ask(RegisterDevice(e, d, d)), Ask(UpdateDeviceStatus(e, d, Active));
    rs := [register, activate];
    Registers(p, db, e, d);
    NotAmong(db, d);
    Activates(p, Step(p, db, register), e, db.devices, d);
    assert rs == [register] + [activate];
    RunMore(p, db, register, [activate]);
    RunOne(p, Step(p, db, register), activate);
  }

  lemma NotAmong(db: Database, d: string)
    requires !DeviceExists(db, d)
    ensures forall k :: 0 <= k < |db.devices| ==> db.devices[k].id != d
  {
  }

  lemma ActiveNow(db: Database, db': Database, e: string, d: string)
    requires OneMoreActive(db, db', e, d)
    ensures DeviceIs(db', e, d, Active) && SomeActive(db', e)
  {
    assert db'.devices[|db.devices|].id == d;
    assert DeviceIs(db', e, d, Active);
  }

  // ---------- to the end of the lifecycle ----------

  lemma Prepend(p: Primitives, db: Database, first: Request, rest: seq<Request>, e: string) returns (rs: seq<Request>)
    requires At(Run(p, Step(p, db, first), rest), e, Published)
    ensures |rs| == |rest| + 1 && At(Run(p, db, rs), e, Published)
  {
    hide Step, Run, At;
    rs := [first] + rest;
    RunMore(p, db, first, rest);
  }

  /** What a move leaves, for the next one. */
  lemma MovesOn(p: Primitives, db: Database, e: string, from: ElectionState, to: ElectionState)
    requires p.Sound() && Inv(p, db) && At(db, e, from) && (from, to) in ELECTION_MOVES
    requires from == Locked ==> SomeActive(db, e)
    ensures var db' := Step(p, db, Move(e, to));
            At(db', e, to) && Inv(p, db') && (SomeActive(db, e) ==> SomeActive(db', e))
  {
    hide Inv, Step, DeviceIs;
    Moves(p, db, Move(e, to));
    if SomeActive(db, e) {
      SameDevicesActive(db, Step(p, db, Move(e, to)), e);
    }
  }

  lemma SameDevicesActive(db: Database, db': Database, e: string)
    requires db'.devices == db.devices && SomeActive(db, e)
    ensures SomeActive(db', e)
  {
    var d :| DeviceIs(db, e, d, Active);
    assert DeviceIs(db', e, d, Active);
  }

  lemma FromClosed(p: Primitives, db: Database, e: string) returns (rs: seq<Request>)
    requires p.Sound() && Inv(p, db) && At(db, e, Closed)
    ensures |rs| == 1 && At(Run(p, db, rs), e, Published)
  {
    rs := [Move(e, Published)];
    assert (Closed, Published) in ELECTION_MOVES;
    hide *;
    MovesOn(p, db, e, Closed, Published);
    RunOne(p, db, Move(e, Published));
  }

  lemma FromOpen(p: Primitives, db: Database, e: string) returns (rs: seq<Request>)
    requires p.Sound() && Inv(p, db) && (At(db, e, Open) || At(db, e, Suspended))
    ensures |rs| == 2 && At(Run(p, db, rs), e, Published)
  {
    assert (Open, Closed) in ELECTION_MOVES && (Suspended, Closed) in ELECTION_MOVES;
    hide *;
    MovesOn(p, db, e, if At(db, e, Open) then Open else Suspended, Closed);
    var rest := FromClosed(p, Step(p, db, Move(e, Closed)), e);
    rs := Prepend(p, db, Move(e, Closed), rest, e);
  }

  lemma FromReady(p: Primitives, db: Database, e: string) returns (rs: seq<Request>)
    requires p.Sound() && Inv(p, db) && At(db, e, Locked) && SomeActive(db, e)
    ensures |rs| == 3 && At(Run(p, db, rs), e, Published)
  {
    assert (Locked, Open) in ELECTION_MOVES;
    hide *;
    MovesOn(p, db, e, Locked, Open);
    var rest := FromOpen(p, Step(p, db, Move(e, Open)), e);
    rs := Prepend(p, db, Move(e, Open), rest, e);
  }

  lemma FromLocked(p: Primitives, db: Database, e: string) returns (rs: seq<Request>)
    requires p.Sound() && Inv(p, db) && At(db, e, Locked)
    ensures |rs| <= 5 && At(Run(p, db, rs), e, Published)
  {
    if SomeActive(db, e) {
      rs := FromReady(p, db, e);
    } else {
      hide Inv, Step;
      var get, d := GetDevice(p, db, e);
      ActiveNow(db, Run(p, db, get), e, d);
      hide Run, SomeActive, DeviceIs, DeviceExists;
      var rest := FromReady(p, Run(p, db, get), e);
      RunConcat(p, db, get, rest);
      rs := get + rest;
    }
  }

  lemma FromConfigured(p: Primitives, db: Database, e: string) returns (rs: seq<Request>)
    requires p.Sound() && Inv(p, db) && At(db, e, Configured)
    ensures |rs| <= 6 && At(Run(p, db, rs), e, Published)
  {
    assert (Configured, Locked) in ELECTION_MOVES;
    hide *;
    MovesOn(p, db, e, Configured, Locked);
    var rest := FromLocked(p, Step(p, db, Move(e, Locked)), e);
    rs := Prepend(p, db, Move(e, Locked), rest, e);
  }

  lemma FromAnywhere(p: Primitives, db: Database, e: string) returns (rs: seq<Request>)
    requires p.Sound() && Inv(p, db) && e in db.elections
    ensures |rs| <= 7 && At(Run(p, db, rs), e, Published)
  {
    hide Inv, Step;
    match db.elections[e].state {
      case Created =>
        assert (Created, Configured) in ELECTION_MOVES;
        hide Run;
        MovesOn(p, db, e, Created, Configured);
        var rest := FromConfigured(p, Step(p, db, Move(e, Configured)), e);
        rs := Prepend(p, db, Move(e, Configured), rest, e);
      case Configured => rs := FromConfigured(p, db, e);
      case Locked => rs := FromLocked(p, db, e);
      case Open => rs := FromOpen(p, db, e);
      case Suspended => rs := FromOpen(p, db, e);
      case Closed => rs := FromClosed(p, db, e);
      case Published => rs := [];
    }
  }

  /** No election is stuck: from every reachable state at most seven requests publish it. */
  lemma EveryElectionCanBePublished(p: Primitives, rs: seq<Request>, e: string) returns (more: seq<Request>)
    requires p.Sound() && e in Run(p, EMPTY, rs).elections
    ensures |more| <= 7 && At(Run(p, EMPTY, rs + more), e, Published)
  {
    ReachableInv(p, rs);
    hide Inv, Step, Run;
    more := FromAnywhere(p, Run(p, EMPTY, rs), e);
    RunConcat(p, EMPTY, rs, more);
  }

  // ---------- to an accepted archive ----------

  lemma Verifies(p: Primitives, db: Database, e: string)
    requires p.Sound() && Inv(p, db) && At(db, e, Published)
    ensures var db' := Step(p, db, Ask(RunFullVerification(e)));
            && Inv(p, db') && At(db', e, Published)
            && e in db'.manifests && DataOf(db'.manifests[e]) == CurrentManifest(ViewOf(db', e))
            && db'.manifests[e].reconciliationStatus == "PASSED"
  {
    hide Inv, Step, CurrentManifest, VerifiedManifest, Refusal, ManifestStored, ManifestRowOk;
    var r := Ask(RunFullVerification(e));
    MayVerify(db, e);
    Granted(p, db, r);
    VerificationSeals(p, db, r, e);
    StoredManifestOk(p, Step(p, db, r), e);
    VerifiedParts(p, db, r, Step(p, db, r), e);
  }

  lemma MayVerify(db: Database, e: string)
    requires e in db.elections
    ensures Refusal(db, RunFullVerification(e)) == None
  {
  }

  lemma VerifiedParts(p: Primitives, db: Database, r: Request, db': Database, e: string)
    requires r.command == RunFullVerification(e) && ManifestStored(p, db, r, db')
    ensures db'.elections == db.elections && e in db'.manifests && db'.manifests[e].reconciliationStatus == "PASSED"
  {
    hide EntryAdded, Counts;
  }

  lemma SignedParts(p: Primitives, db: Database, r: Request, db': Database, e: string, secret: string)
    requires r.command == SignManifest(e, Some(secret)) && SignatureStored(p, db, r, db') && e in db.manifests
    ensures db'.elections == db.elections && e in db'.manifests && DataOf(db'.manifests[e]) == DataOf(db.manifests[e])
    ensures db'.manifests[e].digitalSignature.Some? && SignatureFits(db'.manifests[e])
    ensures db'.manifests[e].digitalSignature.value.publicKey == p.publicKey(secret)
  {
    hide EntryAdded, LogOf;
  }

  lemma MaySign(db: Database, e: string, secret: string)
    requires At(db, e, Published) && e in db.manifests && db.manifests[e].reconciliationStatus == "PASSED"
    ensures Refusal(db, SignManifest(e, Some(secret))) == None
  {
  }

  lemma Signs(p: Primitives, db: Database, e: string, secret: string)
    requires p.Sound() && Inv(p, db) && At(db, e, Published)
    requires e in db.manifests && DataOf(db.manifests[e]) == CurrentManifest(ViewOf(db, e))
    requires db.manifests[e].reconciliationStatus == "PASSED"
    ensures var db' := Step(p, db, Ask(SignManifest(e, Some(secret))));
            && Inv(p, db') && At(db', e, Published) && Sealed(p, db', e)
            && e in db'.manifests && db'.manifests[e].digitalSignature.Some?
            && db'.manifests[e].digitalSignature.value.publicKey == p.publicKey(secret)
  {
    hide Inv, Step, CurrentManifest, DataOf, Refusal, SignatureStored, SignatureFits;
    var r := Ask(SignManifest(e, Some(secret)));
    MaySign(db, e, secret);
    RunOne(p, db, r);
    ManifestFrozen(p, db, [r], e);
    Granted(p, db, r);
    SignedParts(p, db, r, Step(p, db, r), e, secret);
  }

  /**
   * Every election can be brought to an accepted end: from every reachable state at most nine requests publish, verify
   * and sign it, and whoever checks its export against the signing key then accepts it, whenever it is exported.
   */
  lemma EveryElectionCanBeCompleted(p: Primitives, rs: seq<Request>, e: string, secret: string)
    returns (more: seq<Request>)
    requires p.Sound() && e in Run(p, EMPTY, rs).elections
    ensures |more| <= 9
    ensures var db := Run(p, EMPTY, rs + more);
            && At(db, e, Published)
            && forall t :: ReportOf(p, ExportView(p, ViewOf(db, e), t), Some(p.publicKey(secret)), None).valid
  {
    hide Inv, Step, Run, ReportOf, ExportView, CurrentManifest, Sealed, DataOf;
    var publish := EveryElectionCanBePublished(p, rs, e);
    var verify, sign := Ask(RunFullVerification(e)), Ask(SignManifest(e, Some(secret)));
    var db0 := Run(p, EMPTY, rs + publish);
    ReachableInv(p, rs + publish);
    Verifies(p, db0, e);
    var db1 := Step(p, db0, verify);
    Signs(p, db1, e, secret);
    var db2 := Step(p, db1, sign);
    more := publish + ([verify] + [sign]);
    assert rs + more == rs + publish + ([verify] + [sign]);
    RunConcat(p, EMPTY, rs + publish, [verify] + [sign]);
    RunMore(p, db0, verify, [sign]);
    RunOne(p, db1, sign);
    forall t
      ensures ReportOf(p, ExportView(p, ViewOf(db2, e), t), Some(p.publicKey(secret)), None).valid
    {
      SealedAccepted(p, db2, e, t, Some(p.publicKey(secret)), None);
    }
  }
}
