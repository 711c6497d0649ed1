/** Concrete runs that leave a stale manifest behind: an unsigned one, and one that was signed. */
module StaleRuns {
  import opened Prelude
  import opened Timestamps
  import opened Records
  import opened Hashing
  import opened AuditChain
  import opened Verifier
  import opened Export
  import opened Acceptance
  import opened Transactions
  import opened Runs
  import opened Freeze
  import opened Completeness
  import opened Staleness

  // IDs and texts that the request schemas admit, and session and ballot IDs as the backend generates them.
  const ELECTION := "EV-2026-001"
  const DEVICE := "EVM-001"
  const ALICE := "C001"
  const BOB := "C002"
  const SESSION := "0b6f4a52-6c1e-4d0f-9a83-5f2d7c1e8b90"
  const TOKEN := "c4b7a1d29e8f4c6ab3d0e57f1a2c9d84"
  const BALLOT := "7d3c9e18-2f4b-4a76-8c05-e1b9d6f7a342"

  function At(c: Command, now: DateTime): Request {
    Request(c, "admin", now)
  }

  function Batch(): seq<CandidateInfo> {
    [CandidateInfo(ALICE, "Alice", None, None, 1), CandidateInfo(BOB, "Bob", None, None, 2)]
  }

  /** A small election: verified while open, then one vote, then closed; after that it is signed and verified again. */
  function RequestAt(now: DateTime, key: string, k: nat): Request {
    match k
    case 0 => At(CreateElection(ELECTION, "Council"), now)
    case 1 => At(AddCandidates(ELECTION, Batch()), now)
    case 2 => At(ChangeState(ELECTION, Locked, None), now)
    case 3 => At(RegisterDevice(ELECTION, DEVICE, "Hall"), now)
    case 4 => At(UpdateDeviceStatus(ELECTION, DEVICE, Active), now)
    case 5 => At(ChangeState(ELECTION, Open, None), now)
    case 6 => At(AuthorizeSession(ELECTION, "voter", DEVICE, SESSION, TOKEN), now)
    case 7 => At(RunFullVerification(ELECTION), now)
    case 8 => At(CastVote(TOKEN, ALICE, DEVICE, 1, BALLOT), now)
    case 9 => At(ChangeState(ELECTION, ElectionState.Closed, None), now)
    case 10 => At(SignManifest(ELECTION, Some(key)), now)
    case _ => At(RunFullVerification(ELECTION), now)
  }

  function SmallRun(now: DateTime, key: string): (rs: seq<Request>)
    ensures |rs| == 12 && forall k :: 0 <= k < 12 ==> rs[k] == RequestAt(now, key, k)
  {
    seq(12, k requires 0 <= k < 12 => RequestAt(now, key, k))
  }

  ghost function After(p: Primitives, now: DateTime, key: string, k: nat): Database
    requires k <= 12
  {
    Run(p, EMPTY, SmallRun(now, key)[..k])
  }

  lemma SetupRequests(now: DateTime, key: string)
    ensures RequestAt(now, key, 1) == At(AddCandidates(ELECTION, Batch()), now)
    ensures RequestAt(now, key, 2) == At(ChangeState(ELECTION, Locked, None), now)
    ensures RequestAt(now, key, 3) == At(RegisterDevice(ELECTION, DEVICE, "Hall"), now)
    ensures RequestAt(now, key, 4) == At(UpdateDeviceStatus(ELECTION, DEVICE, Active), now)
    ensures RequestAt(now, key, 5) == At(ChangeState(ELECTION, Open, None), now)
  {
    hide Batch;
  }

  lemma VotingRequests(now: DateTime, key: string)
    ensures RequestAt(now, key, 6) == At(AuthorizeSession(ELECTION, "voter", DEVICE, SESSION, TOKEN), now)
    ensures RequestAt(now, key, 7) == At(RunFullVerification(ELECTION), now)
    ensures RequestAt(now, key, 8) == At(CastVote(TOKEN, ALICE, DEVICE, 1, BALLOT), now)
    ensures RequestAt(now, key, 9) == At(ChangeState(ELECTION, ElectionState.Closed, None), now)
  {
    hide Batch;
  }

  lemma SigningRequests(now: DateTime, key: string)
    ensures RequestAt(now, key, 10) == At(SignManifest(ELECTION, Some(key)), now)
    ensures RequestAt(now, key, 10).command == SignManifest(ELECTION, Some(key))
    ensures RequestAt(now, key, 11).command == RunFullVerification(ELECTION)
  {
    hide Batch;
  }

  lemma Next(p: Primitives, now: DateTime, key: string, k: nat)
    requires k < 12
    ensures After(p, now, key, k + 1) == Step(p, After(p, now, key, k), RequestAt(now, key, k))
  {
    hide Step, SmallRun, RequestAt;
    var rs := SmallRun(now, key);
    assert rs[..k + 1][..k] == rs[..k] && rs[..k + 1][k] == rs[k];
  }

  lemma AfterIs(p: Primitives, now: DateTime, key: string, k: nat)
    requires k <= 12
    ensures After(p, now, key, k) == Run(p, EMPTY, SmallRun(now, key)[..k])
  {
    hide Run, SmallRun;
  }

  lemma AfterInv(p: Primitives, now: DateTime, key: string, k: nat)
    requires p.Sound() && k <= 12
    ensures Inv(p, After(p, now, key, k))
  {
    hide Run, Inv, SmallRun;
    ReachableInv(p, SmallRun(now, key)[..k]);
  }

  /** The rows that decide about the next request. */
  ghost predicate Shows(db: Database, state: ElectionState, candidates: seq<Candidate>, devices: seq<Device>,
                        sessions: seq<Session>, ballots: seq<Ballot>)
  {
    && ELECTION in db.elections && db.elections[ELECTION].state == state
    && db.candidates == candidates && db.devices == devices && db.sessions == sessions && db.ballots == ballots
  }

  function Rows(): seq<Candidate> {
    NewRows(ELECTION, Batch())
  }

  function Terminal(status: DeviceStatus): Device {
    Device(DEVICE, ELECTION, "Hall", status, 0, 0)
  }

  function Voter(): Session {
    Session(SESSION, ELECTION, DEVICE, TOKEN, "voter", Authorized)
  }

  lemma Created(p: Primitives, now: DateTime, key: string)
    ensures Shows(After(p, now, key, 1), ElectionState.Created, [], [], [], [])
  {
    hide NextEntry;
    Next(p, now, key, 0);
    hide SmallRun;
    assert After(p, now, key, 0) == EMPTY;
  }

  lemma Locking(p: Primitives, now: DateTime, key: string)
    ensures Shows(After(p, now, key, 3), Locked, Rows(), [], [], [])
  {
    hide *;
    SetupRequests(now, key);
    Allowed();
    Created(p, now, key);
    Next(p, now, key, 1);
    Adding(p, After(p, now, key, 1), now);
    Next(p, now, key, 2);
    Changing(p, After(p, now, key, 2), Configured, Locked, Rows(), [], [], [], now);
  }

  lemma Adding(p: Primitives, db: Database, now: DateTime)
    requires Shows(db, ElectionState.Created, [], [], [], [])
    ensures Shows(Step(p, db, At(AddCandidates(ELECTION, Batch()), now)), Configured, Rows(), [], [], [])
  {
    hide NextEntry;
    assert CandidatesOf(db, ELECTION) == [];
    assert FreshBatch(Map(InfoOf(), CandidatesOf(db, ELECTION)), Batch());
    assert [] + Rows() == Rows();
  }

  lemma Allowed()
    ensures ValidTransition(Configured, Locked) && ValidTransition(Locked, Open)
            && ValidTransition(Open, ElectionState.Closed)
    ensures [Terminal(Active)][0].electionId == ELECTION && [Terminal(Active)][0].status == Active
  {
  }

  lemma Changing(p: Primitives, db: Database, from: ElectionState, to: ElectionState, candidates: seq<Candidate>,
                 devices: seq<Device>, sessions: seq<Session>, ballots: seq<Ballot>, now: DateTime)
    requires Shows(db, from, candidates, devices, sessions, ballots) && ValidTransition(from, to)
    requires from == Locked
             ==> exists i :: 0 <= i < |devices| && devices[i].electionId == ELECTION && devices[i].status == Active
    ensures Shows(Step(p, db, At(ChangeState(ELECTION, to, None), now)), to, candidates, devices, sessions, ballots)
  {
    hide NextEntry, ConfigurationHash, Filter, Map;
  }

  lemma Opening(p: Primitives, now: DateTime, key: string)
    ensures Shows(After(p, now, key, 6), Open, Rows(), [Terminal(Active)], [], [])
  {
    hide *;
    SetupRequests(now, key);
    Allowed();
    Locking(p, now, key);
    Next(p, now, key, 3);
    Registering(p, After(p, now, key, 3), now);
    Next(p, now, key, 4);
    Activating(p, After(p, now, key, 4), now);
    Next(p, now, key, 5);
    Changing(p, After(p, now, key, 5), Locked, Open, Rows(), [Terminal(Active)], [], [], now);
  }

  lemma Registering(p: Primitives, db: Database, now: DateTime)
    requires Shows(db, Locked, Rows(), [], [], [])
    ensures Shows(Step(p, db, At(RegisterDevice(ELECTION, DEVICE, "Hall"), now)), Locked, Rows(),
                  [Terminal(Registered)], [], [])
  {
    hide NextEntry, NewRows;
  }

  lemma Activating(p: Primitives, db: Database, now: DateTime)
    requires Shows(db, Locked, Rows(), [Terminal(Registered)], [], [])
    ensures Shows(Step(p, db, At(UpdateDeviceStatus(ELECTION, DEVICE, Active), now)), Locked, Rows(),
                  [Terminal(Active)], [], [])
  {
    hide NextEntry, NewRows;
    assert FindIndex(HasDeviceId(DEVICE), [Terminal(Registered)]) == Some(0);
    assert [Terminal(Registered)][0 := Terminal(Active)] == [Terminal(Active)];
  }

  lemma Authorizing(p: Primitives, now: DateTime, key: string)
    ensures Shows(After(p, now, key, 7), Open, Rows(), [Terminal(Active)], [Voter()], [])
    ensures Shows(After(p, now, key, 8), Open, Rows(), [Terminal(Active)], [Voter()], [])
  {
    hide *;
    VotingRequests(now, key);
    Opening(p, now, key);
    Next(p, now, key, 6);
    Seating(p, After(p, now, key, 6), now);
    Next(p, now, key, 7);
    Verifying(p, After(p, now, key, 7), now);
  }

  lemma Seating(p: Primitives, db: Database, now: DateTime)
    requires Shows(db, Open, Rows(), [Terminal(Active)], [], [])
    ensures Shows(Step(p, db, At(AuthorizeSession(ELECTION, "voter", DEVICE, SESSION, TOKEN), now)),
                  Open, Rows(), [Terminal(Active)], [Voter()], [])
  {
    hide NextEntry, NewRows;
    assert FindIndex(HasDeviceId(DEVICE), [Terminal(Active)]) == Some(0);
  }

  lemma Verifying(p: Primitives, db: Database, now: DateTime)
    requires Shows(db, Open, Rows(), [Terminal(Active)], [Voter()], [])
    ensures Shows(Step(p, db, At(RunFullVerification(ELECTION), now)), Open, Rows(), [Terminal(Active)], [Voter()], [])
  {
    hide NextEntry, NewRows, VerifiedManifest;
  }

  lemma Voting(p: Primitives, db: Database, now: DateTime)
    requires Shows(db, Open, Rows(), [Terminal(Active)], [Voter()], [])
    ensures var db' := Step(p, db, At(CastVote(TOKEN, ALICE, DEVICE, 1, BALLOT), now));
            && |db'.ballots| == 1 && db'.ballots[0].electionId == ELECTION
            && Shows(db', Open, Rows(), db'.devices, db'.sessions, db'.ballots)
  {
    hide NextEntry, BallotHash;
    assert FindIndex(HasToken(TOKEN), [Voter()]) == Some(0);
    assert FindIndex(HasDeviceId(DEVICE), [Terminal(Active)]) == Some(0);
    assert Rows()[0].info.id == ALICE && Rows()[0].electionId == ELECTION;
    assert FindIndex(HasCandidateId(ALICE), Rows()) == Some(0);
    assert VoteChecks(db, TOKEN, ALICE, DEVICE, 1, BALLOT) == Ok((0, 0));
  }

  lemma ShownBallots(db: Database, state: ElectionState, candidates: seq<Candidate>, devices: seq<Device>,
                     sessions: seq<Session>, ballots: seq<Ballot>)
    requires Shows(db, state, candidates, devices, sessions, ballots)
    requires forall i :: 0 <= i < |ballots| ==> ballots[i].electionId == ELECTION
    ensures ELECTION in db.elections && db.elections[ELECTION].state == state && BallotsOf(db, ELECTION) == ballots
    ensures state == ElectionState.Closed ==> IsClosed(db, ELECTION)
  {
    FilterAll(BallotIn(ELECTION), ballots);
  }

  /** After ten requests the election is closed with one ballot; when it was verified there was none. */
  lemma Closing(p: Primitives, now: DateTime, key: string)
    ensures ELECTION in After(p, now, key, 7).elections && BallotsOf(After(p, now, key, 7), ELECTION) == []
    ensures IsClosed(After(p, now, key, 10), ELECTION) && |BallotsOf(After(p, now, key, 10), ELECTION)| == 1
  {
    hide *;
    ClosedState(p, now, key);
    Authorizing(p, now, key);
    ShownBallots(After(p, now, key, 7), Open, Rows(), [Terminal(Active)], [Voter()], []);
  }

  lemma ClosedState(p: Primitives, now: DateTime, key: string)
    ensures IsClosed(After(p, now, key, 10), ELECTION) && |BallotsOf(After(p, now, key, 10), ELECTION)| == 1
  {
    hide *;
    Allowed();
    VotingRequests(now, key);
    Authorizing(p, now, key);
    Next(p, now, key, 8);
    Voting(p, After(p, now, key, 8), now);
    var db := After(p, now, key, 9);
    Next(p, now, key, 9);
    Changing(p, db, Open, ElectionState.Closed, Rows(), db.devices, db.sessions, db.ballots, now);
    ShownBallots(After(p, now, key, 10), ElectionState.Closed, Rows(), db.devices, db.sessions, db.ballots);
  }

  lemma LastSkips(p: Primitives, rs: seq<Request>, e: string)
    requires rs != [] && rs[|rs| - 1].command != RunFullVerification(e)
    ensures LastVerification(p, rs, e) == LastVerification(p, rs[..|rs| - 1], e)
  {
    hide Run;
  }

  lemma LastTaken(p: Primitives, rs: seq<Request>, e: string)
    requires rs != [] && rs[|rs| - 1].command == RunFullVerification(e)
    requires e in Run(p, EMPTY, rs[..|rs| - 1]).elections
    ensures LastVerification(p, rs, e) == Some(|rs| - 1)
  {
    hide Run;
  }

  lemma SevenIsLast(now: DateTime, key: string)
    ensures var rs := SmallRun(now, key);
            && rs[7].command == RunFullVerification(ELECTION)
            && rs[8].command.CastVote? && rs[9].command.ChangeState?
  {
    VotingRequests(now, key);
    hide SmallRun, RequestAt;
  }

  lemma VerifiedAtSeven(p: Primitives, now: DateTime, key: string)
    ensures LastVerification(p, SmallRun(now, key)[..10], ELECTION) == Some(7)
  {
    SevenIsLast(now, key);
    Closing(p, now, key);
    hide LastVerification, Run, SmallRun, RequestAt;
    var rs := SmallRun(now, key);
    assert rs[..10][..9] == rs[..9] && rs[..9][..8] == rs[..8] && rs[..8][..7] == rs[..7];
    LastTaken(p, rs[..8], ELECTION);
    LastSkips(p, rs[..9], ELECTION);
    LastSkips(p, rs[..10], ELECTION);
  }

  /** The first ten requests sign nothing. */
  lemma TenUnsigned(p: Primitives, now: DateTime, key: string)
    ensures NeverSigned(p, SmallRun(now, key)[..10], ELECTION)
  {
    hide Serve, Run, SmallRun;
    var rs := SmallRun(now, key);
    forall i | 0 <= i < 10
      ensures !rs[..10][i].command.SignManifest?
    {
      assert rs[..10][i] == RequestAt(now, key, i);
    }
  }

  /** The manifest data that the verification while open stored, and what is current after closing. */
  ghost function Stored(p: Primitives, now: DateTime, key: string): ManifestData {
    Closing(p, now, key);
    CurrentManifest(ViewOf(After(p, now, key, 7), ELECTION))
  }

  ghost function Actual(p: Primitives, now: DateTime, key: string): ManifestData {
    Closing(p, now, key);
    CurrentManifest(ViewOf(After(p, now, key, 10), ELECTION))
  }

  lemma StoredIsStale(p: Primitives, now: DateTime, key: string)
    ensures Stored(p, now, key).totalBallots == 0 && Actual(p, now, key).totalBallots == 1
  {
    Closing(p, now, key);
    hide Run, BallotsOf;
  }

  lemma StaleHash(p: Primitives, now: DateTime, key: string)
    requires NoManifestCollision(p, Stored(p, now, key), Actual(p, now, key))
    ensures ManifestHash(p, Stored(p, now, key)) != ManifestHash(p, Actual(p, now, key))
    ensures ELECTION in After(p, now, key, 10).elections
    ensures Actual(p, now, key) == CurrentManifest(ViewOf(After(p, now, key, 10), ELECTION))
  {
    Closing(p, now, key);
    StoredIsStale(p, now, key);
    hide After, CurrentManifest, ManifestHash, Stored;
  }

  lemma NotFresh(p: Primitives, now: DateTime, key: string)
    ensures !Fresh(p, SmallRun(now, key)[..10], ELECTION)
  {
    Closing(p, now, key);
    VerifiedAtSeven(p, now, key);
    assert SmallRun(now, key)[..10][..7] == SmallRun(now, key)[..7];
    hide Run, SmallRun, LastVerification, BallotsOf;
  }

  lemma TenExclusive(p: Primitives, now: DateTime, key: string)
    ensures SignatureExclusive(p, After(p, now, key, 10), ELECTION)
  {
    TenUnsigned(p, now, key);
    hide Run, SmallRun, NeverSigned;
    NoSigningNoSignature(p, SmallRun(now, key)[..10], ELECTION);
  }

  lemma ClosedInElections(db: Database, e: string)
    requires IsClosed(db, e)
    ensures e in db.elections
  {
  }

  /** A stale manifest without a signature: the export of the closed election is refused. */
  lemma UnsignedStaleRefused(p: Primitives, now: DateTime, key: string, exportedAt: string)
    requires p.Sound() && ManifestCollisionFree(p, After(p, now, key, 10), ELECTION, exportedAt)
    ensures var db := After(p, now, key, 10);
            && IsClosed(db, ELECTION)
            && !ReportOf(p, ExportView(p, ViewOf(db, ELECTION), exportedAt), None, None).valid
  {
    hide *;
    AfterIs(p, now, key, 10);
    Closing(p, now, key);
    ClosedInElections(After(p, now, key, 10), ELECTION);
    NotFresh(p, now, key);
    TenExclusive(p, now, key);
    ReachableExportVerdict(p, SmallRun(now, key)[..10], ELECTION, exportedAt, None, None);
  }

  lemma StoredBySeven(p: Primitives, now: DateTime, key: string)
    requires p.Sound()
    ensures var db := After(p, now, key, 10);
            ELECTION in db.manifests && DataOf(db.manifests[ELECTION]) == Stored(p, now, key)
  {
    var rs := SmallRun(now, key)[..10];
    assert rs[..7] == SmallRun(now, key)[..7];
    VerifiedAtSeven(p, now, key);
    ManifestAge(p, rs, ELECTION);
    hide Run, SmallRun, CurrentManifest, DataOf, LastVerification;
  }

  lemma SignGranted(p: Primitives, db: Database, key: string, now: DateTime)
    requires Inv(p, db) && IsClosed(db, ELECTION) && ELECTION in db.manifests
    ensures Serve(p, db, At(SignManifest(ELECTION, Some(key)), now)).Accepted?
  {
    hide Inv, NextEntry, SignPayload, PayloadOf;
    StoredManifestOk(p, db, ELECTION);
  }

  lemma KeptHash(p: Primitives, db: Database)
    requires Inv(p, db) && ELECTION in db.manifests
    ensures db.manifests[ELECTION].manifestHash == ManifestHash(p, DataOf(db.manifests[ELECTION]))
  {
    hide Inv, DataOf, ManifestHash;
    StoredManifestOk(p, db, ELECTION);
  }

  /** What request 10 stores: the manifest of request 7, signed. */
  lemma SigningGranted(p: Primitives, now: DateTime, key: string)
    requires p.Sound()
    ensures var db := After(p, now, key, 10);
            && ELECTION in db.manifests && DataOf(db.manifests[ELECTION]) == Stored(p, now, key)
            && db.manifests[ELECTION].manifestHash == ManifestHash(p, Stored(p, now, key))
            && Serve(p, db, RequestAt(now, key, 10)).Accepted?
  {
    var db := After(p, now, key, 10);
    hide *;
    SigningRequests(now, key);
    AfterInv(p, now, key, 10);
    Closing(p, now, key);
    StoredBySeven(p, now, key);
    SignGranted(p, db, key, now);
    KeptHash(p, db);
  }

  /** A stale manifest that was signed: after re-verification the export is refused for its signature. */
  lemma SignedStaleRefused(p: Primitives, now: DateTime, key: string, exportedAt: string)
    requires p.Sound() && NoManifestCollision(p, Stored(p, now, key), Actual(p, now, key))
    ensures var db := After(p, now, key, 12);
            && IsClosed(db, ELECTION)
            && !ReportOf(p, ExportView(p, ViewOf(db, ELECTION), exportedAt), None, None).valid
  {
    hide *;
    SigningRequests(now, key);
    AfterInv(p, now, key, 10);
    Closing(p, now, key);
    StaleHash(p, now, key);
    SigningGranted(p, now, key);
    Next(p, now, key, 10);
    Next(p, now, key, 11);
    SignThenReverify(p, After(p, now, key, 10), RequestAt(now, key, 10), RequestAt(now, key, 11), ELECTION, exportedAt);
  }
}
