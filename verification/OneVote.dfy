/** One credential, one vote; ballots only while open, on active devices; frozen configuration. */
module OneVote {
  import opened Prelude
  import opened Timestamps
  import opened Grouping
  import opened Records
  import opened Hashing
  import opened AuditChain
  import opened Export
  import opened Transactions
  import opened Frames
  import opened Invariants
  import opened Runs

  /** Session k is the one ballot i was cast in. */
  ghost predicate CastIn(db: Database, i: nat, k: nat) {
    && i < |db.ballots| && k < |db.sessions|
    && db.sessions[k].id == db.ballots[i].sessionId
  }

  /** The rows a ballot names exist, agree with each other, and the session is used up. */
  lemma BallotRowsAgree(p: Primitives, rs: seq<Request>, i: nat) returns (k: nat, d: nat, c: nat)
    requires p.Sound() && i < |Run(p, EMPTY, rs).ballots|
    ensures var db := Run(p, EMPTY, rs);
            var b := db.ballots[i];
            && CastIn(db, i, k)
            && d < |db.devices| && c < |db.candidates|
            && db.sessions[k].status == Voted
            && db.sessions[k].deviceId == b.deviceId == db.devices[d].id
            && db.candidates[c].info.id == b.candidateId
            && db.sessions[k].electionId == db.devices[d].electionId == db.candidates[c].electionId == b.electionId
            && b.electionId in db.elections
  {
    var db := Run(p, EMPTY, rs);
    ReachableInv(p, rs);
    k, d, c := FindRows(p, db, i);
  }

  lemma FindRows(p: Primitives, db: Database, i: nat) returns (k: nat, d: nat, c: nat)
    requires TablesOk(p, db) && i < |db.ballots|
    ensures var b := db.ballots[i];
            && CastIn(db, i, k)
            && d < |db.devices| && c < |db.candidates|
            && db.sessions[k].status == Voted
            && db.sessions[k].deviceId == b.deviceId == db.devices[d].id
            && db.candidates[c].info.id == b.candidateId
            && db.sessions[k].electionId == db.devices[d].electionId == db.candidates[c].electionId == b.electionId
            && b.electionId in db.elections
  {
    hide VotesKept, DeviceCountersOk, ConfigurationsOk, ElectionTotalsOk, SessionsOk;
    var b := db.ballots[i];
    assert BallotOk(p, db.candidates, db.devices, db.sessions, b);
    k :| 0 <= k < |db.sessions| && db.sessions[k].id == b.sessionId && db.sessions[k].electionId == b.electionId
         && db.sessions[k].deviceId == b.deviceId && db.sessions[k].status == Voted;
    d :| 0 <= d < |db.devices| && db.devices[d].id == b.deviceId && db.devices[d].electionId == b.electionId;
    c :| 0 <= c < |db.candidates| && db.candidates[c].info.id == b.candidateId
         && db.candidates[c].electionId == b.electionId;
  }

  /** Different ballots come from different sessions, and no credential voted twice in an election. */
  lemma OneCredentialOneVote(p: Primitives, rs: seq<Request>, i: nat, j: nat, x: nat, y: nat)
    requires p.Sound()
    requires i != j && CastIn(Run(p, EMPTY, rs), i, x) && CastIn(Run(p, EMPTY, rs), j, y)
    ensures var db := Run(p, EMPTY, rs);
            && x != y
            && db.ballots[i].id != db.ballots[j].id
            && !(db.sessions[x].electionId == db.sessions[y].electionId
                 && db.sessions[x].credential == db.sessions[y].credential)
  {
    hide Run, TablesOk, Inv;
    var db := Run(p, EMPTY, rs);
    ReachableInv(p, rs);
    InvTables(p, db);
    SessionsDiffer(p, db, i, j, x, y);
  }

  lemma SessionsDiffer(p: Primitives, db: Database, i: nat, j: nat, x: nat, y: nat)
    requires TablesOk(p, db) && i != j && CastIn(db, i, x) && CastIn(db, j, y)
    ensures x != y && db.ballots[i].id != db.ballots[j].id
    ensures !(db.sessions[x].electionId == db.sessions[y].electionId
              && db.sessions[x].credential == db.sessions[y].credential)
  {
    hide CandidatesOk, DevicesOk, VotesKept, DeviceCountersOk, ConfigurationsOk, ElectionTotalsOk, BallotOk;
    if i < j {
      assert BallotsApart(db.ballots[i], db.ballots[j]);
    } else {
      assert BallotsApart(db.ballots[j], db.ballots[i]);
    }
  }

  // ---------- which calls write which tables ----------

  /** Device rows are only added, or rewritten in place under the same key; a revoked one stays revoked. */
  ghost predicate DevicesEvolve(a: seq<Device>, b: seq<Device>) {
    && |a| <= |b|
    && forall k :: 0 <= k < |a| ==> a[k].id == b[k].id && (a[k].status == Revoked ==> b[k].status == Revoked)
  }

  // ---------- when a ballot may appear ----------

  /**
   * The vote that request r casts in db, if it is granted: an open election, an active device with a fresh number, an
   * unused session of that election on that device, and a candidate of that election.
   */
  ghost predicate BallotJustified(p: Primitives, db: Database, r: Request, b: Ballot) {
    && r.command.CastVote?
    && b.electionId in db.elections && db.elections[b.electionId].state == Open
    && (exists k :: 0 <= k < |db.devices| && db.devices[k].id == b.deviceId && db.devices[k].status == Active
                    && b.sequenceNumber > db.devices[k].lastSequenceNumber)
    && (exists i :: 0 <= i < |db.sessions| && db.sessions[i].token == r.command.token
                    && db.sessions[i].id == b.sessionId && db.sessions[i].status == Authorized
                    && db.sessions[i].electionId == b.electionId && db.sessions[i].deviceId == b.deviceId)
    && HasCandidate(db.candidates, b.candidateId, b.electionId)
    && BallotIdFree(db, b.id) && b.id == r.command.ballotId
    && b.recordedAt == r.now
    && b.ballotHash == BallotHash(p, b.electionId, b.sessionId, b.candidateId, b.deviceId, b.sequenceNumber, Iso(r.now))
    && b.candidateId == r.command.candidateId && b.deviceId == r.command.deviceId
    && b.sequenceNumber == r.command.sequenceNumber
  }

  /** Only cast_vote writes ballot rows. */
  lemma OthersAddNoBallot(p: Primitives, db: Database, r: Request)
    requires !r.command.CastVote?
    ensures Step(p, db, r).ballots == db.ballots
  {
    hide Step;
    Untouched(p, db, r);
  }

  lemma CastAddsJustified(p: Primitives, db: Database, r: Request)
    requires r.command.CastVote?
    requires Serve(p, db, r).Accepted?
    ensures exists b :: Step(p, db, r).ballots == db.ballots + [b] && BallotJustified(p, db, r, b)
  {
    hide BallotIdFree, NextEntry, HasToken, HasDeviceId, HasCandidateId, BallotHash, Iso;
    var c := r.command;
    var (i, k) := VoteChecks(db, c.token, c.candidateId, c.deviceId, c.sequenceNumber, c.ballotId).value;
    var b := NewBallot(p, db.sessions[i], c.candidateId, c.deviceId, c.sequenceNumber, c.ballotId, r.now);
    assert db.devices[k].id == b.deviceId && db.devices[k].status == Active;
    assert BallotJustified(p, db, r, b);
    assert Step(p, db, r).ballots == db.ballots + [b];
  }

  /** A request adds at most one ballot, and only a justified one. */
  lemma OnlyJustifiedBallots(p: Primitives, db: Database, r: Request)
    ensures var db' := Step(p, db, r);
            || db'.ballots == db.ballots
            || exists b :: db'.ballots == db.ballots + [b] && BallotJustified(p, db, r, b)
  {
    hide Serve, BallotJustified;
    if !r.command.CastVote? {
      OthersAddNoBallot(p, db, r);
    } else if Serve(p, db, r).Accepted? {
      CastAddsJustified(p, db, r);
    }
  }

  // ---------- revocation ----------

  ghost predicate IsRevoked(db: Database, d: string) {
    exists k :: 0 <= k < |db.devices| && db.devices[k].id == d && db.devices[k].status == Revoked
  }

  lemma StatusEvolves(p: Primitives, db: Database, r: Request)
    requires r.command.RegisterDevice? || r.command.UpdateDeviceStatus?
    ensures DevicesEvolve(db.devices, Step(p, db, r).devices)
  {
    StepFrame(p, db, r);
    DevicesReflexive(db.devices);
    hide Step, Logs, DevicesEvolve;
    if Step(p, db, r) != db {
      match r.command
      case RegisterDevice(e, d, name) => DeviceAdded(db.devices, Device(d, e, name, Registered, 0, 0));
      case UpdateDeviceStatus(e, d, status) =>
        var i :| 0 <= i < |db.devices| && RewritesStatus(db, i, e, d, status, Step(p, db, r).(audit := db.audit));
        DeviceRewritten(db.devices, i, db.devices[i].(status := status));
    }
  }

  lemma VoteEvolves(p: Primitives, db: Database, r: Request)
    requires r.command.CastVote?
    ensures DevicesEvolve(db.devices, Step(p, db, r).devices)
  {
    StepFrame(p, db, r);
    DevicesReflexive(db.devices);
    hide Step, Logs, VoteChecks, NewBallot, DevicesEvolve;
    if Step(p, db, r) != db {
      var c := r.command;
      var (i, k) := VoteChecks(db, c.token, c.candidateId, c.deviceId, c.sequenceNumber, c.ballotId).value;
      NewBallotNumber(p, db.sessions[i], c.candidateId, c.deviceId, c.sequenceNumber, c.ballotId, r.now);
      DeviceRewritten(db.devices, k, db.devices[k].(lastSequenceNumber := c.sequenceNumber,
                                                    totalVotesCast := db.devices[k].totalVotesCast + 1));
    }
  }

  lemma DevicesOnlyEvolve(p: Primitives, db: Database, r: Request)
    ensures DevicesEvolve(db.devices, Step(p, db, r).devices)
  {
    hide Step, DevicesEvolve;
    match r.command
    case RegisterDevice(_, _, _) => StatusEvolves(p, db, r);
    case UpdateDeviceStatus(_, _, _) => StatusEvolves(p, db, r);
    case CastVote(_, _, _, _, _) => VoteEvolves(p, db, r);
    case _ =>
      Untouched(p, db, r);
      DevicesReflexive(db.devices);
  }

  lemma NewBallotNumber(p: Primitives, s: Session, c: string, d: string, n: int, id: string, now: DateTime)
    ensures NewBallot(p, s, c, d, n, id, now).sequenceNumber == n
  {
  }

  lemma DevicesReflexive(ds: seq<Device>)
    ensures DevicesEvolve(ds, ds)
  {
  }

  lemma DeviceAdded(ds: seq<Device>, x: Device)
    ensures DevicesEvolve(ds, ds + [x])
  {
  }

  lemma DeviceRewritten(ds: seq<Device>, k: nat, x: Device)
    requires k < |ds| && ds[k].id == x.id && (ds[k].status == Revoked ==> x.status == Revoked)
    ensures DevicesEvolve(ds, ds[k := x])
  {
  }

  lemma RevokedStepStays(p: Primitives, db: Database, r: Request, d: string)
    requires p.Sound() && Inv(p, db) && IsRevoked(db, d)
    ensures IsRevoked(Step(p, db, r), d)
    ensures Filter(Keyed(BallotDevice(), d), Step(p, db, r).ballots) == Filter(Keyed(BallotDevice(), d), db.ballots)
  {
    hide Inv, Step, BallotJustified, Filter;
    var db' := Step(p, db, r);
    DevicesOnlyEvolve(p, db, r);
    var k :| 0 <= k < |db.devices| && db.devices[k].id == d && db.devices[k].status == Revoked;
    assert db'.devices[k].id == d && db'.devices[k].status == Revoked;
    OnlyJustifiedBallots(p, db, r);
    if db'.ballots != db.ballots {
      var b :| db'.ballots == db.ballots + [b] && BallotJustified(p, db, r, b);
      DeviceIdsDistinct(p, db);
      JustifiedNotRevoked(p, db, r, b, k);
      FilterAppend(Keyed(BallotDevice(), d), db.ballots, b);
    }
  }

  lemma JustifiedNotRevoked(p: Primitives, db: Database, r: Request, b: Ballot, k: nat)
    requires BallotJustified(p, db, r, b) && k < |db.devices| && db.devices[k].status == Revoked
    requires forall i, j :: 0 <= i < j < |db.devices| ==> db.devices[i].id != db.devices[j].id
    ensures b.deviceId != db.devices[k].id
  {
    hide BallotHash, BallotIdFree, HasCandidate;
  }

  lemma DeviceIdsDistinct(p: Primitives, db: Database)
    requires Inv(p, db)
    ensures forall i, j :: 0 <= i < j < |db.devices| ==> db.devices[i].id != db.devices[j].id
  {
    hide CandidatesOk, SessionsOk, BallotsOk, VotesKept, DeviceCountersOk, ElectionTotalsOk, ConfigurationsOk,
         LogsOk, ManifestsOk, AnchorsOk;
  }

  /** Once a device is revoked, no run adds a ballot for it and nothing reinstates it. */
  lemma {:induction false} RevokedForever(p: Primitives, db: Database, rs: seq<Request>, d: string)
    requires p.Sound() && Inv(p, db) && IsRevoked(db, d)
    ensures IsRevoked(Run(p, db, rs), d)
    ensures Filter(Keyed(BallotDevice(), d), Run(p, db, rs).ballots) == Filter(Keyed(BallotDevice(), d), db.ballots)
  {
    hide Inv, Step, IsRevoked;
    if rs != [] {
      RevokedForever(p, db, rs[..|rs| - 1], d);
      RunKeepsInv(p, db, rs[..|rs| - 1]);
      RevokedStepStays(p, Run(p, db, rs[..|rs| - 1]), rs[|rs| - 1], d);
    }
  }

  // ---------- replay protection ----------

  /** Each device's numbers climb in recording order, and the stored counter is their maximum. */
  lemma NumbersClimb(p: Primitives, rs: seq<Request>)
    requires p.Sound()
    ensures var db := Run(p, EMPTY, rs);
            && ReplayFree(db.ballots)
            && (forall k, i ::
                  0 <= k < |db.devices| && 0 <= i < |db.ballots| && db.ballots[i].deviceId == db.devices[k].id
                  ==> db.ballots[i].sequenceNumber <= db.devices[k].lastSequenceNumber)
            && (forall k :: 0 <= k < |db.devices| ==>
                  || db.devices[k].lastSequenceNumber == 0
                  || exists i :: 0 <= i < |db.ballots| && db.ballots[i].deviceId == db.devices[k].id
                                 && db.ballots[i].sequenceNumber == db.devices[k].lastSequenceNumber)
  {
    hide TablesOk, Inv, Run, ReplayFree;
    var db := Run(p, EMPTY, rs);
    ReachableInv(p, rs);
    InvTables(p, db);
    BallotsReplayFree(p, db);
    forall k | 0 <= k < |db.devices|
      ensures forall i :: 0 <= i < |db.ballots| && db.ballots[i].deviceId == db.devices[k].id
                ==> db.ballots[i].sequenceNumber <= db.devices[k].lastSequenceNumber
      ensures || db.devices[k].lastSequenceNumber == 0
              || exists i :: 0 <= i < |db.ballots| && db.ballots[i].deviceId == db.devices[k].id
                             && db.ballots[i].sequenceNumber == db.devices[k].lastSequenceNumber
    {
      CounterIsMaximum(p, db, k);
    }
  }

  lemma BallotsReplayFree(p: Primitives, db: Database)
    requires TablesOk(p, db)
    ensures ReplayFree(db.ballots)
  {
    hide CandidatesOk, DevicesOk, SessionsOk, VotesKept, DeviceCountersOk, ElectionTotalsOk, ConfigurationsOk;
    assert forall i :: 0 <= i < |db.ballots| ==> BallotOk(p, db.candidates, db.devices, db.sessions, db.ballots[i]);
    assert forall i, j :: 0 <= i < j < |db.ballots| ==> BallotsApart(db.ballots[i], db.ballots[j]);
  }

  lemma CounterIsMaximum(p: Primitives, db: Database, k: nat)
    requires TablesOk(p, db) && k < |db.devices|
    ensures forall i :: 0 <= i < |db.ballots| && db.ballots[i].deviceId == db.devices[k].id
              ==> db.ballots[i].sequenceNumber <= db.devices[k].lastSequenceNumber
    ensures || db.devices[k].lastSequenceNumber == 0
            || exists i :: 0 <= i < |db.ballots| && db.ballots[i].deviceId == db.devices[k].id
                           && db.ballots[i].sequenceNumber == db.devices[k].lastSequenceNumber
  {
    hide CandidatesOk, DevicesOk, SessionsOk, VotesKept, ElectionTotalsOk, ConfigurationsOk, BallotOk;
    BallotsReplayFree(p, db);
    DeviceCounterNonNegative(p, db, k);
    LastNumberIsMaximum(db.ballots, db.devices[k].id);
  }

  // ---------- configuration ----------

  /** From the lock onward the stored configuration hash is the hash of the candidates, whatever their order. */
  lemma ConfigurationVerifies(p: Primitives, rs: seq<Request>, e: string, shuffled: seq<CandidateInfo>)
    requires p.Sound() && e in Run(p, EMPTY, rs).elections
    requires multiset(shuffled) == multiset(Map(InfoOf(), CandidatesOf(Run(p, EMPTY, rs), e)))
    ensures var db := Run(p, EMPTY, rs);
            db.elections[e].configurationHash ==
              if BeforeLock(db.elections[e].state) then None else Some(ConfigurationHash(p, e, shuffled))
  {
    var db := Run(p, EMPTY, rs);
    ReachableInv(p, rs);
    StoredHashIsCanonical(p, db, e, shuffled);
  }

  lemma StoredHashIsCanonical(p: Primitives, db: Database, e: string, shuffled: seq<CandidateInfo>)
    requires TablesOk(p, db) && e in db.elections
    requires multiset(shuffled) == multiset(Map(InfoOf(), CandidatesOf(db, e)))
    ensures db.elections[e].configurationHash ==
              if BeforeLock(db.elections[e].state) then None else Some(ConfigurationHash(p, e, shuffled))
  {
    hide DevicesOk, SessionsOk, BallotsOk, VotesKept, DeviceCountersOk, ElectionTotalsOk, CandidatesOk,
         ConfigurationHash, Filter, Map;
    var infos := Map(InfoOf(), CandidatesOf(db, e));
    PositionsDistinct(db.elections.Keys, db.candidates, e);
    assert infos == Map(InfoOf(), Filter(CandidateIn(e), db.candidates));
    assert forall i, j :: 0 <= i < j < |infos| ==> infos[i].position != infos[j].position;
    ConfigurationHashCanonical(p, e, infos, shuffled);
  }

  lemma PositionsDistinct(keys: set<string>, cs: seq<Candidate>, e: string)
    requires CandidatesOk(keys, cs)
    ensures var infos := Map(InfoOf(), Filter(CandidateIn(e), cs));
            forall i, j :: 0 <= i < j < |infos| ==>
              infos[i].position != infos[j].position && infos[i].id != infos[j].id
  {
    var mine := Filter(CandidateIn(e), cs);
    var apart := (a: Candidate, b: Candidate) =>
      a.info.id != b.info.id && (a.electionId == b.electionId ==> a.info.position != b.info.position);
    assert Pairwise(apart, cs);
    FilterPairwise(CandidateIn(e), apart, cs);
    forall i, j | 0 <= i < j < |mine|
      ensures mine[i].info.position != mine[j].info.position && mine[i].info.id != mine[j].info.id
    {
      assert apart(mine[i], mine[j]);
      assert CandidateIn(e)(mine[i]) && CandidateIn(e)(mine[j]);
    }
  }
}
