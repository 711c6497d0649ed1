/** After CLOSED nothing that counts can change. */
module Freeze {
  import opened Prelude
  import opened Timestamps
  import opened Records
  import opened Hashing
  import opened Export
  import opened Transactions
  import opened Frames
  import opened Invariants
  import opened Runs

  predicate IsClosed(db: Database, e: string) {
    e in db.elections && (db.elections[e].state == Closed || db.elections[e].state == Published)
  }

  /** A device without its status, which may still change. */
  function CountersOnly(): Device -> Device {
    (d: Device) => d.(status := Registered)
  }

  /** Everything the results of e are made of. */
  datatype Results = Results(
    configurationHash: Option<string>, totalBallots: int, candidates: seq<Candidate>,
    ballots: seq<Ballot>, devices: seq<Device>)

  function ResultsOf(db: Database, e: string): Results
    requires e in db.elections
  {
    Results(db.elections[e].configurationHash, db.elections[e].totalBallots,
            CandidatesOf(db, e), BallotsOf(db, e), Map(CountersOnly(), DevicesOf(db, e)))
  }

  ghost predicate Frozen(a: Database, b: Database, e: string) {
    IsClosed(a, e) && IsClosed(b, e) && ResultsOf(b, e) == ResultsOf(a, e)
  }

  // ---------- what an update of another election's row does to the rows of e ----------

  lemma RewriteInvisible(ds: seq<Device>, e: string, k: nat, x: Device)
    requires k < |ds| && x.electionId == ds[k].electionId
    requires x.electionId != e || CountersOnly()(x) == CountersOnly()(ds[k])
    ensures Map(CountersOnly(), Filter(DeviceIn(e), ds[k := x])) == Map(CountersOnly(), Filter(DeviceIn(e), ds))
  {
    var f, q := CountersOnly(), DeviceIn(e);
    assert ds == ds[..k] + ([ds[k]] + ds[k + 1..]);
    assert ds[k := x] == ds[..k] + ([x] + ds[k + 1..]);
    FilterAround(q, ds[..k], ds[k], ds[k + 1..]);
    FilterAround(q, ds[..k], x, ds[k + 1..]);
    hide Filter;
    assert Map(f, if q(x) then [x] else []) == Map(f, if q(ds[k]) then [ds[k]] else []);
    MapAround(f, Filter(q, ds[..k]), if q(ds[k]) then [ds[k]] else [], Filter(q, ds[k + 1..]));
    MapAround(f, Filter(q, ds[..k]), if q(x) then [x] else [], Filter(q, ds[k + 1..]));
  }

  lemma FilterAround(q: Device -> bool, a: seq<Device>, x: Device, b: seq<Device>)
    ensures Filter(q, a + ([x] + b)) == Filter(q, a) + ((if q(x) then [x] else []) + Filter(q, b))
  {
    FilterConcat(q, a, [x] + b);
    FilterConcat(q, [x], b);
  }

  lemma MapAround(f: Device -> Device, a: seq<Device>, x: seq<Device>, b: seq<Device>)
    ensures Map(f, a + (x + b)) == Map(f, a) + (Map(f, x) + Map(f, b))
  {
  }

  lemma TablesFreeze(a: Database, b: Database, e: string)
    requires IsClosed(a, e) && e in b.elections && b.elections[e] == a.elections[e]
    requires b.candidates == a.candidates && b.devices == a.devices && b.ballots == a.ballots
    ensures Frozen(a, b, e)
  {
  }

  lemma VoteFreezes(p: Primitives, db: Database, i: nat, k: nat, b: Ballot, e: string)
    requires IsClosed(db, e) && TablesOk(p, db)
    requires i < |db.sessions| && k < |db.devices| && db.sessions[i].electionId in db.elections
    requires db.elections[db.sessions[i].electionId].state == Open
    requires db.sessions[i].deviceId == db.devices[k].id && b.electionId == db.sessions[i].electionId
    ensures Frozen(db, RecordVote(db, i, k, b), e)
  {
    hide TablesOk, Filter;
    var x := db.devices[k].(lastSequenceNumber := b.sequenceNumber, totalVotesCast := db.devices[k].totalVotesCast + 1);
    SessionDeviceElection(p, db, i, k);
    RewriteInvisible(db.devices, e, k, x);
    FilterAppend(BallotIn(e), db.ballots, b);
  }

  /** The device of a session belongs to the session's election. */
  lemma SessionDeviceElection(p: Primitives, db: Database, i: nat, k: nat)
    requires TablesOk(p, db) && i < |db.sessions| && k < |db.devices| && db.sessions[i].deviceId == db.devices[k].id
    ensures db.devices[k].electionId == db.sessions[i].electionId
  {
    hide CandidatesOk, BallotsOk, VotesKept, DeviceCountersOk, ElectionTotalsOk, ConfigurationsOk;
    assert HasDevice(db.devices, db.sessions[i].deviceId, db.sessions[i].electionId);
    var j :| 0 <= j < |db.devices| && db.devices[j].id == db.sessions[i].deviceId
             && db.devices[j].electionId == db.sessions[i].electionId;
    assert j == k;
  }

  lemma FrozenThroughLog(a: Database, b: Database, b': Database, e: string)
    requires Frozen(a, b, e) && SameTables(b, b')
    ensures Frozen(a, b', e)
  {
  }

  lemma RowsFreeze(p: Primitives, db: Database, r: Request, w: Database, e: string)
    requires IsClosed(db, e) && Writes(p, db, r, w)
    requires r.command.CreateElection? || r.command.AddCandidates? || r.command.ChangeState?
    ensures Frozen(db, w, e)
  {
    hide NewRows, Filter, Map, ConfigurationHash;
    if r.command.AddCandidates? {
      OtherCandidatesStay(db.candidates, r.command.electionId, r.command.batch, e);
    }
  }

  lemma DevicesFreeze(p: Primitives, db: Database, r: Request, w: Database, e: string)
    requires IsClosed(db, e) && Writes(p, db, r, w)
    requires r.command.RegisterDevice? || r.command.UpdateDeviceStatus?
    ensures Frozen(db, w, e)
  {
    hide Filter, Map;
    match r.command
    case RegisterDevice(x, d, name) => FilterAppend(DeviceIn(e), db.devices, Device(d, x, name, Registered, 0, 0));
    case UpdateDeviceStatus(x, d, status) =>
      var i :| 0 <= i < |db.devices| && RewritesStatus(db, i, x, d, status, w);
      RewriteInvisible(db.devices, e, i, db.devices[i].(status := status));
  }

  lemma CastFreezes(p: Primitives, db: Database, r: Request, w: Database, e: string)
    requires TablesOk(p, db) && IsClosed(db, e) && Writes(p, db, r, w) && r.command.CastVote?
    ensures Frozen(db, w, e)
  {
    hide TablesOk, VoteChecks, NewBallot, RecordVote, Frozen;
    var c := r.command;
    var (i, k) := VoteChecks(db, c.token, c.candidateId, c.deviceId, c.sequenceNumber, c.ballotId).value;
    BallotElection(p, db.sessions[i], c.candidateId, c.deviceId, c.sequenceNumber, c.ballotId, r.now);
    VoteFreezes(p, db, i, k,
                NewBallot(p, db.sessions[i], c.candidateId, c.deviceId, c.sequenceNumber, c.ballotId, r.now), e);
  }

  lemma WritesFreeze(p: Primitives, db: Database, r: Request, w: Database, e: string)
    requires TablesOk(p, db) && IsClosed(db, e) && Writes(p, db, r, w)
    requires r.command.CreateElection? || r.command.AddCandidates? || r.command.ChangeState?
             || r.command.RegisterDevice? || r.command.UpdateDeviceStatus? || r.command.CastVote?
    ensures Frozen(db, w, e)
  {
    hide TablesOk, Writes, IsClosed, Frozen;
    match r.command
    case RegisterDevice(_, _, _) => DevicesFreeze(p, db, r, w, e);
    case UpdateDeviceStatus(_, _, _) => DevicesFreeze(p, db, r, w, e);
    case CastVote(_, _, _, _, _) => CastFreezes(p, db, r, w, e);
    case _ => RowsFreeze(p, db, r, w, e);
  }

  lemma BallotElection(p: Primitives, s: Session, c: string, d: string, n: int, id: string, now: DateTime)
    ensures NewBallot(p, s, c, d, n, id, now).electionId == s.electionId
  {
  }

  /** No request touches the results of a closed election. */
  lemma StepFreezes(p: Primitives, db: Database, r: Request, e: string)
    requires Inv(p, db) && IsClosed(db, e)
    ensures Frozen(db, Step(p, db, r), e)
  {
    InvTables(p, db);
    StepFrame(p, db, r);
    Untouched(p, db, r);
    TablesFreeze(db, db, e);
    hide Inv, TablesOk, Step, Writes, Logs, Frozen, IsClosed;
    var db', c := Step(p, db, r), r.command;
    if db' != db {
      if c.CreateElection? || c.AddCandidates? || c.ChangeState? || c.RegisterDevice? || c.UpdateDeviceStatus?
         || c.CastVote?
      {
        WritesFreeze(p, db, r, db'.(audit := db.audit), e);
        FrozenThroughLog(db, db'.(audit := db.audit), db', e);
      } else {
        ClosedRow(db, e);
        TablesFreeze(db, db', e);
      }
    }
  }

  lemma ClosedRow(db: Database, e: string)
    requires IsClosed(db, e)
    ensures e in db.elections
  {
  }

  /**
   * Freeze. Once an election is closed no run of further requests changes its ballots, tallies, candidates,
   * device counters or configuration hash.
   */
  lemma {:induction false} RunFreezes(p: Primitives, db: Database, rs: seq<Request>, e: string)
    requires p.Sound() && Inv(p, db) && IsClosed(db, e)
    ensures Frozen(db, Run(p, db, rs), e)
  {
    hide Inv, Step;
    if rs == [] {
      TablesFreeze(db, db, e);
    } else {
      RunFreezes(p, db, rs[..|rs| - 1], e);
      RunKeepsInv(p, db, rs[..|rs| - 1]);
      StepFreezes(p, Run(p, db, rs[..|rs| - 1]), rs[|rs| - 1], e);
    }
  }

  /** Hence every later verification generates the same manifest data, and the same manifest hash. */
  lemma ManifestFrozen(p: Primitives, db: Database, rs: seq<Request>, e: string)
    requires p.Sound() && Inv(p, db) && IsClosed(db, e)
    ensures IsClosed(Run(p, db, rs), e)
    ensures CurrentManifest(ViewOf(Run(p, db, rs), e)) == CurrentManifest(ViewOf(db, e))
    ensures VerifiedManifest(p, Run(p, db, rs), e) == VerifiedManifest(p, db, e)
  {
    hide Inv, VerifiedManifest, Step;
    var db' := Run(p, db, rs);
    RunFreezes(p, db, rs, e);
    RunKeepsInv(p, db, rs);
    VerifiedIsCurrent(p, db, e);
    VerifiedIsCurrent(p, db', e);
    InvTables(p, db);
    InvTables(p, db');
    ElectionIdIsKey(p, db, e);
    ElectionIdIsKey(p, db', e);
  }

  // ---------- the audit log only grows ----------

  lemma StepGrowsLog(p: Primitives, db: Database, r: Request, e: string)
    ensures LogOf(db, e) <= LogOf(Step(p, db, r), e)
  {
    StepFrame(p, db, r);
    hide Step, Writes, LoggedIn;
  }

  /** Append-only: the log of any earlier state is a prefix of the log of any later one. */
  lemma {:induction false} RunGrowsLog(p: Primitives, db: Database, rs: seq<Request>, e: string)
    ensures LogOf(db, e) <= LogOf(Run(p, db, rs), e)
  {
    hide Step;
    if rs != [] {
      RunGrowsLog(p, db, rs[..|rs| - 1], e);
      StepGrowsLog(p, Run(p, db, rs[..|rs| - 1]), rs[|rs| - 1], e);
    }
  }
}
