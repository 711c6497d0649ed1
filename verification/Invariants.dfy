/** What every service call keeps about the tables. */
module Invariants {
  import opened Prelude
  import opened Timestamps
  import opened Grouping
  import opened Records
  import opened Hashing
  import opened Export
  import opened Acceptance
  import opened Transactions

  // ---------- foreign keys ----------

  ghost predicate HasDevice(devices: seq<Device>, id: string, e: string) {
    exists i :: 0 <= i < |devices| && devices[i].id == id && devices[i].electionId == e
  }

  ghost predicate HasCandidate(candidates: seq<Candidate>, id: string, e: string) {
    exists i :: 0 <= i < |candidates| && candidates[i].info.id == id && candidates[i].electionId == e
  }

  ghost predicate HasVotedSession(sessions: seq<Session>, id: string, e: string, d: string) {
    exists i :: 0 <= i < |sessions| && sessions[i].id == id && sessions[i].electionId == e
                && sessions[i].deviceId == d && sessions[i].status == Voted
  }

  ghost predicate HasBallotFor(ballots: seq<Ballot>, sessionId: string) {
    exists i :: 0 <= i < |ballots| && ballots[i].sessionId == sessionId
  }

  // ---------- per-table invariants ----------

  ghost predicate CandidatesOk(elections: set<string>, candidates: seq<Candidate>) {
    && (forall i :: 0 <= i < |candidates| ==> candidates[i].electionId in elections)
    && (forall i, j :: 0 <= i < j < |candidates| ==>
          && candidates[i].info.id != candidates[j].info.id
          && (candidates[i].electionId == candidates[j].electionId ==>
                candidates[i].info.position != candidates[j].info.position))
  }

  ghost predicate DevicesOk(elections: set<string>, devices: seq<Device>) {
    && (forall i :: 0 <= i < |devices| ==> devices[i].electionId in elections)
    && (forall i, j :: 0 <= i < j < |devices| ==> devices[i].id != devices[j].id)
  }

  ghost predicate SessionsOk(elections: set<string>, devices: seq<Device>, sessions: seq<Session>) {
    && (forall i :: 0 <= i < |sessions| ==>
          sessions[i].electionId in elections && HasDevice(devices, sessions[i].deviceId, sessions[i].electionId))
    && (forall i, j :: 0 <= i < j < |sessions| ==>
          && sessions[i].id != sessions[j].id
          && sessions[i].token != sessions[j].token
          && !(sessions[i].electionId == sessions[j].electionId && sessions[i].credential == sessions[j].credential))
  }

  ghost predicate BallotOk(p: Primitives, candidates: seq<Candidate>, devices: seq<Device>, sessions: seq<Session>,
                           b: Ballot)
  {
    && b.sequenceNumber > 0
    && b.ballotHash
       == BallotHash(p, b.electionId, b.sessionId, b.candidateId, b.deviceId, b.sequenceNumber, Iso(b.recordedAt))
    && HasCandidate(candidates, b.candidateId, b.electionId)
    && HasDevice(devices, b.deviceId, b.electionId)
    && HasVotedSession(sessions, b.sessionId, b.electionId, b.deviceId)
  }

  predicate BallotsApart(a: Ballot, b: Ballot) {
    a.id != b.id && a.sessionId != b.sessionId && NoReplayPair(a, b)
  }

  ghost predicate BallotsOk(p: Primitives, candidates: seq<Candidate>, devices: seq<Device>, sessions: seq<Session>,
                            ballots: seq<Ballot>)
  {
    && (forall i :: 0 <= i < |ballots| ==> BallotOk(p, candidates, devices, sessions, ballots[i]))
    && Pairwise(BallotsApart, ballots)
  }

  /** A session that has voted has its ballot. */
  ghost predicate VotesKept(sessions: seq<Session>, ballots: seq<Ballot>) {
    forall i :: 0 <= i < |sessions| && sessions[i].status == Voted ==> HasBallotFor(ballots, sessions[i].id)
  }

  /** The number on the device's latest ballot, 0 before its first. */
  function LastNumber(ballots: seq<Ballot>, d: string): int {
    var f := Filter(Keyed(BallotDevice(), d), ballots);
    if f == [] then 0 else f[|f| - 1].sequenceNumber
  }

  ghost predicate DeviceCountersOk(devices: seq<Device>, ballots: seq<Ballot>) {
    forall i :: 0 <= i < |devices| ==>
      && devices[i].totalVotesCast == CountOf(BallotDevice(), ballots, devices[i].id)
      && devices[i].lastSequenceNumber == LastNumber(ballots, devices[i].id)
  }

  function VotedIn(e: string): Session -> bool {
    (s: Session) => s.electionId == e && s.status == Voted
  }

  ghost predicate ElectionTotalsOk(elections: map<string, Election>, sessions: seq<Session>, ballots: seq<Ballot>) {
    forall e :: e in elections ==>
      elections[e].totalBallots == |Filter(BallotIn(e), ballots)| == |Filter(VotedIn(e), sessions)|
  }

  predicate BeforeLock(s: ElectionState) {
    s == Created || s == Configured
  }

  ghost predicate ConfigurationsOk(p: Primitives, elections: map<string, Election>, candidates: seq<Candidate>) {
    forall e :: e in elections ==>
      && elections[e].id == e
      && elections[e].configurationHash ==
           if BeforeLock(elections[e].state) then None
           else Some(ConfigurationHash(p, e, Map(InfoOf(), Filter(CandidateIn(e), candidates))))
  }

  ghost predicate TablesOk(p: Primitives, db: Database) {
    && CandidatesOk(db.elections.Keys, db.candidates)
    && DevicesOk(db.elections.Keys, db.devices)
    && SessionsOk(db.elections.Keys, db.devices, db.sessions)
    && BallotsOk(p, db.candidates, db.devices, db.sessions, db.ballots)
    && VotesKept(db.sessions, db.ballots)
    && DeviceCountersOk(db.devices, db.ballots)
    && ElectionTotalsOk(db.elections, db.sessions, db.ballots)
    && ConfigurationsOk(p, db.elections, db.candidates)
  }

  ghost predicate SameTables(a: Database, b: Database) {
    && a.elections == b.elections && a.candidates == b.candidates && a.devices == b.devices
    && a.sessions == b.sessions && a.ballots == b.ballots
  }

  // ---------- consequences ----------

  /** In a list of one device's ballots that repeats no number the last ballot has the highest. */
  lemma LastIsHighest(f: seq<Ballot>, k: nat)
    requires Pairwise(BallotsApart, f) && k < |f| && f[k].deviceId == f[|f| - 1].deviceId
    ensures f[k].sequenceNumber <= f[|f| - 1].sequenceNumber
  {
    if k < |f| - 1 {
      PairwiseAt(BallotsApart, f, k, |f| - 1);
    }
  }

  /** No ballot of a device carries a higher number than its last one. */
  lemma LastNumberBounds(ballots: seq<Ballot>, d: string, i: nat)
    requires Pairwise(BallotsApart, ballots) && i < |ballots| && ballots[i].deviceId == d
    ensures ballots[i].sequenceNumber <= LastNumber(ballots, d)
  {
    var f := Filter(Keyed(BallotDevice(), d), ballots);
    OwnBallots(ballots, d);
    LastOfOwn(ballots, d);
    hide *;
    FilterPairwise(Keyed(BallotDevice(), d), BallotsApart, ballots);
    var k := OwnPosition(ballots, d, i);
    LastIsHighest(f, k);
  }

  lemma OwnBallots(ballots: seq<Ballot>, d: string)
    ensures var f := Filter(Keyed(BallotDevice(), d), ballots); forall k :: 0 <= k < |f| ==> f[k].deviceId == d
  {
    var own := Keyed(BallotDevice(), d);
    var f := Filter(own, ballots);
    hide Filter;
    forall k | 0 <= k < |f|
      ensures f[k].deviceId == d
    {
      assert own(f[k]);
    }
  }

  lemma LastOfOwn(ballots: seq<Ballot>, d: string)
    ensures var f := Filter(Keyed(BallotDevice(), d), ballots);
            LastNumber(ballots, d) == if f == [] then 0 else f[|f| - 1].sequenceNumber
  {
    hide Filter;
  }

  lemma OwnPosition(ballots: seq<Ballot>, d: string, i: nat) returns (k: nat)
    requires i < |ballots| && ballots[i].deviceId == d
    ensures var f := Filter(Keyed(BallotDevice(), d), ballots); k < |f| && f[k] == ballots[i]
  {
    var f := Filter(Keyed(BallotDevice(), d), ballots);
    FilterKeeps(Keyed(BallotDevice(), d), ballots, i);
    hide Filter;
    k :| k < |f| && f[k] == ballots[i];
  }

  /** The last number is zero or the number of a ballot of the device. */
  lemma LastNumberTaken(ballots: seq<Ballot>, d: string)
    ensures LastNumber(ballots, d) == 0
            || exists i :: 0 <= i < |ballots| && ballots[i].deviceId == d
                           && ballots[i].sequenceNumber == LastNumber(ballots, d)
  {
    var own := Keyed(BallotDevice(), d);
    var f := Filter(own, ballots);
    hide Filter;
    if f != [] {
      var i :| 0 <= i < |ballots| && ballots[i] == f[|f| - 1];
      assert own(ballots[i]);
    }
  }

  lemma LastNumberIsMaximum(ballots: seq<Ballot>, d: string)
    requires Pairwise(BallotsApart, ballots)
    requires forall i :: 0 <= i < |ballots| ==> ballots[i].sequenceNumber > 0
    ensures LastNumber(ballots, d) >= 0
    ensures forall i :: 0 <= i < |ballots| && ballots[i].deviceId == d
              ==> ballots[i].sequenceNumber <= LastNumber(ballots, d)
    ensures LastNumber(ballots, d) > 0 ==>
              exists i :: 0 <= i < |ballots| && ballots[i].deviceId == d
                          && ballots[i].sequenceNumber == LastNumber(ballots, d)
  {
    hide LastNumber, BallotsApart, Pairwise;
    LastNumberTaken(ballots, d);
    forall i | 0 <= i < |ballots| && ballots[i].deviceId == d
      ensures ballots[i].sequenceNumber <= LastNumber(ballots, d)
    {
      LastNumberBounds(ballots, d, i);
    }
  }

  // ---------- one table at a time ----------

  ghost predicate DevicesCover(a: seq<Device>, b: seq<Device>) {
    forall id, e :: HasDevice(a, id, e) ==> HasDevice(b, id, e)
  }

  ghost predicate CandidatesCover(a: seq<Candidate>, b: seq<Candidate>) {
    forall id, e :: HasCandidate(a, id, e) ==> HasCandidate(b, id, e)
  }

  ghost predicate SessionsCover(a: seq<Session>, b: seq<Session>) {
    forall id, e, d :: HasVotedSession(a, id, e, d) ==> HasVotedSession(b, id, e, d)
  }

  /** Growing the referenced tables leaves every ballot well linked. */
  lemma BallotsStayOk(p: Primitives, cs: seq<Candidate>, ds: seq<Device>, ss: seq<Session>,
                      cs': seq<Candidate>, ds': seq<Device>, ss': seq<Session>, ballots: seq<Ballot>)
    requires BallotsOk(p, cs, ds, ss, ballots)
    requires CandidatesCover(cs, cs') && DevicesCover(ds, ds') && SessionsCover(ss, ss')
    ensures BallotsOk(p, cs', ds', ss', ballots)
  {
    forall i | 0 <= i < |ballots| ensures BallotOk(p, cs', ds', ss', ballots[i]) {
      assert BallotOk(p, cs, ds, ss, ballots[i]);
    }
  }

  lemma KeysGrow(a: set<string>, b: set<string>, cs: seq<Candidate>, ds: seq<Device>, ss: seq<Session>)
    requires a <= b && CandidatesOk(a, cs) && DevicesOk(a, ds) && SessionsOk(a, ds, ss)
    ensures CandidatesOk(b, cs) && DevicesOk(b, ds) && SessionsOk(b, ds, ss)
  {
  }

  lemma SessionsStayOk(keys: set<string>, ds: seq<Device>, ds': seq<Device>, ss: seq<Session>)
    requires SessionsOk(keys, ds, ss) && DevicesCover(ds, ds')
    ensures SessionsOk(keys, ds', ss)
  {
  }

  // ---------- create_election ----------

  lemma NoBallotsYet(p: Primitives, keys: set<string>, cs: seq<Candidate>, ds: seq<Device>, ss: seq<Session>,
                     ballots: seq<Ballot>, e: string)
    requires BallotsOk(p, cs, ds, ss, ballots) && CandidatesOk(keys, cs) && e !in keys
    ensures Filter(BallotIn(e), ballots) == []
  {
    forall b | b in ballots ensures !BallotIn(e)(b) {
      assert BallotOk(p, cs, ds, ss, b);
    }
    FilterNone(BallotIn(e), ballots);
  }

  lemma NoSessionsYet(keys: set<string>, ds: seq<Device>, ss: seq<Session>, e: string)
    requires SessionsOk(keys, ds, ss) && e !in keys
    ensures Filter(VotedIn(e), ss) == []
  {
    FilterNone(VotedIn(e), ss);
  }

  lemma NewElectionTotals(elections: map<string, Election>, e: string, row: Election, ss: seq<Session>, bs: seq<Ballot>)
    requires ElectionTotalsOk(elections, ss, bs) && row.totalBallots == 0
    requires Filter(BallotIn(e), bs) == [] && Filter(VotedIn(e), ss) == []
    ensures ElectionTotalsOk(elections[e := row], ss, bs)
  {
  }

  lemma NewElectionConfiguration(p: Primitives, elections: map<string, Election>, e: string, row: Election,
                                 cs: seq<Candidate>)
    requires ConfigurationsOk(p, elections, cs) && row.id == e && row.configurationHash == None && row.state == Created
    ensures ConfigurationsOk(p, elections[e := row], cs)
  {
  }

  lemma CreateKeepsTables(p: Primitives, db: Database, e: string, name: string)
    requires TablesOk(p, db) && e !in db.elections
    ensures TablesOk(p, db.(elections := db.elections[e := Election(e, name, Created, None, 0)]))
  {
    hide CandidatesOk, DevicesOk, SessionsOk, BallotsOk, VotesKept, DeviceCountersOk, ElectionTotalsOk,
         ConfigurationsOk;
    var elections := db.elections[e := Election(e, name, Created, None, 0)];
    NoBallotsYet(p, db.elections.Keys, db.candidates, db.devices, db.sessions, db.ballots, e);
    NoSessionsYet(db.elections.Keys, db.devices, db.sessions, e);
    KeysGrow(db.elections.Keys, elections.Keys, db.candidates, db.devices, db.sessions);
    NewElectionTotals(db.elections, e, elections[e], db.sessions, db.ballots);
    NewElectionConfiguration(p, db.elections, e, elections[e], db.candidates);
  }

  // ---------- add_candidates ----------

  lemma AppendCovers(cs: seq<Candidate>, more: seq<Candidate>)
    ensures CandidatesCover(cs, cs + more)
  {
    forall id, e | HasCandidate(cs, id, e) ensures HasCandidate(cs + more, id, e) {
      var i :| 0 <= i < |cs| && cs[i].info.id == id && cs[i].electionId == e;
      assert (cs + more)[i] == cs[i];
    }
  }

  lemma NewRowsOk(db: Database, e: string, batch: seq<CandidateInfo>)
    requires CandidatesOk(db.elections.Keys, db.candidates) && e in db.elections
    requires FreshBatch(Map(InfoOf(), CandidatesOf(db, e)), batch) && IdsUnused(db.candidates, batch)
    ensures CandidatesOk(db.elections.Keys, db.candidates + NewRows(e, batch))
  {
    var rows := db.candidates + NewRows(e, batch);
    var stored := Map(InfoOf(), CandidatesOf(db, e));
    forall i, j | 0 <= i < j < |rows|
      ensures rows[i].info.id != rows[j].info.id
      ensures rows[i].electionId == rows[j].electionId ==> rows[i].info.position != rows[j].info.position
    {
      if i < |db.candidates| <= j {
        var k := j - |db.candidates|;
        assert rows[j].info == batch[k] && rows[i] == db.candidates[i];
        if rows[i].electionId == e {
          FilterKeeps(CandidateIn(e), db.candidates, i);
          var x :| 0 <= x < |CandidatesOf(db, e)| && CandidatesOf(db, e)[x] == rows[i];
          assert stored[x] == rows[i].info;
        }
      } else if |db.candidates| <= i {
        assert rows[i].info == batch[i - |db.candidates|] && rows[j].info == batch[j - |db.candidates|];
      }
    }
  }

  lemma OtherCandidatesStay(cs: seq<Candidate>, e: string, batch: seq<CandidateInfo>, e': string)
    requires e' != e
    ensures Filter(CandidateIn(e'), cs + NewRows(e, batch)) == Filter(CandidateIn(e'), cs)
  {
    FilterConcat(CandidateIn(e'), cs, NewRows(e, batch));
    FilterNone(CandidateIn(e'), NewRows(e, batch));
  }

  lemma AddKeepsConfigurations(p: Primitives, elections: map<string, Election>, cs: seq<Candidate>, e: string,
                               batch: seq<CandidateInfo>, row: Election)
    requires ConfigurationsOk(p, elections, cs) && e in elections && elections[e].state == Created
    requires row == elections[e] || row == elections[e].(state := Configured)
    ensures ConfigurationsOk(p, elections[e := row], cs + NewRows(e, batch))
  {
    forall e' | e' in elections && e' != e
      ensures Filter(CandidateIn(e'), cs + NewRows(e, batch)) == Filter(CandidateIn(e'), cs)
    {
      OtherCandidatesStay(cs, e, batch, e');
    }
  }

  lemma AddKeepsTables(p: Primitives, db: Database, e: string, batch: seq<CandidateInfo>, row: Election)
    requires TablesOk(p, db) && e in db.elections && db.elections[e].state == Created
    requires FreshBatch(Map(InfoOf(), CandidatesOf(db, e)), batch) && IdsUnused(db.candidates, batch)
    requires row == db.elections[e] || row == db.elections[e].(state := Configured)
    ensures TablesOk(p, db.(candidates := db.candidates + NewRows(e, batch), elections := db.elections[e := row]))
  {
    hide CandidatesOk, DevicesOk, SessionsOk, BallotsOk, VotesKept, DeviceCountersOk, ElectionTotalsOk,
         ConfigurationsOk;
    var rows := db.candidates + NewRows(e, batch);
    NewRowsOk(db, e, batch);
    assert db.elections[e := row].Keys == db.elections.Keys;
    AppendCovers(db.candidates, NewRows(e, batch));
    BallotsStayOk(p, db.candidates, db.devices, db.sessions, rows, db.devices, db.sessions, db.ballots);
    AddKeepsConfigurations(p, db.elections, db.candidates, e, batch, row);
    TotalsIgnoreState(db.elections, e, row, db.sessions, db.ballots);
  }

  lemma TotalsIgnoreState(elections: map<string, Election>, e: string, row: Election, ss: seq<Session>, bs: seq<Ballot>)
    requires ElectionTotalsOk(elections, ss, bs) && e in elections
    requires row.totalBallots == elections[e].totalBallots
    ensures ElectionTotalsOk(elections[e := row], ss, bs)
  {
  }

  // ---------- change_state ----------

  lemma ChangeKeepsConfigurations(p: Primitives, elections: map<string, Election>, cs: seq<Candidate>, e: string,
                                  row: Election)
    requires ConfigurationsOk(p, elections, cs) && e in elections && row.id == e
    requires ValidTransition(elections[e].state, row.state)
    requires row.configurationHash ==
             if elections[e].state == Configured && row.state == Locked
             then Some(ConfigurationHash(p, e, Map(InfoOf(), Filter(CandidateIn(e), cs))))
             else elections[e].configurationHash
    ensures ConfigurationsOk(p, elections[e := row], cs)
  {
  }

  lemma ChangeKeepsTables(p: Primitives, db: Database, e: string, row: Election)
    requires TablesOk(p, db) && e in db.elections
    requires row.id == e && row.totalBallots == db.elections[e].totalBallots
    requires ValidTransition(db.elections[e].state, row.state)
    requires row.configurationHash ==
             if db.elections[e].state == Configured && row.state == Locked
             then Some(ConfigurationHash(p, e, Map(InfoOf(), CandidatesOf(db, e))))
             else db.elections[e].configurationHash
    ensures TablesOk(p, db.(elections := db.elections[e := row]))
  {
    hide CandidatesOk, DevicesOk, SessionsOk, BallotsOk, VotesKept, DeviceCountersOk, ElectionTotalsOk,
         ConfigurationsOk;
    assert db.elections[e := row].Keys == db.elections.Keys;
    TotalsIgnoreState(db.elections, e, row, db.sessions, db.ballots);
    ChangeKeepsConfigurations(p, db.elections, db.candidates, e, row);
  }

  // ---------- devices ----------

  lemma DevicesChange(p: Primitives, db: Database, devices: seq<Device>)
    requires TablesOk(p, db)
    requires DevicesOk(db.elections.Keys, devices) && DeviceCountersOk(devices, db.ballots)
    requires DevicesCover(db.devices, devices)
    ensures TablesOk(p, db.(devices := devices))
  {
    hide CandidatesOk, DevicesOk, SessionsOk, BallotsOk, VotesKept, DeviceCountersOk, ElectionTotalsOk,
         ConfigurationsOk;
    BallotsStayOk(p, db.candidates, db.devices, db.sessions, db.candidates, devices, db.sessions, db.ballots);
    SessionsStayOk(db.elections.Keys, db.devices, devices, db.sessions);
  }

  lemma UnknownDeviceHasNoBallots(p: Primitives, cs: seq<Candidate>, ds: seq<Device>, ss: seq<Session>,
                                  ballots: seq<Ballot>, d: string)
    requires BallotsOk(p, cs, ds, ss, ballots) && FindIndex(HasDeviceId(d), ds).None?
    ensures CountOf(BallotDevice(), ballots, d) == 0 && LastNumber(ballots, d) == 0
  {
    forall b | b in ballots ensures !Keyed(BallotDevice(), d)(b) {
      var i :| 0 <= i < |ballots| && ballots[i] == b;
      assert BallotOk(p, cs, ds, ss, b);
      var k :| 0 <= k < |ds| && ds[k].id == b.deviceId;
      assert !HasDeviceId(d)(ds[k]);
    }
    FilterNone(Keyed(BallotDevice(), d), ballots);
  }

  lemma AppendDevice(keys: set<string>, ds: seq<Device>, x: Device, ballots: seq<Ballot>)
    requires DevicesOk(keys, ds) && DeviceCountersOk(ds, ballots) && x.electionId in keys
    requires FindIndex(HasDeviceId(x.id), ds).None?
    requires x.totalVotesCast == CountOf(BallotDevice(), ballots, x.id)
    requires x.lastSequenceNumber == LastNumber(ballots, x.id)
    ensures DevicesOk(keys, ds + [x]) && DeviceCountersOk(ds + [x], ballots) && DevicesCover(ds, ds + [x])
  {
    forall i | 0 <= i < |ds| ensures ds[i].id != x.id {
      assert !HasDeviceId(x.id)(ds[i]);
    }
    forall id, e | HasDevice(ds, id, e) ensures HasDevice(ds + [x], id, e) {
      var i :| 0 <= i < |ds| && ds[i].id == id && ds[i].electionId == e;
      assert (ds + [x])[i] == ds[i];
    }
  }

  lemma RegisterKeepsTables(p: Primitives, db: Database, e: string, d: string, name: string)
    requires TablesOk(p, db) && e in db.elections && FindIndex(HasDeviceId(d), db.devices).None?
    ensures TablesOk(p, db.(devices := db.devices + [Device(d, e, name, Registered, 0, 0)]))
  {
    hide CandidatesOk, DevicesOk, SessionsOk, BallotsOk, VotesKept, DeviceCountersOk, ElectionTotalsOk,
         ConfigurationsOk;
    UnknownDeviceHasNoBallots(p, db.candidates, db.devices, db.sessions, db.ballots, d);
    AppendDevice(db.elections.Keys, db.devices, Device(d, e, name, Registered, 0, 0), db.ballots);
    DevicesChange(p, db, db.devices + [Device(d, e, name, Registered, 0, 0)]);
  }

  /** Rewriting a device row under its own key keeps every reference to it. */
  lemma ReplaceDevice(keys: set<string>, ds: seq<Device>, k: nat, x: Device)
    requires DevicesOk(keys, ds) && k < |ds| && ds[k].id == x.id && ds[k].electionId == x.electionId
    ensures DevicesOk(keys, ds[k := x]) && DevicesCover(ds, ds[k := x])
  {
    forall id, e | HasDevice(ds, id, e) ensures HasDevice(ds[k := x], id, e) {
      var i :| 0 <= i < |ds| && ds[i].id == id && ds[i].electionId == e;
      assert ds[k := x][i] == if i == k then x else ds[i];
    }
  }

  lemma CountersIgnoreStatus(ds: seq<Device>, i: nat, x: Device, ballots: seq<Ballot>)
    requires DeviceCountersOk(ds, ballots) && i < |ds| && x == ds[i].(status := x.status)
    ensures DeviceCountersOk(ds[i := x], ballots)
  {
  }

  lemma UpdateKeepsTables(p: Primitives, db: Database, i: nat, status: DeviceStatus)
    requires TablesOk(p, db) && i < |db.devices|
    ensures TablesOk(p, db.(devices := db.devices[i := db.devices[i].(status := status)]))
  {
    hide CandidatesOk, DevicesOk, SessionsOk, BallotsOk, VotesKept, DeviceCountersOk, ElectionTotalsOk,
         ConfigurationsOk;
    var x := db.devices[i].(status := status);
    ReplaceDevice(db.elections.Keys, db.devices, i, x);
    CountersIgnoreStatus(db.devices, i, x, db.ballots);
    DevicesChange(p, db, db.devices[i := x]);
  }

  // ---------- authorize_session ----------

  lemma AppendSession(keys: set<string>, ds: seq<Device>, ss: seq<Session>, s: Session)
    requires SessionsOk(keys, ds, ss) && s.electionId in keys && HasDevice(ds, s.deviceId, s.electionId)
    requires forall i :: 0 <= i < |ss| ==>
               && ss[i].id != s.id && ss[i].token != s.token
               && !(ss[i].electionId == s.electionId && ss[i].credential == s.credential)
    ensures SessionsOk(keys, ds, ss + [s])
    ensures SessionsCover(ss, ss + [s])
  {
    forall id, e, d | HasVotedSession(ss, id, e, d) ensures HasVotedSession(ss + [s], id, e, d) {
      var i :| 0 <= i < |ss| && ss[i].id == id && ss[i].electionId == e && ss[i].deviceId == d && ss[i].status == Voted;
      assert (ss + [s])[i] == ss[i];
    }
  }

  lemma AppendAuthorizedTotals(elections: map<string, Election>, ss: seq<Session>, s: Session, bs: seq<Ballot>)
    requires ElectionTotalsOk(elections, ss, bs) && VotesKept(ss, bs) && s.status == Authorized
    ensures ElectionTotalsOk(elections, ss + [s], bs) && VotesKept(ss + [s], bs)
  {
    forall e | e in elections ensures Filter(VotedIn(e), ss + [s]) == Filter(VotedIn(e), ss) {
      FilterAppend(VotedIn(e), ss, s);
    }
  }

  lemma AuthorizeKeepsTables(p: Primitives, db: Database, s: Session)
    requires TablesOk(p, db) && s.status == Authorized && s.electionId in db.elections
    requires HasDevice(db.devices, s.deviceId, s.electionId)
    requires !CredentialUsed(db, s.electionId, s.credential) && SessionKeysFree(db, s.id, s.token)
    ensures TablesOk(p, db.(sessions := db.sessions + [s]))
  {
    hide CandidatesOk, DevicesOk, SessionsOk, BallotsOk, VotesKept, DeviceCountersOk, ElectionTotalsOk,
         ConfigurationsOk;
    AppendSession(db.elections.Keys, db.devices, db.sessions, s);
    BallotsStayOk(p, db.candidates, db.devices, db.sessions, db.candidates, db.devices, db.sessions + [s], db.ballots);
    AppendAuthorizedTotals(db.elections, db.sessions, s, db.ballots);
  }

  // ---------- cast_vote ----------

  lemma MarkVoted(keys: set<string>, ds: seq<Device>, ss: seq<Session>, i: nat)
    requires SessionsOk(keys, ds, ss) && i < |ss|
    ensures var ss' := ss[i := ss[i].(status := Voted)];
            && SessionsOk(keys, ds, ss')
            && SessionsCover(ss, ss')
            && HasVotedSession(ss', ss[i].id, ss[i].electionId, ss[i].deviceId)
  {
    var ss' := ss[i := ss[i].(status := Voted)];
    assert ss'[i].status == Voted;
    forall id, e, d | HasVotedSession(ss, id, e, d) ensures HasVotedSession(ss', id, e, d) {
      var j :| 0 <= j < |ss| && ss[j].id == id && ss[j].electionId == e && ss[j].deviceId == d && ss[j].status == Voted;
      assert ss'[j] == if i == j then ss[i].(status := Voted) else ss[j];
    }
  }

  /** An authorized session has no ballot yet. */
  lemma AuthorizedHasNoBallot(p: Primitives, cs: seq<Candidate>, ds: seq<Device>, ss: seq<Session>,
                              ballots: seq<Ballot>, keys: set<string>, i: nat)
    requires BallotsOk(p, cs, ds, ss, ballots) && SessionsOk(keys, ds, ss)
    requires i < |ss| && ss[i].status == Authorized
    ensures !HasBallotFor(ballots, ss[i].id)
  {
    forall k | 0 <= k < |ballots| ensures ballots[k].sessionId != ss[i].id {
      assert BallotOk(p, cs, ds, ss, ballots[k]);
      var j :| 0 <= j < |ss| && ss[j].id == ballots[k].sessionId && ss[j].status == Voted;
      assert j != i;
    }
  }

  lemma AppendBallot(p: Primitives, cs: seq<Candidate>, ds: seq<Device>, ss: seq<Session>, ballots: seq<Ballot>,
                     b: Ballot)
    requires BallotsOk(p, cs, ds, ss, ballots) && BallotOk(p, cs, ds, ss, b)
    requires !HasBallotFor(ballots, b.sessionId)
    requires b.sequenceNumber > LastNumber(ballots, b.deviceId)
    requires forall i :: 0 <= i < |ballots| ==> ballots[i].id != b.id
    ensures BallotsOk(p, cs, ds, ss, ballots + [b])
  {
    NewBallotApart(p, cs, ds, ss, ballots, b);
    hide BallotOk, BallotsApart, LastNumber, HasBallotFor;
    PairwiseAppend(BallotsApart, ballots, b);
  }

  lemma NewBallotApart(p: Primitives, cs: seq<Candidate>, ds: seq<Device>, ss: seq<Session>, ballots: seq<Ballot>,
                       b: Ballot)
    requires BallotsOk(p, cs, ds, ss, ballots)
    requires !HasBallotFor(ballots, b.sessionId)
    requires b.sequenceNumber > LastNumber(ballots, b.deviceId)
    requires forall i :: 0 <= i < |ballots| ==> ballots[i].id != b.id
    ensures forall i :: 0 <= i < |ballots| ==> BallotsApart(ballots[i], b)
  {
    NumbersPositive(p, cs, ds, ss, ballots);
    hide BallotOk, LastNumber;
    LastNumberIsMaximum(ballots, b.deviceId);
  }

  lemma NumbersPositive(p: Primitives, cs: seq<Candidate>, ds: seq<Device>, ss: seq<Session>, ballots: seq<Ballot>)
    requires BallotsOk(p, cs, ds, ss, ballots)
    ensures forall i :: 0 <= i < |ballots| ==> ballots[i].sequenceNumber > 0
  {
    forall i | 0 <= i < |ballots| ensures ballots[i].sequenceNumber > 0 {
      assert BallotOk(p, cs, ds, ss, ballots[i]);
    }
  }

  lemma VotesKeptAfterVote(ss: seq<Session>, ballots: seq<Ballot>, i: nat, b: Ballot)
    requires VotesKept(ss, ballots) && i < |ss| && b.sessionId == ss[i].id
    ensures VotesKept(ss[i := ss[i].(status := Voted)], ballots + [b])
  {
    var ss' := ss[i := ss[i].(status := Voted)];
    assert (ballots + [b])[|ballots|] == b;
    forall j | 0 <= j < |ss'| && ss'[j].status == Voted ensures HasBallotFor(ballots + [b], ss'[j].id) {
      if j != i {
        var k :| 0 <= k < |ballots| && ballots[k].sessionId == ss[j].id;
        assert (ballots + [b])[k] == ballots[k];
      }
    }
  }

  lemma CountersAfterVote(keys: set<string>, ds: seq<Device>, ballots: seq<Ballot>, k: nat, b: Ballot)
    requires DevicesOk(keys, ds) && DeviceCountersOk(ds, ballots) && k < |ds| && ds[k].id == b.deviceId
    ensures DeviceCountersOk(
              ds[k := ds[k].(lastSequenceNumber := b.sequenceNumber, totalVotesCast := ds[k].totalVotesCast + 1)],
              ballots + [b])
  {
    forall i | 0 <= i < |ds|
      ensures Filter(Keyed(BallotDevice(), ds[i].id), ballots + [b])
              == Filter(Keyed(BallotDevice(), ds[i].id), ballots) + (if i == k then [b] else [])
    {
      FilterAppend(Keyed(BallotDevice(), ds[i].id), ballots, b);
      assert i != k ==> ds[i].id != ds[k].id;
    }
  }

  lemma TotalsAfterVote(elections: map<string, Election>, ss: seq<Session>, ballots: seq<Ballot>, i: nat, b: Ballot)
    requires ElectionTotalsOk(elections, ss, ballots) && i < |ss| && ss[i].status == Authorized
    requires b.electionId == ss[i].electionId && b.electionId in elections
    ensures var e := b.electionId;
            ElectionTotalsOk(elections[e := elections[e].(totalBallots := elections[e].totalBallots + 1)],
                             ss[i := ss[i].(status := Voted)], ballots + [b])
  {
    forall e | e in elections
      ensures |Filter(BallotIn(e), ballots + [b])|
              == |Filter(BallotIn(e), ballots)| + (if e == b.electionId then 1 else 0)
      ensures |Filter(VotedIn(e), ss[i := ss[i].(status := Voted)])|
              == |Filter(VotedIn(e), ss)| + (if e == b.electionId then 1 else 0)
    {
      FilterAppend(BallotIn(e), ballots, b);
      FilterUpdate(VotedIn(e), ss, i, ss[i].(status := Voted));
    }
  }

  lemma ConfigurationsIgnoreTotals(p: Primitives, elections: map<string, Election>, cs: seq<Candidate>, e: string,
                                   n: int)
    requires ConfigurationsOk(p, elections, cs) && e in elections
    ensures ConfigurationsOk(p, elections[e := elections[e].(totalBallots := n)], cs)
  {
  }

  /** The new ballot is well linked, and its number is fresh. */
  lemma NewBallotOk(p: Primitives, db: Database, i: nat, k: nat, c: string, d: string, n: int, id: string,
                    now: DateTime)
    requires TablesOk(p, db)
    requires VoteGranted(db, i, k, c, d, n, id)
    ensures var b := NewBallot(p, db.sessions[i], c, d, n, id, now);
            var ss := db.sessions[i := db.sessions[i].(status := Voted)];
            BallotOk(p, db.candidates, db.devices, ss, b)
  {
    var s := db.sessions[i];
    MarkVoted(db.elections.Keys, db.devices, db.sessions, i);
    assert HasDevice(db.devices, s.deviceId, s.electionId);
    DeviceCounterNonNegative(p, db, k);
  }

  lemma DeviceCounterNonNegative(p: Primitives, db: Database, k: nat)
    requires TablesOk(p, db) && k < |db.devices|
    ensures db.devices[k].lastSequenceNumber == LastNumber(db.ballots, db.devices[k].id) >= 0
  {
    forall i | 0 <= i < |db.ballots| ensures db.ballots[i].sequenceNumber > 0 {
      assert BallotOk(p, db.candidates, db.devices, db.sessions, db.ballots[i]);
    }
    LastNumberIsMaximum(db.ballots, db.devices[k].id);
  }

  /** What VoteChecks has established when it lets a vote through. */
  ghost predicate VoteGranted(db: Database, i: nat, k: nat, c: string, d: string, n: int, id: string) {
    && i < |db.sessions| && k < |db.devices|
    && db.sessions[i].status == Authorized
    && db.sessions[i].electionId in db.elections
    && db.elections[db.sessions[i].electionId].state == Open
    && db.sessions[i].deviceId == d && db.devices[k].id == d && db.devices[k].status == Active
    && n > db.devices[k].lastSequenceNumber
    && BallotIdFree(db, id)
    && HasCandidate(db.candidates, c, db.sessions[i].electionId)
  }

  lemma VoteTables(p: Primitives, db: Database, i: nat, k: nat, b: Ballot)
    requires TablesOk(p, db) && i < |db.sessions| && k < |db.devices|
    requires db.sessions[i].status == Authorized && db.sessions[i].electionId in db.elections
    requires b.sessionId == db.sessions[i].id && b.electionId == db.sessions[i].electionId
    requires b.deviceId == db.devices[k].id && b.sequenceNumber > db.devices[k].lastSequenceNumber
    requires BallotIdFree(db, b.id)
    requires BallotOk(p, db.candidates, db.devices, db.sessions[i := db.sessions[i].(status := Voted)], b)
    ensures var db' := RecordVote(db, i, k, b);
            && SessionsOk(db'.elections.Keys, db'.devices, db'.sessions)
            && DevicesOk(db'.elections.Keys, db'.devices)
            && BallotsOk(p, db'.candidates, db'.devices, db'.sessions, db'.ballots)
  {
    hide CandidatesOk, DevicesOk, SessionsOk, BallotsOk, VotesKept, DeviceCountersOk, ElectionTotalsOk,
         ConfigurationsOk, SessionsCover, DevicesCover, CandidatesCover, BallotOk;
    var keys := db.elections.Keys;
    var ss := db.sessions[i := db.sessions[i].(status := Voted)];
    var x := db.devices[k].(lastSequenceNumber := b.sequenceNumber, totalVotesCast := db.devices[k].totalVotesCast + 1);
    var ds := db.devices[k := x];
    assert RecordVote(db, i, k, b).elections.Keys == keys;
    MarkVoted(keys, db.devices, db.sessions, i);
    AuthorizedHasNoBallot(p, db.candidates, db.devices, db.sessions, db.ballots, keys, i);
    DeviceCounterNonNegative(p, db, k);
    BallotsStayOk(p, db.candidates, db.devices, db.sessions, db.candidates, db.devices, ss, db.ballots);
    AppendBallot(p, db.candidates, db.devices, ss, db.ballots, b);
    ReplaceDevice(keys, db.devices, k, x);
    SessionsStayOk(keys, db.devices, ds, ss);
    SameSessionsCover(ss);
    SameCandidatesCover(db.candidates);
    BallotsStayOk(p, db.candidates, db.devices, ss, db.candidates, ds, ss, db.ballots + [b]);
  }

  lemma SameSessionsCover(ss: seq<Session>)
    ensures SessionsCover(ss, ss)
  {
  }

  lemma SameCandidatesCover(cs: seq<Candidate>)
    ensures CandidatesCover(cs, cs)
  {
  }

  lemma VoteKeepsTables(p: Primitives, db: Database, i: nat, k: nat, c: string, d: string, n: int, id: string,
                        now: DateTime)
    requires TablesOk(p, db) && VoteGranted(db, i, k, c, d, n, id)
    ensures TablesOk(p, RecordVote(db, i, k, NewBallot(p, db.sessions[i], c, d, n, id, now)))
  {
    hide CandidatesOk, DevicesOk, SessionsOk, BallotsOk, VotesKept, DeviceCountersOk, ElectionTotalsOk,
         ConfigurationsOk;
    var b := NewBallot(p, db.sessions[i], c, d, n, id, now);
    var db' := RecordVote(db, i, k, b);
    NewBallotOk(p, db, i, k, c, d, n, id, now);
    VoteTables(p, db, i, k, b);
    assert db'.elections.Keys == db.elections.Keys;
    VotesKeptAfterVote(db.sessions, db.ballots, i, b);
    CountersAfterVote(db.elections.Keys, db.devices, db.ballots, k, b);
    TotalsAfterVote(db.elections, db.sessions, db.ballots, i, b);
    ConfigurationsIgnoreTotals(p, db.elections, db.candidates, b.electionId,
                               db.elections[b.electionId].totalBallots + 1);
  }
}
