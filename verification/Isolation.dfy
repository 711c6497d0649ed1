/** Elections side by side: requests about other elections leave the rows of an election, and its export, alone. */
module Isolation {
  import opened Prelude
  import opened Records
  import opened Hashing
  import opened Export
  import opened Transactions
  import opened Frames
  import opened Invariants
  import opened Runs
  import opened Freeze

  /** A vote is about the election of the session that its token finds; every other request names its election. */
  predicate About(db: Database, c: Command, e: string) {
    match c
    case CastVote(token, _, _, _, _) =>
      var i := FindIndex(HasToken(token), db.sessions);
      i.Some? && db.sessions[i.value].electionId == e
    case _ => c.electionId == e
  }

  function SessionIn(e: string): Session -> bool {
    (s: Session) => s.electionId == e
  }

  /** All that the tables hold about one election. */
  datatype Part = Part(
    row: Option<Election>, candidates: seq<Candidate>, devices: seq<Device>, sessions: seq<Session>,
    ballots: seq<Ballot>, log: seq<AuditEntry>, manifest: Option<Manifest>)

  function PartOf(db: Database, e: string): Part {
    Part(if e in db.elections then Some(db.elections[e]) else None, CandidatesOf(db, e), DevicesOf(db, e),
         Filter(SessionIn(e), db.sessions), BallotsOf(db, e), LogOf(db, e), ManifestOf(db, e))
  }

  /** The election's rows are the same. */
  predicate SameView(a: Database, b: Database, e: string) {
    e in a.elections && e in b.elections && ViewOf(a, e) == ViewOf(b, e)
  }

  lemma SamePartSameView(a: Database, b: Database, e: string)
    requires PartOf(a, e) == PartOf(b, e) && e in a.elections
    ensures SameView(a, b, e)
  {
    hide Filter;
  }

  lemma FilterAt<T>(q: T -> bool, xs: seq<T>, k: nat, x: T)
    requires k < |xs|
    ensures Filter(q, xs) == Filter(q, xs[..k]) + ((if q(xs[k]) then [xs[k]] else []) + Filter(q, xs[k + 1..]))
    ensures Filter(q, xs[k := x]) == Filter(q, xs[..k]) + ((if q(x) then [x] else []) + Filter(q, xs[k + 1..]))
  {
    assert xs == xs[..k] + ([xs[k]] + xs[k + 1..]);
    assert xs[k := x] == xs[..k] + ([x] + xs[k + 1..]);
    FilterConcat(q, xs[..k], [xs[k]] + xs[k + 1..]);
    FilterConcat(q, [xs[k]], xs[k + 1..]);
    FilterConcat(q, xs[..k], [x] + xs[k + 1..]);
    FilterConcat(q, [x], xs[k + 1..]);
  }

  /** A rewritten row of another election is not seen. */
  lemma OtherRowInvisible<T>(q: T -> bool, xs: seq<T>, k: nat, x: T)
    requires k < |xs| && !q(xs[k]) && !q(x)
    ensures Filter(q, xs[k := x]) == Filter(q, xs)
  {
    FilterAt(q, xs, k, x);
  }

  // ---------- one request ----------

  /**
   * cast_vote looks its device up by ID alone. The rows a vote writes belong to the session's election all the same,
   * because a session is only ever authorized on a device of its election.
   */
  lemma RecordIsolated(p: Primitives, db: Database, i: nat, k: nat, b: Ballot, e: string)
    requires TablesOk(p, db)
    requires i < |db.sessions| && k < |db.devices| && db.sessions[i].electionId in db.elections
    requires db.sessions[i].deviceId == db.devices[k].id && b.electionId == db.sessions[i].electionId != e
    ensures PartOf(RecordVote(db, i, k, b), e) == PartOf(db, e)
  {
    hide TablesOk, Filter;
    var x := db.devices[k].(lastSequenceNumber := b.sequenceNumber, totalVotesCast := db.devices[k].totalVotesCast + 1);
    SessionDeviceElection(p, db, i, k);
    OtherRowInvisible(DeviceIn(e), db.devices, k, x);
    OtherRowInvisible(SessionIn(e), db.sessions, i, db.sessions[i].(status := Voted));
    FilterAppend(BallotIn(e), db.ballots, b);
  }

  lemma RowsIsolated(p: Primitives, db: Database, r: Request, w: Database, e: string)
    requires Writes(p, db, r, w) && !About(db, r.command, e)
    requires r.command.CreateElection? || r.command.AddCandidates? || r.command.ChangeState?
             || r.command.AuthorizeSession?
    ensures PartOf(w, e) == PartOf(db, e)
  {
    hide NewRows, ChangedRow, Filter;
    match r.command
    case AddCandidates(x, batch) => OtherCandidatesStay(db.candidates, x, batch, e);
    case AuthorizeSession(x, credential, d, sid, token) =>
      FilterAppend(SessionIn(e), db.sessions, Session(sid, x, d, token, credential, Authorized));
    case _ =>
  }

  lemma DevicesIsolated(p: Primitives, db: Database, r: Request, w: Database, e: string)
    requires Writes(p, db, r, w) && !About(db, r.command, e)
    requires r.command.RegisterDevice? || r.command.UpdateDeviceStatus?
    ensures PartOf(w, e) == PartOf(db, e)
  {
    hide Filter;
    match r.command
    case RegisterDevice(x, d, name) => FilterAppend(DeviceIn(e), db.devices, Device(d, x, name, Registered, 0, 0));
    case UpdateDeviceStatus(x, d, status) =>
      var i :| 0 <= i < |db.devices| && RewritesStatus(db, i, x, d, status, w);
      OtherRowInvisible(DeviceIn(e), db.devices, i, db.devices[i].(status := status));
  }

  lemma ManifestsIsolated(p: Primitives, db: Database, r: Request, w: Database, e: string)
    requires Writes(p, db, r, w) && !About(db, r.command, e)
    requires r.command.RunFullVerification? || r.command.SignManifest? || r.command.AnchorElectionRoot?
             || r.command.RejectCard?
    ensures PartOf(w, e) == PartOf(db, e)
  {
    hide Filter, ManifestFrom, VerifiedManifest, SignPayload, PayloadOf;
  }

  lemma VotesIsolated(p: Primitives, db: Database, r: Request, w: Database, e: string)
    requires TablesOk(p, db) && Writes(p, db, r, w) && !About(db, r.command, e) && r.command.CastVote?
    ensures PartOf(w, e) == PartOf(db, e) && LoggedIn(db, r.command) != e
  {
    hide TablesOk, VoteChecks, NewBallot, RecordVote, FindIndex, PartOf;
    var c := r.command;
    var (i, k) := VoteChecks(db, c.token, c.candidateId, c.deviceId, c.sequenceNumber, c.ballotId).value;
    VoteSession(db, c.token, c.candidateId, c.deviceId, c.sequenceNumber, c.ballotId);
    BallotElection(p, db.sessions[i], c.candidateId, c.deviceId, c.sequenceNumber, c.ballotId, r.now);
    RecordIsolated(p, db, i, k,
                   NewBallot(p, db.sessions[i], c.candidateId, c.deviceId, c.sequenceNumber, c.ballotId, r.now), e);
  }

  lemma WritesIsolated(p: Primitives, db: Database, r: Request, w: Database, e: string)
    requires TablesOk(p, db) && Writes(p, db, r, w) && !About(db, r.command, e)
    ensures PartOf(w, e) == PartOf(db, e) && LoggedIn(db, r.command) != e
  {
    hide TablesOk, Writes, PartOf, FindIndex;
    match r.command
    case RegisterDevice(_, _, _) => DevicesIsolated(p, db, r, w, e);
    case UpdateDeviceStatus(_, _, _) => DevicesIsolated(p, db, r, w, e);
    case CastVote(_, _, _, _, _) => VotesIsolated(p, db, r, w, e);
    case RunFullVerification(_) => ManifestsIsolated(p, db, r, w, e);
    case SignManifest(_, _) => ManifestsIsolated(p, db, r, w, e);
    case AnchorElectionRoot(_, _, _) => ManifestsIsolated(p, db, r, w, e);
    case RejectCard(_, _, _, _) => ManifestsIsolated(p, db, r, w, e);
    case _ => RowsIsolated(p, db, r, w, e);
  }

  lemma LogIsolated(a: Database, b: Database, x: string, vote: bool, e: string)
    requires Logs(a, b, x, vote) && x != e && PartOf(b.(audit := a.audit), e) == PartOf(a, e)
    ensures PartOf(b, e) == PartOf(a, e)
  {
    hide Filter;
  }

  /** No request about another election changes what the tables hold about e. */
  lemma StepIsolated(p: Primitives, db: Database, r: Request, e: string)
    requires Inv(p, db) && !About(db, r.command, e)
    ensures PartOf(Step(p, db, r), e) == PartOf(db, e)
  {
    InvTables(p, db);
    StepFrame(p, db, r);
    hide Inv, TablesOk, Step, Writes, Logs, PartOf, About, LoggedIn;
    var db' := Step(p, db, r);
    if db' != db {
      WritesIsolated(p, db, r, db'.(audit := db.audit), e);
      LogIsolated(db, db', LoggedIn(db, r.command), r.command.CastVote?, e);
    }
  }

  /** Every request of the run is about some other election when it is served. */
  ghost predicate NeverAbout(p: Primitives, db: Database, rs: seq<Request>, e: string) {
    forall i :: 0 <= i < |rs| ==> !About(Run(p, db, rs[..i]), rs[i].command, e)
  }

  lemma NeverAboutFront(p: Primitives, db: Database, rs: seq<Request>, e: string)
    requires NeverAbout(p, db, rs, e) && rs != []
    ensures NeverAbout(p, db, rs[..|rs| - 1], e)
  {
    hide Run, About;
    var front := rs[..|rs| - 1];
    forall i | 0 <= i < |front|
      ensures !About(Run(p, db, front[..i]), front[i].command, e)
    {
      assert front[..i] == rs[..i] && front[i] == rs[i];
    }
  }

  /**
   * Isolation. In whatever stage e is, no run of requests about other elections changes its row, candidates, devices,
   * ballots, log or manifest; so its archive stays the same, byte for byte.
   */
  lemma RunIsolated(p: Primitives, db: Database, rs: seq<Request>, e: string)
    requires p.Sound() && Inv(p, db) && e in db.elections && NeverAbout(p, db, rs, e)
    ensures SameView(db, Run(p, db, rs), e)
    ensures forall t :: ExportView(p, ViewOf(Run(p, db, rs), e), t) == ExportView(p, ViewOf(db, e), t)
  {
    hide Inv, Step, About, ViewOf, ExportView, PartOf;
    RunKeepsPart(p, db, rs, e);
    SamePartSameView(db, Run(p, db, rs), e);
  }

  lemma {:induction false} RunKeepsPart(p: Primitives, db: Database, rs: seq<Request>, e: string)
    requires p.Sound() && Inv(p, db) && NeverAbout(p, db, rs, e)
    ensures PartOf(Run(p, db, rs), e) == PartOf(db, e)
  {
    hide Inv, Step, About, PartOf;
    if rs != [] {
      var front, last := rs[..|rs| - 1], rs[|rs| - 1];
      NeverAboutFront(p, db, rs, e);
      RunKeepsPart(p, db, front, e);
      RunKeepsInv(p, db, front);
      StepIsolated(p, Run(p, db, front), last, e);
    }
  }
}
