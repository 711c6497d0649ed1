/** Identifiers without the field separator stay so from the requests to the ballot rows. */
module Identifiers {
  import opened Text
  import opened Records
  import opened Hashing
  import opened Transactions
  import opened Frames
  import opened Invariants
  import opened OneVote

  /**
   * The identifiers a request brings in hold no separator. The request schemas fix their shapes (EV-, EVM- and C with
   * digits), and session IDs are generated UUIDs. Names, credentials and tokens may hold anything.
   */
  ghost predicate PlainRequest(c: Command) {
    match c
    case CreateElection(e, _) => PipeFree(e)
    case AuthorizeSession(_, _, _, sid, _) => PipeFree(sid)
    case CastVote(_, c, d, _, _) => PipeFree(c) && PipeFree(d)
    case _ => true
  }

  ghost predicate PlainRequests(rs: seq<Request>) {
    forall i :: 0 <= i < |rs| ==> PlainRequest(rs[i].command)
  }

  ghost predicate PlainElections(db: Database) {
    forall e :: e in db.elections ==> PipeFree(e)
  }

  ghost predicate PlainSessions(sessions: seq<Session>) {
    forall i :: 0 <= i < |sessions| ==> PipeFree(sessions[i].id)
  }

  predicate PlainBallot(b: Ballot) {
    PipeFree(b.electionId) && PipeFree(b.sessionId) && PipeFree(b.candidateId) && PipeFree(b.deviceId)
  }

  /** The identifiers hold no field separator. */
  ghost predicate PlainBallots(bs: seq<Ballot>) {
    forall i :: 0 <= i < |bs| ==> PlainBallot(bs[i])
  }

  ghost predicate PlainTables(db: Database) {
    PlainElections(db) && PlainSessions(db.sessions) && PlainBallots(db.ballots)
  }

  // ---------- one request ----------

  /** The calls that bring in an election or a session, and the vote, which rewrites them. */
  lemma WritersPlain(p: Primitives, db: Database, r: Request)
    requires PlainRequest(r.command) && PlainElections(db) && PlainSessions(db.sessions)
    requires r.command.CreateElection? || r.command.AuthorizeSession? || r.command.CastVote?
    ensures PlainElections(Step(p, db, r)) && PlainSessions(Step(p, db, r).sessions)
  {
    StepFrame(p, db, r);
    hide Step, Logs, PipeFree, VoteChecks, NewBallot;
  }

  lemma SameElectionsPlain(p: Primitives, db: Database, r: Request)
    requires PlainElections(db) && (r.command.AddCandidates? || r.command.ChangeState?)
    ensures PlainElections(Step(p, db, r)) && Step(p, db, r).sessions == db.sessions
  {
    StepFrame(p, db, r);
    hide Step, Logs, PipeFree, NewRows, ChangedRow;
  }

  lemma SourcesPlain(p: Primitives, db: Database, r: Request)
    requires PlainRequest(r.command) && PlainElections(db) && PlainSessions(db.sessions)
    ensures PlainElections(Step(p, db, r)) && PlainSessions(Step(p, db, r).sessions)
  {
    hide Step, PipeFree, PlainRequest, PlainSessions;
    match r.command
    case CreateElection(_, _) => WritersPlain(p, db, r);
    case AuthorizeSession(_, _, _, _, _) => WritersPlain(p, db, r);
    case CastVote(_, _, _, _, _) => WritersPlain(p, db, r);
    case AddCandidates(_, _) => SameElectionsPlain(p, db, r);
    case ChangeState(_, _, _) => SameElectionsPlain(p, db, r);
    case _ => Untouched(p, db, r);
  }

  /** A justified ballot takes its election and its session from the rows, the rest from the request. */
  lemma JustifiedPlain(p: Primitives, db: Database, r: Request, b: Ballot)
    requires BallotJustified(p, db, r, b) && PlainRequest(r.command) && PlainElections(db) && PlainSessions(db.sessions)
    ensures PlainBallot(b)
  {
    hide PipeFree, HasCandidate, BallotIdFree, BallotHash;
  }

  lemma StepKeepsPlain(p: Primitives, db: Database, r: Request)
    requires PlainRequest(r.command) && PlainTables(db)
    ensures PlainTables(Step(p, db, r))
  {
    hide Step, PlainRequest, PlainElections, PlainSessions, PlainBallot, BallotJustified;
    SourcesPlain(p, db, r);
    OnlyJustifiedBallots(p, db, r);
    if Step(p, db, r).ballots != db.ballots {
      var b :| Step(p, db, r).ballots == db.ballots + [b] && BallotJustified(p, db, r, b);
      JustifiedPlain(p, db, r, b);
    }
  }

  lemma {:induction false} RunKeepsPlain(p: Primitives, rs: seq<Request>)
    requires PlainRequests(rs)
    ensures PlainTables(Run(p, EMPTY, rs))
  {
    hide Step, PlainRequest;
    if rs != [] {
      RunKeepsPlain(p, rs[..|rs| - 1]);
      StepKeepsPlain(p, Run(p, EMPTY, rs[..|rs| - 1]), rs[|rs| - 1]);
    }
  }

  /** In every state that separator-free requests reach, the ballots hold no separator in their identifiers. */
  lemma ReachableBallotsPlain(p: Primitives, rs: seq<Request>, e: string)
    requires PlainRequests(rs)
    ensures PlainBallots(BallotsOf(Run(p, EMPTY, rs), e))
  {
    hide Run, PlainRequests, PlainBallot;
    RunKeepsPlain(p, rs);
    var all, own := Run(p, EMPTY, rs).ballots, BallotsOf(Run(p, EMPTY, rs), e);
    forall i | 0 <= i < |own|
      ensures PlainBallot(own[i])
    {
      var k :| 0 <= k < |all| && all[k] == own[i];
    }
  }
}
