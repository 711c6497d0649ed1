/** Elections only move forward: no state is left and entered again, and what a state fixes stays fixed. */
module Lifecycle {
  import opened Prelude
  import opened Records
  import opened Hashing
  import opened Transactions
  import opened Frames
  import opened Invariants
  import opened OneVote

  /** Voting may pause and resume; otherwise each state is a stage of its own. */
  function Stage(s: ElectionState): nat {
    match s
    case Created => 0
    case Configured => 1
    case Locked => 2
    case Open => 3
    case Suspended => 3
    case Closed => 4
    case Published => 5
  }

  function StageOf(db: Database, e: string): nat
    requires e in db.elections
  {
    Stage(db.elections[e].state)
  }

  /** Not back, candidates fixed from CONFIGURED on, configuration hash fixed from LOCKED on. */
  ghost predicate Onward(a: Database, b: Database, e: string)
    requires e in a.elections
  {
    && e in b.elections
    && StageOf(a, e) <= StageOf(b, e)
    && (StageOf(a, e) >= 1 ==> CandidatesOf(b, e) == CandidatesOf(a, e))
    && (StageOf(a, e) >= 2 ==> b.elections[e].configurationHash == a.elections[e].configurationHash)
  }

  ghost predicate OneStageAtMost(a: Database, b: Database, e: string)
    requires e in a.elections
  {
    Onward(a, b, e) && StageOf(b, e) <= StageOf(a, e) + 1
  }

  lemma OnwardSame(a: Database, b: Database, e: string)
    requires e in a.elections && a.candidates == b.candidates
    requires e in b.elections && b.elections[e].state == a.elections[e].state
    requires b.elections[e].configurationHash == a.elections[e].configurationHash
    ensures OneStageAtMost(a, b, e)
  {
  }

  lemma AddOnward(p: Primitives, db: Database, r: Request, e: string)
    requires e in db.elections && r.command.AddCandidates?
    ensures OneStageAtMost(db, Step(p, db, r), e)
  {
    StepFrame(p, db, r);
    hide Step, Logs, NewRows, Filter;
    if r.command.electionId != e {
      OtherCandidatesStay(db.candidates, r.command.electionId, r.command.batch, e);
    }
  }

  /** The other calls that write an election row: a new one, a change of state, a vote. */
  lemma RowsOnward(p: Primitives, db: Database, r: Request, e: string)
    requires e in db.elections
    requires r.command.CreateElection? || r.command.ChangeState? || r.command.CastVote?
    ensures OneStageAtMost(db, Step(p, db, r), e)
  {
    StepFrame(p, db, r);
    hide Step, Logs, ConfigurationHash, Filter, VoteChecks, NewBallot;
  }

  /** No request moves an election back or by more than one stage. */
  lemma StepOnward(p: Primitives, db: Database, r: Request, e: string)
    requires e in db.elections
    ensures OneStageAtMost(db, Step(p, db, r), e)
  {
    hide Step, OneStageAtMost;
    match r.command
    case AddCandidates(_, _) => AddOnward(p, db, r, e);
    case CreateElection(_, _) => RowsOnward(p, db, r, e);
    case ChangeState(_, _, _) => RowsOnward(p, db, r, e);
    case CastVote(_, _, _, _, _) => RowsOnward(p, db, r, e);
    case _ =>
      Untouched(p, db, r);
      OnwardSame(db, Step(p, db, r), e);
  }

  /** Over any run: an election never returns to an earlier stage, and what it has fixed stays. */
  lemma {:induction false} RunOnward(p: Primitives, db: Database, rs: seq<Request>, e: string)
    requires e in db.elections
    ensures Onward(db, Run(p, db, rs), e)
  {
    hide Step, CandidatesOf;
    if rs != [] {
      RunOnward(p, db, rs[..|rs| - 1], e);
      StepOnward(p, Run(p, db, rs[..|rs| - 1]), rs[|rs| - 1], e);
    }
  }

  /** Ballots exist only in elections that were opened. */
  ghost predicate BallotsAfterOpening(db: Database) {
    forall i :: 0 <= i < |db.ballots| ==>
      db.ballots[i].electionId in db.elections && StageOf(db, db.ballots[i].electionId) >= 3
  }

  lemma {:induction false} BallotsNeedOpening(p: Primitives, rs: seq<Request>)
    ensures BallotsAfterOpening(Run(p, EMPTY, rs))
  {
    hide Step, CandidatesOf, BallotJustified;
    if rs != [] {
      var db, r := Run(p, EMPTY, rs[..|rs| - 1]), rs[|rs| - 1];
      BallotsNeedOpening(p, rs[..|rs| - 1]);
      StepKeepsOpening(p, db, r);
    }
  }

  lemma StepKeepsOpening(p: Primitives, db: Database, r: Request)
    requires BallotsAfterOpening(db)
    ensures BallotsAfterOpening(Step(p, db, r))
  {
    hide Step, CandidatesOf;
    var db' := Step(p, db, r);
    OnlyJustifiedBallots(p, db, r);
    forall i | 0 <= i < |db'.ballots|
      ensures db'.ballots[i].electionId in db'.elections && StageOf(db', db'.ballots[i].electionId) >= 3
    {
      if i < |db.ballots| {
        assert db'.ballots[i] == db.ballots[i];
      }
      StepOnward(p, db, r, db'.ballots[i].electionId);
    }
  }
}
