/** When candidates configure an election: with the second one, neither before nor after. */
module Configuring {
  import opened Prelude
  import opened Records
  import opened Hashing
  import opened Transactions
  import opened Frames
  import opened Invariants
  import opened Runs
  import opened Lifecycle
  import opened Effects

  /** For any tables: a granted addition leaves the election CONFIGURED with two candidates, CREATED with fewer. */
  lemma AdditionConfigures(p: Primitives, db: Database, r: Request)
    requires r.command.AddCandidates? && Serve(p, db, r).Accepted?
    ensures var db', e := Step(p, db, r), r.command.electionId;
            && e in db.elections && db.elections[e].state == Created
            && e in db'.elections
            && |CandidatesOf(db', e)| == |CandidatesOf(db, e)| + |r.command.batch|
            && db'.elections[e].state == if |CandidatesOf(db', e)| >= 2 then Configured else Created
  {
    AddEffect(p, db, r);
    hide EntryAdded, LogEvent, FreshBatch, IdsUnused, Filter;
    OwnAdded(db.candidates, r.command.electionId, r.command.batch);
    assert Step(p, db, r).candidates == db.candidates + NewRows(r.command.electionId, r.command.batch);
  }

  /** An election that is still CREATED has fewer than two candidates. */
  ghost predicate FewWhileCreated(db: Database, e: string) {
    e in db.elections && db.elections[e].state == Created ==> |CandidatesOf(db, e)| < 2
  }

  lemma NoneBefore(p: Primitives, db: Database, e: string)
    requires TablesOk(p, db) && e !in db.elections
    ensures CandidatesOf(db, e) == []
  {
    hide DevicesOk, SessionsOk, BallotsOk, VotesKept, DeviceCountersOk, ElectionTotalsOk, ConfigurationsOk;
    FilterNone(CandidateIn(e), db.candidates);
  }

  lemma StepKeepsFew(p: Primitives, db: Database, r: Request, e: string)
    requires Inv(p, db) && FewWhileCreated(db, e)
    ensures FewWhileCreated(Step(p, db, r), e)
  {
    hide Inv, TablesOk, Step, Serve, CandidatesOf;
    InvTables(p, db);
    var db' := Step(p, db, r);
    if r.command.AddCandidates? && r.command.electionId == e {
      Refused(p, db, r);
      if Serve(p, db, r).Accepted? {
        AdditionConfigures(p, db, r);
      }
    } else {
      OtherCandidates(p, db, r, e);
      if e in db.elections {
        StepOnward(p, db, r, e);
      } else {
        NoneBefore(p, db, e);
      }
    }
  }

  lemma Refused(p: Primitives, db: Database, r: Request)
    ensures Serve(p, db, r).Rejected? ==> Step(p, db, r) == db
  {
    hide Serve;
  }

  /** Only an addition to e changes the candidates of e. */
  lemma OtherCandidates(p: Primitives, db: Database, r: Request, e: string)
    requires !(r.command.AddCandidates? && r.command.electionId == e)
    ensures CandidatesOf(Step(p, db, r), e) == CandidatesOf(db, e)
  {
    hide Step;
    if r.command.AddCandidates? {
      StepFrame(p, db, r);
      hide Logs, NewRows, Filter;
      OtherCandidatesStay(db.candidates, r.command.electionId, r.command.batch, e);
    } else {
      Untouched(p, db, r);
    }
  }

  /** In every reachable state an election that is still CREATED has fewer than two candidates. */
  lemma CreatedHasFew(p: Primitives, rs: seq<Request>, e: string)
    requires p.Sound() && e in Run(p, EMPTY, rs).elections && Run(p, EMPTY, rs).elections[e].state == Created
    ensures |CandidatesOf(Run(p, EMPTY, rs), e)| < 2
  {
    FewAlways(p, rs, e);
    hide Run, CandidatesOf;
  }

  lemma {:induction false} FewAlways(p: Primitives, rs: seq<Request>, e: string)
    requires p.Sound()
    ensures FewWhileCreated(Run(p, EMPTY, rs), e)
  {
    hide Step, Inv, CandidatesOf;
    if rs != [] {
      FewAlways(p, rs[..|rs| - 1], e);
      ReachableInv(p, rs[..|rs| - 1]);
      StepKeepsFew(p, Run(p, EMPTY, rs[..|rs| - 1]), rs[|rs| - 1], e);
    }
  }
}
