/** When a stored manifest goes stale, over whole runs, and the exact verdict on every reachable export. */
module Staleness {
  import opened Prelude
  import opened Text
  import opened Grouping
  import opened Records
  import opened Hashing
  import opened AuditChain
  import opened Verifier
  import opened Export
  import opened Acceptance
  import opened Transactions
  import opened Invariants
  import opened Runs
  import opened OneVote
  import opened Lifecycle
  import opened Completeness

  // ---------- ballots are only added ----------

  lemma StepKeepsBallots(p: Primitives, db: Database, r: Request, e: string)
    ensures BallotsOf(db, e) <= BallotsOf(Step(p, db, r), e)
  {
    hide Step, BallotJustified;
    var db' := Step(p, db, r);
    OnlyJustifiedBallots(p, db, r);
    if db'.ballots != db.ballots {
      var b :| db'.ballots == db.ballots + [b] && BallotJustified(p, db, r, b);
      FilterAppend(BallotIn(e), db.ballots, b);
    }
  }

  /** The ballots of an earlier state are a prefix of those of any later one. */
  lemma {:induction false} RunKeepsBallots(p: Primitives, db: Database, rs: seq<Request>, e: string)
    ensures BallotsOf(db, e) <= BallotsOf(Run(p, db, rs), e)
  {
    hide Step, BallotsOf;
    if rs != [] {
      RunKeepsBallots(p, db, rs[..|rs| - 1], e);
      StepKeepsBallots(p, Run(p, db, rs[..|rs| - 1]), rs[|rs| - 1], e);
    }
  }

  // ---------- the age of a manifest ----------

  /** The position of the latest accepted verification of e. */
  ghost function LastVerification(p: Primitives, rs: seq<Request>, e: string): (r: Option<nat>)
    ensures r.Some? ==> r.value < |rs| && e in Run(p, EMPTY, rs[..r.value]).elections
  {
    if rs == [] then None
    else
      var n := |rs| - 1;
      if rs[n].command == RunFullVerification(e) && e in Run(p, EMPTY, rs[..n]).elections then Some(n)
      else
        var r := LastVerification(p, rs[..n], e);
        assert r.Some? ==> rs[..n][..r.value] == rs[..r.value];
        r
  }

  /** A manifest row states what was current at the latest verification, and without one there is no row. */
  ghost predicate ManifestDates(p: Primitives, rs: seq<Request>, e: string) {
    match LastVerification(p, rs, e)
    case None => e !in Run(p, EMPTY, rs).manifests
    case Some(i) =>
      && e in Run(p, EMPTY, rs).manifests
      && DataOf(Run(p, EMPTY, rs).manifests[e]) == CurrentManifest(ViewOf(Run(p, EMPTY, rs[..i]), e))
  }

  lemma VerificationWrites(p: Primitives, db: Database, r: Request, e: string)
    requires p.Sound() && Inv(p, db) && e in db.elections && r.command == RunFullVerification(e)
    ensures e in Step(p, db, r).manifests && DataOf(Step(p, db, r).manifests[e]) == CurrentManifest(ViewOf(db, e))
  {
    hide Inv, VerifiedManifest, CurrentManifest, NextEntry;
    VerifiedIsCurrent(p, db, e);
  }

  lemma OthersKeepData(p: Primitives, db: Database, r: Request, e: string)
    requires r.command != RunFullVerification(e) || e !in db.elections
    ensures e in Step(p, db, r).manifests <==> e in db.manifests
    ensures e in db.manifests ==> DataOf(Step(p, db, r).manifests[e]) == DataOf(db.manifests[e])
  {
    hide Step, VerifiedManifest;
    ManifestEvolves(p, db, r, e);
  }

  lemma {:induction false} ManifestAge(p: Primitives, rs: seq<Request>, e: string)
    requires p.Sound()
    ensures ManifestDates(p, rs, e)
  {
    hide Step, DataOf, CurrentManifest, Inv;
    if rs != [] {
      var n := |rs| - 1;
      var db := Run(p, EMPTY, rs[..n]);
      ManifestAge(p, rs[..n], e);
      ReachableInv(p, rs[..n]);
      if rs[n].command == RunFullVerification(e) && e in db.elections {
        VerificationWrites(p, db, rs[n], e);
      } else {
        OthersKeepData(p, db, rs[n], e);
        var i := LastVerification(p, rs[..n], e);
        assert i.Some? ==> rs[..n][..i.value] == rs[..i.value];
      }
    }
  }

  // ---------- staleness ----------

  /** Nothing that a manifest of e states has changed since db0, and db0 was past the lock. */
  ghost predicate NothingNew(db0: Database, db: Database, e: string) {
    && e in db0.elections && !BeforeLock(db0.elections[e].state)
    && BallotsOf(db, e) == BallotsOf(db0, e)
  }

  lemma HashFixedFromLock(a: Database, b: Database, e: string)
    requires e in a.elections && Onward(a, b, e) && !BeforeLock(a.elections[e].state)
    ensures e in b.elections && b.elections[e].configurationHash == a.elections[e].configurationHash
    ensures !BeforeLock(b.elections[e].state)
  {
  }

  lemma SameRowsSameManifest(p: Primitives, db0: Database, db: Database, e: string)
    requires Inv(p, db0) && Inv(p, db) && e in db0.elections && Onward(db0, db, e) && NothingNew(db0, db, e)
    ensures CurrentManifest(ViewOf(db, e)) == CurrentManifest(ViewOf(db0, e))
  {
    hide Inv, TablesOk, Onward, BallotsOf, GroupBy;
    HashFixedFromLock(db0, db, e);
    InvTables(p, db0);
    InvTables(p, db);
    ElectionIdIsKey(p, db0, e);
    ElectionIdIsKey(p, db, e);
  }

  lemma NothingNewIsCurrent(p: Primitives, db0: Database, db: Database, e: string, m: Manifest)
    requires p.Sound() && Inv(p, db0) && Inv(p, db) && e in db0.elections && Onward(db0, db, e)
    requires NothingNew(db0, db, e) && DataOf(m) == CurrentManifest(ViewOf(db0, e))
    ensures e in db.elections && ManifestCurrent(p, ViewOf(db, e), m)
  {
    HashFixedFromLock(db0, db, e);
    hide Inv, TablesOk, Onward, NothingNew, CurrentManifest, ConfigurationCurrent, ManifestCurrent, RowsGood, DataOf;
    InvTables(p, db);
    ViewConfiguration(p, db, e);
    SameRowsSameManifest(p, db0, db, e);
    ViewRowsGood(p, db, e);
    GeneratedManifestIsCurrent(p, ViewOf(db, e), m);
  }

  /** A current manifest states the number of ballots and a configuration hash. */
  lemma CurrentStates(p: Primitives, v: View, m: Manifest)
    requires p.Sound() && ManifestCurrent(p, v, m)
    ensures m.totalBallots == |v.ballots| && m.configurationHash != ""
  {
    hide StatesCounts;
    assert IsHex(ConfigurationHash(p, v.election.id, Map(InfoOf(), v.candidates)));
  }

  lemma CurrentIsNothingNew(p: Primitives, db0: Database, db: Database, e: string, m: Manifest)
    requires p.Sound() && Inv(p, db0) && e in db0.elections && e in db.elections
    requires BallotsOf(db0, e) <= BallotsOf(db, e) && DataOf(m) == CurrentManifest(ViewOf(db0, e))
    requires ManifestCurrent(p, ViewOf(db, e), m)
    ensures NothingNew(db0, db, e)
  {
    CurrentStates(p, ViewOf(db, e), m);
    hide Inv, TablesOk, ManifestCurrent, ConfigurationCurrent, GroupBy, BallotsOf;
    InvTables(p, db0);
    ViewConfiguration(p, db0, e);
    assert |BallotsOf(db, e)| == |BallotsOf(db0, e)|;
  }

  /**
   * A manifest that stated the rows of an earlier state is up to date now if and only if the election was past the
   * lock then and no ballot was recorded since.
   */
  lemma ManifestCurrentExactly(p: Primitives, db0: Database, db: Database, e: string, m: Manifest)
    requires p.Sound() && Inv(p, db0) && Inv(p, db) && e in db0.elections && Onward(db0, db, e)
    requires BallotsOf(db0, e) <= BallotsOf(db, e) && DataOf(m) == CurrentManifest(ViewOf(db0, e))
    ensures e in db.elections
    ensures ManifestCurrent(p, ViewOf(db, e), m) <==> NothingNew(db0, db, e)
  {
    assert e in db.elections;
    hide Inv, Onward, NothingNew, ManifestCurrent, BallotsOf, DataOf, CurrentManifest;
    if NothingNew(db0, db, e) {
      NothingNewIsCurrent(p, db0, db, e, m);
    }
    if ManifestCurrent(p, ViewOf(db, e), m) {
      CurrentIsNothingNew(p, db0, db, e, m);
    }
  }

  // ---------- the exact verdict ----------

  /** No verification yet, or nothing new since the latest one. */
  ghost predicate Fresh(p: Primitives, rs: seq<Request>, e: string) {
    match LastVerification(p, rs, e)
    case None => true
    case Some(i) => NothingNew(Run(p, EMPTY, rs[..i]), Run(p, EMPTY, rs), e)
  }

  /** A run up to position i and from there on. */
  lemma RunFrom(p: Primitives, rs: seq<Request>, i: nat, e: string)
    requires i <= |rs| && e in Run(p, EMPTY, rs[..i]).elections
    ensures Onward(Run(p, EMPTY, rs[..i]), Run(p, EMPTY, rs), e)
    ensures BallotsOf(Run(p, EMPTY, rs[..i]), e) <= BallotsOf(Run(p, EMPTY, rs), e)
  {
    hide Step, Onward, BallotsOf;
    assert rs[..i] + rs[i..] == rs;
    RunConcat(p, EMPTY, rs[..i], rs[i..]);
    RunOnward(p, Run(p, EMPTY, rs[..i]), rs[i..], e);
    RunKeepsBallots(p, Run(p, EMPTY, rs[..i]), rs[i..], e);
  }

  /** A stored manifest is up to date if and only if nothing is new since the verification that wrote it. */
  lemma ManifestFreshness(p: Primitives, rs: seq<Request>, e: string)
    requires p.Sound() && e in Run(p, EMPTY, rs).elections
    ensures var db := Run(p, EMPTY, rs);
            && (e in db.manifests <==> LastVerification(p, rs, e).Some?)
            && (e in db.manifests ==> (ManifestCurrent(p, ViewOf(db, e), db.manifests[e]) <==> Fresh(p, rs, e)))
  {
    hide Run, Inv, ManifestCurrent, Onward, BallotsOf, CurrentManifest, DataOf, NothingNew;
    ManifestAge(p, rs, e);
    ReachableInv(p, rs);
    var last := LastVerification(p, rs, e);
    if last.Some? {
      ReachableInv(p, rs[..last.value]);
      RunFrom(p, rs, last.value, e);
      ManifestCurrentExactly(p, Run(p, EMPTY, rs[..last.value]), Run(p, EMPTY, rs), e, Run(p, EMPTY, rs).manifests[e]);
    }
  }

  /** Only the key that signed accepts the stored signature. */
  ghost predicate SignatureExclusive(p: Primitives, db: Database, e: string) {
    e in db.manifests && db.manifests[e].digitalSignature.Some? ==>
      var s := db.manifests[e].digitalSignature.value;
      forall k :: p.verify(k, s.payload, s.signature) ==> k == s.publicKey
  }

  /** The stored manifest hash belongs to no other data that the verifier may rebuild from the export. */
  ghost predicate ManifestCollisionFree(p: Primitives, db: Database, e: string, exportedAt: string) {
    e in db.elections && e in db.manifests ==>
      NoManifestCollision(p, DataOf(db.manifests[e]),
                          RebuiltManifest(p, ExportBody(ViewOf(db, e), exportedAt), db.manifests[e]))
  }

  /** The signature on the manifest, if any, is over its hash and by the expected key. */
  predicate SignatureGood(db: Database, e: string, key: Option<string>) {
    e in db.manifests ==> SignatureFits(db.manifests[e]) && KeyMatches(db.manifests[e], key)
  }

  lemma StoredManifestKept(p: Primitives, db: Database, e: string, exportedAt: string)
    requires Inv(p, db) && e in db.elections && e in db.manifests
    requires SignatureExclusive(p, db, e) && ManifestCollisionFree(p, db, e, exportedAt)
    ensures ManifestKept(p, ViewOf(db, e), db.manifests[e], exportedAt)
  {
    hide Inv, TablesOk, RebuiltManifest, ExportBody, DataOf, ManifestHash;
    StoredManifestOk(p, db, e);
    InvTables(p, db);
    ElectionIdIsKey(p, db, e);
  }

  /**
   * Acceptance in every reachable state, exactly. The export of e is accepted if and only if e is past the lock; it was
   * never verified, or it was past the lock at the latest verification and no ballot was recorded since; its
   * signature, if any, is over the stored manifest hash and by the expected key; and the receipt, if any, is for a hash
   * in the log.
   */
  lemma ReachableExportVerdict(p: Primitives, rs: seq<Request>, e: string, exportedAt: string,
                               key: Option<string>, receipt: Option<AnchorReceipt>)
    requires p.Sound() && e in Run(p, EMPTY, rs).elections
    requires SignatureExclusive(p, Run(p, EMPTY, rs), e) && ManifestCollisionFree(p, Run(p, EMPTY, rs), e, exportedAt)
    ensures var db := Run(p, EMPTY, rs);
            ReportOf(p, ExportView(p, ViewOf(db, e), exportedAt), key, receipt).valid <==>
              && !BeforeLock(db.elections[e].state)
              && Fresh(p, rs, e)
              && SignatureGood(db, e, key)
              && ReceiptKnown(LogOf(db, e), receipt)
  {
    hide Run, Inv, TablesOk, Fresh, ReportOf, ExportView, RowsGood, ConfigurationCurrent, ManifestCurrent, ManifestKept,
         SignatureFits, KeyMatches, ReceiptKnown, SignatureExclusive, ManifestCollisionFree, LogOf;
    var db := Run(p, EMPTY, rs);
    ReachableInv(p, rs);
    InvTables(p, db);
    ViewRowsGood(p, db, e);
    ViewConfiguration(p, db, e);
    ManifestFreshness(p, rs, e);
    NeverVerifiedIsFresh(p, rs, e);
    if e in db.manifests {
      StoredManifestKept(p, db, e, exportedAt);
    }
    AcceptedExactlyWhen(p, ViewOf(db, e), exportedAt, key, receipt);
  }

  lemma NeverVerifiedIsFresh(p: Primitives, rs: seq<Request>, e: string)
    ensures LastVerification(p, rs, e).None? ==> Fresh(p, rs, e)
  {
    hide LastVerification, NothingNew;
  }
}
