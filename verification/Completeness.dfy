/** The two sides together: which exports of which runs the standalone verifier accepts. */
module Completeness {
  import opened Prelude
  import opened Records
  import opened Hashing
  import opened AuditChain
  import opened Verifier
  import opened VerifierFacts
  import opened Export
  import opened Acceptance
  import opened Transactions
  import opened Frames
  import opened Invariants
  import opened Runs
  import opened OneVote
  import opened Freeze
  import opened Lifecycle

  // ---------- rows of a reachable state ----------

  lemma CandidateInView(db: Database, c: string, e: string)
    requires HasCandidate(db.candidates, c, e)
    ensures exists x :: 0 <= x < |CandidatesOf(db, e)| && CandidatesOf(db, e)[x].info.id == c
  {
    var i :| 0 <= i < |db.candidates| && db.candidates[i].info.id == c && db.candidates[i].electionId == e;
    FilterKeeps(CandidateIn(e), db.candidates, i);
    var x :| 0 <= x < |CandidatesOf(db, e)| && CandidatesOf(db, e)[x] == db.candidates[i];
  }

  lemma DeviceInView(db: Database, d: string, e: string)
    requires HasDevice(db.devices, d, e)
    ensures exists x :: 0 <= x < |DevicesOf(db, e)| && DevicesOf(db, e)[x].id == d
  {
    var i :| 0 <= i < |db.devices| && db.devices[i].id == d && db.devices[i].electionId == e;
    FilterKeeps(DeviceIn(e), db.devices, i);
    var x :| 0 <= x < |DevicesOf(db, e)| && DevicesOf(db, e)[x] == db.devices[i];
  }

  lemma ViewBallotsGood(p: Primitives, db: Database, e: string)
    requires TablesOk(p, db) && e in db.elections
    ensures forall b :: b in BallotsOf(db, e) ==> BallotRowGood(p, ViewOf(db, e), b)
  {
    hide CandidatesOk, DevicesOk, SessionsOk, VotesKept, DeviceCountersOk, ElectionTotalsOk, ConfigurationsOk;
    ElectionIdIsKey(p, db, e);
    forall b | b in BallotsOf(db, e) ensures BallotRowGood(p, ViewOf(db, e), b) {
      assert BallotIn(e)(b) && b in db.ballots;
      assert BallotOk(p, db.candidates, db.devices, db.sessions, b);
      CandidateInView(db, b.candidateId, e);
      DeviceInView(db, b.deviceId, e);
    }
  }

  lemma ViewReplayFree(p: Primitives, db: Database, e: string)
    requires TablesOk(p, db)
    ensures ReplayFree(BallotsOf(db, e))
  {
    hide TablesOk;
    BallotsReplayFree(p, db);
    var bs := BallotsOf(db, e);
    assert Pairwise(NoReplayPair, db.ballots);
    FilterPairwise(BallotIn(e), NoReplayPair, db.ballots);
    assert forall i, j :: 0 <= i < j < |bs| ==> NoReplayPair(bs[i], bs[j]);
    forall i | 0 <= i < |bs| ensures bs[i].sequenceNumber > 0 {
      var k :| 0 <= k < |db.ballots| && db.ballots[k] == bs[i];
    }
  }

  /** The rows of every election in every reachable state are well kept. */
  lemma ViewRowsGood(p: Primitives, db: Database, e: string)
    requires Inv(p, db) && e in db.elections
    ensures RowsGood(p, ViewOf(db, e))
  {
    hide TablesOk, BallotRowGood, ReplayFree, ManifestsOk, AnchorsOk;
    ViewBallotsGood(p, db, e);
    ViewReplayFree(p, db, e);
    assert LogOk(p, LogOf(db, e));
  }

  lemma ViewConfiguration(p: Primitives, db: Database, e: string)
    requires TablesOk(p, db) && e in db.elections
    ensures ConfigurationCurrent(p, ViewOf(db, e)) <==> !BeforeLock(db.elections[e].state)
    ensures db.elections[e].configurationHash.Some? <==> !BeforeLock(db.elections[e].state)
  {
    hide CandidatesOk, DevicesOk, SessionsOk, BallotsOk, VotesKept, DeviceCountersOk, ElectionTotalsOk,
         ConfigurationHash;
  }

  /** Acceptance in terms of the stored hashes. */
  lemma DatabaseExportVerdict(p: Primitives, db: Database, e: string, exportedAt: string,
                              key: Option<string>, receipt: Option<AnchorReceipt>)
    requires p.Sound() && Inv(p, db) && e in db.elections
    ensures var v := ViewOf(db, e);
            ReportOf(p, ExportView(p, v, exportedAt), key, receipt).valid <==>
              && !BeforeLock(db.elections[e].state)
              && ManifestHashCurrent(p, v)
              && SignatureCurrent(p, v, key)
              && ReceiptKnown(v.log, receipt)
  {
    hide Inv, TablesOk, RowsGood, ConfigurationCurrent, ManifestHashCurrent, SignatureCurrent, ReceiptKnown, ReportOf,
         ExportView;
    InvTables(p, db);
    ViewRowsGood(p, db, e);
    ViewConfiguration(p, db, e);
    AcceptedByHashes(p, ViewOf(db, e), exportedAt, key, receipt);
  }

  // ---------- sealed elections ----------

  /** Closed, verified since, and not signed over anything else. */
  ghost predicate Sealed(p: Primitives, db: Database, e: string) {
    && IsClosed(db, e)
    && e in db.manifests
    && DataOf(db.manifests[e]) == CurrentManifest(ViewOf(db, e))
    && SignatureFits(db.manifests[e])
  }

  /** The three ways a manifest row can move. */
  lemma ManifestEvolves(p: Primitives, db: Database, r: Request, e: string)
    ensures var db' := Step(p, db, r);
            || ManifestOf(db', e) == ManifestOf(db, e)
            || (r.command == RunFullVerification(e) && e in db.elections
                && ManifestOf(db', e) == Some(ManifestFrom(p, VerifiedManifest(p, db, e), ManifestOf(db, e))))
            || (r.command.SignManifest? && r.command.electionId == e && r.command.key.Some? && e in db.manifests
                && IsClosed(db, e)
                && ManifestOf(db', e) == Some(db.manifests[e].(digitalSignature := Some(
                     SignPayload(p, r.command.key.value, PayloadOf(db.manifests[e], e, Root(LogOf(db, e))))))))
  {
    StepFrame(p, db, r);
    hide Step, Logs, NewRows, ChangedRow, ManifestFrom, VerifiedManifest, SignPayload, PayloadOf, VoteChecks, NewBallot;
  }

  ghost predicate SignedOnlyClosed(db: Database, e: string) {
    e in db.manifests && db.manifests[e].digitalSignature.Some? ==> IsClosed(db, e)
  }

  lemma StepSignsOnlyClosed(p: Primitives, db: Database, r: Request, e: string)
    requires SignedOnlyClosed(db, e)
    ensures SignedOnlyClosed(Step(p, db, r), e)
  {
    hide Step, VerifiedManifest, CandidatesOf;
    ManifestEvolves(p, db, r, e);
    if IsClosed(db, e) {
      StepOnward(p, db, r, e);
    }
  }

  /** In every reachable state only closed elections carry a signature. */
  lemma {:induction false} SignedMeansClosed(p: Primitives, rs: seq<Request>, e: string)
    ensures SignedOnlyClosed(Run(p, EMPTY, rs), e)
  {
    hide Step;
    if rs != [] {
      SignedMeansClosed(p, rs[..|rs| - 1], e);
      StepSignsOnlyClosed(p, Run(p, EMPTY, rs[..|rs| - 1]), rs[|rs| - 1], e);
    }
  }

  lemma StepKeepsSealed(p: Primitives, db: Database, r: Request, e: string)
    requires p.Sound() && Inv(p, db) && Sealed(p, db, e)
    ensures Sealed(p, Step(p, db, r), e)
  {
    hide Inv, Step, CurrentManifest, VerifiedManifest, IsClosed;
    var db' := Step(p, db, r);
    assert Run(p, db, [r]) == db' by {
      assert [r][..0] == [];
      assert Run(p, db, []) == db;
    }
    ManifestFrozen(p, db, [r], e);
    ManifestEvolves(p, db, r, e);
    VerifiedIsCurrent(p, db, e) by { ClosedExists(db, e); }
    StoredManifestOk(p, db, e);
  }

  lemma ClosedExists(db: Database, e: string)
    requires IsClosed(db, e)
    ensures e in db.elections
  {
  }

  lemma {:induction false} RunKeepsSealed(p: Primitives, db: Database, rs: seq<Request>, e: string)
    requires p.Sound() && Inv(p, db) && Sealed(p, db, e)
    ensures Sealed(p, Run(p, db, rs), e)
  {
    hide Inv, Step, Sealed;
    if rs != [] {
      RunKeepsSealed(p, db, rs[..|rs| - 1], e);
      RunKeepsInv(p, db, rs[..|rs| - 1]);
      StepKeepsSealed(p, Run(p, db, rs[..|rs| - 1]), rs[|rs| - 1], e);
    }
  }

  /** The stored signature, if any, is over the manifest hash the current rows give. */
  predicate SignedNothingElse(p: Primitives, db: Database, e: string)
    requires e in db.elections
  {
    e in db.manifests && db.manifests[e].digitalSignature.Some? ==>
      db.manifests[e].digitalSignature.value.payload.manifestHash == ManifestHash(p, CurrentManifest(ViewOf(db, e)))
  }

  /** A verification of a closed election seals it exactly when no stale signature is left on the manifest. */
  lemma VerificationSeals(p: Primitives, db: Database, r: Request, e: string)
    requires p.Sound() && Inv(p, db) && IsClosed(db, e) && r.command == RunFullVerification(e)
    ensures Sealed(p, Step(p, db, r), e) <==> SignedNothingElse(p, db, e)
    ensures Step(p, db, r) == DoRunFullVerification(p, db, e, r.actor, r.now).db
    ensures e in Step(p, db, r).manifests
    ensures DataOf(Step(p, db, r).manifests[e]) == CurrentManifest(ViewOf(Step(p, db, r), e))
    ensures CurrentManifest(ViewOf(Step(p, db, r), e)) == CurrentManifest(ViewOf(db, e))
  {
    hide Inv, CurrentManifest, VerifiedManifest, NextEntry;
    var db' := Step(p, db, r);
    assert Run(p, db, [r]) == db' by {
      assert [r][..0] == [];
      assert Run(p, db, []) == db;
    }
    ManifestFrozen(p, db, [r], e);
    VerifiedIsCurrent(p, db, e);
  }

  // ---------- acceptance of sealed elections ----------

  /** The verifier is given no key, or the key that signed. */
  predicate KeyFits(db: Database, e: string, key: Option<string>) {
    e in db.manifests ==> KeyMatches(db.manifests[e], key)
  }

  lemma SealedManifestCurrent(p: Primitives, db: Database, e: string)
    requires p.Sound() && Inv(p, db) && Sealed(p, db, e)
    ensures ManifestHashCurrent(p, ViewOf(db, e))
  {
    hide Inv, RowsGood, TablesOk, ManifestCurrent, CurrentManifest, ConfigurationCurrent, ManifestHashCurrent;
    InvTables(p, db);
    StoredManifestOk(p, db, e);
    ViewRowsGood(p, db, e);
    ViewConfiguration(p, db, e);
    GeneratedManifestIsCurrent(p, ViewOf(db, e), db.manifests[e]);
    CurrentManifestAccepted(p, ViewOf(db, e), db.manifests[e]);
  }

  lemma SealedSignatureCurrent(p: Primitives, db: Database, e: string, key: Option<string>)
    requires p.Sound() && Inv(p, db) && Sealed(p, db, e) && KeyFits(db, e, key)
    ensures SignatureCurrent(p, ViewOf(db, e), key)
  {
    hide Inv, CurrentManifest, TablesOk;
    StoredManifestOk(p, db, e);
    InvTables(p, db);
    ElectionIdIsKey(p, db, e);
  }

  lemma SealedAccepted(p: Primitives, db: Database, e: string, exportedAt: string,
                       key: Option<string>, receipt: Option<AnchorReceipt>)
    requires p.Sound() && Inv(p, db) && Sealed(p, db, e)
    requires KeyFits(db, e, key) && ReceiptKnown(LogOf(db, e), receipt)
    ensures var r := ReportOf(p, ExportView(p, ViewOf(db, e), exportedAt), key, receipt);
            r.valid && r.checks.All() && r.failures == []
  {
    hide Inv, ManifestHashCurrent, SignatureCurrent, ReceiptKnown, ReportOf, ExportView, KeyFits, CurrentManifest;
    SealedManifestCurrent(p, db, e);
    SealedSignatureCurrent(p, db, e, key);
    DatabaseExportVerdict(p, db, e, exportedAt, key, receipt);
    ValidMeansAllChecks(p, ExportView(p, ViewOf(db, e), exportedAt), key, receipt);
  }

  // ---------- receipts ----------

  /** A receipt handed out at any earlier point of the run is for a hash that still stands in the log. */
  lemma ReceiptStaysKnown(p: Primitives, a: seq<Request>, b: seq<Request>, e: string, anchorId: string)
    requires p.Sound() && e in Run(p, EMPTY, a).elections
    ensures ReceiptKnown(LogOf(Run(p, EMPTY, a + b), e), Some(ReceiptFor(p, Run(p, EMPTY, a), e, anchorId)))
  {
    hide Step, Inv, LogOf;
    var db, db' := Run(p, EMPTY, a), Run(p, EMPTY, a + b);
    ReachableInv(p, a);
    RunConcat(p, EMPTY, a, b);
    RunGrowsLog(p, db, b, e);
    RootStands(p, db, e);
    var i :| 0 <= i < |LogOf(db, e)| && LogOf(db, e)[i].entryHash == Root(LogOf(db, e));
    assert LogOf(db', e)[i] == LogOf(db, e)[i];
  }

  // ---------- end to end ----------

  /** No request of the run that would sign e is granted. */
  ghost predicate NeverSigned(p: Primitives, rs: seq<Request>, e: string) {
    forall i :: 0 <= i < |rs| && rs[i].command.SignManifest? && rs[i].command.electionId == e
      ==> Serve(p, Run(p, EMPTY, rs[..i]), rs[i]).Rejected?
  }

  lemma NeverSignedFront(p: Primitives, rs: seq<Request>, e: string)
    requires NeverSigned(p, rs, e) && rs != []
    ensures NeverSigned(p, rs[..|rs| - 1], e)
  {
    hide Serve, Run;
    var front := rs[..|rs| - 1];
    forall i | 0 <= i < |front| && front[i].command.SignManifest? && front[i].command.electionId == e
      ensures Serve(p, Run(p, EMPTY, front[..i]), front[i]).Rejected?
    {
      assert front[..i] == rs[..i] && front[i] == rs[i];
    }
  }

  lemma {:induction false} NoSigningNoSignature(p: Primitives, rs: seq<Request>, e: string)
    requires NeverSigned(p, rs, e)
    ensures e in Run(p, EMPTY, rs).manifests ==> Run(p, EMPTY, rs).manifests[e].digitalSignature == None
  {
    hide Serve, VerifiedManifest;
    if rs != [] {
      var front := rs[..|rs| - 1];
      NeverSignedFront(p, rs, e);
      NoSigningNoSignature(p, front, e);
      ManifestEvolves(p, Run(p, EMPTY, front), rs[|rs| - 1], e);
    }
  }

  /** No receipt, or one issued for e after some prefix of the run. */
  ghost predicate IssuedDuring(p: Primitives, rs: seq<Request>, e: string, receipt: Option<AnchorReceipt>) {
    receipt.Some? ==> exists n: nat, id: string ::
      && n <= |rs| && e in Run(p, EMPTY, rs[..n]).elections
      && receipt.value == ReceiptFor(p, Run(p, EMPTY, rs[..n]), e, id)
  }

  lemma IssuedIsKnown(p: Primitives, rs: seq<Request>, e: string, receipt: Option<AnchorReceipt>)
    requires p.Sound() && IssuedDuring(p, rs, e, receipt)
    ensures ReceiptKnown(LogOf(Run(p, EMPTY, rs), e), receipt)
  {
    hide Run, ReceiptFor, LogOf;
    if receipt.Some? {
      var n: nat, id: string :| n <= |rs| && e in Run(p, EMPTY, rs[..n]).elections
                                && receipt.value == ReceiptFor(p, Run(p, EMPTY, rs[..n]), e, id);
      ReceiptStaysKnown(p, rs[..n], rs[n..], e, id);
      assert rs[..n] + rs[n..] == rs;
    }
  }

  /**
   * End-to-end completeness. Take any run that verifies e after e was closed and in which no signing of e is granted
   * before that verification. Whatever requests follow, every later export of e is accepted: all twelve checks true
   * and no failure, without a key or with the signer's, without a receipt or with any receipt issued during the run.
   */
  lemma Completeness(p: Primitives, pre: seq<Request>, verification: Request, post: seq<Request>, e: string,
                     exportedAt: string, key: Option<string>, receipt: Option<AnchorReceipt>)
    requires p.Sound()
    requires IsClosed(Run(p, EMPTY, pre), e) && verification.command == RunFullVerification(e)
    requires NeverSigned(p, pre, e)
    requires KeyFits(Run(p, EMPTY, pre + [verification] + post), e, key)
    requires IssuedDuring(p, pre + [verification] + post, e, receipt)
    ensures var db := Run(p, EMPTY, pre + [verification] + post);
            && IsClosed(db, e)
            && var r := ReportOf(p, ExportView(p, ViewOf(db, e), exportedAt), key, receipt);
               r.valid && r.checks.All() && r.failures == []
  {
    hide Step, Inv, NeverSigned, IssuedDuring, KeyFits, ReportOf, ExportView, CurrentManifest, LogOf;
    var db0 := Run(p, EMPTY, pre);
    var db1 := Step(p, db0, verification);
    NoSigningNoSignature(p, pre, e);
    ReachableInv(p, pre);
    VerificationSeals(p, db0, verification, e);
    StepKeepsInv(p, db0, verification);
    RunStep(p, pre, verification);
    RunConcat(p, EMPTY, pre + [verification], post);
    RunKeepsSealed(p, db1, post, e);
    RunKeepsInv(p, db1, post);
    IssuedIsKnown(p, pre + [verification] + post, e, receipt);
    SealedAccepted(p, Run(p, EMPTY, pre + [verification] + post), e, exportedAt, key, receipt);
  }

  lemma RunStep(p: Primitives, rs: seq<Request>, r: Request)
    ensures Run(p, EMPTY, rs + [r]) == Step(p, Run(p, EMPTY, rs), r)
  {
    hide Step;
    assert (rs + [r])[..|rs|] == rs;
  }

  // ---------- when a signature came too early ----------

  /**
   * Re-verifying an election keeps the signature that is on the manifest. After a verification of a closed election
   * the export is accepted if and only if that signature, when there is one, was made over the hash of the current
   * rows.
   */
  lemma ReverificationVerdict(p: Primitives, db: Database, r: Request, e: string, exportedAt: string)
    requires p.Sound() && Inv(p, db) && IsClosed(db, e) && r.command == RunFullVerification(e)
    ensures var db' := Step(p, db, r);
            && IsClosed(db', e)
            && (ReportOf(p, ExportView(p, ViewOf(db', e), exportedAt), None, None).valid
                <==> SignedNothingElse(p, db, e))
  {
    hide Inv, ReportOf, ExportView, CurrentManifest, ManifestHashCurrent, RowsGood, Step;
    var db' := Step(p, db, r);
    StepKeepsInv(p, db, r);
    StepFreezes(p, db, r, e);
    VerificationSeals(p, db, r, e);
    DatabaseExportVerdict(p, db', e, exportedAt, None, None);
    if SignedNothingElse(p, db, e) {
      SealedAccepted(p, db', e, exportedAt, None, None);
    } else {
      StoredManifestOk(p, db', e);
      assert !SignatureFits(db'.manifests[e]);
      assert !SignatureCurrent(p, ViewOf(db', e), None);
    }
  }

  lemma SignedManifest(p: Primitives, db: Database, sign: Request, e: string)
    requires sign.command.SignManifest? && sign.command.electionId == e && Serve(p, db, sign).Accepted?
    ensures e in db.manifests && e in Step(p, db, sign).manifests
    ensures var s := Step(p, db, sign).manifests[e].digitalSignature;
            s.Some? && s.value.payload.manifestHash == db.manifests[e].manifestHash
  {
    hide NextEntry;
  }

  /**
   * Signing trusts the stored manifest. If a closed election is signed and then verified again, the export is accepted
   * if and only if the manifest that was signed was up to date: the condition a caller can check before signing.
   */
  lemma SignThenReverify(p: Primitives, db: Database, sign: Request, verification: Request, e: string,
                         exportedAt: string)
    requires p.Sound() && Inv(p, db) && IsClosed(db, e)
    requires sign.command.SignManifest? && sign.command.electionId == e && Serve(p, db, sign).Accepted?
    requires verification.command == RunFullVerification(e)
    ensures var db' := Step(p, Step(p, db, sign), verification);
            && IsClosed(db', e)
            && e in db.manifests
            && (ReportOf(p, ExportView(p, ViewOf(db', e), exportedAt), None, None).valid
                <==> db.manifests[e].manifestHash == ManifestHash(p, CurrentManifest(ViewOf(db, e))))
  {
    hide Inv, ReportOf, ExportView, CurrentManifest, Step, Serve;
    var signed := Step(p, db, sign);
    SignedManifest(p, db, sign, e);
    StepKeepsInv(p, db, sign);
    assert Run(p, db, [sign]) == signed by {
      assert [sign][..0] == [];
      assert Run(p, db, []) == db;
    }
    ManifestFrozen(p, db, [sign], e);
    ReverificationVerdict(p, signed, verification, e, exportedAt);
  }
}
