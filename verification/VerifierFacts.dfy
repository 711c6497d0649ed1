/** What the verifier's report says about an arbitrary archive. */
module VerifierFacts {
  import opened Prelude
  import opened Text
  import opened Sorting
  import opened Grouping
  import opened Records
  import opened Hashing
  import opened AuditChain
  import opened ChainBinding
  import opened Verifier

  // ---------- failures and checks ----------

  lemma RecordFailuresMeaning(p: Primitives, b: ArchiveBody)
    ensures RecordFailures(p, b) == [] <==>
            var rc := RecordChecksOf(p, b);
            rc.ballotHashes && rc.ballotSequence && rc.reconciliation && rc.auditChain
  {
    var cids, dids := CandidateIds(b.candidates), DeviceIds(b.devices);
    var log := Sort(SequenceLe, b.auditLog);
    BallotFaultsEmpty(p, b.election.id, cids, dids, b.ballots);
    SequenceFailuresMeaning(b);
    ChainFaultsEmpty(p, log, |log|);
  }

  lemma SequenceFailuresMeaning(b: ArchiveBody)
    ensures SequenceFailures(b) == [] <==> SequencesAccepted(Sequences(DeviceIds(b.devices), b.ballots))
  {
    var m := Sequences(DeviceIds(b.devices), b.ballots);
    forall d ensures d in Distinct(Names(b.devices)) <==> d in m {
      NamesAreKeys(b.devices, d);
    }
    SequenceFaultsMeaning(Distinct(Names(b.devices)), m);
  }

  lemma FailuresCover(p: Primitives, a: Archive, key: Option<string>, receipt: Option<AnchorReceipt>)
    ensures FailuresOf(p, a, key, receipt) == [] <==>
            var c := ChecksOf(p, a, key, receipt);
            && c.exportEnvelope && c.configuration && c.ballotHashes && c.ballotSequence
            && c.reconciliation && c.auditChain && c.manifest && c.signature && c.anchor
  {
    RecordFailuresMeaning(p, a.body);
  }

  /**
   * The failure list and the twelve checks tell the same story with one exception: an empty audit log
   * fails the audit-root check without a failure code. So `valid` is exactly "all checks true".
   */
  lemma ValidMeansAllChecks(p: Primitives, a: Archive, key: Option<string>, receipt: Option<AnchorReceipt>)
    ensures var r := ReportOf(p, a, key, receipt);
            && (r.valid <==> r.checks.All())
            && (r.failures == [] <==>
                r.checks.All() || (r.checks.(auditRoot := true).All() && a.body.auditLog == []))
  {
    FailuresCover(p, a, key, receipt);
    SortElements(SequenceLe, a.body.auditLog);
  }

  /** A concrete archive without audit entries, signature or ballots reports no failure yet is not valid. */
  lemma SilentAuditRoot(p: Primitives, id: string)
    requires p.Sound()
    ensures exists a: Archive ::
              && a.body.auditLog == []
              && ReportOf(p, a, None, None).failures == []
              && !ReportOf(p, a, None, None).valid
  {
    var e0 := Election(id, "", Locked, Some(ConfigurationHash(p, id, [])), 0);
    var body := ArchiveBody("", e0, [], [], [], [], None);
    var a := Archive(body, p.sha256(p.archiveJson(body)));
    assert IsHex(p.sha256(p.archiveJson(body)));
    assert IsHex(ConfigurationHash(p, id, []));
    EmptyArchiveRecords(p, body);
    FailuresCover(p, a, None, None);
    assert ReportOf(p, a, None, None).failures == [];
  }

  lemma EmptyArchiveRecords(p: Primitives, b: ArchiveBody)
    requires b.ballots == [] && b.candidates == [] && b.devices == [] && b.auditLog == []
    ensures var rc := RecordChecksOf(p, b);
            rc.ballotHashes && rc.ballotSequence && rc.reconciliation && rc.auditChain && !rc.auditRoot
  {
    DriftMeaning(b);
  }

  // ---------- drift ----------

  /** The ballots that name no known key. */
  function Unknown(key: ArchiveBallot -> string, ids: set<string>, ballots: seq<ArchiveBallot>): seq<ArchiveBallot> {
    Filter((b: ArchiveBallot) => key(b) !in ids, ballots)
  }

  lemma {:induction false} KnownPlusUnknown(key: ArchiveBallot -> string, ids: set<string>, ballots: seq<ArchiveBallot>)
    ensures |Filter(KeyedIn(key, ids), ballots)| + |Unknown(key, ids, ballots)| == |ballots|
  {
    if ballots != [] {
      KnownPlusUnknown(key, ids, ballots[1..]);
    }
  }

  lemma RecountSum(key: ArchiveBallot -> string, ids: set<string>, ballots: seq<ArchiveBallot>)
    ensures SumValues(Recount(key, ids, ballots)) + |Unknown(key, ids, ballots)| == |ballots|
  {
    var m := Recount(key, ids, ballots);
    assert m.Keys == ids;
    SumOfCounts(key, ballots, ids, m);
    KnownPlusUnknown(key, ids, ballots);
  }

  /**
   * Drift counts the ballots that name an unknown candidate plus those that name an unknown device,
   * and reconciliation passes exactly when there are none.
   */
  lemma DriftMeaning(b: ArchiveBody)
    ensures var unknownCandidates := |Unknown(CandidateOf(), CandidateIds(b.candidates), b.ballots)|;
            var unknownDevices := |Unknown(DeviceOf(), DeviceIds(b.devices), b.ballots)|;
            && Drift(b) == unknownCandidates + unknownDevices
            && (ReconciliationAccepted(b) <==> unknownCandidates == 0 && unknownDevices == 0)
  {
    RecountSum(CandidateOf(), CandidateIds(b.candidates), b.ballots);
    RecountSum(DeviceOf(), DeviceIds(b.devices), b.ballots);
  }

  // ---------- totals that go into the manifest hash ----------

  /** Whatever a manifest states, the totals that are hashed agree with the recount up to zero entries. */
  lemma ChosenTotalsAgree(stated: map<string, int>, recount: map<string, int>, k: string)
    ensures GetOrZero(ChooseTotals(stated, recount), k) == GetOrZero(recount, k)
    ensures ChooseTotals(stated, recount) == stated <==> AgreesUpToZeros(stated, recount) || stated == recount
  {
  }

  // ---------- anchor ----------

  /** Under an accepted chain every entry hash is lower-case hexadecimal, so lower() merges no two of them. */
  lemma AnchorFindsEntry(p: Primitives, log: seq<ArchiveEntry>, receipt: AnchorReceipt) returns (j: nat)
    requires p.Sound() && ChainAccepted(p, log) && log != []
    requires AnchorAccepted(log, Some(receipt)) && IsHex(receipt.rootHash)
    ensures j < |log| && log[j].entryHash == receipt.rootHash
  {
    HexFacts(receipt.rootHash);
    AcceptedEntriesAreHex(p, log, |log| - 1);
    assert LastHash(log, |log|) == log[|log| - 1].entryHash;
    if Lower(receipt.rootHash) == Lower(LastHash(log, |log|)) {
      HexFacts(log[|log| - 1].entryHash);
      j := |log| - 1;
    } else {
      j :| j < |log| && Lower(log[j].entryHash) == Lower(receipt.rootHash);
      AcceptedEntriesAreHex(p, log, j);
      HexFacts(log[j].entryHash);
    }
  }

  lemma ValidArchiveChain(p: Primitives, a: Archive, key: Option<string>, receipt: Option<AnchorReceipt>)
    requires ReportOf(p, a, key, receipt).valid
    ensures var log := Sort(SequenceLe, a.body.auditLog);
            ChainAccepted(p, log) && log != [] && AnchorAccepted(log, receipt)
  {
    var c := ChecksOf(p, a, key, receipt);
    assert c.All();
    assert c.auditChain && c.auditRoot && c.anchor;
  }

  /** The log starts with the anchored history, hashed field by hashed field. */
  ghost predicate ExtendsHistory(anchored: seq<ArchiveEntry>, log: seq<ArchiveEntry>) {
    |anchored| <= |log| && SameHistory(anchored, log[..|anchored|])
  }

  /** The log starts with the anchored history, text by hashed text. */
  ghost predicate ExtendsTexts(anchored: seq<ArchiveEntry>, log: seq<ArchiveEntry>) {
    |anchored| <= |log| && SameTexts(anchored, log[..|anchored|])
  }

  lemma AnchoredPrefix(p: Primitives, log: seq<ArchiveEntry>, receipt: AnchorReceipt, anchored: seq<ArchiveEntry>)
    requires p.Sound() && ChainAccepted(p, log) && log != [] && AnchorAccepted(log, Some(receipt))
    requires anchored != [] && ChainAccepted(p, anchored) && CollisionFree(p, anchored, log)
    requires receipt.rootHash == anchored[|anchored| - 1].entryHash
    ensures ExtendsTexts(anchored, log)
    ensures AllPlain(anchored) ==> ExtendsHistory(anchored, log)
  {
    var j := AnchorPosition(p, log, receipt, anchored);
    hide *;
    SharedHashPinsPrefix(p, anchored, log, |anchored| - 1, j);
    assert anchored[..|anchored|] == anchored;
    TextsPrefix(anchored, log);
    if AllPlain(anchored) {
      AcceptedLinksFree(p, anchored);
      PlainTextsPinFields(anchored, log[..|anchored|]);
      HistoryPrefix(anchored, log);
    }
  }

  lemma AnchorPosition(p: Primitives, log: seq<ArchiveEntry>, receipt: AnchorReceipt, anchored: seq<ArchiveEntry>)
    returns (j: nat)
    requires p.Sound() && ChainAccepted(p, log) && log != [] && AnchorAccepted(log, Some(receipt))
    requires anchored != [] && ChainAccepted(p, anchored)
    requires receipt.rootHash == anchored[|anchored| - 1].entryHash
    ensures j < |log| && log[j].entryHash == anchored[|anchored| - 1].entryHash
  {
    hide ChainAccepted, AnchorAccepted, IsHex;
    AcceptedEntriesAreHex(p, anchored, |anchored| - 1);
    j := AnchorFindsEntry(p, log, receipt);
  }

  lemma TextsPrefix(anchored: seq<ArchiveEntry>, log: seq<ArchiveEntry>)
    requires |anchored| <= |log| && SameTexts(anchored, log[..|anchored|])
    ensures ExtendsTexts(anchored, log)
  {
  }

  lemma HistoryPrefix(anchored: seq<ArchiveEntry>, log: seq<ArchiveEntry>)
    requires |anchored| <= |log| && SameHistory(anchored, log[..|anchored|])
    ensures ExtendsHistory(anchored, log)
  {
  }

  /**
   * An archive accepted together with an anchor receipt contains the anchored history as a prefix: text by hashed
   * text in any case, and field by hashed field if no anchored entry holds a separator.
   */
  lemma AcceptedArchiveExtendsAnchor(p: Primitives, a: Archive, key: Option<string>, receipt: AnchorReceipt,
                                     anchored: seq<ArchiveEntry>)
    requires p.Sound()
    requires ReportOf(p, a, key, Some(receipt)).valid
    requires anchored != [] && ChainAccepted(p, anchored)
    requires receipt.rootHash == anchored[|anchored| - 1].entryHash
    requires CollisionFree(p, anchored, Sort(SequenceLe, a.body.auditLog))
    ensures var log := Sort(SequenceLe, a.body.auditLog);
            ExtendsTexts(anchored, log) && (AllPlain(anchored) ==> ExtendsHistory(anchored, log))
  {
    ValidArchiveChain(p, a, key, Some(receipt));
    AnchoredPrefix(p, Sort(SequenceLe, a.body.auditLog), receipt, anchored);
  }

  // ---------- what the checks see of a log ----------

  /** The archive with another audit log and a fresh envelope hash. */
  function WithLog(p: Primitives, a: Archive, log: seq<ArchiveEntry>): Archive {
    var body := a.body.(auditLog := log);
    Archive(body, p.sha256(p.archiveJson(body)))
  }

  lemma AcceptedLogSorted(p: Primitives, log: seq<ArchiveEntry>)
    requires ChainAccepted(p, log)
    ensures Sort(SequenceLe, log) == log
  {
    forall i, j | 0 <= i < j < |log|
      ensures SequenceLe(log[i], log[j])
    {
      assert EntryGood(p, log, i) && EntryGood(p, log, j);
    }
    SortOfSorted(SequenceLe, log);
  }

  lemma {:induction false} SameTextsSameLastHash(a: seq<ArchiveEntry>, b: seq<ArchiveEntry>, n: nat)
    requires SameTexts(a, b) && n <= |a|
    ensures LastHash(a, n) == LastHash(b, n)
  {
    if n > 0 {
      assert SameText(a[n - 1], b[n - 1]);
      SameTextsSameLastHash(a, b, n - 1);
    }
  }

  lemma SameTextsSameAnchor(a: seq<ArchiveEntry>, b: seq<ArchiveEntry>, receipt: Option<AnchorReceipt>)
    requires SameTexts(a, b) && AnchorAccepted(a, receipt)
    ensures AnchorAccepted(b, receipt)
  {
    SameTextsSameLastHash(a, b, |a|);
    if receipt.Some? && Lower(receipt.value.rootHash) != Lower(LastHash(a, |a|)) {
      var i :| 0 <= i < |a| && Lower(a[i].entryHash) == Lower(receipt.value.rootHash);
      assert SameText(a[i], b[i]);
    }
  }

  /** The verifier sees of an audit log only its texts: another accepted log with the same texts passes as well. */
  lemma SameTextsAccepted(p: Primitives, a: Archive, log: seq<ArchiveEntry>, key: Option<string>,
                          receipt: Option<AnchorReceipt>)
    requires p.Sound() && ReportOf(p, a, key, receipt).valid
    requires ChainAccepted(p, log) && SameTexts(Sort(SequenceLe, a.body.auditLog), log)
    ensures ReportOf(p, WithLog(p, a, log), key, receipt).valid
  {
    var a' := WithLog(p, a, log);
    ValidMeansAllChecks(p, a, key, receipt);
    ValidArchiveChain(p, a, key, receipt);
    AcceptedLogSorted(p, log);
    SameTextsSameAnchor(Sort(SequenceLe, a.body.auditLog), log, receipt);
    assert IsHex(p.sha256(p.archiveJson(a'.body)));
    ChecksWithLog(p, a, log, key, receipt);
    ValidMeansAllChecks(p, a', key, receipt);
  }

  lemma ChecksWithLog(p: Primitives, a: Archive, log: seq<ArchiveEntry>, key: Option<string>,
                      receipt: Option<AnchorReceipt>)
    requires ChecksOf(p, a, key, receipt).All()
    requires Sort(SequenceLe, log) == log && log != [] && ChainAccepted(p, log) && AnchorAccepted(log, receipt)
    requires EnvelopeAccepted(p, WithLog(p, a, log))
    ensures ChecksOf(p, WithLog(p, a, log), key, receipt).All()
  {
    hide Sort, ChainAccepted, AnchorAccepted, EnvelopeAccepted;
  }
}
