/** When the standalone verifier accepts an exported election: both directions. */
module Acceptance {
  import opened Prelude
  import opened Text
  import opened Timestamps
  import opened Sorting
  import opened Grouping
  import opened Records
  import opened Hashing
  import opened AuditChain
  import opened Verifier
  import opened VerifierFacts
  import opened Export

  // ---------- replay order ----------

  /** Two ballots in recording order do not replay a number. */
  predicate NoReplayPair(a: Ballot, b: Ballot) {
    a.deviceId == b.deviceId ==> a.sequenceNumber < b.sequenceNumber
  }

  lemma FilterReplayFree(ballots: seq<Ballot>, d: string)
    requires ReplayFree(ballots)
    ensures var f := Filter(Keyed(BallotDevice(), d), ballots);
            && ReplayFree(f)
            && (forall i :: 0 <= i < |f| ==> f[i].deviceId == d)
  {
    var f := Filter(Keyed(BallotDevice(), d), ballots);
    assert Pairwise(NoReplayPair, ballots);
    FilterPairwise(Keyed(BallotDevice(), d), NoReplayPair, ballots);
    forall i | 0 <= i < |f| ensures f[i].sequenceNumber > 0 {
      var k :| 0 <= k < |ballots| && ballots[k] == f[i];
    }
  }

  /** The exported order shows each device's ballots exactly in recording order. */
  lemma ExportKeepsRecordingOrder(ballots: seq<Ballot>, d: string)
    requires ReplayFree(ballots)
    ensures SequenceOf(Map(ExportBallot(), Sort(BallotLe, ballots)), d)
            == Map(BallotNumber(), Filter(Keyed(BallotDevice(), d), ballots))
    ensures StrictlyIncreasingPositive(SequenceOf(Map(ExportBallot(), Sort(BallotLe, ballots)), d))
  {
    BallotOrder();
    var mine := Filter(Keyed(BallotDevice(), d), ballots);
    FilterReplayFree(ballots, d);
    SortOfSorted(BallotLe, mine);
    FilterSort(BallotLe, Keyed(BallotDevice(), d), ballots);
    FilterMap(Keyed(BallotDevice(), d), Keyed(DeviceOf(), d), ExportBallot(), Sort(BallotLe, ballots));
  }

  // ---------- records ----------

  lemma CandidateIdsExported(rows: seq<Candidate>, c: string)
    ensures c in CandidateIds(OrderedCandidates(rows)) <==> exists i :: 0 <= i < |rows| && rows[i].info.id == c
  {
    var infos := Map(InfoOf(), rows);
    var out := OrderedCandidates(rows);
    SortElements(PositionLe, infos);
    if i :| 0 <= i < |rows| && rows[i].info.id == c {
      assert infos[i] in out;
      var j :| 0 <= j < |out| && out[j] == infos[i];
      assert out[j].id in CandidateIds(out);
    }
    if c in CandidateIds(out) {
      var j :| 0 <= j < |out| && out[j].id == c;
      assert out[j] in infos;
      var i :| 0 <= i < |rows| && infos[i] == out[j];
      assert rows[i].info.id == c;
    }
  }

  lemma DeviceIdsExported(rows: seq<Device>, d: string)
    ensures d in DeviceIds(Sort(DeviceLe, rows)) <==> exists i :: 0 <= i < |rows| && rows[i].id == d
  {
    var out := Sort(DeviceLe, rows);
    SortElements(DeviceLe, rows);
    if i :| 0 <= i < |rows| && rows[i].id == d {
      assert rows[i] in out;
      var j :| 0 <= j < |out| && out[j] == rows[i];
      assert out[j].id in DeviceIds(out);
    }
    if d in DeviceIds(out) {
      var j :| 0 <= j < |out| && out[j].id == d;
      assert out[j] in rows;
      var i :| 0 <= i < |rows| && rows[i] == out[j];
    }
  }

  lemma BallotsExported(p: Primitives, v: View, exportedAt: string)
    requires RowsGood(p, v)
    ensures var b := ExportBody(v, exportedAt);
            BallotsAccepted(p, b.election.id, CandidateIds(b.candidates), DeviceIds(b.devices), b.ballots)
  {
    var body := ExportBody(v, exportedAt);
    var sorted := Sort(BallotLe, v.ballots);
    SortElements(BallotLe, v.ballots);
    forall x | x in body.ballots
      ensures BallotGood(p, body.election.id, CandidateIds(body.candidates), DeviceIds(body.devices), x)
    {
      var i :| 0 <= i < |body.ballots| && body.ballots[i] == x;
      assert sorted[i] in v.ballots;
      assert BallotRowGood(p, v, sorted[i]);
      IsoCanonical(sorted[i].recordedAt);
      CandidateIdsExported(v.candidates, x.candidateId);
      DeviceIdsExported(v.devices, x.deviceId);
    }
  }

  lemma SequencesExported(v: View, exportedAt: string)
    requires ReplayFree(v.ballots)
    ensures var b := ExportBody(v, exportedAt);
            SequencesAccepted(Sequences(DeviceIds(b.devices), b.ballots))
  {
    var b := ExportBody(v, exportedAt);
    forall d | d in DeviceIds(b.devices) ensures StrictlyIncreasingPositive(SequenceOf(b.ballots, d)) {
      ExportKeepsRecordingOrder(v.ballots, d);
    }
  }

  lemma LogExported(p: Primitives, log: seq<AuditEntry>)
    requires ValidLog(p, log) && log != []
    ensures var out := Map(ExportEntry, log);
            && Sort(SequenceLe, out) == out
            && ChainAccepted(p, out) && out != []
            && LastHash(out, |out|) == (if log[|log| - 1].entryHash != "" then log[|log| - 1].entryHash
                                        else LastHash(out, |out| - 1))
  {
    VerifiersAgree(p, log);
    ExportedLogSorted(log);
  }

  lemma UnknownEmpty(key: ArchiveBallot -> string, ids: set<string>, ballots: seq<ArchiveBallot>)
    requires forall b :: b in ballots ==> key(b) in ids
    ensures Unknown(key, ids, ballots) == []
  {
    FilterNone((b: ArchiveBallot) => key(b) !in ids, ballots);
  }

  /** Every record check passes on the export of well-kept rows, with zero drift. */
  lemma RecordsAccepted(p: Primitives, v: View, exportedAt: string)
    requires RowsGood(p, v)
    ensures RecordChecksOf(p, ExportBody(v, exportedAt)) == RecordChecks(true, true, true, true, true, true, true)
    ensures Drift(ExportBody(v, exportedAt)) == 0
  {
    var b := ExportBody(v, exportedAt);
    BallotsExported(p, v, exportedAt);
    SequencesExported(v, exportedAt);
    LogExported(p, v.log);
    NoDrift(p, b);
  }

  lemma NoDrift(p: Primitives, b: ArchiveBody)
    requires BallotsAccepted(p, b.election.id, CandidateIds(b.candidates), DeviceIds(b.devices), b.ballots)
    ensures Drift(b) == 0 && ReconciliationAccepted(b)
    ensures CandidateSum(b) == |b.ballots| && DeviceSum(b) == |b.ballots|
  {
    forall x | x in b.ballots
      ensures CandidateOf()(x) in CandidateIds(b.candidates) && DeviceOf()(x) in DeviceIds(b.devices)
    {
      assert BallotGood(p, b.election.id, CandidateIds(b.candidates), DeviceIds(b.devices), x);
    }
    UnknownEmpty(CandidateOf(), CandidateIds(b.candidates), b.ballots);
    UnknownEmpty(DeviceOf(), DeviceIds(b.devices), b.ballots);
    DriftMeaning(b);
  }

  // ---------- configuration ----------

  lemma ConfigurationExported(p: Primitives, v: View, exportedAt: string)
    ensures RecomputedConfiguration(p, ExportBody(v, exportedAt))
            == ConfigurationHash(p, v.election.id, Map(InfoOf(), v.candidates))
  {
    PositionOrder();
    SortIdempotent(PositionLe, Map(InfoOf(), v.candidates));
  }

  /** The stored configuration hash is present and is the hash of the current candidates. */
  predicate ConfigurationCurrent(p: Primitives, v: View) {
    v.election.configurationHash == Some(ConfigurationHash(p, v.election.id, Map(InfoOf(), v.candidates)))
  }

  // ---------- manifest ----------

  lemma CandidateCountExported(v: View, exportedAt: string, c: string)
    ensures CountOf(CandidateOf(), ExportBody(v, exportedAt).ballots, c) == CountOf(BallotCandidate(), v.ballots, c)
  {
    BallotOrder();
    CountThroughMap(BallotCandidate(), CandidateOf(), ExportBallot(), Sort(BallotLe, v.ballots), c);
    CountThroughSort(BallotLe, BallotCandidate(), v.ballots, c);
  }

  lemma DeviceCountExported(v: View, exportedAt: string, d: string)
    ensures CountOf(DeviceOf(), ExportBody(v, exportedAt).ballots, d) == CountOf(BallotDevice(), v.ballots, d)
  {
    BallotOrder();
    CountThroughMap(BallotDevice(), DeviceOf(), ExportBallot(), Sort(BallotLe, v.ballots), d);
    CountThroughSort(BallotLe, BallotDevice(), v.ballots, d);
  }

  /** `totals` states the count of some candidates, and every candidate it leaves out has no vote. */
  ghost predicate StatesCounts(key: Ballot -> string, ids: set<string>, ballots: seq<Ballot>, totals: map<string, int>)
  {
    && (forall k :: k in totals ==> k in ids && totals[k] == CountOf(key, ballots, k))
    && (forall k :: k in ids && k !in totals ==> CountOf(key, ballots, k) == 0)
  }

  /** A manifest that is up to date with the rows; it may or may not list candidates and devices without votes. */
  ghost predicate ManifestCurrent(p: Primitives, v: View, m: Manifest) {
    && m.electionId == v.election.id
    && m.totalBallots == |v.ballots|
    && StatesCounts(BallotCandidate(), CandidateIds(OrderedCandidates(v.candidates)), v.ballots, m.candidateTotals)
    && StatesCounts(BallotDevice(), DeviceIds(Sort(DeviceLe, v.devices)), v.ballots, m.deviceTotals)
    && m.reconciliationStatus == "PASSED"
    && m.auditChainStatus == "INTACT"
    && m.configurationHash == ConfigurationHash(p, v.election.id, Map(InfoOf(), v.candidates))
  }

  /** Up-to-date totals are hashed as stated, zero entries or not. */
  lemma RebuildsCurrent(p: Primitives, v: View, m: Manifest, exportedAt: string)
    requires RowsGood(p, v) && ManifestCurrent(p, v, m)
    ensures RebuiltManifest(p, ExportBody(v, exportedAt), m) == DataOf(m)
  {
    var b := ExportBody(v, exportedAt);
    RecordsAccepted(p, v, exportedAt);
    ConfigurationExported(p, v, exportedAt);
    SortElements(BallotLe, v.ballots);
    CandidateTotalsChosen(v, m.candidateTotals, exportedAt);
    DeviceTotalsChosen(v, m.deviceTotals, exportedAt);
    assert RecordChecksOf(p, b).auditChain && RecordChecksOf(p, b).reconciliation;
  }

  /** Totals that state the counts agree with a recount of the same counts up to zero entries. */
  lemma StatedAgree(key: Ballot -> string, key': ArchiveBallot -> string, ids: set<string>, ballots: seq<Ballot>,
                    exported: seq<ArchiveBallot>, stated: map<string, int>)
    requires forall k :: CountOf(key', exported, k) == CountOf(key, ballots, k)
    ensures StatesCounts(key, ids, ballots, stated) <==> AgreesUpToZeros(stated, Recount(key', ids, exported))
  {
    hide CountOf;
  }

  lemma CandidateTotalsChosen(v: View, stated: map<string, int>, exportedAt: string)
    requires StatesCounts(BallotCandidate(), CandidateIds(OrderedCandidates(v.candidates)), v.ballots, stated)
    ensures var b := ExportBody(v, exportedAt);
            ChooseTotals(stated, Recount(CandidateOf(), CandidateIds(b.candidates), b.ballots)) == stated
  {
    var b := ExportBody(v, exportedAt);
    assert b.candidates == OrderedCandidates(v.candidates);
    hide ExportBody, OrderedCandidates, CandidateIds, CountOf, Recount, AgreesUpToZeros, StatesCounts, ChooseTotals;
    forall k ensures CountOf(CandidateOf(), b.ballots, k) == CountOf(BallotCandidate(), v.ballots, k) {
      CandidateCountExported(v, exportedAt, k);
    }
    StatedAgree(BallotCandidate(), CandidateOf(), CandidateIds(b.candidates), v.ballots, b.ballots, stated);
    ChosenTotalsAgree(stated, Recount(CandidateOf(), CandidateIds(b.candidates), b.ballots), "");
  }

  lemma DeviceTotalsChosen(v: View, stated: map<string, int>, exportedAt: string)
    requires StatesCounts(BallotDevice(), DeviceIds(Sort(DeviceLe, v.devices)), v.ballots, stated)
    ensures var b := ExportBody(v, exportedAt);
            ChooseTotals(stated, Recount(DeviceOf(), DeviceIds(b.devices), b.ballots)) == stated
  {
    var b := ExportBody(v, exportedAt);
    assert b.devices == Sort(DeviceLe, v.devices);
    hide ExportBody, Sort, DeviceIds, CountOf, Recount, AgreesUpToZeros, StatesCounts, ChooseTotals;
    forall k ensures CountOf(DeviceOf(), b.ballots, k) == CountOf(BallotDevice(), v.ballots, k) {
      DeviceCountExported(v, exportedAt, k);
    }
    StatedAgree(BallotDevice(), DeviceOf(), DeviceIds(b.devices), v.ballots, b.ballots, stated);
    ChosenTotalsAgree(stated, Recount(DeviceOf(), DeviceIds(b.devices), b.ballots), "");
  }

  /** A group-by lists exactly the keys with a count, so it states the counts of well-kept rows. */
  lemma GroupByStatesCounts(key: Ballot -> string, ids: set<string>, ballots: seq<Ballot>)
    requires forall b :: b in ballots ==> key(b) in ids
    ensures StatesCounts(key, ids, ballots, GroupBy(key, ballots))
  {
    forall k | k in ids && k !in GroupBy(key, ballots) ensures CountOf(key, ballots, k) == 0 {
      CountPositive(key, ballots, k);
    }
  }

  lemma GroupByIsCurrent(p: Primitives, v: View, m: Manifest)
    requires RowsGood(p, v) && ConfigurationCurrent(p, v) && DataOf(m) == CurrentManifest(v)
    requires p.Sound()
    ensures ManifestCurrent(p, v, m)
  {
    forall b | b in v.ballots
      ensures BallotCandidate()(b) in CandidateIds(OrderedCandidates(v.candidates))
      ensures BallotDevice()(b) in DeviceIds(Sort(DeviceLe, v.devices))
    {
      assert BallotRowGood(p, v, b);
      CandidateIdsExported(v.candidates, b.candidateId);
      DeviceIdsExported(v.devices, b.deviceId);
    }
    GroupByStatesCounts(BallotCandidate(), CandidateIds(OrderedCandidates(v.candidates)), v.ballots);
    GroupByStatesCounts(BallotDevice(), DeviceIds(Sort(DeviceLe, v.devices)), v.ballots);
    assert IsHex(ConfigurationHash(p, v.election.id, Map(InfoOf(), v.candidates)));
  }

  /** Zero omission: the manifest a verification generates is rebuilt by the verifier to exactly its own data. */
  lemma GeneratedManifestIsCurrent(p: Primitives, v: View, m: Manifest)
    requires RowsGood(p, v) && ConfigurationCurrent(p, v) && DataOf(m) == CurrentManifest(v)
    requires p.Sound()
    ensures ManifestCurrent(p, v, m)
    ensures forall t :: RebuiltManifest(p, ExportBody(v, t), m) == DataOf(m)
  {
    GroupByIsCurrent(p, v, m);
    hide RowsGood, ManifestCurrent, RebuiltManifest, ExportBody, DataOf;
    forall t
      ensures RebuiltManifest(p, ExportBody(v, t), m) == DataOf(m)
    {
      RebuildsCurrent(p, v, m, t);
    }
  }

  // ---------- the main equivalence ----------

  /** No manifest, or one whose stored hash is the hash of what the verifier rebuilds. */
  ghost predicate ManifestHashCurrent(p: Primitives, v: View) {
    v.manifest.Some? ==>
      HashAccepted(v.manifest.value.manifestHash,
                   ManifestHash(p, RebuiltManifest(p, ExportBody(v, ""), v.manifest.value)))
  }

  /** No signature, or one over the stored manifest hash that the chosen key accepts. */
  predicate SignatureCurrent(p: Primitives, v: View, key: Option<string>) {
    v.manifest.Some? && v.manifest.value.digitalSignature.Some? ==>
      var s := v.manifest.value.digitalSignature.value;
      && s.payload.electionId == v.election.id
      && s.payload.manifestHash == v.manifest.value.manifestHash
      && p.verify(OrElse(key, s.publicKey), s.payload, s.signature)
  }

  /** No receipt, or one for a hash that stands in the log. */
  predicate ReceiptKnown(log: seq<AuditEntry>, receipt: Option<AnchorReceipt>) {
    receipt.Some? ==> exists i :: 0 <= i < |log| && Lower(log[i].entryHash) == Lower(receipt.value.rootHash)
  }

  lemma AnchorExported(p: Primitives, log: seq<AuditEntry>, receipt: Option<AnchorReceipt>)
    requires p.Sound() && ValidLog(p, log) && log != []
    ensures AnchorAccepted(Map(ExportEntry, log), receipt) <==> ReceiptKnown(log, receipt)
  {
    var out := Map(ExportEntry, log);
    LogExported(p, log);
    assert HashMatches(p, log[|log| - 1]);
    assert out[|out| - 1].entryHash == log[|log| - 1].entryHash;
    assert IsHex(log[|log| - 1].entryHash);
    assert LastHash(out, |out|) == log[|log| - 1].entryHash;
    if receipt.Some? {
      var root := Lower(receipt.value.rootHash);
      assert forall i :: 0 <= i < |log| ==> out[i].entryHash == log[i].entryHash;
      if AnchorAccepted(out, receipt) {
        if root == Lower(LastHash(out, |out|)) {
          assert Lower(log[|log| - 1].entryHash) == root;
        } else {
          var i :| 0 <= i < |out| && Lower(out[i].entryHash) == root;
          assert Lower(log[i].entryHash) == root;
        }
      }
      if ReceiptKnown(log, receipt) {
        var i :| 0 <= i < |log| && Lower(log[i].entryHash) == root;
        assert Lower(out[i].entryHash) == root;
      }
    }
  }

  lemma RebuildIgnoresClock(p: Primitives, v: View, m: Manifest, t: string)
    ensures RebuiltManifest(p, ExportBody(v, t), m) == RebuiltManifest(p, ExportBody(v, ""), m)
  {
  }

  lemma ConfigurationVerdict(p: Primitives, v: View, exportedAt: string)
    requires p.Sound()
    requires v.election.configurationHash.Some? ==> ConfigurationCurrent(p, v)
    ensures ConfigurationAccepted(p, ExportBody(v, exportedAt)) <==> ConfigurationCurrent(p, v)
  {
    ConfigurationExported(p, v, exportedAt);
    assert IsHex(ConfigurationHash(p, v.election.id, Map(InfoOf(), v.candidates)));
  }

  lemma ManifestVerdicts(p: Primitives, v: View, exportedAt: string, key: Option<string>)
    requires p.Sound()
    ensures EnvelopeAccepted(p, ExportView(p, v, exportedAt))
    ensures ManifestAccepted(p, ExportBody(v, exportedAt)) <==> ManifestHashCurrent(p, v)
    ensures SignatureAccepted(p, ExportBody(v, exportedAt), key) <==> SignatureCurrent(p, v, key)
  {
    hide RebuiltManifest;
    assert IsHex(p.sha256(p.archiveJson(ExportBody(v, exportedAt))));
    if v.manifest.Some? {
      RebuildIgnoresClock(p, v, v.manifest.value, exportedAt);
    }
  }

  lemma AnchorVerdict(p: Primitives, v: View, exportedAt: string, receipt: Option<AnchorReceipt>)
    requires p.Sound() && RowsGood(p, v)
    ensures AnchorAccepted(Sort(SequenceLe, ExportBody(v, exportedAt).auditLog), receipt)
            <==> ReceiptKnown(v.log, receipt)
  {
    LogExported(p, v.log);
    AnchorExported(p, v.log, receipt);
  }

  /**
   * The twelve checks on the export of well-kept rows: envelope and records always pass, and each of the
   * remaining four passes exactly when the stored hash it looks at does.
   */
  lemma ExportChecks(p: Primitives, v: View, exportedAt: string, key: Option<string>, receipt: Option<AnchorReceipt>)
    requires p.Sound() && RowsGood(p, v)
    requires v.election.configurationHash.Some? ==> ConfigurationCurrent(p, v)
    ensures ChecksOf(p, ExportView(p, v, exportedAt), key, receipt) ==
            Checks(true, ConfigurationCurrent(p, v), true, true, true, true, true, true, true,
                   ManifestHashCurrent(p, v), SignatureCurrent(p, v, key), ReceiptKnown(v.log, receipt))
  {
    hide RecordChecksOf, ConfigurationAccepted, ConfigurationCurrent, ManifestAccepted, ManifestHashCurrent,
         SignatureAccepted, SignatureCurrent, AnchorAccepted, ReceiptKnown, EnvelopeAccepted, RowsGood, Sort,
         ExportBody;
    RecordsAccepted(p, v, exportedAt);
    ConfigurationVerdict(p, v, exportedAt);
    ManifestVerdicts(p, v, exportedAt, key);
    AnchorVerdict(p, v, exportedAt, receipt);
  }

  /** Acceptance in terms of the stored hashes. */
  lemma AcceptedByHashes(p: Primitives, v: View, exportedAt: string, key: Option<string>,
                         receipt: Option<AnchorReceipt>)
    requires p.Sound() && RowsGood(p, v)
    requires v.election.configurationHash.Some? ==> ConfigurationCurrent(p, v)
    ensures ReportOf(p, ExportView(p, v, exportedAt), key, receipt).valid <==>
            && ConfigurationCurrent(p, v)
            && ManifestHashCurrent(p, v)
            && SignatureCurrent(p, v, key)
            && ReceiptKnown(v.log, receipt)
  {
    ExportChecks(p, v, exportedAt, key, receipt);
    ValidMeansAllChecks(p, ExportView(p, v, exportedAt), key, receipt);
  }

  lemma CurrentManifestAccepted(p: Primitives, v: View, m: Manifest)
    requires p.Sound() && RowsGood(p, v) && v.manifest == Some(m)
    requires ManifestCurrent(p, v, m) && m.manifestHash == ManifestHash(p, DataOf(m))
    ensures ManifestHashCurrent(p, v)
  {
    RebuildsCurrent(p, v, m, "");
    assert IsHex(ManifestHash(p, DataOf(m)));
  }

  // ---------- from hashes to rows ----------

  /** The manifest row carries the hash of its own data. */
  ghost predicate OwnHash(p: Primitives, m: Manifest) {
    m.manifestHash == ManifestHash(p, DataOf(m))
  }

  /** Two manifest data with the same hash are the same data. */
  ghost predicate NoManifestCollision(p: Primitives, a: ManifestData, b: ManifestData) {
    ManifestHash(p, a) == ManifestHash(p, b) ==> a == b
  }

  /** Chosen unchanged, stated totals agree with the recount, the recount itself included. */
  lemma ChosenAgrees(stated: map<string, int>, recount: map<string, int>)
    requires ChooseTotals(stated, recount) == stated
    ensures AgreesUpToZeros(stated, recount)
  {
  }

  lemma StatedCandidatesAreCounts(v: View, stated: map<string, int>, exportedAt: string)
    requires var b := ExportBody(v, exportedAt);
             ChooseTotals(stated, Recount(CandidateOf(), CandidateIds(b.candidates), b.ballots)) == stated
    ensures StatesCounts(BallotCandidate(), CandidateIds(OrderedCandidates(v.candidates)), v.ballots, stated)
  {
    var b := ExportBody(v, exportedAt);
    assert b.candidates == OrderedCandidates(v.candidates);
    hide ExportBody, OrderedCandidates, CandidateIds, CountOf, Recount, AgreesUpToZeros, StatesCounts, ChooseTotals;
    forall k ensures CountOf(CandidateOf(), b.ballots, k) == CountOf(BallotCandidate(), v.ballots, k) {
      CandidateCountExported(v, exportedAt, k);
    }
    ChosenAgrees(stated, Recount(CandidateOf(), CandidateIds(b.candidates), b.ballots));
    StatedAgree(BallotCandidate(), CandidateOf(), CandidateIds(b.candidates), v.ballots, b.ballots, stated);
  }

  lemma StatedDevicesAreCounts(v: View, stated: map<string, int>, exportedAt: string)
    requires var b := ExportBody(v, exportedAt);
             ChooseTotals(stated, Recount(DeviceOf(), DeviceIds(b.devices), b.ballots)) == stated
    ensures StatesCounts(BallotDevice(), DeviceIds(Sort(DeviceLe, v.devices)), v.ballots, stated)
  {
    var b := ExportBody(v, exportedAt);
    assert b.devices == Sort(DeviceLe, v.devices);
    hide ExportBody, Sort, DeviceIds, CountOf, Recount, AgreesUpToZeros, StatesCounts, ChooseTotals;
    forall k ensures CountOf(DeviceOf(), b.ballots, k) == CountOf(BallotDevice(), v.ballots, k) {
      DeviceCountExported(v, exportedAt, k);
    }
    ChosenAgrees(stated, Recount(DeviceOf(), DeviceIds(b.devices), b.ballots));
    StatedAgree(BallotDevice(), DeviceOf(), DeviceIds(b.devices), v.ballots, b.ballots, stated);
  }

  /** Data that the verifier rebuilds unchanged are up to date with the rows. */
  lemma RebuiltIsCurrent(p: Primitives, v: View, m: Manifest, exportedAt: string)
    requires RowsGood(p, v) && RebuiltManifest(p, ExportBody(v, exportedAt), m) == DataOf(m)
    ensures ManifestCurrent(p, v, m)
  {
    RecordsAccepted(p, v, exportedAt);
    ConfigurationExported(p, v, exportedAt);
    SortElements(BallotLe, v.ballots);
    StatedCandidatesAreCounts(v, m.candidateTotals, exportedAt);
    StatedDevicesAreCounts(v, m.deviceTotals, exportedAt);
    hide StatesCounts, Sort, ChooseTotals, Recount, RowsGood, BallotsAccepted, SequencesAccepted, ChainAccepted,
         CandidateSum, DeviceSum, ConfigurationHash, OrderedCandidates;
    assert RecordChecksOf(p, ExportBody(v, exportedAt)).auditChain;
    assert RecordChecksOf(p, ExportBody(v, exportedAt)).reconciliation;
  }

  /** The manifest check passes exactly when the manifest is up to date with the rows. */
  lemma ManifestHashMeansCurrent(p: Primitives, v: View, m: Manifest, exportedAt: string)
    requires p.Sound() && RowsGood(p, v) && v.manifest == Some(m) && OwnHash(p, m)
    requires NoManifestCollision(p, DataOf(m), RebuiltManifest(p, ExportBody(v, exportedAt), m))
    ensures ManifestHashCurrent(p, v) <==> ManifestCurrent(p, v, m)
  {
    hide RowsGood, ManifestCurrent, RebuiltManifest, ExportBody;
    RebuildIgnoresClock(p, v, m, exportedAt);
    if ManifestCurrent(p, v, m) {
      CurrentManifestAccepted(p, v, m);
    }
    if ManifestHashCurrent(p, v) {
      assert IsHex(ManifestHash(p, DataOf(m)));
      assert IsHex(ManifestHash(p, RebuiltManifest(p, ExportBody(v, ""), m)));
      HexFacts(ManifestHash(p, DataOf(m)));
      HexFacts(ManifestHash(p, RebuiltManifest(p, ExportBody(v, ""), m)));
      RebuiltIsCurrent(p, v, m, "");
    }
  }

  /** A stored signature names its election and verifies under its own key and no other. */
  ghost predicate SignatureKept(p: Primitives, electionId: string, m: Manifest) {
    m.digitalSignature.Some? ==>
      var s := m.digitalSignature.value;
      && s.payload.electionId == electionId
      && forall k :: p.verify(k, s.payload, s.signature) <==> k == s.publicKey
  }

  /** The signature, if there is one, is over the stored manifest hash. */
  predicate SignatureFits(m: Manifest) {
    m.digitalSignature.Some? ==> m.digitalSignature.value.payload.manifestHash == m.manifestHash
  }

  /** The verifier is given no key, or the key that signed. */
  predicate KeyMatches(m: Manifest, key: Option<string>) {
    OrElse(key, "") != "" && m.digitalSignature.Some? ==> key == Some(m.digitalSignature.value.publicKey)
  }

  lemma SignatureMeansFits(p: Primitives, v: View, m: Manifest, key: Option<string>)
    requires v.manifest == Some(m) && SignatureKept(p, v.election.id, m)
    ensures SignatureCurrent(p, v, key) <==> SignatureFits(m) && KeyMatches(m, key)
  {
  }

  /** The row keeps its own hash and signature, and its hash belongs to no other data the verifier may rebuild. */
  ghost predicate ManifestKept(p: Primitives, v: View, m: Manifest, exportedAt: string) {
    && OwnHash(p, m)
    && SignatureKept(p, v.election.id, m)
    && NoManifestCollision(p, DataOf(m), RebuiltManifest(p, ExportBody(v, exportedAt), m))
  }

  /** No manifest, or one that states the current rows. */
  ghost predicate StatesRows(p: Primitives, v: View) {
    v.manifest.Some? ==> ManifestCurrent(p, v, v.manifest.value)
  }

  /** No signature, or one over the stored manifest hash and by the expected key. */
  predicate SignedByKey(v: View, key: Option<string>) {
    v.manifest.Some? ==> SignatureFits(v.manifest.value) && KeyMatches(v.manifest.value, key)
  }

  /** The twelve verdicts on the export of well-kept rows, each in terms of the rows. */
  lemma ExportVerdicts(p: Primitives, v: View, exportedAt: string, key: Option<string>, receipt: Option<AnchorReceipt>)
    requires p.Sound() && RowsGood(p, v)
    requires v.election.configurationHash.Some? ==> ConfigurationCurrent(p, v)
    requires v.manifest.Some? ==> ManifestKept(p, v, v.manifest.value, exportedAt)
    ensures ChecksOf(p, ExportView(p, v, exportedAt), key, receipt) ==
            Checks(true, ConfigurationCurrent(p, v), true, true, true, true, true, true, true,
                   StatesRows(p, v), SignedByKey(v, key), ReceiptKnown(v.log, receipt))
  {
    ExportChecks(p, v, exportedAt, key, receipt);
    if v.manifest.Some? {
      ManifestHashMeansCurrent(p, v, v.manifest.value, exportedAt);
      SignatureMeansFits(p, v, v.manifest.value, key);
    }
    hide RowsGood, ChecksOf, ExportView, ConfigurationCurrent, ManifestCurrent, SignatureKept, SignatureFits,
         KeyMatches, ReceiptKnown, RebuiltManifest;
  }

  /**
   * Acceptance, exactly, in terms of the rows: the configuration is locked, the manifest (if any) states the current
   * counts and configuration, its signature (if any) is over it and by the expected key, and the receipt (if any) is
   * for a hash in the log.
   */
  lemma AcceptedExactlyWhen(p: Primitives, v: View, exportedAt: string, key: Option<string>,
                            receipt: Option<AnchorReceipt>)
    requires p.Sound() && RowsGood(p, v)
    requires v.election.configurationHash.Some? ==> ConfigurationCurrent(p, v)
    requires v.manifest.Some? ==> ManifestKept(p, v, v.manifest.value, exportedAt)
    ensures ReportOf(p, ExportView(p, v, exportedAt), key, receipt).valid <==>
            && ConfigurationCurrent(p, v)
            && StatesRows(p, v)
            && SignedByKey(v, key)
            && ReceiptKnown(v.log, receipt)
  {
    ExportVerdicts(p, v, exportedAt, key, receipt);
    ValidMeansAllChecks(p, ExportView(p, v, exportedAt), key, receipt);
    hide RowsGood, ReportOf, ExportView, ConfigurationCurrent, ManifestCurrent, SignatureFits, KeyMatches, ReceiptKnown,
         ChecksOf;
  }
}
