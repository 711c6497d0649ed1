/** Which failures the standalone verifier reports for an archive, in terms of the archive's own rows. */
module Findings {
  import opened Prelude
  import opened Sorting
  import opened Records
  import opened Hashing
  import opened AuditChain
  import opened Verifier
  import opened VerifierFacts
  import opened Verdicts

  /** What ballot x is reported for. */
  ghost predicate BallotFault(p: Primitives, b: ArchiveBody, x: ArchiveBallot, f: Failure) {
    || (f == BallotHashMismatch(x.id) && !HashHolds(p, b.election.id, x))
    || (f == UnknownCandidate(x.candidateId) && !KnownCandidate(b, x.candidateId))
    || (f == UnknownDevice(x.deviceId) && !KnownDevice(b, x.deviceId))
  }

  /** n is the number of the latest ballot of device d among the first k, 0 if there is none. */
  ghost predicate Latest(ballots: seq<ArchiveBallot>, d: string, k: nat, n: int)
    requires k <= |ballots|
  {
    || (n == 0 && forall i :: 0 <= i < k ==> ballots[i].deviceId != d)
    || (exists i :: 0 <= i < k && ballots[i].deviceId == d && ballots[i].sequenceNumber == n
                    && forall j :: i < j < k ==> ballots[j].deviceId != d)
  }

  /** Ballot i repeats or lowers the number of the ballot before it on its device. */
  ghost predicate NumberFault(b: ArchiveBody, i: nat, f: Failure)
    requires i < |b.ballots|
  {
    && f.SequenceInvalid? && f.device == b.ballots[i].deviceId && KnownDevice(b, f.device)
    && f.found == b.ballots[i].sequenceNumber <= f.last
    && Latest(b.ballots, f.device, i, f.last)
  }

  /** What the entry in place i of the log is reported for. */
  predicate EntryFault(p: Primitives, log: seq<ArchiveEntry>, i: nat, f: Failure)
    requires i < |log|
  {
    var n := log[i].sequenceNumber;
    || (f == SequenceJump(i + 1, n) && n != i + 1)
    || (f == PreviousHashBreak(n) && log[i].previousHash != (if i == 0 then None else Some(log[i - 1].entryHash)))
    || (f == EntryHashMismatch(n) && log[i].entryHash != p.sha256(EntryLine(log[i])))
  }

  lemma BallotFaultMeans(p: Primitives, b: ArchiveBody, x: ArchiveBallot, f: Failure)
    ensures f in FaultFinder(p, b.election.id, CandidateIds(b.candidates), DeviceIds(b.devices))(x)
            <==> BallotFault(p, b, x, f)
  {
    KnownMeans(b);
    BallotMeans(p, b, x);
    hide CandidateIds, DeviceIds, KnownCandidate, KnownDevice, HashHolds, BallotHashGood;
  }

  lemma BallotFaultsMean(p: Primitives, b: ArchiveBody, f: Failure)
    ensures f in BallotFailures(p, b) <==> exists i :: 0 <= i < |b.ballots| && BallotFault(p, b, b.ballots[i], f)
  {
    var finder := FaultFinder(p, b.election.id, CandidateIds(b.candidates), DeviceIds(b.devices));
    FlatMapHas(finder, b.ballots, f);
    hide BallotFault, FaultFinder, FlatMap;
    forall i | 0 <= i < |b.ballots|
      ensures f in finder(b.ballots[i]) <==> BallotFault(p, b, b.ballots[i], f)
    {
      BallotFaultMeans(p, b, b.ballots[i], f);
    }
  }

  ghost predicate SomeEntryFault(p: Primitives, log: seq<ArchiveEntry>, n: nat, f: Failure)
    requires n <= |log|
  {
    exists i :: 0 <= i < n && EntryFault(p, log, i, f)
  }

  lemma EntryFaultMeans(p: Primitives, log: seq<ArchiveEntry>, i: nat, f: Failure)
    requires i < |log|
    ensures f in EntryFaults(p, log, i) <==> EntryFault(p, log, i, f)
  {
    EntryLineMeans(p, log[i]);
    hide ArchivedHash, EntryLine;
  }

  lemma SomeEntryMore(p: Primitives, log: seq<ArchiveEntry>, n: nat, f: Failure)
    requires n < |log|
    ensures SomeEntryFault(p, log, n + 1, f) <==> SomeEntryFault(p, log, n, f) || EntryFault(p, log, n, f)
  {
    hide EntryFault;
  }

  lemma ChainFaultsByEntry(p: Primitives, log: seq<ArchiveEntry>, n: nat)
    requires n <= |log|
    ensures ChainFaults(p, log, n) == if n == 0 then [] else ChainFaults(p, log, n - 1) + EntryFaults(p, log, n - 1)
    ensures forall f :: !SomeEntryFault(p, log, 0, f)
  {
    hide EntryFaults, EntryFault;
  }

  lemma {:induction false} ChainFaultsMean(p: Primitives, log: seq<ArchiveEntry>, n: nat, f: Failure)
    requires n <= |log|
    ensures f in ChainFaults(p, log, n) <==> SomeEntryFault(p, log, n, f)
  {
    hide *;
    ChainFaultsByEntry(p, log, n);
    if n > 0 {
      ChainFaultsMean(p, log, n - 1, f);
      EntryFaultMeans(p, log, n - 1, f);
      SomeEntryMore(p, log, n - 1, f);
    }
  }

  // ---------- sequence numbers ----------

  function LastOr0(s: seq<int>): int {
    if s == [] then 0 else s[|s| - 1]
  }

  lemma LatestUnique(ballots: seq<ArchiveBallot>, d: string, k: nat, m: int, n: int)
    requires k <= |ballots| && Latest(ballots, d, k, m) && Latest(ballots, d, k, n)
    ensures m == n
  {
  }

  lemma LatestStep(ballots: seq<ArchiveBallot>, d: string, k: nat, n: int)
    requires k < |ballots| && Latest(ballots, d, k, n)
    ensures Latest(ballots, d, k + 1, if ballots[k].deviceId == d then ballots[k].sequenceNumber else n)
  {
  }

  lemma LastOfLonger(s: seq<int>, v: int)
    ensures LastOr0([]) == 0 && LastOr0(s + [v]) == v
  {
  }

  lemma SequenceOfPrefix(ballots: seq<ArchiveBallot>, d: string, k: nat)
    requires k <= |ballots|
    ensures SequenceOf(ballots[..k], d) ==
            if k == 0 then []
            else SequenceOf(ballots[..k - 1], d)
                 + (if ballots[k - 1].deviceId == d then [ballots[k - 1].sequenceNumber] else [])
  {
    if k > 0 {
      assert ballots[..k] == ballots[..k - 1] + [ballots[k - 1]];
      SequenceOfAppend(ballots[..k - 1], ballots[k - 1], d);
      hide SequenceOf;
    }
  }

  lemma {:induction false} LatestMeans(ballots: seq<ArchiveBallot>, d: string, k: nat)
    requires k <= |ballots|
    ensures Latest(ballots, d, k, LastOr0(SequenceOf(ballots[..k], d)))
  {
    hide *;
    SequenceOfPrefix(ballots, d, k);
    if k == 0 {
      NoneLatest(ballots, d);
      LastOfLonger([], 0);
    } else {
      LatestMeans(ballots, d, k - 1);
      var s := SequenceOf(ballots[..k - 1], d);
      LatestStep(ballots, d, k - 1, LastOr0(s));
      LastOfLonger(s, ballots[k - 1].sequenceNumber);
      assert s + [] == s;
    }
  }

  lemma NoneLatest(ballots: seq<ArchiveBallot>, d: string)
    ensures Latest(ballots, d, 0, 0)
  {
  }

  lemma {:induction false} FaultsOfPrefix(d: string, s: seq<int>, v: int, n: nat)
    requires n <= |s|
    ensures SequenceFaults(d, s + [v], n) == SequenceFaults(d, s, n)
  {
    if n > 0 {
      FaultsOfPrefix(d, s, v, n - 1);
    }
  }

  lemma FaultsAppend(d: string, s: seq<int>, v: int, f: Failure)
    ensures f in SequenceFaults(d, s + [v], |s| + 1) <==>
            f in SequenceFaults(d, s, |s|) || (v <= LastOr0(s) && f == SequenceInvalid(d, v, LastOr0(s)))
  {
    FaultsOfPrefix(d, s, v, |s|);
  }

  ghost predicate OnDevice(b: ArchiveBody, d: string, i: nat, f: Failure)
    requires i < |b.ballots|
  {
    b.ballots[i].deviceId == d && NumberFault(b, i, f)
  }

  lemma OneNumberFault(b: ArchiveBody, d: string, i: nat, f: Failure)
    requires KnownDevice(b, d) && i < |b.ballots| && b.ballots[i].deviceId == d
    ensures var last, v := LastOr0(SequenceOf(b.ballots[..i], d)), b.ballots[i].sequenceNumber;
            OnDevice(b, d, i, f) <==> v <= last && f == SequenceInvalid(d, v, last)
  {
    LatestMeans(b.ballots, d, i);
    hide SequenceOf, Latest, KnownDevice;
    if NumberFault(b, i, f) {
      LatestUnique(b.ballots, d, i, f.last, LastOr0(SequenceOf(b.ballots[..i], d)));
    }
  }

  ghost predicate SomeOnDevice(b: ArchiveBody, d: string, k: nat, f: Failure)
    requires k <= |b.ballots|
  {
    exists i :: 0 <= i < k && OnDevice(b, d, i, f)
  }

  lemma SomeMore(b: ArchiveBody, d: string, k: nat, f: Failure)
    requires k < |b.ballots|
    ensures SomeOnDevice(b, d, k + 1, f) <==> SomeOnDevice(b, d, k, f) || OnDevice(b, d, k, f)
  {
    hide OnDevice;
  }

  lemma {:induction false} DeviceFaultsMean(b: ArchiveBody, d: string, k: nat, f: Failure)
    requires KnownDevice(b, d) && k <= |b.ballots|
    ensures var s := SequenceOf(b.ballots[..k], d); f in SequenceFaults(d, s, |s|) <==> SomeOnDevice(b, d, k, f)
  {
    hide *;
    SequenceOfPrefix(b.ballots, d, k);
    if k == 0 {
      NoFaults(b, d, f);
    } else {
      var x, s := b.ballots[k - 1], SequenceOf(b.ballots[..k - 1], d);
      DeviceFaultsMean(b, d, k - 1, f);
      SomeMore(b, d, k - 1, f);
      if x.deviceId == d {
        FaultsAppend(d, s, x.sequenceNumber, f);
        OneNumberFault(b, d, k - 1, f);
      } else {
        assert s + [] == s;
        OtherDevice(b, d, k - 1, f);
      }
    }
  }

  lemma NoFaults(b: ArchiveBody, d: string, f: Failure)
    ensures !SomeOnDevice(b, d, 0, f) && SequenceFaults(d, [], 0) == []
  {
  }

  lemma OtherDevice(b: ArchiveBody, d: string, i: nat, f: Failure)
    requires i < |b.ballots| && b.ballots[i].deviceId != d
    ensures !OnDevice(b, d, i, f)
  {
  }

  lemma NumberFaultsMean(b: ArchiveBody, f: Failure)
    ensures f in SequenceFailures(b) <==> exists i :: 0 <= i < |b.ballots| && NumberFault(b, i, f)
  {
    var m, order := Sequences(DeviceIds(b.devices), b.ballots), Distinct(Names(b.devices));
    KnownMeans(b);
    FlatMapHas(DeviceSequenceFaults(m), order, f);
    assert b.ballots[..|b.ballots|] == b.ballots;
    hide SequenceOf, SequenceFaults, KnownDevice, NumberFault, FlatMap, DeviceIds, SomeOnDevice;
    forall d
      ensures d in order <==> KnownDevice(b, d)
    {
      NamesAreKeys(b.devices, d);
    }
    forall d | KnownDevice(b, d)
      ensures f in DeviceSequenceFaults(m)(d) <==> SomeOnDevice(b, d, |b.ballots|, f)
    {
      DeviceFaultsMean(b, d, |b.ballots|, f);
    }
    hide Sequences, DeviceSequenceFaults, OnDevice, Distinct, Names;
    NumberFaultsByDevice(b, f);
    if d :| KnownDevice(b, d) && SomeOnDevice(b, d, |b.ballots|, f) {
      var x :| 0 <= x < |order| && order[x] == d;
    }
  }

  lemma NumberFaultsByDevice(b: ArchiveBody, f: Failure)
    ensures (exists i :: 0 <= i < |b.ballots| && NumberFault(b, i, f))
            <==> exists d :: KnownDevice(b, d) && SomeOnDevice(b, d, |b.ballots|, f)
  {
    hide KnownDevice, Latest;
    if i :| 0 <= i < |b.ballots| && NumberFault(b, i, f) {
      assert OnDevice(b, b.ballots[i].deviceId, i, f);
    }
  }

  // ---------- the failure list ----------

  /** Some ballots name an unknown candidate, or an unknown device: how many, and how many name a known one. */
  predicate DriftFault(b: ArchiveBody, f: Failure) {
    var c := |Unknown(CandidateOf(), CandidateIds(b.candidates), b.ballots)|;
    var d := |Unknown(DeviceOf(), DeviceIds(b.devices), b.ballots)|;
    c + d > 0 && f == ReconciliationFailure(c + d, |b.ballots| - c, |b.ballots| - d, |b.ballots|)
  }

  lemma DriftFaultMeans(b: ArchiveBody, f: Failure)
    ensures f in ReconciliationFailures(b) <==> DriftFault(b, f)
  {
    DriftMeaning(b);
    RecountSum(CandidateOf(), CandidateIds(b.candidates), b.ballots);
    RecountSum(DeviceOf(), DeviceIds(b.devices), b.ballots);
    hide Unknown, Recount, CandidateIds, DeviceIds, Drift;
  }

  /** What in the archive's rows calls for the failure. */
  ghost predicate RowsCallFor(p: Primitives, b: ArchiveBody, f: Failure)
    requires |Sort(SequenceLe, b.auditLog)| == |b.auditLog|
  {
    || (exists i :: 0 <= i < |b.ballots| && BallotFault(p, b, b.ballots[i], f))
    || (exists i :: 0 <= i < |b.ballots| && NumberFault(b, i, f))
    || DriftFault(b, f)
    || SomeEntryFault(p, Sort(SequenceLe, b.auditLog), |b.auditLog|, f)
  }

  lemma RowFailuresMean(p: Primitives, b: ArchiveBody, f: Failure)
    requires |Sort(SequenceLe, b.auditLog)| == |b.auditLog|
    ensures f in RecordFailures(p, b) <==> RowsCallFor(p, b, f)
  {
    BallotFaultsMean(p, b, f);
    NumberFaultsMean(b, f);
    DriftFaultMeans(b, f);
    ChainFaultsMean(p, Sort(SequenceLe, b.auditLog), |b.auditLog|, f);
    hide BallotFault, NumberFault, DriftFault, SomeEntryFault, Sort, BallotFailures, SequenceFailures,
         ReconciliationFailures, ChainFaults;
  }

  /** What in the archive calls for the failure. */
  ghost predicate CallsFor(p: Primitives, a: Archive, key: Option<string>, receipt: Option<AnchorReceipt>, f: Failure)
    requires |Sort(SequenceLe, a.body.auditLog)| == |a.body.auditLog|
  {
    || RowsCallFor(p, a.body, f)
    || (f == EnvelopeMismatch && !Digests(p, a.exportHash, p.archiveJson(a.body)))
    || (f == ConfigurationMismatch && !ConfigurationGood(p, a.body))
    || (f == ManifestMismatch && !ManifestGood(p, a.body))
    || (f == SignatureInvalid && !SignatureHolds(p, a.body, key))
    || (f == AnchorMismatch && !AnchorGood(a.body, receipt))
  }

  lemma FailuresParts(p: Primitives, a: Archive, key: Option<string>, receipt: Option<AnchorReceipt>, f: Failure)
    ensures ReportOf(p, a, key, receipt).failures == FailuresOf(p, a, key, receipt)
    ensures f in FailuresOf(p, a, key, receipt) <==>
              || f in RecordFailures(p, a.body)
              || (f == EnvelopeMismatch && !EnvelopeAccepted(p, a))
              || (f == ConfigurationMismatch && !ConfigurationAccepted(p, a.body))
              || (f == ManifestMismatch && !ManifestAccepted(p, a.body))
              || (f == SignatureInvalid && !SignatureAccepted(p, a.body, key))
              || (f == AnchorMismatch && !AnchorAccepted(Sort(SequenceLe, a.body.auditLog), receipt))
  {
    hide ChecksOf, ConfigurationAccepted, EnvelopeAccepted, Sort, ManifestAccepted, SignatureAccepted, AnchorAccepted,
         RecordFailures, Drift, LastHash, CandidateIds, DeviceIds;
  }

  lemma ChecksParts(p: Primitives, a: Archive, key: Option<string>, receipt: Option<AnchorReceipt>)
    ensures var c := ReportOf(p, a, key, receipt).checks;
            && c.exportEnvelope == EnvelopeAccepted(p, a) && c.configuration == ConfigurationAccepted(p, a.body)
            && c.manifest == ManifestAccepted(p, a.body) && c.signature == SignatureAccepted(p, a.body, key)
            && c.anchor == AnchorAccepted(Sort(SequenceLe, a.body.auditLog), receipt)
  {
    hide FailuresOf, ConfigurationAccepted, EnvelopeAccepted, Sort, ManifestAccepted, SignatureAccepted,
         AnchorAccepted, RecordChecksOf, Drift, LastHash, CandidateIds, DeviceIds;
  }

  /**
   * Every failure the verifier reports has its reason in the archive, and every reason is reported: a ballot's own
   * fields, its number against the ballot before it on its device, the number of ballots that name nobody, an entry's
   * place, link and digest, and the digests and the signature of the archive as a whole.
   */
  lemma FailuresMean(p: Primitives, a: Archive, key: Option<string>, receipt: Option<AnchorReceipt>, f: Failure)
    ensures |Sort(SequenceLe, a.body.auditLog)| == |a.body.auditLog|
    ensures f in ReportOf(p, a, key, receipt).failures <==> CallsFor(p, a, key, receipt, f)
  {
    SortElements(SequenceLe, a.body.auditLog);
    ChecksMean(p, a, key, receipt);
    RowFailuresMean(p, a.body, f);
    FailuresParts(p, a, key, receipt, f);
    ChecksParts(p, a, key, receipt);
    hide ReportOf, ChecksOf, FailuresOf, Digests, ConfigurationGood, ConfigurationAccepted, EnvelopeAccepted, Sort,
         ManifestGood, ManifestAccepted, SignatureHolds, SignatureAccepted, AnchorGood, AnchorAccepted, RecordFailures,
         RowsCallFor;
  }

  /** The summary counts the rows, names the election and the last entry that has a hash, and states the drift. */
  lemma SummaryMeans(p: Primitives, a: Archive, key: Option<string>, receipt: Option<AnchorReceipt>)
    ensures var b, summary := a.body, ReportOf(p, a, key, receipt).summary;
            && summary.Some?
            && summary.value.electionId == b.election.id
            && summary.value.totalBallots == |b.ballots|
            && summary.value.candidates == |set i | 0 <= i < |b.candidates| :: b.candidates[i].id|
            && summary.value.devices == |set i | 0 <= i < |b.devices| :: b.devices[i].id|
            && summary.value.auditEntries == |b.auditLog|
            && summary.value.drift == |Unknown(CandidateOf(), CandidateIds(b.candidates), b.ballots)|
                                      + |Unknown(DeviceOf(), DeviceIds(b.devices), b.ballots)|
    ensures (forall i :: 0 <= i < |a.body.auditLog| ==> a.body.auditLog[i].entryHash != "") && a.body.auditLog != [] ==>
              exists i :: 0 <= i < |a.body.auditLog|
                && ReportOf(p, a, key, receipt).summary.value.auditRootHash == a.body.auditLog[i].entryHash
                && forall j :: 0 <= j < |a.body.auditLog| ==>
                     a.body.auditLog[j].sequenceNumber <= a.body.auditLog[i].sequenceNumber
  {
    DriftMeaning(a.body);
    LatestHash(a.body.auditLog);
    hide ChecksOf, FailuresOf, Sort, LastHash, Drift, Unknown;
    SortElements(SequenceLe, a.body.auditLog);
  }

  lemma LatestHash(entries: seq<ArchiveEntry>)
    ensures var log := Sort(SequenceLe, entries);
            (forall i :: 0 <= i < |entries| ==> entries[i].entryHash != "") && entries != [] ==>
              exists i :: 0 <= i < |entries| && LastHash(log, |log|) == entries[i].entryHash
                && forall j :: 0 <= j < |entries| ==> entries[j].sequenceNumber <= entries[i].sequenceNumber
  {
    var log := Sort(SequenceLe, entries);
    SortElements(SequenceLe, entries);
    assert TotalPreorder(SequenceLe);
    SortSorted(SequenceLe, entries);
    if (forall i :: 0 <= i < |entries| ==> entries[i].entryHash != "") && entries != [] {
      var last := log[|log| - 1];
      assert last in entries;
      hide Sort;
      var i :| 0 <= i < |entries| && entries[i] == last;
      assert LastHash(log, |log|) == last.entryHash;
      forall j | 0 <= j < |entries|
        ensures entries[j].sequenceNumber <= last.sequenceNumber
      {
        assert entries[j] in log;
        var k :| 0 <= k < |log| && log[k] == entries[j];
        assert k < |log| - 1 ==> SequenceLe(log[k], log[|log| - 1]);
      }
    }
  }
}
