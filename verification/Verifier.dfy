/** The standalone verifier: what each of its twelve checks means, and the loops that compute them. */
module Verifier {
  import opened Prelude
  import opened Text
  import opened Timestamps
  import opened Sorting
  import opened Grouping
  import opened Records
  import opened Hashing
  import opened AuditChain

  datatype Failure =
    | InvalidExportStructure
    | EnvelopeMismatch
    | ConfigurationMismatch
    | BallotHashMismatch(ballotId: string)
    | UnknownCandidate(candidateId: string)
    | UnknownDevice(deviceId: string)
    | SequenceInvalid(device: string, found: int, last: int)
    | ReconciliationFailure(drift: int, candidateSum: int, deviceSum: int, total: int)
    | SequenceJump(expected: int, got: int)
    | PreviousHashBreak(at: int)
    | EntryHashMismatch(at: int)
    | ManifestMismatch
    | SignatureInvalid
    | AnchorMismatch

  datatype Checks = Checks(
    exportEnvelope: bool, configuration: bool, ballotHashes: bool, ballotSequence: bool,
    candidateTotals: bool, deviceTotals: bool, reconciliation: bool, auditChain: bool,
    auditRoot: bool, manifest: bool, signature: bool, anchor: bool)
  {
    predicate All() {
      && exportEnvelope && configuration && ballotHashes && ballotSequence
      && candidateTotals && deviceTotals && reconciliation && auditChain
      && auditRoot && manifest && signature && anchor
    }
  }

  datatype Summary = Summary(
    electionId: string, totalBallots: nat, candidates: nat, devices: nat, auditEntries: nat,
    auditRootHash: string, drift: int)

  /** The results dictionary; an export that is refused for its structure has an empty summary. */
  datatype Report = Report(valid: bool, checks: Checks, failures: seq<Failure>, summary: Option<Summary>)

  function FailIf(bad: bool, f: Failure): seq<Failure> {
    if bad then [f] else []
  }

  // ---------- configuration and envelope ----------

  /** `stored and stored.lower() == computed.lower()` */
  predicate HashAccepted(stored: string, computed: string) {
    stored != "" && Lower(stored) == Lower(computed)
  }

  predicate EnvelopeAccepted(p: Primitives, a: Archive) {
    HashAccepted(a.exportHash, p.sha256(p.archiveJson(a.body)))
  }

  function RecomputedConfiguration(p: Primitives, b: ArchiveBody): string {
    ConfigurationHash(p, b.election.id, b.candidates)
  }

  predicate ConfigurationAccepted(p: Primitives, b: ArchiveBody) {
    HashAccepted(OrElse(b.election.configurationHash, ""), RecomputedConfiguration(p, b))
  }

  // ---------- ballots ----------

  function CandidateOf(): ArchiveBallot -> string {
    (b: ArchiveBallot) => b.candidateId
  }

  function DeviceOf(): ArchiveBallot -> string {
    (b: ArchiveBallot) => b.deviceId
  }

  function NumberOf(): ArchiveBallot -> int {
    (b: ArchiveBallot) => b.sequenceNumber
  }

  function CandidateIds(cs: seq<CandidateInfo>): set<string> {
    set i | 0 <= i < |cs| :: cs[i].id
  }

  function DeviceIds(ds: seq<Device>): set<string> {
    set i | 0 <= i < |ds| :: ds[i].id
  }

  predicate BallotHashGood(p: Primitives, electionId: string, b: ArchiveBallot) {
    b.ballotHash == BallotHash(p, electionId, b.sessionId, b.candidateId, b.deviceId,
                               b.sequenceNumber, Normalise(b.recordedAt))
  }

  predicate BallotGood(p: Primitives, electionId: string, cids: set<string>, dids: set<string>, b: ArchiveBallot) {
    BallotHashGood(p, electionId, b) && b.candidateId in cids && b.deviceId in dids
  }

  function BallotFaults(p: Primitives, electionId: string, cids: set<string>, dids: set<string>, b: ArchiveBallot)
    : (fs: seq<Failure>)
    ensures fs == [] <==> BallotGood(p, electionId, cids, dids, b)
  {
    FailIf(!BallotHashGood(p, electionId, b), BallotHashMismatch(b.id))
    + FailIf(b.candidateId !in cids, UnknownCandidate(b.candidateId))
    + FailIf(b.deviceId !in dids, UnknownDevice(b.deviceId))
  }

  function FaultFinder(p: Primitives, electionId: string, cids: set<string>, dids: set<string>)
    : ArchiveBallot -> seq<Failure>
  {
    (b: ArchiveBallot) => BallotFaults(p, electionId, cids, dids, b)
  }

  ghost predicate BallotsAccepted(p: Primitives, electionId: string, cids: set<string>, dids: set<string>,
                                  ballots: seq<ArchiveBallot>)
  {
    forall b :: b in ballots ==> BallotGood(p, electionId, cids, dids, b)
  }

  /** The per-key recount: one entry for every known key, zero where no ballot names it. */
  function Recount(key: ArchiveBallot -> string, ids: set<string>, ballots: seq<ArchiveBallot>): map<string, int> {
    map k | k in ids :: CountOf(key, ballots, k)
  }

  lemma EveryKeyCounted(key: ArchiveBallot -> string, ids: set<string>, ballots: seq<ArchiveBallot>)
    ensures |Recount(key, ids, ballots)| == |ids|
  {
    assert Recount(key, ids, ballots).Keys == ids;
  }

  /** `d[k] += 1` for a known key. */
  function Bump(m: map<string, int>, k: string): map<string, int> {
    if k in m then m[k := m[k] + 1] else m
  }

  lemma RecountAppend(key: ArchiveBallot -> string, ids: set<string>, ballots: seq<ArchiveBallot>, b: ArchiveBallot)
    ensures Recount(key, ids, ballots + [b]) == Bump(Recount(key, ids, ballots), key(b))
  {
    hide CountOf;
    forall k | k in ids
      ensures CountOf(key, ballots + [b], k) == CountOf(key, ballots, k) + (if key(b) == k then 1 else 0)
    {
      CountAppend(key, ballots, b, k);
    }
  }

  /** The sequence numbers of one device's ballots, in archive order. */
  function SequenceOf(ballots: seq<ArchiveBallot>, did: string): seq<int> {
    Map(NumberOf(), Filter(Keyed(DeviceOf(), did), ballots))
  }

  function Sequences(dids: set<string>, ballots: seq<ArchiveBallot>): map<string, seq<int>> {
    map d | d in dids :: SequenceOf(ballots, d)
  }

  lemma SequenceOfAppend(ballots: seq<ArchiveBallot>, b: ArchiveBallot, d: string)
    ensures SequenceOf(ballots + [b], d)
            == SequenceOf(ballots, d) + (if b.deviceId == d then [b.sequenceNumber] else [])
  {
    FilterAppend(Keyed(DeviceOf(), d), ballots, b);
  }

  /** `device_sequences[did].append(seq)` for a known device. */
  function Extend(m: map<string, seq<int>>, d: string, n: int): map<string, seq<int>> {
    if d in m then m[d := m[d] + [n]] else m
  }

  lemma SequencesAppend(dids: set<string>, ballots: seq<ArchiveBallot>, b: ArchiveBallot)
    ensures Sequences(dids, ballots + [b]) == Extend(Sequences(dids, ballots), b.deviceId, b.sequenceNumber)
  {
    hide SequenceOf;
    var m, m' := Sequences(dids, ballots), Sequences(dids, ballots + [b]);
    var x := Extend(m, b.deviceId, b.sequenceNumber);
    assert m.Keys == dids && m'.Keys == dids && x.Keys == dids;
    forall d | d in dids ensures m'[d] == x[d] {
      SequenceOfAppend(ballots, b, d);
      assert m'[d] == SequenceOf(ballots + [b], d);
      assert m[d] == SequenceOf(ballots, d);
    }
  }

  lemma BallotFaultsEmpty(p: Primitives, electionId: string, cids: set<string>, dids: set<string>,
                          ballots: seq<ArchiveBallot>)
    ensures FlatMap(FaultFinder(p, electionId, cids, dids), ballots) == []
            <==> BallotsAccepted(p, electionId, cids, dids, ballots)
  {
    var f := FaultFinder(p, electionId, cids, dids);
    FlatMapEmpty(f, ballots);
    assert forall b :: f(b) == [] <==> BallotGood(p, electionId, cids, dids, b);
  }

  /** The body of the ballot loop for one ballot, with the findings it adds. */
  method JudgeBallot(p: Primitives, electionId: string, cids: set<string>, dids: set<string>, b: ArchiveBallot)
    returns (findings: seq<Failure>)
    ensures findings == BallotFaults(p, electionId, cids, dids, b)
    ensures BallotHashMismatch(b.id) in findings <==>
            b.ballotHash != p.sha256(BallotText(electionId, b.sessionId, b.candidateId, b.deviceId, b.sequenceNumber,
                                                Normalise(b.recordedAt)))
    ensures UnknownCandidate(b.candidateId) in findings <==> b.candidateId !in cids
    ensures UnknownDevice(b.deviceId) in findings <==> b.deviceId !in dids
  {
    findings := [];
    if !BallotHashGood(p, electionId, b) {
      findings := findings + [BallotHashMismatch(b.id)];
    }
    if b.candidateId !in cids {
      findings := findings + [UnknownCandidate(b.candidateId)];
    }
    if b.deviceId !in dids {
      findings := findings + [UnknownDevice(b.deviceId)];
    }
  }

  lemma NothingTallied(key: ArchiveBallot -> string, cids: set<string>, dids: set<string>)
    ensures Recount(key, cids, []) == map k | k in cids :: 0
    ensures Sequences(dids, []) == map k | k in dids :: []
  {
    assert Map(NumberOf(), []) == [];
  }

  method TallyBallots(p: Primitives, electionId: string, cids: set<string>, dids: set<string>,
                      ballots: seq<ArchiveBallot>)
    returns (valid: bool, candidateTotals: map<string, int>, deviceTotals: map<string, int>,
             sequences: map<string, seq<int>>, failures: seq<Failure>)
    ensures valid <==> BallotsAccepted(p, electionId, cids, dids, ballots)
    ensures candidateTotals == Recount(CandidateOf(), cids, ballots)
    ensures deviceTotals == Recount(DeviceOf(), dids, ballots)
    ensures sequences == Sequences(dids, ballots)
    ensures failures == FlatMap(FaultFinder(p, electionId, cids, dids), ballots)
  {
    hide Recount, Sequences, FlatMap, Bump, Extend, BallotFaults, BallotsAccepted;
    NothingTallied(CandidateOf(), cids, dids);
    NothingTallied(DeviceOf(), dids, dids);
    FlatMapNil(FaultFinder(p, electionId, cids, dids));
    assert ballots[..0] == [];
    failures := [];
    candidateTotals := map k | k in cids :: 0;
    deviceTotals := map k | k in dids :: 0;
    sequences := map k | k in dids :: [];
    valid := true;
    var i := 0;
    while i < |ballots|
      invariant 0 <= i <= |ballots|
      invariant candidateTotals == Recount(CandidateOf(), cids, ballots[..i])
      invariant deviceTotals == Recount(DeviceOf(), dids, ballots[..i])
      invariant sequences == Sequences(dids, ballots[..i])
      invariant failures == FlatMap(FaultFinder(p, electionId, cids, dids), ballots[..i])
      invariant valid <==> failures == []
    {
      var b := ballots[i];
      assert ballots[..i + 1] == ballots[..i] + [b];
      RecountAppend(CandidateOf(), cids, ballots[..i], b);
      RecountAppend(DeviceOf(), dids, ballots[..i], b);
      SequencesAppend(dids, ballots[..i], b);
      FlatMapAppend(FaultFinder(p, electionId, cids, dids), ballots[..i], b);
      candidateTotals := Bump(candidateTotals, b.candidateId);
      deviceTotals := Bump(deviceTotals, b.deviceId);
      sequences := Extend(sequences, b.deviceId, b.sequenceNumber);
      var findings := JudgeBallot(p, electionId, cids, dids, b);
      valid := valid && findings == [];
      failures := failures + findings;
      i := i + 1;
    }
    assert ballots[..|ballots|] == ballots;
    BallotFaultsEmpty(p, electionId, cids, dids, ballots);
  }

  // ---------- replay protection ----------

  function LastBefore(s: seq<int>, i: nat): int
    requires i < |s|
  {
    if i == 0 then 0 else s[i - 1]
  }

  ghost predicate StrictlyIncreasingPositive(s: seq<int>) {
    && (forall i :: 0 <= i < |s| ==> s[i] > 0)
    && (forall i, j :: 0 <= i < j < |s| ==> s[i] < s[j])
  }

  /** No position below n at which the verifier's replay test `s <= last_seq` fires. */
  ghost predicate NoReplay(s: seq<int>, n: nat)
    requires n <= |s|
  {
    forall i :: 0 <= i < n ==> s[i] > LastBefore(s, i)
  }

  lemma {:induction false} NoReplayClimbs(s: seq<int>, i: nat, j: nat)
    requires i <= j < |s| && NoReplay(s, |s|)
    ensures 0 < s[i] <= s[j] && (i < j ==> s[i] < s[j])
    decreases j
  {
    assert s[j] > LastBefore(s, j);
    if i < j {
      NoReplayClimbs(s, i, j - 1);
    } else if j > 0 {
      NoReplayClimbs(s, j - 1, j - 1);
    }
  }

  /** The sequence loop succeeds exactly on strictly increasing positive lists. */
  lemma NoReplayMeansIncreasing(s: seq<int>)
    ensures NoReplay(s, |s|) <==> StrictlyIncreasingPositive(s)
  {
    if NoReplay(s, |s|) {
      forall i, j | 0 <= i < j < |s| ensures s[i] < s[j] {
        NoReplayClimbs(s, i, j);
      }
      forall i | 0 <= i < |s| ensures s[i] > 0 {
        NoReplayClimbs(s, i, i);
      }
    }
  }

  function SequenceFaults(did: string, s: seq<int>, n: nat): seq<Failure>
    requires n <= |s|
  {
    if n == 0 then []
    else
      SequenceFaults(did, s, n - 1)
      + (if s[n - 1] <= LastBefore(s, n - 1) then [SequenceInvalid(did, s[n - 1], LastBefore(s, n - 1))] else [])
  }

  lemma {:induction false} SequenceFaultsEmpty(did: string, s: seq<int>, n: nat)
    requires n <= |s|
    ensures SequenceFaults(did, s, n) == [] <==> NoReplay(s, n)
  {
    if n > 0 {
      SequenceFaultsEmpty(did, s, n - 1);
    }
  }

  function DeviceSequenceFaults(m: map<string, seq<int>>): string -> seq<Failure> {
    d => if d in m then SequenceFaults(d, m[d], |m[d]|) else []
  }

  ghost predicate SequencesAccepted(m: map<string, seq<int>>) {
    forall d :: d in m ==> StrictlyIncreasingPositive(m[d])
  }

  lemma SequenceFaultsMeaning(order: seq<string>, m: map<string, seq<int>>)
    requires forall d :: d in order <==> d in m
    ensures FlatMap(DeviceSequenceFaults(m), order) == [] <==> SequencesAccepted(m)
  {
    FlatMapEmpty(DeviceSequenceFaults(m), order);
    forall d | d in m ensures DeviceSequenceFaults(m)(d) == [] <==> StrictlyIncreasingPositive(m[d]) {
      SequenceFaultsEmpty(d, m[d], |m[d]|);
      NoReplayMeansIncreasing(m[d]);
    }
  }

  /** The inner loop over one device's sequence numbers. */
  method ScanSequence(did: string, s: seq<int>) returns (findings: seq<Failure>)
    ensures findings == SequenceFaults(did, s, |s|)
  {
    findings := [];
    var lastSeq := 0;
    var i := 0;
    while i < |s|
      invariant 0 <= i <= |s|
      invariant lastSeq == if i == 0 then 0 else s[i - 1]
      invariant findings == SequenceFaults(did, s, i)
    {
      if s[i] <= lastSeq {
        findings := findings + [SequenceInvalid(did, s[i], lastSeq)];
      }
      lastSeq := s[i];
      i := i + 1;
    }
  }

  method CheckSequences(order: seq<string>, sequences: map<string, seq<int>>)
    returns (valid: bool, failures: seq<Failure>)
    requires forall d :: d in order <==> d in sequences
    ensures valid <==> SequencesAccepted(sequences)
    ensures failures == FlatMap(DeviceSequenceFaults(sequences), order)
  {
    hide FlatMap, SequencesAccepted, SequenceFaults;
    FlatMapNil(DeviceSequenceFaults(sequences));
    assert order[..0] == [];
    valid := true;
    failures := [];
    var k := 0;
    while k < |order|
      invariant 0 <= k <= |order|
      invariant failures == FlatMap(DeviceSequenceFaults(sequences), order[..k])
      invariant valid <==> failures == []
    {
      var d := order[k];
      assert d in sequences;
      assert order[..k + 1] == order[..k] + [d];
      FlatMapAppend(DeviceSequenceFaults(sequences), order[..k], d);
      var findings := ScanSequence(d, sequences[d]);
      valid := valid && findings == [];
      failures := failures + findings;
      k := k + 1;
    }
    assert order[..|order|] == order;
    SequenceFaultsMeaning(order, sequences);
  }

  // ---------- reconciliation ----------

  function Abs(n: int): nat {
    if n < 0 then -n else n
  }

  ghost function CandidateSum(b: ArchiveBody): int {
    SumValues(Recount(CandidateOf(), CandidateIds(b.candidates), b.ballots))
  }

  ghost function DeviceSum(b: ArchiveBody): int {
    SumValues(Recount(DeviceOf(), DeviceIds(b.devices), b.ballots))
  }

  ghost function Drift(b: ArchiveBody): int {
    Abs(CandidateSum(b) - |b.ballots|) + Abs(DeviceSum(b) - |b.ballots|)
  }

  ghost predicate ReconciliationAccepted(b: ArchiveBody) {
    CandidateSum(b) == |b.ballots| && DeviceSum(b) == |b.ballots|
  }

  ghost function ReconciliationStatus(b: ArchiveBody): string {
    if ReconciliationAccepted(b) then "PASSED" else "RECONCILIATION FAILURE"
  }

  // ---------- audit chain ----------

  function EntryFaults(p: Primitives, log: seq<ArchiveEntry>, i: nat): seq<Failure>
    requires i < |log|
  {
    (if log[i].sequenceNumber != i + 1 then [SequenceJump(i + 1, log[i].sequenceNumber)] else [])
    + (if log[i].previousHash != ExpectedPrevious(log, i) then [PreviousHashBreak(log[i].sequenceNumber)] else [])
    + (if log[i].entryHash != ArchivedHash(p, log[i]) then [EntryHashMismatch(log[i].sequenceNumber)] else [])
  }

  function ChainFaults(p: Primitives, log: seq<ArchiveEntry>, n: nat): seq<Failure>
    requires n <= |log|
  {
    if n == 0 then [] else ChainFaults(p, log, n - 1) + EntryFaults(p, log, n - 1)
  }

  ghost predicate GoodUpTo(p: Primitives, log: seq<ArchiveEntry>, n: nat)
    requires n <= |log|
  {
    forall i :: 0 <= i < n ==> EntryGood(p, log, i)
  }

  lemma {:induction false} ChainFaultsEmpty(p: Primitives, log: seq<ArchiveEntry>, n: nat)
    requires n <= |log|
    ensures ChainFaults(p, log, n) == [] <==> GoodUpTo(p, log, n)
  {
    if n > 0 {
      ChainFaultsEmpty(p, log, n - 1);
      assert EntryFaults(p, log, n - 1) == [] <==> EntryGood(p, log, n - 1);
      assert GoodUpTo(p, log, n) <==> GoodUpTo(p, log, n - 1) && EntryGood(p, log, n - 1);
    }
  }

  /** The last non-empty entry hash, or the genesis mark. */
  function LastHash(log: seq<ArchiveEntry>, n: nat): string
    requires n <= |log|
  {
    if n == 0 then "GENESIS"
    else if log[n - 1].entryHash != "" then log[n - 1].entryHash
    else LastHash(log, n - 1)
  }

  method ReplayChain(p: Primitives, log: seq<ArchiveEntry>)
    returns (valid: bool, root: string, failures: seq<Failure>)
    ensures valid <==> ChainAccepted(p, log)
    ensures root == LastHash(log, |log|)
    ensures failures == ChainFaults(p, log, |log|)
  {
    valid := true;
    root := "GENESIS";
    failures := [];
    var i := 0;
    while i < |log|
      invariant 0 <= i <= |log|
      invariant valid <==> failures == []
      invariant root == LastHash(log, i)
      invariant failures == ChainFaults(p, log, i)
    {
      var entry := log[i];
      var findings := [];
      if entry.sequenceNumber != i + 1 {
        findings := findings + [SequenceJump(i + 1, entry.sequenceNumber)];
      }
      var expectedPrevious := if i > 0 then Some(log[i - 1].entryHash) else None;
      if entry.previousHash != expectedPrevious {
        findings := findings + [PreviousHashBreak(entry.sequenceNumber)];
      }
      if entry.entryHash != ArchivedHash(p, entry) {
        findings := findings + [EntryHashMismatch(entry.sequenceNumber)];
      }
      assert findings == EntryFaults(p, log, i);
      valid := valid && findings == [];
      failures := failures + findings;
      if entry.entryHash != "" {
        root := entry.entryHash;
      }
      i := i + 1;
    }
    ChainFaultsEmpty(p, log, |log|);
  }

  // ---------- manifest, signature, anchor ----------

  /** Every stated total is the recounted one, and what is left unstated was recounted as zero. */
  ghost predicate AgreesUpToZeros(stated: map<string, int>, recount: map<string, int>) {
    && (forall k :: k in stated ==> k in recount && recount[k] == stated[k])
    && (forall k :: k in recount && k !in stated ==> recount[k] == 0)
  }

  /** The totals that go into the rebuilt manifest hash. */
  function ChooseTotals(stated: map<string, int>, recount: map<string, int>): map<string, int> {
    if forall k :: k in stated.Keys ==> k in recount && recount[k] == stated[k] then
      if forall k :: k in recount.Keys ==> k !in stated ==> recount[k] == 0 then stated else recount
    else
      recount
  }

  ghost function ChainStatus(p: Primitives, b: ArchiveBody): string {
    if ChainAccepted(p, Sort(SequenceLe, b.auditLog)) then "INTACT" else "BROKEN"
  }

  /** What the verifier hashes in place of the manifest it was given. */
  ghost function RebuiltManifest(p: Primitives, b: ArchiveBody, m: Manifest): ManifestData {
    ManifestData(
      b.election.id, |b.ballots|,
      ChooseTotals(m.candidateTotals, Recount(CandidateOf(), CandidateIds(b.candidates), b.ballots)),
      ChooseTotals(m.deviceTotals, Recount(DeviceOf(), DeviceIds(b.devices), b.ballots)),
      ReconciliationStatus(b), ChainStatus(p, b), RecomputedConfiguration(p, b))
  }

  ghost predicate ManifestAccepted(p: Primitives, b: ArchiveBody) {
    b.manifest.Some? ==>
      HashAccepted(b.manifest.value.manifestHash, ManifestHash(p, RebuiltManifest(p, b, b.manifest.value)))
  }

  predicate SignatureAccepted(p: Primitives, b: ArchiveBody, expectedKey: Option<string>) {
    b.manifest.Some? && b.manifest.value.digitalSignature.Some? ==>
      var m := b.manifest.value;
      var s := m.digitalSignature.value;
      && s.payload.electionId == b.election.id
      && s.payload.manifestHash == m.manifestHash
      && p.verify(OrElse(expectedKey, s.publicKey), s.payload, s.signature)
  }

  predicate AnchorAccepted(log: seq<ArchiveEntry>, receipt: Option<AnchorReceipt>) {
    receipt.Some? ==>
      var root := Lower(receipt.value.rootHash);
      || root == Lower(LastHash(log, |log|))
      || exists i :: 0 <= i < |log| && Lower(log[i].entryHash) == root
  }

  // ---------- the whole report ----------

  /** The verdicts of sections 3 to 9, which look at the raw records only. */
  datatype RecordChecks = RecordChecks(
    ballotHashes: bool, ballotSequence: bool, candidateTotals: bool, deviceTotals: bool,
    reconciliation: bool, auditChain: bool, auditRoot: bool)

  ghost function RecordChecksOf(p: Primitives, b: ArchiveBody): RecordChecks {
    var cids, dids := CandidateIds(b.candidates), DeviceIds(b.devices);
    var log := Sort(SequenceLe, b.auditLog);
    RecordChecks(
      BallotsAccepted(p, b.election.id, cids, dids, b.ballots),
      SequencesAccepted(Sequences(dids, b.ballots)),
      CandidateSum(b) == |b.ballots|, DeviceSum(b) == |b.ballots|, ReconciliationAccepted(b),
      ChainAccepted(p, log), ChainAccepted(p, log) && log != [])
  }

  ghost function ChecksOf(p: Primitives, a: Archive, expectedKey: Option<string>,
                          receipt: Option<AnchorReceipt>): Checks
  {
    var b := a.body;
    var rc := RecordChecksOf(p, b);
    Checks(
      EnvelopeAccepted(p, a), ConfigurationAccepted(p, b),
      rc.ballotHashes, rc.ballotSequence, rc.candidateTotals, rc.deviceTotals, rc.reconciliation,
      rc.auditChain, rc.auditRoot,
      ManifestAccepted(p, b), SignatureAccepted(p, b, expectedKey),
      AnchorAccepted(Sort(SequenceLe, b.auditLog), receipt))
  }

  function Names(ds: seq<Device>): seq<string> {
    Map((d: Device) => d.id, ds)
  }

  ghost function BallotFailures(p: Primitives, b: ArchiveBody): seq<Failure> {
    FlatMap(FaultFinder(p, b.election.id, CandidateIds(b.candidates), DeviceIds(b.devices)), b.ballots)
  }

  ghost function SequenceFailures(b: ArchiveBody): seq<Failure> {
    FlatMap(DeviceSequenceFaults(Sequences(DeviceIds(b.devices), b.ballots)), Distinct(Names(b.devices)))
  }

  ghost function ReconciliationFailures(b: ArchiveBody): seq<Failure> {
    FailIf(!ReconciliationAccepted(b),
           ReconciliationFailure(Drift(b), CandidateSum(b), DeviceSum(b), |b.ballots|))
  }

  ghost function RecordFailures(p: Primitives, b: ArchiveBody): seq<Failure> {
    var log := Sort(SequenceLe, b.auditLog);
    (BallotFailures(p, b) + SequenceFailures(b)) + ReconciliationFailures(b) + ChainFaults(p, log, |log|)
  }

  /** The failure list, in the order in which the verifier meets the failures. */
  ghost function FailuresOf(p: Primitives, a: Archive, expectedKey: Option<string>,
                            receipt: Option<AnchorReceipt>): seq<Failure>
  {
    var b := a.body;
    FailIf(!EnvelopeAccepted(p, a), EnvelopeMismatch)
    + FailIf(!ConfigurationAccepted(p, b), ConfigurationMismatch)
    + RecordFailures(p, b)
    + FailIf(!ManifestAccepted(p, b), ManifestMismatch)
    + FailIf(!SignatureAccepted(p, b, expectedKey), SignatureInvalid)
    + FailIf(!AnchorAccepted(Sort(SequenceLe, b.auditLog), receipt), AnchorMismatch)
  }

  ghost function ReportOf(p: Primitives, a: Archive, expectedKey: Option<string>,
                          receipt: Option<AnchorReceipt>): Report
  {
    var checks := ChecksOf(p, a, expectedKey, receipt);
    var failures := FailuresOf(p, a, expectedKey, receipt);
    var log := Sort(SequenceLe, a.body.auditLog);
    Report(checks.All() && |failures| == 0, checks, failures,
           Some(Summary(a.body.election.id, |a.body.ballots|, |CandidateIds(a.body.candidates)|,
                        |DeviceIds(a.body.devices)|, |log|, LastHash(log, |log|), Drift(a.body))))
  }

  lemma NamesAreKeys(ds: seq<Device>, d: string)
    ensures d in Distinct(Names(ds)) <==> d in DeviceIds(ds)
  {
    if d in DeviceIds(ds) {
      var i :| 0 <= i < |ds| && ds[i].id == d;
      assert Names(ds)[i] == d;
    }
  }

  /** Sections 3 and 4 of the verifier: ballots and sequence numbers. */
  method CheckBallots(p: Primitives, b: ArchiveBody)
    returns (ballotsValid: bool, sequenceValid: bool, candidateTotals: map<string, int>,
             deviceTotals: map<string, int>, failures: seq<Failure>)
    ensures ballotsValid <==>
            BallotsAccepted(p, b.election.id, CandidateIds(b.candidates), DeviceIds(b.devices), b.ballots)
    ensures sequenceValid <==> SequencesAccepted(Sequences(DeviceIds(b.devices), b.ballots))
    ensures candidateTotals == Recount(CandidateOf(), CandidateIds(b.candidates), b.ballots)
    ensures deviceTotals == Recount(DeviceOf(), DeviceIds(b.devices), b.ballots)
    ensures failures == BallotFailures(p, b) + SequenceFailures(b)
  {
    var sequences, ballotFailures, sequenceFailures;
    ballotsValid, candidateTotals, deviceTotals, sequences, ballotFailures :=
      TallyBallots(p, b.election.id, CandidateIds(b.candidates), DeviceIds(b.devices), b.ballots);
    var order := Distinct(Names(b.devices));
    forall d ensures d in order <==> d in sequences {
      NamesAreKeys(b.devices, d);
    }
    sequenceValid, sequenceFailures := CheckSequences(order, sequences);
    failures := ballotFailures + sequenceFailures;
  }

  /** Sections 5 to 7: totals and reconciliation. */
  method CheckTotals(b: ArchiveBody, candidateTotals: map<string, int>, deviceTotals: map<string, int>)
    returns (sumCandidates: int, sumDevices: int, drift: int, reconciled: bool, failures: seq<Failure>)
    requires candidateTotals == Recount(CandidateOf(), CandidateIds(b.candidates), b.ballots)
    requires deviceTotals == Recount(DeviceOf(), DeviceIds(b.devices), b.ballots)
    ensures sumCandidates == CandidateSum(b) && sumDevices == DeviceSum(b)
    ensures drift == Drift(b)
    ensures reconciled <==> ReconciliationAccepted(b)
    ensures failures == ReconciliationFailures(b)
  {
    var total := |b.ballots|;
    sumCandidates := SumDict(candidateTotals);
    sumDevices := SumDict(deviceTotals);
    drift := Abs(sumCandidates - total) + Abs(sumDevices - total);
    reconciled := drift == 0 && sumCandidates == sumDevices == total;
    failures := FailIf(!reconciled, ReconciliationFailure(drift, sumCandidates, sumDevices, total));
  }

  /** Sections 3 to 9 in one pass over the records. */
  method CheckRecords(p: Primitives, b: ArchiveBody, log: seq<ArchiveEntry>)
    returns (rc: RecordChecks, candidateTotals: map<string, int>, deviceTotals: map<string, int>,
             drift: int, root: string, failures: seq<Failure>)
    requires log == Sort(SequenceLe, b.auditLog)
    ensures rc == RecordChecksOf(p, b)
    ensures candidateTotals == Recount(CandidateOf(), CandidateIds(b.candidates), b.ballots)
    ensures deviceTotals == Recount(DeviceOf(), DeviceIds(b.devices), b.ballots)
    ensures drift == Drift(b)
    ensures root == LastHash(log, |log|)
    ensures failures == RecordFailures(p, b)
  {
    var ballotsValid, sequenceValid, ballotFailures;
    ballotsValid, sequenceValid, candidateTotals, deviceTotals, ballotFailures := CheckBallots(p, b);
    var sumCandidates, sumDevices, reconciled, totalFailures;
    sumCandidates, sumDevices, drift, reconciled, totalFailures := CheckTotals(b, candidateTotals, deviceTotals);
    var chainValid, chainFailures;
    chainValid, root, chainFailures := ReplayChain(p, log);
    rc := RecordChecks(
      ballotsValid, sequenceValid, sumCandidates == |b.ballots|, sumDevices == |b.ballots|, reconciled,
      chainValid, chainValid && |log| > 0);
    failures := ballotFailures + totalFailures + chainFailures;
  }

  /** Section 10: rebuild the manifest hash from the recount. */
  method CheckManifest(p: Primitives, b: ArchiveBody, candidateTotals: map<string, int>,
                       deviceTotals: map<string, int>, rc: RecordChecks)
    returns (accepted: bool)
    requires candidateTotals == Recount(CandidateOf(), CandidateIds(b.candidates), b.ballots)
    requires deviceTotals == Recount(DeviceOf(), DeviceIds(b.devices), b.ballots)
    requires rc == RecordChecksOf(p, b)
    ensures accepted <==> ManifestAccepted(p, b)
  {
    accepted := true;
    if b.manifest.Some? {
      var m := b.manifest.value;
      var rebuilt := ManifestData(
        b.election.id, |b.ballots|,
        ChooseTotals(m.candidateTotals, candidateTotals),
        ChooseTotals(m.deviceTotals, deviceTotals),
        if rc.reconciliation then "PASSED" else "RECONCILIATION FAILURE",
        if rc.auditChain then "INTACT" else "BROKEN", RecomputedConfiguration(p, b));
      assert rebuilt == RebuiltManifest(p, b, m);
      accepted := HashAccepted(m.manifestHash, ManifestHash(p, rebuilt));
    }
  }

  /** The envelope carries the digest of the body, in whatever case. */
  predicate EnvelopeSound(p: Primitives, a: Archive) {
    a.exportHash != "" && Lower(a.exportHash) == Lower(p.sha256(p.archiveJson(a.body)))
  }

  /** Every ballot carries the digest of its own text and names a candidate and a device that are there. */
  ghost predicate BallotsSound(p: Primitives, b: ArchiveBody) {
    forall x :: x in b.ballots ==>
      && x.ballotHash == p.sha256(BallotText(b.election.id, x.sessionId, x.candidateId, x.deviceId, x.sequenceNumber,
                                             Normalise(x.recordedAt)))
      && (exists i :: 0 <= i < |b.candidates| && b.candidates[i].id == x.candidateId)
      && (exists i :: 0 <= i < |b.devices| && b.devices[i].id == x.deviceId)
  }

  lemma BallotsChecked(p: Primitives, b: ArchiveBody)
    ensures BallotsAccepted(p, b.election.id, CandidateIds(b.candidates), DeviceIds(b.devices), b.ballots)
            <==> BallotsSound(p, b)
  {
    hide BallotText, Normalise;
    forall x: ArchiveBallot
      ensures x.candidateId in CandidateIds(b.candidates)
              <==> exists i :: 0 <= i < |b.candidates| && b.candidates[i].id == x.candidateId
      ensures x.deviceId in DeviceIds(b.devices)
              <==> exists i :: 0 <= i < |b.devices| && b.devices[i].id == x.deviceId
    {
    }
    hide CandidateIds, DeviceIds;
  }

  lemma EnvelopeAndBallotsChecked(p: Primitives, a: Archive, expectedKey: Option<string>,
                                  receipt: Option<AnchorReceipt>)
    ensures var r := ReportOf(p, a, expectedKey, receipt);
            && (r.checks.exportEnvelope <==> EnvelopeSound(p, a))
            && (r.checks.ballotHashes <==> BallotsSound(p, a.body))
            && (r.valid ==> r.checks.All() && r.failures == [])
  {
    BallotsChecked(p, a.body);
    hide FailuresOf, BallotsAccepted, BallotsSound, Lower, Sort, LastHash, Drift, CandidateIds, DeviceIds,
         SequencesAccepted, CandidateSum, DeviceSum, ReconciliationAccepted, ChainAccepted, ConfigurationAccepted,
         ManifestAccepted, SignatureAccepted, AnchorAccepted;
  }

  /** The twelve sections of verify_export_data. */
  method VerifyArchive(p: Primitives, a: Archive, expectedKey: Option<string>, receipt: Option<AnchorReceipt>)
    returns (r: Report)
    ensures r == ReportOf(p, a, expectedKey, receipt)
  {
    hide EnvelopeAccepted, ConfigurationAccepted, RecordChecksOf, RecordFailures, ManifestAccepted, SignatureAccepted,
         AnchorAccepted, Recount, Sort, LastHash, Drift, CandidateIds, DeviceIds;
    var b := a.body;
    EveryKeyCounted(CandidateOf(), CandidateIds(b.candidates), b.ballots);
    EveryKeyCounted(DeviceOf(), DeviceIds(b.devices), b.ballots);
    var envelope := EnvelopeAccepted(p, a);
    var configuration := ConfigurationAccepted(p, b);
    var log := Sort(SequenceLe, b.auditLog);
    var rc, candidateTotals, deviceTotals, drift, root, recordFailures := CheckRecords(p, b, log);
    var manifest := CheckManifest(p, b, candidateTotals, deviceTotals, rc);
    var signature := SignatureAccepted(p, b, expectedKey);
    var anchor := AnchorAccepted(log, receipt);
    var failures :=
      FailIf(!envelope, EnvelopeMismatch)
      + FailIf(!configuration, ConfigurationMismatch)
      + recordFailures
      + FailIf(!manifest, ManifestMismatch)
      + FailIf(!signature, SignatureInvalid)
      + FailIf(!anchor, AnchorMismatch);
    var checks := Checks(
      envelope, configuration, rc.ballotHashes, rc.ballotSequence, rc.candidateTotals, rc.deviceTotals,
      rc.reconciliation, rc.auditChain, rc.auditRoot, manifest, signature, anchor);
    r := Report(checks.All() && |failures| == 0, checks, failures,
                Some(Summary(b.election.id, |b.ballots|, |candidateTotals|, |deviceTotals|, |log|, root, drift)));
  }

  const NO_CHECK := Checks(false, false, false, false, false, false, false, false, false, false, false, false)

  /** verify_export_data; None stands for an export whose election entry is no object. */
  method VerifyExportData(p: Primitives, submitted: Option<Archive>, expectedKey: Option<string>,
                          receipt: Option<AnchorReceipt>)
    returns (r: Report)
    ensures submitted.Some? ==> r == ReportOf(p, submitted.value, expectedKey, receipt)
    ensures submitted.None? ==> r == Report(false, NO_CHECK, [InvalidExportStructure], None)
    ensures r.valid ==> submitted.Some? && r.checks.All() && r.failures == []
    ensures submitted.Some? ==>
              && (r.checks.exportEnvelope <==> EnvelopeSound(p, submitted.value))
              && (r.checks.ballotHashes <==> BallotsSound(p, submitted.value.body))
  {
    hide ReportOf, EnvelopeSound, BallotsSound;
    if submitted.Some? {
      EnvelopeAndBallotsChecked(p, submitted.value, expectedKey, receipt);
    }
    if submitted.None? {
      return Report(false, NO_CHECK, [InvalidExportStructure], None);
    }
    r := VerifyArchive(p, submitted.value, expectedKey, receipt);
  }
}
