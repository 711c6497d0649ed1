/**
 * What the standalone verifier's report says about an archive, in terms of the archive's own rows and the three
 * cryptographic parameters alone: no sorting, no recount, no failure list.
 */
module Verdicts {
  import opened Prelude
  import opened Text
  import opened Timestamps
  import opened Sorting
  import opened Grouping
  import opened Records
  import opened Hashing
  import opened AuditChain
  import opened Verifier
  import opened VerifierFacts

  // ---------- hexadecimal digests ----------

  predicate SameLetter(x: char, y: char) {
    x == y || ('A' <= x <= 'Z' && y as int == x as int + 32) || ('A' <= y <= 'Z' && x as int == y as int + 32)
  }

  /** Equal up to the case of ASCII letters. */
  ghost predicate SameUpToCase(a: string, b: string) {
    |a| == |b| && forall i :: 0 <= i < |a| ==> SameLetter(a[i], b[i])
  }

  lemma LowerMeans(a: string, b: string)
    ensures Lower(a) == Lower(b) <==> SameUpToCase(a, b)
  {
    if SameUpToCase(a, b) {
      forall i | 0 <= i < |a|
        ensures Lower(a)[i] == Lower(b)[i]
      {
        assert SameLetter(a[i], b[i]);
      }
    }
    if Lower(a) == Lower(b) {
      assert |a| == |Lower(a)| == |b|;
      forall i | 0 <= i < |a|
        ensures SameLetter(a[i], b[i])
      {
        assert Lower(a)[i] == Lower(b)[i];
      }
    }
  }

  /** The stated digest is there and is the digest of the text, whatever the case it is written in. */
  ghost predicate Digests(p: Primitives, stated: string, text: string) {
    stated != "" && SameUpToCase(stated, p.sha256(text))
  }

  lemma DigestsMeans(p: Primitives, stated: string, text: string)
    ensures HashAccepted(stated, p.sha256(text)) <==> Digests(p, stated, text)
  {
    LowerMeans(stated, p.sha256(text));
  }

  // ---------- configuration ----------

  function AtPosition(k: int): CandidateInfo -> bool {
    (c: CandidateInfo) => c.position == k
  }

  /** cs lists the candidates by position, and those at one position in the order given. */
  ghost predicate ByPosition(cs: seq<CandidateInfo>, candidates: seq<CandidateInfo>) {
    && (forall i, j :: 0 <= i < j < |cs| ==> cs[i].position <= cs[j].position)
    && (forall k :: Filter(AtPosition(k), cs) == Filter(AtPosition(k), candidates))
  }

  lemma SortsByPosition(candidates: seq<CandidateInfo>)
    ensures ByPosition(Sort(PositionLe, candidates), candidates)
  {
    PositionOrder();
    var cs := Sort(PositionLe, candidates);
    SortSorted(PositionLe, candidates);
    forall i, j | 0 <= i < j < |cs|
      ensures cs[i].position <= cs[j].position
    {
      assert PositionLe(cs[i], cs[j]);
    }
    forall k
      ensures Filter(AtPosition(k), cs) == Filter(AtPosition(k), candidates)
    {
      FilterSort(PositionLe, AtPosition(k), candidates);
      var same := Filter(AtPosition(k), candidates);
      assert forall i :: 0 <= i < |same| ==> AtPosition(k)(same[i]);
      SortOfSorted(PositionLe, same);
    }
  }

  lemma HeadByPosition(a: seq<CandidateInfo>, b: seq<CandidateInfo>, candidates: seq<CandidateInfo>)
    requires ByPosition(a, candidates) && ByPosition(b, candidates) && a != []
    ensures b != [] && b[0].position <= a[0].position
  {
    var k := a[0].position;
    FilterKeeps(AtPosition(k), a, 0);
    assert a[0] in Filter(AtPosition(k), a);
    assert Filter(AtPosition(k), a) == Filter(AtPosition(k), b);
    assert a[0] in b;
    var i :| 0 <= i < |b| && b[i] == a[0];
  }

  lemma TailByPosition(a: seq<CandidateInfo>, b: seq<CandidateInfo>)
    requires a != [] && b != [] && a[0].position == b[0].position && ByPosition(a, b)
    ensures a[0] == b[0]
    ensures ByPosition(b, b) ==> ByPosition(a[1..], b[1..]) && ByPosition(b[1..], b[1..])
  {
    var k := a[0].position;
    assert AtPosition(k)(a[0]) && AtPosition(k)(b[0]);
    assert Filter(AtPosition(k), a)[0] == a[0] && Filter(AtPosition(k), b)[0] == b[0];
    forall j
      ensures Filter(AtPosition(j), a[1..]) == Filter(AtPosition(j), b[1..])
    {
      assert Filter(AtPosition(j), a) == Filter(AtPosition(j), b);
      if j == k {
        assert Filter(AtPosition(j), a)[1..] == Filter(AtPosition(j), a[1..]);
        assert Filter(AtPosition(j), b)[1..] == Filter(AtPosition(j), b[1..]);
      }
    }
  }

  lemma {:induction false} ByPositionUnique(a: seq<CandidateInfo>, b: seq<CandidateInfo>)
    requires ByPosition(a, b) && ByPosition(b, b)
    ensures a == b
  {
    hide ByPosition;
    if a != [] {
      HeadByPosition(a, b, b);
      HeadByPosition(b, a, b);
      TailByPosition(a, b);
      ByPositionUnique(a[1..], b[1..]);
      assert a == [a[0]] + a[1..] && b == [b[0]] + b[1..];
    } else if b != [] {
      HeadByPosition(b, a, b);
    }
  }

  /** Sorting is the one way to list candidates by position. */
  lemma ByPositionExactly(cs: seq<CandidateInfo>, candidates: seq<CandidateInfo>)
    ensures ByPosition(cs, candidates) <==> cs == Sort(PositionLe, candidates)
  {
    SortsByPosition(candidates);
    var sorted := Sort(PositionLe, candidates);
    if ByPosition(cs, candidates) {
      assert ByPosition(cs, sorted) && ByPosition(sorted, sorted);
      ByPositionUnique(cs, sorted);
    }
  }

  /** The digest of the election and its candidates. */
  ghost predicate IsConfigurationHash(p: Primitives, h: string, b: ArchiveBody) {
    exists cs :: ByPosition(cs, b.candidates) && h == p.sha256(p.configJson(ConfigData(b.election.id, cs)))
  }

  ghost predicate ConfigurationGood(p: Primitives, b: ArchiveBody) {
    b.election.configurationHash.Some?
    && exists cs :: ByPosition(cs, b.candidates)
                    && Digests(p, b.election.configurationHash.value, p.configJson(ConfigData(b.election.id, cs)))
  }

  lemma ConfigurationMeans(p: Primitives, b: ArchiveBody)
    ensures ConfigurationAccepted(p, b) <==> ConfigurationGood(p, b)
    ensures IsConfigurationHash(p, RecomputedConfiguration(p, b), b)
    ensures forall h :: IsConfigurationHash(p, h, b) ==> h == RecomputedConfiguration(p, b)
  {
    hide ByPosition, Sort, Digests;
    var cs := Sort(PositionLe, b.candidates);
    forall x
      ensures ByPosition(x, b.candidates) <==> x == cs
    {
      ByPositionExactly(x, b.candidates);
    }
    DigestsMeans(p, OrElse(b.election.configurationHash, ""), p.configJson(ConfigData(b.election.id, cs)));
    assert ByPosition(cs, b.candidates);
    NoDigest(p, p.configJson(ConfigData(b.election.id, cs)));
  }

  lemma NoDigest(p: Primitives, text: string)
    ensures !Digests(p, "", text)
  {
  }

  // ---------- ballots ----------

  /** The text whose digest a ballot must carry. */
  function BallotLine(electionId: string, b: ArchiveBallot): string {
    electionId + "|" + b.sessionId + "|" + b.candidateId + "|" + b.deviceId + "|" + Str(b.sequenceNumber) + "|"
    + Normalise(b.recordedAt)
  }

  lemma BallotLineMeans(electionId: string, b: ArchiveBallot)
    ensures BallotText(electionId, b.sessionId, b.candidateId, b.deviceId, b.sequenceNumber, Normalise(b.recordedAt))
         == BallotLine(electionId, b)
  {
    var s, c, d, n, t := b.sessionId, b.candidateId, b.deviceId, Str(b.sequenceNumber), Normalise(b.recordedAt);
    assert [electionId, s, c, d, n, t][1..] == [s, c, d, n, t];
    JoinFive(s, c, d, n, t);
    assert Join([electionId, s, c, d, n, t]) == electionId + "|" + Join([s, c, d, n, t]);
  }

  predicate HashHolds(p: Primitives, electionId: string, b: ArchiveBallot) {
    b.ballotHash == p.sha256(BallotLine(electionId, b))
  }

  ghost predicate KnownCandidate(b: ArchiveBody, c: string) {
    exists i :: 0 <= i < |b.candidates| && b.candidates[i].id == c
  }

  ghost predicate KnownDevice(b: ArchiveBody, d: string) {
    exists i :: 0 <= i < |b.devices| && b.devices[i].id == d
  }

  lemma KnownMeans(b: ArchiveBody)
    ensures forall c :: c in CandidateIds(b.candidates) <==> KnownCandidate(b, c)
    ensures forall d :: d in DeviceIds(b.devices) <==> KnownDevice(b, d)
  {
  }

  lemma BallotMeans(p: Primitives, b: ArchiveBody, x: ArchiveBallot)
    ensures BallotGood(p, b.election.id, CandidateIds(b.candidates), DeviceIds(b.devices), x)
            <==> HashHolds(p, b.election.id, x) && KnownCandidate(b, x.candidateId) && KnownDevice(b, x.deviceId)
    ensures BallotHashGood(p, b.election.id, x) <==> HashHolds(p, b.election.id, x)
  {
    KnownMeans(b);
    BallotLineMeans(b.election.id, x);
    hide CandidateIds, DeviceIds, KnownCandidate, KnownDevice;
  }

  /** Every ballot carries the digest of its own fields and names a candidate and a device of the archive. */
  ghost predicate BallotsGood(p: Primitives, b: ArchiveBody) {
    forall i :: 0 <= i < |b.ballots| ==>
      && HashHolds(p, b.election.id, b.ballots[i])
      && KnownCandidate(b, b.ballots[i].candidateId) && KnownDevice(b, b.ballots[i].deviceId)
  }

  lemma BallotsMean(p: Primitives, b: ArchiveBody)
    ensures BallotsAccepted(p, b.election.id, CandidateIds(b.candidates), DeviceIds(b.devices), b.ballots)
            <==> BallotsGood(p, b)
  {
    hide BallotGood, HashHolds, KnownCandidate, KnownDevice;
    forall i | 0 <= i < |b.ballots|
      ensures BallotGood(p, b.election.id, CandidateIds(b.candidates), DeviceIds(b.devices), b.ballots[i])
              <==> HashHolds(p, b.election.id, b.ballots[i]) && KnownCandidate(b, b.ballots[i].candidateId)
                   && KnownDevice(b, b.ballots[i].deviceId)
    {
      BallotMeans(p, b, b.ballots[i]);
    }
  }

  // ---------- sequence numbers ----------

  /** On every device of the archive the numbers are positive and climb from ballot to ballot. */
  ghost predicate NumbersGood(b: ArchiveBody) {
    && (forall i :: 0 <= i < |b.ballots| && KnownDevice(b, b.ballots[i].deviceId) ==> b.ballots[i].sequenceNumber > 0)
    && (forall i, j :: 0 <= i < j < |b.ballots| && KnownDevice(b, b.ballots[i].deviceId)
                       && b.ballots[i].deviceId == b.ballots[j].deviceId
          ==> b.ballots[i].sequenceNumber < b.ballots[j].sequenceNumber)
  }

  /** The same on one device. */
  ghost predicate Climbing(ballots: seq<ArchiveBallot>, d: string) {
    && (forall i :: 0 <= i < |ballots| && ballots[i].deviceId == d ==> ballots[i].sequenceNumber > 0)
    && (forall i, j :: 0 <= i < j < |ballots| && ballots[i].deviceId == ballots[j].deviceId == d
          ==> ballots[i].sequenceNumber < ballots[j].sequenceNumber)
  }

  ghost predicate AboveAll(s: seq<int>, n: int) {
    n > 0 && forall i :: 0 <= i < |s| ==> s[i] < n
  }

  lemma ClimbsByOne(s: seq<int>, n: int)
    ensures StrictlyIncreasingPositive(s + [n]) <==> StrictlyIncreasingPositive(s) && AboveAll(s, n)
  {
    var t := s + [n];
    assert t[|s|] == n;
    assert forall i :: 0 <= i < |s| ==> t[i] == s[i];
    if StrictlyIncreasingPositive(t) {
      forall i, j | 0 <= i < j < |s|
        ensures s[i] < s[j]
      {
        assert t[i] < t[j];
      }
      forall i | 0 <= i < |s|
        ensures 0 < s[i] < n
      {
        assert t[i] < t[|s|];
      }
    }
  }

  lemma {:induction false} AboveMeans(ballots: seq<ArchiveBallot>, d: string, n: int)
    ensures AboveAll(SequenceOf(ballots, d), n) <==> AboveAllOn(ballots, d, n)
  {
    if ballots == [] {
      assert SequenceOf([], d) == [];
    } else {
      var front, last := ballots[..|ballots| - 1], ballots[|ballots| - 1];
      assert ballots == front + [last];
      AboveMeans(front, d, n);
      SequenceOfAppend(front, last, d);
      hide SequenceOf;
      var s := SequenceOf(front, d);
      assert last.deviceId == d ==> SequenceOf(ballots, d)[|s|] == last.sequenceNumber
                                    && forall i :: 0 <= i < |s| ==> SequenceOf(ballots, d)[i] == s[i];
    }
  }

  lemma {:induction false} ClimbingMeans(ballots: seq<ArchiveBallot>, d: string)
    ensures StrictlyIncreasingPositive(SequenceOf(ballots, d)) <==> Climbing(ballots, d)
  {
    if ballots == [] {
      assert SequenceOf([], d) == [];
    } else {
      var front, last := ballots[..|ballots| - 1], ballots[|ballots| - 1];
      assert ballots == front + [last];
      ClimbingMeans(front, d);
      SequenceOfAppend(front, last, d);
      AboveMeans(front, d, last.sequenceNumber);
      ClimbsByOne(SequenceOf(front, d), last.sequenceNumber);
      hide *;
      ClimbingAppend(front, last, d);
      assert SequenceOf(front, d) + [] == SequenceOf(front, d);
    }
  }

  /** n is positive and above every number of the device. */
  ghost predicate AboveAllOn(ballots: seq<ArchiveBallot>, d: string, n: int) {
    n > 0 && forall i :: 0 <= i < |ballots| && ballots[i].deviceId == d ==> ballots[i].sequenceNumber < n
  }

  lemma ClimbingAppend(front: seq<ArchiveBallot>, last: ArchiveBallot, d: string)
    ensures Climbing(front + [last], d) <==>
            Climbing(front, d) && (last.deviceId == d ==> AboveAllOn(front, d, last.sequenceNumber))
  {
    var all := front + [last];
    assert all[|front|] == last;
    assert forall i :: 0 <= i < |front| ==> all[i] == front[i];
    if Climbing(all, d) {
      forall i, j | 0 <= i < j < |front| && front[i].deviceId == front[j].deviceId == d
        ensures front[i].sequenceNumber < front[j].sequenceNumber
      {
        assert all[i].sequenceNumber < all[j].sequenceNumber;
      }
      forall i | 0 <= i < |front| && front[i].deviceId == d
        ensures front[i].sequenceNumber > 0
        ensures last.deviceId == d ==> front[i].sequenceNumber < last.sequenceNumber
      {
        assert all[i].deviceId == d;
        assert last.deviceId == d ==> all[i].sequenceNumber < all[|front|].sequenceNumber;
      }
    }
  }

  lemma NumbersByDevice(b: ArchiveBody)
    ensures NumbersGood(b) <==> forall d :: KnownDevice(b, d) ==> Climbing(b.ballots, d)
  {
    hide KnownDevice;
    if NumbersGood(b) {
      forall d | KnownDevice(b, d)
        ensures Climbing(b.ballots, d)
      {
      }
    }
    if forall d :: KnownDevice(b, d) ==> Climbing(b.ballots, d) {
      forall i | 0 <= i < |b.ballots| && KnownDevice(b, b.ballots[i].deviceId)
        ensures b.ballots[i].sequenceNumber > 0
      {
        assert Climbing(b.ballots, b.ballots[i].deviceId);
      }
      forall i, j | 0 <= i < j < |b.ballots| && KnownDevice(b, b.ballots[i].deviceId)
                    && b.ballots[i].deviceId == b.ballots[j].deviceId
        ensures b.ballots[i].sequenceNumber < b.ballots[j].sequenceNumber
      {
        assert Climbing(b.ballots, b.ballots[i].deviceId);
      }
    }
  }

  lemma NumbersMean(b: ArchiveBody)
    ensures SequencesAccepted(Sequences(DeviceIds(b.devices), b.ballots)) <==> NumbersGood(b)
  {
    KnownMeans(b);
    NumbersByDevice(b);
    hide DeviceIds, KnownDevice, SequenceOf, StrictlyIncreasingPositive, NumbersGood, Climbing;
    var m := Sequences(DeviceIds(b.devices), b.ballots);
    assert forall d :: d in m <==> KnownDevice(b, d);
    forall d | d in m
      ensures StrictlyIncreasingPositive(m[d]) <==> Climbing(b.ballots, d)
    {
      ClimbingMeans(b.ballots, d);
    }
    hide Sequences;
    assert SequencesAccepted(m) <==> forall d :: d in m ==> Climbing(b.ballots, d);
  }

  // ---------- totals ----------

  ghost predicate AllCandidatesKnown(b: ArchiveBody) {
    forall i :: 0 <= i < |b.ballots| ==> KnownCandidate(b, b.ballots[i].candidateId)
  }

  ghost predicate AllDevicesKnown(b: ArchiveBody) {
    forall i :: 0 <= i < |b.ballots| ==> KnownDevice(b, b.ballots[i].deviceId)
  }

  lemma NoneUnknown(key: ArchiveBallot -> string, ids: set<string>, ballots: seq<ArchiveBallot>)
    ensures |Unknown(key, ids, ballots)| == 0 <==> forall i :: 0 <= i < |ballots| ==> key(ballots[i]) in ids
  {
    var unknown := (b: ArchiveBallot) => key(b) !in ids;
    if forall i :: 0 <= i < |ballots| ==> key(ballots[i]) in ids {
      forall x | x in ballots
        ensures !unknown(x)
      {
        var i :| 0 <= i < |ballots| && ballots[i] == x;
      }
      FilterNone(unknown, ballots);
    } else {
      var i :| 0 <= i < |ballots| && key(ballots[i]) !in ids;
      FilterKeeps(unknown, ballots, i);
    }
  }

  lemma TotalsMean(b: ArchiveBody)
    ensures CandidateSum(b) == |b.ballots| <==> AllCandidatesKnown(b)
    ensures DeviceSum(b) == |b.ballots| <==> AllDevicesKnown(b)
  {
    RecountSum(CandidateOf(), CandidateIds(b.candidates), b.ballots);
    RecountSum(DeviceOf(), DeviceIds(b.devices), b.ballots);
    NoneUnknown(CandidateOf(), CandidateIds(b.candidates), b.ballots);
    NoneUnknown(DeviceOf(), DeviceIds(b.devices), b.ballots);
    KnownMeans(b);
    hide CandidateIds, DeviceIds, KnownCandidate, KnownDevice, Unknown, Recount, SumValues;
  }

  // ---------- audit log ----------

  /** The text whose digest an audit entry must carry. */
  function EntryLine(x: ArchiveEntry): string {
    Str(x.sequenceNumber) + "|" + x.eventType + "|" + (if x.eventData.Some? then x.eventData.value else "") + "|"
    + x.timestamp + "|"
    + (if x.previousHash.None? || x.previousHash.value == "" then "GENESIS" else x.previousHash.value)
  }

  lemma EntryLineMeans(p: Primitives, x: ArchiveEntry)
    ensures ArchivedHash(p, x) == p.sha256(EntryLine(x))
  {
    var n, t, d, at, h := Str(x.sequenceNumber), x.eventType, OrElse(x.eventData, ""), x.timestamp,
                          OrElse(x.previousHash, "GENESIS");
    JoinFive(n, t, d, at, h);
    hide Join, Str;
    assert n + "|" + (t + "|" + ((d + "|" + at) + "|" + h)) == n + "|" + t + "|" + d + "|" + at + "|" + h;
  }

  /** Entry i has the number i + 1, names the hash of the entry before it, and carries the digest of its own fields. */
  predicate Link(p: Primitives, log: seq<ArchiveEntry>, i: nat)
    requires i < |log|
  {
    && log[i].sequenceNumber == i + 1
    && log[i].previousHash == (if i == 0 then None else Some(log[i - 1].entryHash))
    && log[i].entryHash == p.sha256(EntryLine(log[i]))
  }

  ghost predicate Chained(p: Primitives, log: seq<ArchiveEntry>) {
    forall i :: 0 <= i < |log| ==> Link(p, log, i)
  }

  lemma ChainedMeans(p: Primitives, log: seq<ArchiveEntry>)
    ensures ChainAccepted(p, log) <==> Chained(p, log)
  {
    hide ArchivedHash, EntryLine;
    forall i | 0 <= i < |log|
      ensures EntryGood(p, log, i) <==> Link(p, log, i)
    {
      EntryLineMeans(p, log[i]);
    }
    hide EntryGood, Link;
    assert ChainAccepted(p, log) ==> forall i :: 0 <= i < |log| ==> EntryGood(p, log, i);
    assert Chained(p, log) ==> forall i :: 0 <= i < |log| ==> Link(p, log, i);
  }

  /** The entries of the archive, in some order, form a chain. */
  ghost predicate ChainGood(p: Primitives, b: ArchiveBody) {
    exists log :: multiset(log) == multiset(b.auditLog) && Chained(p, log)
  }

  lemma ChainOrder(p: Primitives, log: seq<ArchiveEntry>, entries: seq<ArchiveEntry>)
    requires multiset(log) == multiset(entries) && Chained(p, log)
    ensures Sort(SequenceLe, entries) == log
  {
    assert TotalPreorder(SequenceLe);
    forall i, j | 0 <= i < j < |log|
      ensures SequenceLe(log[i], log[j]) && !SequenceLe(log[j], log[i])
    {
      assert Link(p, log, i) && Link(p, log, j);
    }
    SortCanonical(SequenceLe, log, entries);
    SortOfSorted(SequenceLe, log);
  }

  lemma ChainMeans(p: Primitives, b: ArchiveBody)
    ensures ChainAccepted(p, Sort(SequenceLe, b.auditLog)) <==> ChainGood(p, b)
  {
    var log := Sort(SequenceLe, b.auditLog);
    ChainedMeans(p, log);
    SortMultiset(SequenceLe, b.auditLog);
    hide Sort, Chained, ChainAccepted;
    if x :| multiset(x) == multiset(b.auditLog) && Chained(p, x) {
      ChainOrder(p, x, b.auditLog);
    }
  }

  // ---------- manifest ----------

  /** Each stated total is the number of rows with that key, and only keys without rows are left unstated. */
  ghost predicate StatedRight(stated: map<string, int>, key: ArchiveBallot -> string, ids: iset<string>,
                              ballots: seq<ArchiveBallot>)
  {
    && (forall k :: k in stated ==> k in ids && stated[k] == CountOf(key, ballots, k))
    && (forall k :: k in ids && k !in stated ==> CountOf(key, ballots, k) == 0)
  }

  /** The totals to hash: the stated ones if they are right, or else one count for every key. */
  ghost predicate TotalsToHash(chosen: map<string, int>, stated: map<string, int>, key: ArchiveBallot -> string,
                               ids: iset<string>, ballots: seq<ArchiveBallot>)
  {
    if StatedRight(stated, key, ids, ballots) then chosen == stated
    else (forall k :: k in chosen <==> k in ids) && forall k :: k in chosen ==> chosen[k] == CountOf(key, ballots, k)
  }

  ghost function Candidates(b: ArchiveBody): iset<string> {
    iset c | KnownCandidate(b, c)
  }

  ghost function Devices(b: ArchiveBody): iset<string> {
    iset d | KnownDevice(b, d)
  }

  lemma ChosenMeans(chosen: map<string, int>, stated: map<string, int>, key: ArchiveBallot -> string,
                    known: set<string>, ids: iset<string>, ballots: seq<ArchiveBallot>)
    requires forall k :: k in known <==> k in ids
    ensures TotalsToHash(chosen, stated, key, ids, ballots) <==>
            chosen == ChooseTotals(stated, Recount(key, known, ballots))
  {
    hide CountOf;
    var recount := Recount(key, known, ballots);
    assert recount.Keys == known;
    if StatedRight(stated, key, ids, ballots) {
      assert ChooseTotals(stated, recount) == stated;
    } else {
      assert ChooseTotals(stated, recount) == recount;
      if TotalsToHash(chosen, stated, key, ids, ballots) {
        assert chosen.Keys == recount.Keys;
      }
    }
  }

  /** The manifest data that the rows of the archive call for. */
  ghost predicate CalledFor(p: Primitives, b: ArchiveBody, m: Manifest, data: ManifestData) {
    && data.electionId == b.election.id && data.totalBallots == |b.ballots|
    && TotalsToHash(data.candidateTotals, m.candidateTotals, CandidateOf(), Candidates(b), b.ballots)
    && TotalsToHash(data.deviceTotals, m.deviceTotals, DeviceOf(), Devices(b), b.ballots)
    && data.reconciliationStatus
       == (if AllCandidatesKnown(b) && AllDevicesKnown(b) then "PASSED" else "RECONCILIATION FAILURE")
    && data.auditChainStatus == (if ChainGood(p, b) then "INTACT" else "BROKEN")
    && IsConfigurationHash(p, data.configurationHash, b)
  }

  lemma RebuiltMeans(p: Primitives, b: ArchiveBody, m: Manifest, data: ManifestData)
    ensures CalledFor(p, b, m, data) <==> data == RebuiltManifest(p, b, m)
  {
    KnownMeans(b);
    ConfigurationMeans(p, b);
    TotalsMean(b);
    ChainMeans(p, b);
    ChosenMeans(data.candidateTotals, m.candidateTotals, CandidateOf(), CandidateIds(b.candidates), Candidates(b),
                b.ballots);
    ChosenMeans(data.deviceTotals, m.deviceTotals, DeviceOf(), DeviceIds(b.devices), Devices(b), b.ballots);
    hide KnownCandidate, KnownDevice, CandidateIds, DeviceIds, IsConfigurationHash, RecomputedConfiguration,
         AllCandidatesKnown, AllDevicesKnown, CandidateSum, DeviceSum, ChainGood, ChainAccepted, TotalsToHash,
         ChooseTotals, Recount, Sort;
  }

  /** No manifest, or one whose hash is the digest of what the rows call for. */
  ghost predicate ManifestGood(p: Primitives, b: ArchiveBody) {
    b.manifest.Some? ==>
      exists data :: CalledFor(p, b, b.manifest.value, data)
                     && Digests(p, b.manifest.value.manifestHash, p.manifestJson(data))
  }

  lemma ManifestMeans(p: Primitives, b: ArchiveBody)
    ensures ManifestAccepted(p, b) <==> ManifestGood(p, b)
  {
    hide CalledFor, RebuiltManifest, Digests, HashAccepted;
    if b.manifest.Some? {
      var m := b.manifest.value;
      forall data
        ensures CalledFor(p, b, m, data) <==> data == RebuiltManifest(p, b, m)
      {
        RebuiltMeans(p, b, m, data);
      }
      DigestsMeans(p, m.manifestHash, p.manifestJson(RebuiltManifest(p, b, m)));
    }
  }

  // ---------- signature and anchor ----------

  /** No signature, or one over this election and this manifest hash that the key verifies. */
  ghost predicate SignatureHolds(p: Primitives, b: ArchiveBody, key: Option<string>) {
    b.manifest.Some? && b.manifest.value.digitalSignature.Some? ==>
      var s := b.manifest.value.digitalSignature.value;
      && s.payload.electionId == b.election.id
      && s.payload.manifestHash == b.manifest.value.manifestHash
      && p.verify(if key.None? || key.value == "" then s.publicKey else key.value, s.payload, s.signature)
  }

  ghost predicate SomeEntryHash(b: ArchiveBody, h: string) {
    exists i :: 0 <= i < |b.auditLog| && SameUpToCase(b.auditLog[i].entryHash, h)
  }

  /** No receipt, or one for the hash of some entry; or for the genesis mark, where no entry has a hash. */
  ghost predicate AnchorGood(b: ArchiveBody, receipt: Option<AnchorReceipt>) {
    receipt.Some? ==>
      || SomeEntryHash(b, receipt.value.rootHash)
      || ((forall i :: 0 <= i < |b.auditLog| ==> b.auditLog[i].entryHash == "")
          && SameUpToCase("GENESIS", receipt.value.rootHash))
  }

  lemma {:induction false} LastHashMeans(log: seq<ArchiveEntry>, n: nat)
    requires n <= |log|
    ensures (exists i :: 0 <= i < n && log[i].entryHash == LastHash(log, n))
            || ((forall i :: 0 <= i < n ==> log[i].entryHash == "") && LastHash(log, n) == "GENESIS")
    ensures (forall i :: 0 <= i < n ==> log[i].entryHash == "") ==> LastHash(log, n) == "GENESIS"
  {
    if n > 0 {
      LastHashMeans(log, n - 1);
    }
  }

  lemma AnchorMeans(b: ArchiveBody, receipt: Option<AnchorReceipt>)
    ensures AnchorAccepted(Sort(SequenceLe, b.auditLog), receipt) <==> AnchorGood(b, receipt)
  {
    var log := Sort(SequenceLe, b.auditLog);
    SortElements(SequenceLe, b.auditLog);
    LastHashMeans(log, |log|);
    if receipt.Some? {
      var root := receipt.value.rootHash;
      forall h
        ensures Lower(h) == Lower(root) <==> SameUpToCase(h, root)
      {
        LowerMeans(h, root);
      }
      hide Sort, LastHash, Lower, SameUpToCase;
      SameEntries(log, b.auditLog, root);
      if Lower(root) == Lower(LastHash(log, |log|)) {
        assert SameUpToCase(LastHash(log, |log|), root);
      }
    }
  }

  lemma SameRows<T>(xs: seq<T>, ys: seq<T>, h: T -> bool)
    requires forall x :: x in xs <==> x in ys
    ensures (exists i :: 0 <= i < |xs| && h(xs[i])) <==> exists i :: 0 <= i < |ys| && h(ys[i])
  {
    if i :| 0 <= i < |xs| && h(xs[i]) {
      assert xs[i] in ys;
    }
    if i :| 0 <= i < |ys| && h(ys[i]) {
      assert ys[i] in xs;
    }
  }

  lemma SameEntries(log: seq<ArchiveEntry>, entries: seq<ArchiveEntry>, h: string)
    requires forall x :: x in log <==> x in entries
    ensures (exists i :: 0 <= i < |log| && SameUpToCase(log[i].entryHash, h))
            <==> exists i :: 0 <= i < |entries| && SameUpToCase(entries[i].entryHash, h)
    ensures (forall i :: 0 <= i < |log| ==> log[i].entryHash == "")
            <==> forall i :: 0 <= i < |entries| ==> entries[i].entryHash == ""
  {
    var like := (x: ArchiveEntry) => Lower(x.entryHash) == Lower(h);
    var hashed := (x: ArchiveEntry) => x.entryHash != "";
    SameRows(log, entries, like);
    SameRows(log, entries, hashed);
    forall x: ArchiveEntry
      ensures like(x) <==> SameUpToCase(x.entryHash, h)
    {
      LowerMeans(x.entryHash, h);
    }
    hide SameUpToCase, Lower;
    assert (forall i :: 0 <= i < |log| ==> log[i].entryHash == "") <==> !exists i :: 0 <= i < |log| && hashed(log[i]);
    assert (forall i :: 0 <= i < |entries| ==> entries[i].entryHash == "")
           <==> !exists i :: 0 <= i < |entries| && hashed(entries[i]);
    assert (exists i :: 0 <= i < |log| && SameUpToCase(log[i].entryHash, h))
           <==> exists i :: 0 <= i < |log| && like(log[i]);
    assert (exists i :: 0 <= i < |entries| && SameUpToCase(entries[i].entryHash, h))
           <==> exists i :: 0 <= i < |entries| && like(entries[i]);
  }

  // ---------- the report ----------

  /** What each of the twelve checks finds out about an arbitrary archive. */
  lemma ChecksMean(p: Primitives, a: Archive, key: Option<string>, receipt: Option<AnchorReceipt>)
    ensures var c, b := ReportOf(p, a, key, receipt).checks, a.body;
            && (c.exportEnvelope <==> Digests(p, a.exportHash, p.archiveJson(b)))
            && (c.configuration <==> ConfigurationGood(p, b))
            && (c.ballotHashes <==> BallotsGood(p, b))
            && (c.ballotSequence <==> NumbersGood(b))
            && (c.candidateTotals <==> AllCandidatesKnown(b))
            && (c.deviceTotals <==> AllDevicesKnown(b))
            && (c.reconciliation <==> AllCandidatesKnown(b) && AllDevicesKnown(b))
            && (c.auditChain <==> ChainGood(p, b))
            && (c.auditRoot <==> ChainGood(p, b) && b.auditLog != [])
            && (c.manifest <==> ManifestGood(p, b))
            && (c.signature <==> SignatureHolds(p, b, key))
            && (c.anchor <==> AnchorGood(b, receipt))
  {
    var b := a.body;
    DigestsMeans(p, a.exportHash, p.archiveJson(b));
    ConfigurationMeans(p, b);
    BallotsMean(p, b);
    NumbersMean(b);
    TotalsMean(b);
    ChainMeans(p, b);
    SortElements(SequenceLe, b.auditLog);
    ManifestMeans(p, b);
    AnchorMeans(b, receipt);
    hide Digests, HashAccepted, ConfigurationAccepted, ConfigurationGood, BallotsAccepted, BallotsGood,
         SequencesAccepted, NumbersGood, AllCandidatesKnown, AllDevicesKnown, CandidateSum, DeviceSum, ChainAccepted,
         ChainGood, ManifestAccepted, ManifestGood, AnchorAccepted, AnchorGood, Sort, FailuresOf;
  }

  /**
   * Acceptance, from the archive's rows alone. An archive is accepted if and only if its envelope carries the digest of
   * its body; the election carries the digest of its candidates by position; every ballot carries the digest of its
   * own fields and names a candidate and a device that are there; every device's numbers climb from above zero; the
   * audit entries, at least one, form a chain from 1; and a manifest, a signature, a receipt, where there is one, carry
   * the digest of what the rows call for, verify over this manifest, name the hash of an entry.
   */
  lemma AcceptedMeans(p: Primitives, a: Archive, key: Option<string>, receipt: Option<AnchorReceipt>)
    ensures var b := a.body;
            ReportOf(p, a, key, receipt).valid <==>
              && Digests(p, a.exportHash, p.archiveJson(b))
              && ConfigurationGood(p, b)
              && BallotsGood(p, b)
              && NumbersGood(b)
              && ChainGood(p, b) && b.auditLog != []
              && ManifestGood(p, b)
              && SignatureHolds(p, b, key)
              && AnchorGood(b, receipt)
  {
    ValidMeansAllChecks(p, a, key, receipt);
    ChecksMean(p, a, key, receipt);
    hide ReportOf, Digests, ConfigurationGood, NumbersGood, ChainGood, ManifestGood, SignatureHolds, AnchorGood,
         KnownCandidate, KnownDevice, HashHolds;
  }

  // ---------- what a ballot hash is worth ----------

  /** No field of the ballot, nor the election's ID, holds the field separator. */
  predicate PlainBallot(b: ArchiveBody, x: ArchiveBallot) {
    && PipeFree(b.election.id) && PipeFree(x.sessionId) && PipeFree(x.candidateId) && PipeFree(x.deviceId)
    && PipeFree(x.recordedAt)
  }

  lemma NormalisePlain(ts: string)
    requires PipeFree(ts)
    ensures PipeFree(Normalise(ts))
  {
  }

  /** In an accepted archive every ballot's stored hash is the digest of the ballot's own text. */
  lemma AcceptedHashHolds(p: Primitives, a: Archive, key: Option<string>, receipt: Option<AnchorReceipt>, i: nat)
    requires ReportOf(p, a, key, receipt).valid && i < |a.body.ballots|
    ensures var x := a.body.ballots[i];
            x.ballotHash == p.sha256(BallotText(a.body.election.id, x.sessionId, x.candidateId, x.deviceId,
                                                x.sequenceNumber, Normalise(x.recordedAt)))
  {
    AcceptedMeans(p, a, key, receipt);
    BallotLineMeans(a.body.election.id, a.body.ballots[i]);
    hide ReportOf, Digests, ConfigurationGood, NumbersGood, ChainGood, ManifestGood, SignatureHolds, AnchorGood,
         KnownCandidate, KnownDevice, BallotText, BallotLine, Normalise;
  }

  /**
   * A ballot hash pins the ballot. If two accepted archives, under whatever keys and receipts, hold ballots with the
   * same hash and without separators in their fields, the ballots agree in election, session, candidate, device,
   * number and time, unless the digest collides on their two texts.
   */
  lemma KeptHashKeepsFields(p: Primitives, a: Archive, key: Option<string>, receipt: Option<AnchorReceipt>, i: nat,
                            a': Archive, key': Option<string>, receipt': Option<AnchorReceipt>, j: nat)
    requires ReportOf(p, a, key, receipt).valid && i < |a.body.ballots| && PlainBallot(a.body, a.body.ballots[i])
    requires ReportOf(p, a', key', receipt').valid && j < |a'.body.ballots| && PlainBallot(a'.body, a'.body.ballots[j])
    requires a.body.ballots[i].ballotHash == a'.body.ballots[j].ballotHash
    requires var s, t := BallotLine(a.body.election.id, a.body.ballots[i]),
                         BallotLine(a'.body.election.id, a'.body.ballots[j]);
             s != t ==> p.sha256(s) != p.sha256(t)
    ensures a.body.election.id == a'.body.election.id
    ensures var x, y := a.body.ballots[i], a'.body.ballots[j];
            && x.sessionId == y.sessionId && x.candidateId == y.candidateId && x.deviceId == y.deviceId
            && x.sequenceNumber == y.sequenceNumber && Normalise(x.recordedAt) == Normalise(y.recordedAt)
  {
    var x, y := a.body.ballots[i], a'.body.ballots[j];
    AcceptedHashHolds(p, a, key, receipt, i);
    AcceptedHashHolds(p, a', key', receipt', j);
    BallotLineMeans(a.body.election.id, x);
    BallotLineMeans(a'.body.election.id, y);
    NormalisePlain(x.recordedAt);
    NormalisePlain(y.recordedAt);
    hide ReportOf, BallotText, BallotLine, Normalise, PipeFree;
    BallotHashBinds(p, a.body.election.id, x.sessionId, x.candidateId, x.deviceId, x.sequenceNumber,
                    Normalise(x.recordedAt),
                    a'.body.election.id, y.sessionId, y.candidateId, y.deviceId, y.sequenceNumber,
                    Normalise(y.recordedAt));
  }
}
