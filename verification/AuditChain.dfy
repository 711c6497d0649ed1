/** The hash-chained audit log: appending, and the two independent verifiers of it. */
module AuditChain {
  import opened Prelude
  import opened Timestamps
  import opened Sorting
  import opened Records
  import opened Hashing

  // ---------- append ----------

  /** The hash a new entry links to: the latest entry's, or none. */
  function Tip(log: seq<AuditEntry>): Option<string> {
    if log == [] then None else Some(log[|log| - 1].entryHash)
  }

  /** The audit root: the latest entry hash, or the genesis mark. */
  function Root(log: seq<AuditEntry>): string {
    OrElse(Tip(log), "GENESIS")
  }

  /** The entry that log_event adds after `log`. */
  function NextEntry(p: Primitives, log: seq<AuditEntry>, eventType: string, data: Option<string>,
                     actor: Option<string>, deviceId: Option<string>, now: DateTime): AuditEntry
  {
    var n := if log == [] then 1 else log[|log| - 1].sequenceNumber + 1;
    AuditEntry(n, eventType, data, actor, deviceId, now, Tip(log),
               EntryHash(p, n, eventType, data, Iso(now), Tip(log)))
  }

  // ---------- what a valid chain is ----------

  /** The stored hash of an entry is the hash of its own fields. */
  predicate HashMatches(p: Primitives, e: AuditEntry) {
    EntryHash(p, e.sequenceNumber, e.eventType, e.eventData, Iso(e.timestamp), e.previousHash) == e.entryHash
  }

  /** The first n entries link to their predecessors and hash correctly. */
  ghost predicate LinkedUpTo(p: Primitives, log: seq<AuditEntry>, n: nat)
    requires n <= |log|
  {
    forall i :: 0 <= i < n ==> log[i].previousHash == Tip(log[..i]) && HashMatches(p, log[i])
  }

  ghost predicate Numbered(log: seq<AuditEntry>) {
    forall i :: 0 <= i < |log| ==> log[i].sequenceNumber == i + 1
  }

  /** Linked, hashed, and numbered 1..n. */
  ghost predicate ValidLog(p: Primitives, log: seq<AuditEntry>) {
    LinkedUpTo(p, log, |log|) && Numbered(log)
  }

  /** log_event keeps a valid log valid. */
  lemma AppendKeepsValid(p: Primitives, log: seq<AuditEntry>, eventType: string, data: Option<string>,
                         actor: Option<string>, deviceId: Option<string>, now: DateTime)
    requires ValidLog(p, log)
    ensures ValidLog(p, log + [NextEntry(p, log, eventType, data, actor, deviceId, now)])
  {
    var e := NextEntry(p, log, eventType, data, actor, deviceId, now);
    var log' := log + [e];
    forall i | 0 <= i < |log'| ensures log'[i].previousHash == Tip(log'[..i]) && HashMatches(p, log'[i]) {
      if i < |log| {
        assert log'[..i] == log[..i];
      } else {
        assert log'[..i] == log;
      }
    }
  }

  // ---------- backend verifier ----------

  datatype ChainReport = ChainReport(
    isIntact: bool, totalEntries: nat, verifiedEntries: nat,
    firstBrokenIndex: Option<nat>, firstBrokenSequence: Option<int>)

  /** verified is the length of the longest prefix of `log` that is linked and hashed correctly. */
  ghost predicate LongestValidPrefix(p: Primitives, log: seq<AuditEntry>, verified: nat) {
    && verified <= |log|
    && LinkedUpTo(p, log, verified)
    && (verified < |log| ==> !LinkedUpTo(p, log, verified + 1))
  }

  lemma LinkedStep(p: Primitives, log: seq<AuditEntry>, i: nat)
    requires i < |log| && LinkedUpTo(p, log, i)
    ensures LinkedUpTo(p, log, i + 1) <==> log[i].previousHash == Tip(log[..i]) && HashMatches(p, log[i])
    ensures LinkedUpTo(p, log, |log|) ==> LinkedUpTo(p, log, i + 1)
    ensures Tip(log[..i + 1]) == Some(log[i].entryHash)
  {
  }

  lemma NothingLinked(p: Primitives, log: seq<AuditEntry>)
    ensures LinkedUpTo(p, log, 0) && Tip([]) == None
  {
  }

  /** AuditService.verify_chain on the entries of one election in sequence order. */
  method VerifyChain(p: Primitives, entries: seq<AuditEntry>) returns (r: ChainReport)
    ensures r.totalEntries == |entries|
    ensures LongestValidPrefix(p, entries, r.verifiedEntries)
    ensures r.isIntact <==> LinkedUpTo(p, entries, |entries|)
    ensures r.isIntact ==> r.firstBrokenIndex == None && r.firstBrokenSequence == None
    ensures !r.isIntact ==>
              && r.verifiedEntries < |entries|
              && r.firstBrokenIndex == Some(r.verifiedEntries)
              && r.firstBrokenSequence == Some(entries[r.verifiedEntries].sequenceNumber)
  {
    hide LinkedUpTo, Tip;
    NothingLinked(p, entries);
    if |entries| == 0 {
      return ChainReport(true, 0, 0, None, None);
    }
    var verified := 0;
    var expectedPreviousHash: Option<string> := None;
    var i := 0;
    assert entries[..0] == [];
    while i < |entries|
      invariant 0 <= i <= |entries| && verified == i
      invariant expectedPreviousHash == Tip(entries[..i])
      invariant LinkedUpTo(p, entries, i)
    {
      var entry := entries[i];
      LinkedStep(p, entries, i);
      if entry.previousHash != expectedPreviousHash {
        return ChainReport(false, |entries|, verified, Some(i), Some(entry.sequenceNumber));
      }
      var recomputed := EntryHash(p, entry.sequenceNumber, entry.eventType, entry.eventData,
                                  Iso(entry.timestamp), entry.previousHash);
      if recomputed != entry.entryHash {
        return ChainReport(false, |entries|, verified, Some(i), Some(entry.sequenceNumber));
      }
      expectedPreviousHash := Some(entry.entryHash);
      verified := verified + 1;
      i := i + 1;
    }
    return ChainReport(true, |entries|, verified, None, None);
  }

  // ---------- standalone verifier ----------

  predicate SequenceLe(a: ArchiveEntry, b: ArchiveEntry) {
    a.sequenceNumber <= b.sequenceNumber
  }

  function ArchivedHash(p: Primitives, e: ArchiveEntry): string {
    EntryHash(p, e.sequenceNumber, e.eventType, e.eventData, e.timestamp, e.previousHash)
  }

  /** The hash entry i must link to. */
  function ExpectedPrevious(log: seq<ArchiveEntry>, i: nat): Option<string>
    requires i < |log|
  {
    if i == 0 then None else Some(log[i - 1].entryHash)
  }

  predicate EntryGood(p: Primitives, log: seq<ArchiveEntry>, i: nat)
    requires i < |log|
  {
    && log[i].sequenceNumber == i + 1
    && log[i].previousHash == ExpectedPrevious(log, i)
    && log[i].entryHash == ArchivedHash(p, log[i])
  }

  /** What the standalone chain replay accepts, on the entries sorted by sequence number. */
  ghost predicate ChainAccepted(p: Primitives, log: seq<ArchiveEntry>) {
    forall i :: 0 <= i < |log| ==> EntryGood(p, log, i)
  }

  function ExportEntry(e: AuditEntry): ArchiveEntry {
    ArchiveEntry(e.sequenceNumber, e.eventType, e.eventData, e.actor, e.deviceId,
                 Iso(e.timestamp), e.previousHash, e.entryHash)
  }

  /** The exported log is in sequence order already, so the verifier's sort leaves it as it is. */
  lemma ExportedLogSorted(log: seq<AuditEntry>)
    requires forall i, j :: 0 <= i < j < |log| ==> log[i].sequenceNumber <= log[j].sequenceNumber
    ensures Sort(SequenceLe, Map(ExportEntry, log)) == Map(ExportEntry, log)
  {
    SortOfSorted(SequenceLe, Map(ExportEntry, log));
  }

  /** The two chain verifiers agree: the replay accepts exactly the intact logs numbered 1..n. */
  lemma VerifiersAgree(p: Primitives, log: seq<AuditEntry>)
    requires forall i, j :: 0 <= i < j < |log| ==> log[i].sequenceNumber <= log[j].sequenceNumber
    ensures ChainAccepted(p, Sort(SequenceLe, Map(ExportEntry, log)))
            <==> LinkedUpTo(p, log, |log|) && Numbered(log)
  {
    ExportedLogSorted(log);
    var out := Map(ExportEntry, log);
    forall i | 0 <= i < |log|
      ensures EntryGood(p, out, i) <==>
              && log[i].sequenceNumber == i + 1
              && log[i].previousHash == Tip(log[..i]) && HashMatches(p, log[i])
    {
      if i > 0 {
        assert log[..i][i - 1] == log[i - 1];
      }
    }
    assert ChainAccepted(p, out) ==> forall i :: 0 <= i < |log| ==> EntryGood(p, out, i);
  }
}
