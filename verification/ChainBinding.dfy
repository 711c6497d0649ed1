/** What an audit root commits to: the whole history behind it. */
module ChainBinding {
  import opened Prelude
  import opened Text
  import opened Records
  import opened Hashing
  import opened AuditChain

  function TextOf(e: ArchiveEntry): string {
    EntryText(e.sequenceNumber, e.eventType, e.eventData, e.timestamp, e.previousHash)
  }

  /** Event types and timestamps hold no field separator; the event data is arbitrary. */
  predicate SeparatorFree(e: ArchiveEntry) {
    PipeFree(e.eventType) && PipeFree(e.timestamp)
  }

  ghost predicate AllSeparatorFree(log: seq<ArchiveEntry>) {
    forall i :: 0 <= i < |log| ==> SeparatorFree(log[i])
  }

  /** No two different texts hashed in a and in b have the same digest. */
  ghost predicate CollisionFree(p: Primitives, a: seq<ArchiveEntry>, b: seq<ArchiveEntry>) {
    forall i, j :: 0 <= i < |a| && 0 <= j < |b| && p.sha256(TextOf(a[i])) == p.sha256(TextOf(b[j]))
      ==> TextOf(a[i]) == TextOf(b[j])
  }

  /** Equal on everything the hash covers; actor and device_id are outside it. */
  predicate SameHashedFields(a: ArchiveEntry, b: ArchiveEntry) {
    && a.sequenceNumber == b.sequenceNumber
    && a.eventType == b.eventType
    && OrElse(a.eventData, "") == OrElse(b.eventData, "")
    && a.timestamp == b.timestamp
    && a.previousHash == b.previousHash
    && a.entryHash == b.entryHash
  }

  ghost predicate SameHistory(a: seq<ArchiveEntry>, b: seq<ArchiveEntry>) {
    |a| == |b| && forall i :: 0 <= i < |a| ==> SameHashedFields(a[i], b[i])
  }

  lemma AcceptedEntriesAreHex(p: Primitives, log: seq<ArchiveEntry>, i: nat)
    requires p.Sound() && ChainAccepted(p, log) && i < |log|
    ensures IsHex(log[i].entryHash)
    ensures i > 0 ==> log[i].previousHash == Some(log[i - 1].entryHash) && IsHex(log[i - 1].entryHash)
    ensures i == 0 ==> log[i].previousHash == None
    ensures PipeFree(OrElse(log[i].previousHash, "GENESIS"))
  {
    assert EntryGood(p, log, i);
    assert IsHex(p.sha256(TextOf(log[i])));
    if i > 0 {
      assert EntryGood(p, log, i - 1);
      assert IsHex(p.sha256(TextOf(log[i - 1])));
      HexFacts(log[i - 1].entryHash);
    }
  }

  /** The text that was hashed, with what can be read off it in any case. */
  predicate SameText(a: ArchiveEntry, b: ArchiveEntry) {
    && TextOf(a) == TextOf(b)
    && a.sequenceNumber == b.sequenceNumber
    && a.previousHash == b.previousHash
    && a.entryHash == b.entryHash
  }

  ghost predicate SameTexts(a: seq<ArchiveEntry>, b: seq<ArchiveEntry>) {
    |a| == |b| && forall i :: 0 <= i < |a| ==> SameText(a[i], b[i])
  }

  /** The audit roots, the hashes of the last entries, are the same. */
  predicate SameRoot(a: seq<ArchiveEntry>, b: seq<ArchiveEntry>) {
    a != [] && b != [] && a[|a| - 1].entryHash == b[|b| - 1].entryHash
  }

  /** No field of the entry holds a separator, the event data included. */
  predicate Plain(e: ArchiveEntry) {
    SeparatorFree(e) && PipeFree(OrElse(e.eventData, ""))
  }

  ghost predicate AllPlain(log: seq<ArchiveEntry>) {
    forall i :: 0 <= i < |log| ==> Plain(log[i])
  }

  /** Equal hashes at two positions of accepted logs mean equal positions, equal texts, and equal predecessors. */
  lemma EqualHashesBind(p: Primitives, a: seq<ArchiveEntry>, b: seq<ArchiveEntry>, i: nat, j: nat)
    requires p.Sound() && ChainAccepted(p, a) && ChainAccepted(p, b) && CollisionFree(p, a, b)
    requires i < |a| && j < |b| && a[i].entryHash == b[j].entryHash
    ensures i == j && SameText(a[i], b[j])
    ensures i > 0 ==> a[i - 1].entryHash == b[i - 1].entryHash
  {
    assert EntryGood(p, a, i) && EntryGood(p, b, j);
    AcceptedEntriesAreHex(p, a, i);
    AcceptedEntriesAreHex(p, b, j);
    assert p.sha256(TextOf(a[i])) == p.sha256(TextOf(b[j]));
    hide EntryText, PipeFree, IsHex, CollisionFree, ChainAccepted;
    EntryTextOuter(a[i].sequenceNumber, a[i].eventType, a[i].eventData, a[i].timestamp, a[i].previousHash,
                   b[j].sequenceNumber, b[j].eventType, b[j].eventData, b[j].timestamp, b[j].previousHash);
  }

  /**
   * An audit root pins the history: two accepted logs that share an entry hash share, up to that entry,
   * every number, every link and every hashed text.
   */
  lemma {:induction false} SharedHashPinsPrefix(
      p: Primitives, a: seq<ArchiveEntry>, b: seq<ArchiveEntry>, i: nat, j: nat)
    requires p.Sound() && ChainAccepted(p, a) && ChainAccepted(p, b) && CollisionFree(p, a, b)
    requires i < |a| && j < |b| && a[i].entryHash == b[j].entryHash
    ensures i == j && SameTexts(a[..i + 1], b[..i + 1])
    decreases i
  {
    hide SameText, ChainAccepted, CollisionFree;
    EqualHashesBind(p, a, b, i, j);
    if i > 0 {
      SharedHashPinsPrefix(p, a, b, i - 1, i - 1);
      assert a[..i + 1] == a[..i] + [a[i]] && b[..i + 1] == b[..i] + [b[i]];
    }
  }

  /** Two non-empty accepted logs with the same root hash the same texts, entry by entry. */
  lemma RootPinsTexts(p: Primitives, a: seq<ArchiveEntry>, b: seq<ArchiveEntry>)
    requires p.Sound() && ChainAccepted(p, a) && ChainAccepted(p, b) && CollisionFree(p, a, b)
    requires SameRoot(a, b)
    ensures SameTexts(a, b)
  {
    SharedHashPinsPrefix(p, a, b, |a| - 1, |b| - 1);
    assert a[..|a|] == a && b[..|b|] == b;
  }

  // ---------- from texts to fields ----------

  /** The previous hash of an accepted entry holds no separator. */
  ghost predicate LinksFree(log: seq<ArchiveEntry>) {
    forall i :: 0 <= i < |log| ==> PipeFree(OrElse(log[i].previousHash, "GENESIS"))
  }

  lemma AcceptedLinksFree(p: Primitives, log: seq<ArchiveEntry>)
    requires p.Sound() && ChainAccepted(p, log)
    ensures LinksFree(log)
  {
    forall i | 0 <= i < |log|
      ensures PipeFree(OrElse(log[i].previousHash, "GENESIS"))
    {
      AcceptedEntriesAreHex(p, log, i);
    }
  }

  /** Plain entries are read off their texts, whatever the other log holds. */
  lemma PlainTextsPinFields(a: seq<ArchiveEntry>, b: seq<ArchiveEntry>)
    requires SameTexts(a, b) && AllPlain(a) && LinksFree(a)
    ensures SameHistory(a, b)
  {
    forall i | 0 <= i < |a|
      ensures SameHashedFields(a[i], b[i])
    {
      assert SameText(a[i], b[i]) && Plain(a[i]);
      hide EntryText, PipeFree;
      EntryTextPlain(a[i].sequenceNumber, a[i].eventType, a[i].eventData, a[i].timestamp, a[i].previousHash,
                     b[i].sequenceNumber, b[i].eventType, b[i].eventData, b[i].timestamp, b[i].previousHash);
    }
  }

  /** So are entries of two logs whose event types and timestamps are separator-free; the event data is arbitrary. */
  lemma SeparatedTextsPinFields(a: seq<ArchiveEntry>, b: seq<ArchiveEntry>)
    requires SameTexts(a, b) && AllSeparatorFree(a) && AllSeparatorFree(b) && LinksFree(a)
    ensures SameHistory(a, b)
  {
    forall i | 0 <= i < |a|
      ensures SameHashedFields(a[i], b[i])
    {
      assert SameText(a[i], b[i]) && SeparatorFree(a[i]) && SeparatorFree(b[i]);
      hide EntryText, PipeFree;
      EntryTextBinds(a[i].sequenceNumber, a[i].eventType, a[i].eventData, a[i].timestamp, a[i].previousHash,
                     b[i].sequenceNumber, b[i].eventType, b[i].eventData, b[i].timestamp, b[i].previousHash);
    }
  }

  // ---------- the separator inside event data ----------

  /** The entry with its event data cut at a separator, the front moved into the event type. */
  function Shifted(e: ArchiveEntry, k: nat): ArchiveEntry
    requires k < |OrElse(e.eventData, "")|
  {
    var d := OrElse(e.eventData, "");
    e.(eventType := e.eventType + "|" + d[..k], eventData := Some(d[k + 1..]))
  }

  lemma ShiftedText(e: ArchiveEntry, k: nat)
    requires k < |OrElse(e.eventData, "")| && OrElse(e.eventData, "")[k] == '|'
    ensures TextOf(Shifted(e, k)) == TextOf(e)
    ensures !SameHashedFields(e, Shifted(e, k))
  {
    var d := OrElse(e.eventData, "");
    JoinFiveShift(Str(e.sequenceNumber), e.eventType, d, e.timestamp, OrElse(e.previousHash, "GENESIS"), k);
    assert OrElse(Some(d[k + 1..]), "") == d[k + 1..];
    assert |Shifted(e, k).eventType| > |e.eventType|;
  }

  /** An accepted log stays accepted when one entry is replaced by another with the same text, links and hash. */
  lemma ReplacedAccepted(p: Primitives, log: seq<ArchiveEntry>, i: nat, x: ArchiveEntry)
    requires ChainAccepted(p, log) && i < |log| && SameText(log[i], x)
    ensures ChainAccepted(p, log[i := x])
  {
    var other := log[i := x];
    forall j | 0 <= j < |other|
      ensures EntryGood(p, other, j)
    {
      assert EntryGood(p, log, j);
      assert ExpectedPrevious(other, j) == ExpectedPrevious(log, j);
      assert TextOf(other[j]) == TextOf(log[j]);
    }
  }

  lemma ReplacedCollisionFree(p: Primitives, log: seq<ArchiveEntry>, i: nat, x: ArchiveEntry)
    requires CollisionFree(p, log, log) && i < |log| && TextOf(x) == TextOf(log[i])
    ensures CollisionFree(p, log, log[i := x])
  {
    hide TextOf;
    var other := log[i := x];
    assert forall j :: 0 <= j < |other| ==> TextOf(other[j]) == TextOf(log[j]);
  }

  /** What an anchored log says that another log with the same root may deny. */
  lemma SeparatorCounterexample(p: Primitives, a: seq<ArchiveEntry>) returns (b: seq<ArchiveEntry>)
    requires ChainAccepted(p, a) && AllSeparatorFree(a) && CollisionFree(p, a, a) && !AllPlain(a)
    ensures |b| == |a| && ChainAccepted(p, b) && CollisionFree(p, a, b) && SameTexts(a, b) && !SameHistory(a, b)
  {
    var i :| 0 <= i < |a| && !Plain(a[i]);
    assert SeparatorFree(a[i]);
    var d := OrElse(a[i].eventData, "");
    var k :| 0 <= k < |d| && d[k] == '|';
    var x := Shifted(a[i], k);
    ShiftedText(a[i], k);
    hide TextOf, Shifted;
    b := a[i := x];
    ReplacedAccepted(p, a, i, x);
    ReplacedCollisionFree(p, a, i, x);
    assert !SameHashedFields(a[i], b[i]);
  }

  /**
   * What a root pins, exactly. Take an accepted log with separator-free event types and timestamps. Every accepted log
   * with its root, however made, agrees with it in every hashed field if and only if no event data of it holds a
   * separator.
   */
  lemma RootPinsHistory(p: Primitives, a: seq<ArchiveEntry>)
    requires p.Sound() && a != [] && ChainAccepted(p, a) && AllSeparatorFree(a) && CollisionFree(p, a, a)
    ensures (forall b :: ChainAccepted(p, b) && SameRoot(a, b) && CollisionFree(p, a, b) ==> SameHistory(a, b))
            <==> AllPlain(a)
  {
    hide SameRoot, ChainAccepted, CollisionFree, SameHistory, SameTexts, AllPlain, LinksFree;
    if AllPlain(a) {
      AcceptedLinksFree(p, a);
      forall b | ChainAccepted(p, b) && SameRoot(a, b) && CollisionFree(p, a, b)
        ensures SameHistory(a, b)
      {
        RootPinsTexts(p, a, b);
        PlainTextsPinFields(a, b);
      }
    } else {
      var b := SeparatorCounterexample(p, a);
      SameLastHash(a, b);
    }
  }

  lemma SameLastHash(a: seq<ArchiveEntry>, b: seq<ArchiveEntry>)
    requires SameTexts(a, b) && a != []
    ensures SameRoot(a, b)
  {
    assert SameText(a[|a| - 1], b[|a| - 1]);
  }

  /** Between two logs whose event types and timestamps are separator-free no condition on the data is needed. */
  lemma RootPinsSeparated(p: Primitives, a: seq<ArchiveEntry>, b: seq<ArchiveEntry>)
    requires p.Sound() && ChainAccepted(p, a) && ChainAccepted(p, b) && CollisionFree(p, a, b)
    requires AllSeparatorFree(a) && AllSeparatorFree(b)
    requires SameRoot(a, b)
    ensures SameHistory(a, b)
  {
    hide SameRoot, ChainAccepted, CollisionFree, SameHistory, SameTexts, AllSeparatorFree, LinksFree;
    RootPinsTexts(p, a, b);
    AcceptedLinksFree(p, a);
    SeparatedTextsPinFields(a, b);
  }

  /** The smallest case: one entry whose event data is "A|B", and one whose event type took the "A". */
  lemma SeparatorWitness(p: Primitives, t: string)
    requires PipeFree(t)
    ensures var h := p.sha256(EntryText(1, "E", Some("A|B"), t, None));
            var a := [ArchiveEntry(1, "E", Some("A|B"), None, None, t, None, h)];
            var b := [ArchiveEntry(1, "E|A", Some("B"), None, None, t, None, h)];
            && ChainAccepted(p, a) && ChainAccepted(p, b) && CollisionFree(p, a, b) && AllSeparatorFree(a)
            && a[0].entryHash == b[0].entryHash && !SameHistory(a, b)
  {
    var h := p.sha256(EntryText(1, "E", Some("A|B"), t, None));
    var a := [ArchiveEntry(1, "E", Some("A|B"), None, None, t, None, h)];
    var b := [ArchiveEntry(1, "E|A", Some("B"), None, None, t, None, h)];
    ShiftedText(a[0], 1);
    assert "E" + "|" + "A|B"[..1] == "E|A" && "A|B"[2..] == "B";
    assert b[0] == Shifted(a[0], 1);
    assert EntryGood(p, a, 0) && EntryGood(p, b, 0);
  }
}
