/** What a signature is over, column by column, and how far it pins the history of the election. */
module SignedPayloads {
  import opened Prelude
  import opened Text
  import opened Sorting
  import opened Records
  import opened Hashing
  import opened AuditChain
  import opened ChainBinding
  import opened Verifier
  import opened VerifierFacts
  import opened Transactions
  import opened Runs
  import opened Staleness
  import opened SignedArchives
  import opened AuditTrail
  import opened Effects
  import opened Verdicts

  /** Request i signs election e with the secret, and is granted. */
  ghost predicate SigningAt(p: Primitives, rs: seq<Request>, i: nat, e: string, secret: string) {
    && i < |rs| && rs[i].command == SignManifest(e, Some(secret))
    && Serve(p, Run(p, EMPTY, rs[..i]), rs[i]).Accepted?
  }

  /** The number of ballots and the configuration hash of e in a state. */
  ghost predicate States(db: Database, e: string, x: SignedPayload) {
    && e in db.elections
    && x.totalBallots == |BallotsOf(db, e)|
    && x.configurationHash
       == (if db.elections[e].configurationHash.Some? then db.elections[e].configurationHash.value else "")
  }

  lemma RunToNext(p: Primitives, rs: seq<Request>, i: nat)
    requires i < |rs|
    ensures Run(p, EMPTY, rs[..i + 1]) == Step(p, Run(p, EMPTY, rs[..i]), rs[i])
  {
    hide Step;
    assert rs[..i + 1][..i] == rs[..i];
  }

  /** What the stored manifest of e states before request i, by the verification that wrote it. */
  lemma StoredStates(p: Primitives, rs: seq<Request>, i: nat, e: string) returns (j: nat)
    requires p.Sound() && i <= |rs| && e in Run(p, EMPTY, rs[..i]).manifests
    ensures j < i && LastVerification(p, rs[..i], e) == Some(j)
    ensures var m := Run(p, EMPTY, rs[..i]).manifests[e];
            && States(Run(p, EMPTY, rs[..j]), e,
                      SignedPayload(e, "", m.configurationHash, "", m.totalBallots, "", ""))
            && m.reconciliationStatus == "PASSED" && m.auditChainStatus == "INTACT"
  {
    hide Run, Inv, LastVerification, BallotsOf;
    ManifestAge(p, rs[..i], e);
    j := LastVerification(p, rs[..i], e).value;
    assert rs[..i][..j] == rs[..j];
    ReachableInv(p, rs[..i]);
    StoredManifestOk(p, Run(p, EMPTY, rs[..i]), e);
  }

  /**
   * The seven signed columns, over runs. A granted signing stores a signature by the secret over a payload that names
   * the election, its manifest hash, and the hash of the last entry of its log before the signing, and that states the
   * number of ballots and the configuration hash as they were when the election was last verified, with both statuses
   * good.
   */
  lemma SignedColumns(p: Primitives, rs: seq<Request>, i: nat, e: string, secret: string) returns (j: nat)
    requires p.Sound() && SigningAt(p, rs, i, e, secret)
    ensures j < i && LastVerification(p, rs[..i], e) == Some(j)
    ensures var log := LogOf(Run(p, EMPTY, rs[..i]), e);
            var after := Run(p, EMPTY, rs[..i + 1]);
            && log != [] && e in after.manifests && after.manifests[e].digitalSignature.Some?
            && var s := after.manifests[e].digitalSignature.value;
            && s.payload.electionId == e
            && s.payload.manifestHash == after.manifests[e].manifestHash
            && s.payload.auditRootHash == log[|log| - 1].entryHash
            && States(Run(p, EMPTY, rs[..j]), e, s.payload)
            && s.payload.reconciliationStatus == "PASSED" && s.payload.auditChainStatus == "INTACT"
            && s.publicKey == p.publicKey(secret) && s.signature == p.sign(secret, s.payload)
  {
    hide Run, Inv, Step, Serve, SignatureStored, BallotsOf, LastVerification, LogOf;
    var before := Run(p, EMPTY, rs[..i]);
    ReachableInv(p, rs[..i]);
    RunToNext(p, rs, i);
    EffectExactly(p, before, rs[i]);
    SignedRow(p, before, rs[i], Step(p, before, rs[i]), e, secret);
    j := StoredStates(p, rs, i, e);
  }

  lemma SignedRow(p: Primitives, db: Database, r: Request, db': Database, e: string, secret: string)
    requires r.command == SignManifest(e, Some(secret)) && SignatureStored(p, db, r, db')
    ensures e in db.manifests && e in db'.manifests && db'.manifests[e].digitalSignature.Some? && LogOf(db, e) != []
    ensures var s, m := db'.manifests[e].digitalSignature.value, db.manifests[e];
            && s.payload == SignedPayload(e, m.manifestHash, m.configurationHash,
                                          LogOf(db, e)[|LogOf(db, e)| - 1].entryHash, m.totalBallots,
                                          m.reconciliationStatus, m.auditChainStatus)
            && s.publicKey == p.publicKey(secret) && s.signature == p.sign(secret, s.payload)
            && db'.manifests[e] == m.(digitalSignature := Some(s))
  {
    hide EntryAdded, LogOf;
  }

  // ---------- the signed history ----------

  /** The exported log of e before request i. */
  ghost function HistoryAt(p: Primitives, rs: seq<Request>, i: nat, e: string): seq<ArchiveEntry>
    requires i <= |rs|
  {
    Map(ExportEntry, LogOf(Run(p, EMPTY, rs[..i]), e))
  }

  /** Some entry of the archive carries the hash. */
  ghost predicate EntryWithHash(entries: seq<ArchiveEntry>, h: string) {
    exists k :: 0 <= k < |entries| && entries[k].entryHash == h
  }

  lemma SortedEntryWithHash(entries: seq<ArchiveEntry>, h: string)
    ensures EntryWithHash(entries, h) <==> EntryWithHash(Sort(SequenceLe, entries), h)
  {
    var log := Sort(SequenceLe, entries);
    SortElements(SequenceLe, entries);
    hide Sort;
    var like := (x: ArchiveEntry) => x.entryHash == h;
    SameRows(entries, log, like);
    assert EntryWithHash(entries, h) <==> exists k :: 0 <= k < |entries| && like(entries[k]);
    assert EntryWithHash(log, h) <==> exists k :: 0 <= k < |log| && like(log[k]);
  }

  lemma HashPinsHistory(p: Primitives, history: seq<ArchiveEntry>, log: seq<ArchiveEntry>)
    requires p.Sound() && ChainAccepted(p, history) && history != [] && ChainAccepted(p, log)
    requires CollisionFree(p, history, log)
    ensures EntryWithHash(log, history[|history| - 1].entryHash) <==> ExtendsTexts(history, log)
  {
    hide ChainAccepted, CollisionFree, SameText;
    var n := |history|;
    if k :| 0 <= k < |log| && log[k].entryHash == history[n - 1].entryHash {
      SharedHashPinsPrefix(p, history, log, n - 1, k);
      assert history[..n] == history;
      TextsPrefix(history, log);
    }
    if ExtendsTexts(history, log) {
      assert SameText(history[n - 1], log[..n][n - 1]);
      LastOfPrefix(history, log);
    }
  }

  lemma LastOfPrefix(history: seq<ArchiveEntry>, log: seq<ArchiveEntry>)
    requires history != [] && |history| <= |log| && SameText(history[|history| - 1], log[..|history|][|history| - 1])
    ensures EntryWithHash(log, history[|history| - 1].entryHash)
  {
    assert log[|history| - 1].entryHash == history[|history| - 1].entryHash;
  }

  /** The payload of the signature that request i stores for e. */
  ghost predicate SignedBy(p: Primitives, rs: seq<Request>, i: nat, e: string, secret: string, x: SignedPayload)
    requires i < |rs|
  {
    && SigningAt(p, rs, i, e, secret)
    && var after := Run(p, EMPTY, rs[..i + 1]);
    && e in after.manifests && after.manifests[e].digitalSignature.Some?
    && after.manifests[e].digitalSignature.value.payload == x
  }

  lemma SignedElectionExists(p: Primitives, rs: seq<Request>, i: nat, e: string, secret: string)
    requires SigningAt(p, rs, i, e, secret)
    ensures e in Run(p, EMPTY, rs[..i]).elections
  {
    hide Run, LogEvent, SignPayload, PayloadOf;
  }

  lemma RootSigned(p: Primitives, rs: seq<Request>, i: nat, e: string, secret: string, x: SignedPayload)
    requires p.Sound() && i < |rs| && SignedBy(p, rs, i, e, secret, x)
    ensures var log := LogOf(Run(p, EMPTY, rs[..i]), e); log != [] && x.auditRootHash == log[|log| - 1].entryHash
    ensures e in Run(p, EMPTY, rs[..i]).elections
  {
    hide Run, LogOf, States, SigningAt;
    var j := SignedColumns(p, rs, i, e, secret);
    SignedElectionExists(p, rs, i, e, secret);
  }

  lemma HistoryAccepted(p: Primitives, rs: seq<Request>, i: nat, e: string, secret: string, x: SignedPayload)
    requires p.Sound() && i < |rs| && SignedBy(p, rs, i, e, secret, x)
    ensures var out := HistoryAt(p, rs, i, e);
            out != [] && ChainAccepted(p, out) && out[|out| - 1].entryHash == x.auditRootHash
  {
    RootSigned(p, rs, i, e, secret, x);
    hide Run, LogOf, SignedBy, ChainAccepted, AllSeparatorFree, Root, ExportEntry, Inv;
    var db := Run(p, EMPTY, rs[..i]);
    ReachableInv(p, rs[..i]);
    ExportedTrail(p, db, e);
    RootIsLast(p, db, e);
  }

  lemma ValidChain(p: Primitives, a: Archive, key: Option<string>, receipt: Option<AnchorReceipt>)
    requires ReportOf(p, a, key, receipt).valid
    ensures ChainAccepted(p, Sort(SequenceLe, a.body.auditLog))
  {
    ValidArchiveChain(p, a, key, receipt);
    hide ReportOf;
  }

  /**
   * How far a signature pins the history. The signed payload names the hash of the last entry before the signing, and
   * an accepted archive with this payload extends the log as it was then if and only if one of its entries carries that
   * hash: a test a caller can make, and the verifier does not.
   */
  lemma SignedRootPinsHistoryExactly(p: Primitives, rs: seq<Request>, i: nat, e: string, secret: string, a: Archive,
                                     key: Option<string>, receipt: Option<AnchorReceipt>)
    requires p.Sound() && Signed(a) && ReportOf(p, a, key, receipt).valid
    requires i < |rs| && SignedBy(p, rs, i, e, secret, PayloadIn(a))
    requires CollisionFree(p, HistoryAt(p, rs, i, e), Sort(SequenceLe, a.body.auditLog))
    ensures EntryWithHash(a.body.auditLog, PayloadIn(a).auditRootHash)
            <==> ExtendsTexts(HistoryAt(p, rs, i, e), Sort(SequenceLe, a.body.auditLog))
  {
    hide *;
    HistoryAccepted(p, rs, i, e, secret, PayloadIn(a));
    ValidChain(p, a, key, receipt);
    HashPinsHistory(p, HistoryAt(p, rs, i, e), Sort(SequenceLe, a.body.auditLog));
    SortedEntryWithHash(a.body.auditLog, PayloadIn(a).auditRootHash);
  }

  /**
   * The verifier itself leaves the log open. In an accepted archive, signed or not, the audit log can be exchanged for
   * any other entries, with the envelope hash made anew: without a receipt the result is accepted if and only if they
   * are some entries and form a chain.
   */
  lemma LogExchangeableExactly(p: Primitives, a: Archive, key: Option<string>, log: seq<ArchiveEntry>)
    requires p.Sound() && ReportOf(p, a, key, None).valid
    ensures ReportOf(p, WithLog(p, a, log), key, None).valid <==>
            log != [] && exists x :: multiset(x) == multiset(log) && Chained(p, x)
  {
    var b := WithLog(p, a, log);
    AcceptedMeans(p, a, key, None);
    AcceptedMeans(p, b, key, None);
    assert b.exportHash == p.sha256(p.archiveJson(b.body));
    FreshEnvelope(p, p.archiveJson(b.body));
    SameRowsSameGood(p, a.body, b.body, key);
    if ChainGood(p, b.body) {
      SameManifestGood(p, a.body, b.body);
    }
    hide ReportOf, Digests, ConfigurationGood, BallotsGood, NumbersGood, ManifestGood, SignatureHolds, Chained, WithLog;
  }

  lemma FreshEnvelope(p: Primitives, text: string)
    requires p.Sound()
    ensures Digests(p, p.sha256(text), text)
  {
    assert IsHex(p.sha256(text));
  }

  /** Two archive bodies that differ in their logs only. */
  predicate SameButLog(a: ArchiveBody, b: ArchiveBody) {
    b == a.(auditLog := b.auditLog)
  }

  lemma SameRowsSameGood(p: Primitives, a: ArchiveBody, b: ArchiveBody, key: Option<string>)
    requires SameButLog(a, b)
    ensures ConfigurationGood(p, a) == ConfigurationGood(p, b) && BallotsGood(p, a) == BallotsGood(p, b)
    ensures NumbersGood(a) == NumbersGood(b) && SignatureHolds(p, a, key) == SignatureHolds(p, b, key)
  {
    hide ByPosition, Digests, HashHolds;
    KnownSame(a, b);
    hide KnownCandidate, KnownDevice;
  }

  lemma KnownSame(a: ArchiveBody, b: ArchiveBody)
    requires SameButLog(a, b)
    ensures forall c :: KnownCandidate(a, c) == KnownCandidate(b, c)
    ensures forall d :: KnownDevice(a, d) == KnownDevice(b, d)
    ensures Candidates(a) == Candidates(b) && Devices(a) == Devices(b)
    ensures AllCandidatesKnown(a) == AllCandidatesKnown(b) && AllDevicesKnown(a) == AllDevicesKnown(b)
  {
  }

  lemma SameManifestGood(p: Primitives, a: ArchiveBody, b: ArchiveBody)
    requires SameButLog(a, b) && ChainGood(p, a) == ChainGood(p, b)
    ensures ManifestGood(p, a) == ManifestGood(p, b)
  {
    KnownSame(a, b);
    hide ByPosition, Digests, TotalsToHash, ChainGood, Candidates, Devices, AllCandidatesKnown, AllDevicesKnown;
    if a.manifest.Some? {
      forall data
        ensures CalledFor(p, a, a.manifest.value, data) == CalledFor(p, b, a.manifest.value, data)
      {
      }
    }
  }
}
