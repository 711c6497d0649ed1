/** What an accepted archive leaves open about the ballots: all of them under a receipt, all but counts under a seal. */
module Pinning {
  import opened Prelude
  import opened Timestamps
  import opened Sorting
  import opened Grouping
  import opened Records
  import opened Hashing
  import opened AuditChain
  import opened Verifier
  import opened Export
  import opened Acceptance
  import opened Transactions
  import opened Invariants
  import opened Completeness
  import opened Runs

  // ---------- a receipt ----------

  /** The rows of an election without its ballots and its manifest. */
  function WithoutBallots(v: View): View {
    v.(ballots := [], manifest := None)
  }

  lemma WithoutBallotsGood(p: Primitives, v: View)
    requires RowsGood(p, v)
    ensures RowsGood(p, WithoutBallots(v))
    ensures ConfigurationCurrent(p, WithoutBallots(v)) <==> ConfigurationCurrent(p, v)
  {
    hide ValidLog, ConfigurationHash;
  }

  /**
   * The verifier does not compare ballots with VOTE_CAST entries. The archive of a locked election with every ballot
   * left out, and no manifest, is accepted, with any key and with any receipt the full archive would be accepted with.
   */
  lemma BallotsNotPinned(p: Primitives, db: Database, e: string, exportedAt: string, key: Option<string>,
                         receipt: Option<AnchorReceipt>)
    requires p.Sound() && Inv(p, db) && e in db.elections && !BeforeLock(db.elections[e].state)
    requires ReceiptKnown(LogOf(db, e), receipt)
    ensures ReportOf(p, ExportView(p, WithoutBallots(ViewOf(db, e)), exportedAt), key, receipt).valid
  {
    var v := ViewOf(db, e);
    assert v.log == LogOf(db, e) && WithoutBallots(v).log == v.log && WithoutBallots(v).manifest.None?;
    assert StatesRows(p, WithoutBallots(v)) && SignedByKey(WithoutBallots(v), key);
    hide Inv, TablesOk, ReportOf, ExportView, RowsGood, ConfigurationCurrent, ReceiptKnown, ManifestKept, StatesRows,
         SignedByKey, WithoutBallots, ViewOf;
    InvTables(p, db);
    ViewRowsGood(p, db, e);
    ViewConfiguration(p, db, e);
    WithoutBallotsGood(p, v);
    AcceptedExactlyWhen(p, WithoutBallots(v), exportedAt, key, receipt);
  }

  /** The rows with one ballot only, for the candidate, from a device row added for it. */
  function ForgedView(p: Primitives, v: View, c: Candidate): View
    requires v.log != []
  {
    var e, d, now := v.election.id, "EVM-999", v.log[0].timestamp;
    var b := Ballot("B", e, "S", d, c.info.id, 1, BallotHash(p, e, "S", c.info.id, d, 1, Iso(now)), now);
    v.(devices := v.devices + [Device(d, e, "Hall", Active, 1, 1)], ballots := [b], manifest := None)
  }

  lemma ForgedGood(p: Primitives, v: View, c: Candidate)
    requires RowsGood(p, v) && c in v.candidates
    ensures RowsGood(p, ForgedView(p, v, c))
    ensures ConfigurationCurrent(p, ForgedView(p, v, c)) <==> ConfigurationCurrent(p, v)
  {
    hide ValidLog, ConfigurationHash, BallotHash, Iso;
    var w := ForgedView(p, v, c);
    var i :| 0 <= i < |v.candidates| && v.candidates[i] == c;
    assert w.candidates[i].info.id == w.ballots[0].candidateId;
    assert w.devices[|v.devices|].id == w.ballots[0].deviceId;
    assert BallotRowGood(p, w, w.ballots[0]);
  }

  /** An archive with the election row, the candidates and the audit log of another. */
  predicate SameFrame(a: Archive, b: Archive) {
    && a.body.election == b.body.election
    && a.body.candidates == b.body.candidates
    && a.body.auditLog == b.body.auditLog
  }

  /** Every archive that shares the frame of the honest one and is accepted has its ballots. */
  ghost predicate BallotsPinned(p: Primitives, honest: Archive, key: Option<string>, receipt: Option<AnchorReceipt>) {
    forall a: Archive ::
      SameFrame(a, honest) && ReportOf(p, a, key, receipt).valid ==> a.body.ballots == honest.body.ballots
  }

  /** Reconciled archives without candidates have no ballots. */
  lemma NoCandidatesNoBallots(b: ArchiveBody)
    requires ReconciliationAccepted(b) && b.candidates == []
    ensures b.ballots == []
  {
    assert CandidateIds(b.candidates) == {};
    assert Recount(CandidateOf(), {}, b.ballots).Keys == {};
  }

  lemma AcceptedReconciles(p: Primitives, a: Archive, key: Option<string>, receipt: Option<AnchorReceipt>)
    requires ReportOf(p, a, key, receipt).valid
    ensures ReconciliationAccepted(a.body)
  {
    hide Sort, RebuiltManifest, ChainAccepted, ReconciliationAccepted, SequencesAccepted, BallotsAccepted;
    assert ChecksOf(p, a, key, receipt).All();
  }

  lemma ExportReconciles(p: Primitives, v: View, exportedAt: string)
    requires RowsGood(p, v)
    ensures ReconciliationAccepted(ExportBody(v, exportedAt))
  {
    hide RowsGood, ExportBody, ReconciliationAccepted, SequencesAccepted, BallotsAccepted, ChainAccepted, Sort;
    RecordsAccepted(p, v, exportedAt);
    assert RecordChecksOf(p, ExportBody(v, exportedAt)).reconciliation;
  }

  lemma FrameOfView(p: Primitives, v: View, w: View, exportedAt: string)
    requires w.election == v.election && w.candidates == v.candidates && w.log == v.log
    ensures SameFrame(ExportView(p, w, exportedAt), ExportView(p, v, exportedAt))
    ensures |ExportView(p, w, exportedAt).body.ballots| == |w.ballots|
  {
    SortElements(BallotLe, w.ballots);
  }

  /** The archive with one forged ballot, and no manifest, is accepted. */
  lemma ForgedAccepted(p: Primitives, db: Database, e: string, c: Candidate, exportedAt: string, key: Option<string>,
                       receipt: Option<AnchorReceipt>)
    requires p.Sound() && Inv(p, db) && e in db.elections && !BeforeLock(db.elections[e].state)
    requires ReceiptKnown(LogOf(db, e), receipt) && c in CandidatesOf(db, e) && LogOf(db, e) != []
    ensures ReportOf(p, ExportView(p, ForgedView(p, ViewOf(db, e), c), exportedAt), key, receipt).valid
  {
    var v := ViewOf(db, e);
    var w := ForgedView(p, v, c);
    assert v.log == LogOf(db, e) && v.candidates == CandidatesOf(db, e) && w.log == v.log && w.manifest.None?;
    assert StatesRows(p, w) && SignedByKey(w, key);
    hide Inv, TablesOk, ReportOf, ExportView, RowsGood, ConfigurationCurrent, ReceiptKnown, ManifestKept, StatesRows,
         SignedByKey, ForgedView, ViewOf, LogOf, CandidatesOf;
    InvTables(p, db);
    ViewRowsGood(p, db, e);
    ViewConfiguration(p, db, e);
    ForgedGood(p, v, c);
    AcceptedExactlyWhen(p, w, exportedAt, key, receipt);
  }

  lemma ViewParts(p: Primitives, db: Database, e: string)
    requires Inv(p, db) && e in db.elections
    ensures var v := ViewOf(db, e);
            && v.election.id == e && v.log == LogOf(db, e) && v.log != []
            && v.ballots == BallotsOf(db, e) && v.candidates == CandidatesOf(db, e)
    ensures RowsGood(p, ViewOf(db, e)) && ReplayFree(BallotsOf(db, e))
  {
    hide Inv, TablesOk, ReplayFree, ValidLog, LogOf, BallotsOf, CandidatesOf, DevicesOf;
    InvTables(p, db);
    ElectionIdIsKey(p, db, e);
    ViewRowsGood(p, db, e);
  }

  lemma OtherParts(p: Primitives, v: View, c: Candidate)
    ensures var w := WithoutBallots(v); w.election == v.election && w.candidates == v.candidates && w.log == v.log
    ensures WithoutBallots(v).ballots == []
    ensures v.log != [] ==>
              var w := ForgedView(p, v, c);
              w.election == v.election && w.candidates == v.candidates && w.log == v.log && |w.ballots| == 1
  {
  }

  /** With candidates, the archive without its ballots, or with one ballot too many, is accepted as well. */
  lemma OtherBallotsAccepted(p: Primitives, db: Database, e: string, exportedAt: string, key: Option<string>,
                             receipt: Option<AnchorReceipt>) returns (w: View)
    requires p.Sound() && Inv(p, db) && e in db.elections && !BeforeLock(db.elections[e].state)
    requires ReceiptKnown(LogOf(db, e), receipt) && CandidatesOf(db, e) != []
    ensures w.election == ViewOf(db, e).election && w.candidates == ViewOf(db, e).candidates
            && w.log == ViewOf(db, e).log
    ensures |w.ballots| != |ViewOf(db, e).ballots|
    ensures ReportOf(p, ExportView(p, w, exportedAt), key, receipt).valid
  {
    hide *;
    var v := ViewOf(db, e);
    ViewParts(p, db, e);
    OtherParts(p, v, v.candidates[0]);
    if v.ballots != [] {
      w := WithoutBallots(v);
      BallotsNotPinned(p, db, e, exportedAt, key, receipt);
    } else {
      w := ForgedView(p, v, v.candidates[0]);
      ForgedAccepted(p, db, e, v.candidates[0], exportedAt, key, receipt);
    }
  }

  lemma BothWithoutBallots(p: Primitives, v: View, exportedAt: string, a: Archive, key: Option<string>,
                           receipt: Option<AnchorReceipt>)
    requires RowsGood(p, v) && v.candidates == []
    requires SameFrame(a, ExportView(p, v, exportedAt)) && ReportOf(p, a, key, receipt).valid
    ensures a.body.ballots == [] && ExportView(p, v, exportedAt).body.ballots == []
  {
    assert ExportBody(v, exportedAt).candidates == [] && ExportView(p, v, exportedAt).body == ExportBody(v, exportedAt);
    hide RowsGood, ReportOf, ExportBody, ExportView, ReconciliationAccepted;
    AcceptedReconciles(p, a, key, receipt);
    NoCandidatesNoBallots(a.body);
    ExportReconciles(p, v, exportedAt);
    NoCandidatesNoBallots(ExportBody(v, exportedAt));
  }

  lemma PinnedWithoutCandidates(p: Primitives, v: View, exportedAt: string, key: Option<string>,
                                receipt: Option<AnchorReceipt>)
    requires RowsGood(p, v) && v.candidates == []
    ensures BallotsPinned(p, ExportView(p, v, exportedAt), key, receipt)
  {
    hide RowsGood, ReportOf, ExportView, SameFrame;
    forall a: Archive | SameFrame(a, ExportView(p, v, exportedAt)) && ReportOf(p, a, key, receipt).valid
      ensures a.body.ballots == ExportView(p, v, exportedAt).body.ballots
    {
      BothWithoutBallots(p, v, exportedAt, a, key, receipt);
    }
  }

  lemma NotPinned(p: Primitives, honest: Archive, other: Archive, key: Option<string>, receipt: Option<AnchorReceipt>)
    requires SameFrame(other, honest) && ReportOf(p, other, key, receipt).valid
    requires other.body.ballots != honest.body.ballots
    ensures !BallotsPinned(p, honest, key, receipt)
  {
    hide SameFrame, ReportOf;
  }

  /**
   * What a receipt says about the ballots of a locked election: it pins them if and only if there is no candidate to
   * vote for. The verifier does not compare ballots with VOTE_CAST entries.
   */
  lemma ReceiptPinsBallotsExactly(p: Primitives, db: Database, e: string, exportedAt: string, key: Option<string>,
                                  receipt: Option<AnchorReceipt>)
    requires p.Sound() && Inv(p, db) && e in db.elections && !BeforeLock(db.elections[e].state)
    requires ReceiptKnown(LogOf(db, e), receipt)
    ensures BallotsPinned(p, ExportView(p, ViewOf(db, e), exportedAt), key, receipt) <==> CandidatesOf(db, e) == []
  {
    hide *;
    var v := ViewOf(db, e);
    ViewParts(p, db, e);
    if v.candidates == [] {
      PinnedWithoutCandidates(p, v, exportedAt, key, receipt);
    } else {
      var w := OtherBallotsAccepted(p, db, e, exportedAt, key, receipt);
      FrameOfView(p, v, w, exportedAt);
      FrameOfView(p, v, v, exportedAt);
      NotPinned(p, ExportView(p, v, exportedAt), ExportView(p, w, exportedAt), key, receipt);
    }
  }

  // ---------- a sealed manifest ----------

  /** The two lists name every candidate and every device equally often. */
  ghost predicate SameCounts(a: seq<Ballot>, b: seq<Ballot>) {
    && |a| == |b|
    && (forall c :: CountOf(BallotCandidate(), a, c) == CountOf(BallotCandidate(), b, c))
    && (forall d :: CountOf(BallotDevice(), a, d) == CountOf(BallotDevice(), b, d))
  }

  lemma NoneOutside(key: Ballot -> string, ids: set<string>, ballots: seq<Ballot>, k: string)
    requires (forall b :: b in ballots ==> key(b) in ids) && k !in ids
    ensures CountOf(key, ballots, k) == 0
  {
    FilterNone(Keyed(key, k), ballots);
  }

  /** The same totals state the counts of two lists over known keys exactly when the counts are the same. */
  lemma SameStatedCounts(key: Ballot -> string, ids: set<string>, a: seq<Ballot>, b: seq<Ballot>,
                         totals: map<string, int>)
    requires forall x :: x in a || x in b ==> key(x) in ids
    requires StatesCounts(key, ids, b, totals)
    ensures StatesCounts(key, ids, a, totals) <==> forall k :: CountOf(key, a, k) == CountOf(key, b, k)
  {
    hide CountOf;
    if StatesCounts(key, ids, a, totals) {
      forall k
        ensures CountOf(key, a, k) == CountOf(key, b, k)
      {
        if k !in ids {
          NoneOutside(key, ids, a, k);
          NoneOutside(key, ids, b, k);
        }
      }
    }
  }

  lemma KeysKnown(p: Primitives, v: View)
    requires RowsGood(p, v)
    ensures forall b :: b in v.ballots ==> BallotCandidate()(b) in CandidateIds(OrderedCandidates(v.candidates))
    ensures forall b :: b in v.ballots ==> BallotDevice()(b) in DeviceIds(Sort(DeviceLe, v.devices))
  {
    forall b | b in v.ballots
      ensures BallotCandidate()(b) in CandidateIds(OrderedCandidates(v.candidates))
      ensures BallotDevice()(b) in DeviceIds(Sort(DeviceLe, v.devices))
    {
      assert BallotRowGood(p, v, b);
      CandidateIdsExported(v.candidates, b.candidateId);
      DeviceIdsExported(v.devices, b.deviceId);
    }
  }

  /** A manifest that states the rows states the rows with other ballots exactly when the counts are the same. */
  lemma StatesOthersExactly(p: Primitives, v: View, ballots: seq<Ballot>, m: Manifest)
    requires RowsGood(p, v) && RowsGood(p, v.(ballots := ballots)) && ManifestCurrent(p, v, m)
    ensures ManifestCurrent(p, v.(ballots := ballots), m) <==> SameCounts(ballots, v.ballots)
  {
    KeysKnown(p, v);
    KeysKnown(p, v.(ballots := ballots));
    hide RowsGood, CountOf, StatesCounts, CandidateIds, DeviceIds, OrderedCandidates, Sort, ConfigurationHash, Map;
    SameStatedCounts(BallotCandidate(), CandidateIds(OrderedCandidates(v.candidates)), ballots, v.ballots,
                     m.candidateTotals);
    SameStatedCounts(BallotDevice(), DeviceIds(Sort(DeviceLe, v.devices)), ballots, v.ballots, m.deviceTotals);
  }

  /** The manifest of a sealed election states its rows and carries its own hash. */
  lemma SealedStates(p: Primitives, db: Database, e: string)
    requires p.Sound() && Inv(p, db) && Sealed(p, db, e)
    ensures e in db.elections && RowsGood(p, ViewOf(db, e)) && ConfigurationCurrent(p, ViewOf(db, e))
    ensures ManifestCurrent(p, ViewOf(db, e), db.manifests[e]) && OwnHash(p, db.manifests[e])
  {
    hide Inv, RowsGood, TablesOk, ManifestCurrent, CurrentManifest, ConfigurationCurrent, DataOf, ManifestHash;
    InvTables(p, db);
    StoredManifestOk(p, db, e);
    ViewRowsGood(p, db, e);
    ViewConfiguration(p, db, e);
    GeneratedManifestIsCurrent(p, ViewOf(db, e), db.manifests[e]);
  }

  /** The rows of a sealed election with other ballots. */
  function Exchanged(db: Database, e: string, ballots: seq<Ballot>): View
    requires e in db.elections
  {
    ViewOf(db, e).(ballots := ballots)
  }

  /** Other ballots leave configuration, signature and log as they were. */
  lemma ExchangeKeepsRest(p: Primitives, db: Database, e: string, ballots: seq<Ballot>, key: Option<string>)
    requires p.Sound() && Inv(p, db) && Sealed(p, db, e) && KeyFits(db, e, key) && e in db.elections
    requires ConfigurationCurrent(p, ViewOf(db, e))
    ensures var w := Exchanged(db, e, ballots);
            && ConfigurationCurrent(p, w) && SignatureCurrent(p, w, key)
            && w.log == LogOf(db, e) && w.manifest == Some(db.manifests[e])
  {
    SealedSignatureCurrent(p, db, e, key);
    hide Inv, KeyFits, ConfigurationHash, CurrentManifest, BallotsOf, CandidatesOf, DevicesOf;
  }

  /** The archive with other well-kept ballots is accepted exactly when its manifest hash is that of its rows. */
  lemma ExchangeVerdict(p: Primitives, db: Database, e: string, ballots: seq<Ballot>, exportedAt: string,
                        key: Option<string>, receipt: Option<AnchorReceipt>)
    requires p.Sound() && Inv(p, db) && Sealed(p, db, e) && KeyFits(db, e, key) && ReceiptKnown(LogOf(db, e), receipt)
    requires e in db.elections && RowsGood(p, Exchanged(db, e, ballots))
    ensures ReportOf(p, ExportView(p, Exchanged(db, e, ballots), exportedAt), key, receipt).valid
            <==> ManifestHashCurrent(p, Exchanged(db, e, ballots))
    ensures Exchanged(db, e, ballots).manifest == Some(db.manifests[e])
  {
    hide Inv, Sealed, KeyFits, RowsGood, ConfigurationCurrent, ManifestHashCurrent, SignatureCurrent, ReceiptKnown,
         ReportOf, ExportView, Exchanged, ManifestCurrent, OwnHash, LogOf;
    SealedStates(p, db, e);
    ExchangeKeepsRest(p, db, e, ballots, key);
    AcceptedByHashes(p, Exchanged(db, e, ballots), exportedAt, key, receipt);
  }

  /**
   * What a sealed manifest, signed or not, says about the ballots: the archive with any other well-kept ballots in
   * their place is accepted, with the same signature and receipt, if and only if they name every candidate and every
   * device equally often, unless two manifest data share a hash.
   */
  lemma SealPinsCountsExactly(p: Primitives, db: Database, e: string, ballots: seq<Ballot>, exportedAt: string,
                              key: Option<string>, receipt: Option<AnchorReceipt>)
    requires p.Sound() && Inv(p, db) && Sealed(p, db, e) && KeyFits(db, e, key) && ReceiptKnown(LogOf(db, e), receipt)
    requires e in db.elections && RowsGood(p, Exchanged(db, e, ballots))
    requires NoManifestCollision(p, DataOf(db.manifests[e]), RebuiltManifest(
               p, ExportBody(Exchanged(db, e, ballots), exportedAt), db.manifests[e]))
    ensures ReportOf(p, ExportView(p, Exchanged(db, e, ballots), exportedAt), key, receipt).valid
            <==> SameCounts(ballots, BallotsOf(db, e))
  {
    var v, m := ViewOf(db, e), db.manifests[e];
    assert v.ballots == BallotsOf(db, e) && Exchanged(db, e, ballots) == v.(ballots := ballots);
    hide Inv, Sealed, KeyFits, RowsGood, ConfigurationCurrent, ManifestHashCurrent, ReceiptKnown, ReportOf, ExportView,
         Exchanged, ManifestCurrent, OwnHash, SameCounts, NoManifestCollision, RebuiltManifest, ExportBody, ViewOf;
    SealedStates(p, db, e);
    ExchangeVerdict(p, db, e, ballots, exportedAt, key, receipt);
    ManifestHashMeansCurrent(p, Exchanged(db, e, ballots), m, exportedAt);
    StatesOthersExactly(p, v, ballots, m);
  }

  // ---------- other sessions ----------

  /** The ballot under another session ID, hashed again. */
  function Rehashed(p: Primitives, e: string, b: Ballot, sid: string): Ballot {
    b.(sessionId := sid, ballotHash := BallotHash(p, e, sid, b.candidateId, b.deviceId, b.sequenceNumber,
                                                  Iso(b.recordedAt)))
  }

  lemma RehashedGood(p: Primitives, v: View, i: nat, sid: string)
    requires RowsGood(p, v) && i < |v.ballots|
    ensures RowsGood(p, v.(ballots := v.ballots[i := Rehashed(p, v.election.id, v.ballots[i], sid)]))
  {
    hide ValidLog, BallotHash, Iso;
    var bs := v.ballots[i := Rehashed(p, v.election.id, v.ballots[i], sid)];
    var w := v.(ballots := bs);
    assert ReplayFree(bs);
    forall b | b in bs
      ensures BallotRowGood(p, w, b)
    {
      var k :| 0 <= k < |bs| && bs[k] == b;
      assert v.ballots[k] in v.ballots && BallotRowGood(p, v, v.ballots[k]);
    }
  }

  lemma RehashedCounts(p: Primitives, e: string, ballots: seq<Ballot>, i: nat, sid: string)
    requires i < |ballots|
    ensures SameCounts(ballots[i := Rehashed(p, e, ballots[i], sid)], ballots)
  {
    var b := Rehashed(p, e, ballots[i], sid);
    hide Filter, BallotHash;
    forall k
      ensures CountOf(BallotCandidate(), ballots[i := b], k) == CountOf(BallotCandidate(), ballots, k)
      ensures CountOf(BallotDevice(), ballots[i := b], k) == CountOf(BallotDevice(), ballots, k)
    {
      FilterUpdate(Keyed(BallotCandidate(), k), ballots, i, b);
      FilterUpdate(Keyed(BallotDevice(), k), ballots, i, b);
    }
  }

  /** The ballot is exported. */
  lemma ExportedBallot(v: View, i: nat, exportedAt: string)
    requires i < |v.ballots|
    ensures ExportBallot()(v.ballots[i]) in ExportBody(v, exportedAt).ballots
  {
    var s := Sort(BallotLe, v.ballots);
    SortElements(BallotLe, v.ballots);
    hide Sort;
    assert v.ballots[i] in s;
    var k :| 0 <= k < |s| && s[k] == v.ballots[i];
    assert ExportBody(v, exportedAt).ballots[k] == ExportBallot()(s[k]);
  }

  /** In replay-free rows device and number identify the exported ballot. */
  lemma ExportedOnce(v: View, i: nat, x: ArchiveBallot, exportedAt: string)
    requires ReplayFree(v.ballots) && i < |v.ballots| && x in ExportBody(v, exportedAt).ballots
    requires x.deviceId == v.ballots[i].deviceId && x.sequenceNumber == v.ballots[i].sequenceNumber
    ensures x.sessionId == v.ballots[i].sessionId
  {
    var s := Sort(BallotLe, v.ballots);
    SortElements(BallotLe, v.ballots);
    hide Sort, Iso;
    var k :| 0 <= k < |s| && ExportBallot()(s[k]) == x;
    assert s[k] in v.ballots;
    var n :| 0 <= n < |v.ballots| && v.ballots[n] == s[k];
    assert n == i;
  }

  /** Another session ID shows in the archive. */
  lemma OtherSessionShows(p: Primitives, v: View, i: nat, sid: string, exportedAt: string)
    requires ReplayFree(v.ballots) && i < |v.ballots| && sid != v.ballots[i].sessionId
    ensures var w := v.(ballots := v.ballots[i := Rehashed(p, v.election.id, v.ballots[i], sid)]);
            ExportBody(w, exportedAt).ballots != ExportBody(v, exportedAt).ballots
  {
    var w := v.(ballots := v.ballots[i := Rehashed(p, v.election.id, v.ballots[i], sid)]);
    var x := ExportBallot()(w.ballots[i]);
    assert x.sessionId == sid && x.deviceId == v.ballots[i].deviceId && x.sequenceNumber == v.ballots[i].sequenceNumber;
    hide Rehashed, ExportBallot, ExportBody, ReplayFree;
    ExportedBallot(w, i, exportedAt);
    if x in ExportBody(v, exportedAt).ballots {
      ExportedOnce(v, i, x, exportedAt);
    }
  }

  lemma ExchangedParts(p: Primitives, db: Database, e: string, ballots: seq<Ballot>, exportedAt: string)
    requires e in db.elections
    ensures Exchanged(db, e, ballots) == ViewOf(db, e).(ballots := ballots)
    ensures ExportView(p, Exchanged(db, e, ballots), exportedAt).body
            == ExportBody(Exchanged(db, e, ballots), exportedAt)
    ensures ExportView(p, ViewOf(db, e), exportedAt).body == ExportBody(ViewOf(db, e), exportedAt)
  {
    hide ViewOf, ExportBody;
  }

  /**
   * In particular every ballot of a sealed election can be exchanged for the same vote under another session ID: the
   * archive differs and is accepted with the same signature, key and receipt.
   */
  lemma SessionsNotPinned(p: Primitives, db: Database, e: string, i: nat, sid: string, exportedAt: string,
                          key: Option<string>, receipt: Option<AnchorReceipt>)
    requires p.Sound() && Inv(p, db) && Sealed(p, db, e) && KeyFits(db, e, key) && ReceiptKnown(LogOf(db, e), receipt)
    requires e in db.elections && i < |BallotsOf(db, e)| && sid != BallotsOf(db, e)[i].sessionId
    ensures var bs := BallotsOf(db, e)[i := Rehashed(p, e, BallotsOf(db, e)[i], sid)];
            && ReportOf(p, ExportView(p, Exchanged(db, e, bs), exportedAt), key, receipt).valid
            && ExportView(p, Exchanged(db, e, bs), exportedAt).body.ballots
               != ExportView(p, ViewOf(db, e), exportedAt).body.ballots
  {
    var v, m := ViewOf(db, e), db.manifests[e];
    var bs := BallotsOf(db, e)[i := Rehashed(p, e, BallotsOf(db, e)[i], sid)];
    var w := Exchanged(db, e, bs);
    ExchangedParts(p, db, e, bs, exportedAt);
    hide *;
    ViewParts(p, db, e);
    SealedStates(p, db, e);
    RehashedGood(p, v, i, sid);
    RehashedCounts(p, e, v.ballots, i, sid);
    OtherSessionShows(p, v, i, sid, exportedAt);
    ExchangeVerdict(p, db, e, bs, exportedAt, key, receipt);
    StatesOthersExactly(p, v, bs, m);
    CurrentManifestAccepted(p, w, m);
  }
}
