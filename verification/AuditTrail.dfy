/** The audit log as a record of the votes: every ballot has its VOTE_CAST entry, in order, and nothing else has. */
module AuditTrail {
  import opened Prelude
  import opened Text
  import opened Timestamps
  import opened Sorting
  import opened Records
  import opened Hashing
  import opened AuditChain
  import opened ChainBinding
  import opened Export
  import opened Verifier
  import opened Acceptance
  import opened VerifierFacts
  import opened Transactions
  import opened Frames
  import opened Invariants
  import opened Runs
  import opened OneVote
  import opened Identifiers

  function IsVoteCast(): AuditEntry -> bool {
    (x: AuditEntry) => x.eventType == "VOTE_CAST"
  }

  /** The event data as it is hashed. */
  function DataOfEntry(): AuditEntry -> string {
    (x: AuditEntry) => OrElse(x.eventData, "")
  }

  /** The event data that goes with a ballot. */
  function VoteEvent(p: Primitives): Ballot -> string {
    (b: Ballot) => p.eventJson(VoteCastData(b.id, b.deviceId, b.sequenceNumber, b.ballotHash))
  }

  function VoteTrail(log: seq<AuditEntry>): seq<string> {
    Map(DataOfEntry(), Filter(IsVoteCast(), log))
  }

  /** The VOTE_CAST entries of the election's log are exactly its ballots, in recording order. */
  ghost predicate VotesLogged(p: Primitives, db: Database, e: string) {
    VoteTrail(LogOf(db, e)) == Map(VoteEvent(p), BallotsOf(db, e))
  }

  // ---------- one step ----------

  /** The log gains nothing, or one entry that is not a vote. */
  ghost predicate NoVoteLogged(before: seq<AuditEntry>, after: seq<AuditEntry>) {
    after == before || (exists x :: after == before + [x] && x.eventType != "VOTE_CAST")
  }

  /** No other request writes a VOTE_CAST entry, or more than one entry. */
  lemma OthersLogNoVote(p: Primitives, db: Database, r: Request, e: string)
    requires !r.command.CastVote?
    ensures NoVoteLogged(LogOf(db, e), LogOf(Step(p, db, r), e))
  {
    StepFrame(p, db, r);
    NothingLogged(LogOf(db, e));
    hide Step, Writes, LoggedIn;
  }

  lemma NothingLogged(log: seq<AuditEntry>)
    ensures NoVoteLogged(log, log)
  {
  }

  lemma TrailAppend(log: seq<AuditEntry>, x: AuditEntry)
    ensures VoteTrail(log + [x])
            == if x.eventType == "VOTE_CAST" then VoteTrail(log) + [OrElse(x.eventData, "")] else VoteTrail(log)
  {
    FilterAppend(IsVoteCast(), log, x);
  }

  /** A granted vote adds its ballot row and, to the log of its election, its VOTE_CAST entry. */
  lemma CastEffect(p: Primitives, db: Database, r: Request, e: string)
    requires r.command.CastVote? && Step(p, db, r) != db
    ensures exists b, x :: VoteAdded(p, db, Step(p, db, r), e, b, x)
  {
    hide NewBallot, VoteChecks, NextEntry;
    var c := r.command;
    var (i, k) := VoteChecks(db, c.token, c.candidateId, c.deviceId, c.sequenceNumber, c.ballotId).value;
    var b := NewBallot(p, db.sessions[i], c.candidateId, c.deviceId, c.sequenceNumber, c.ballotId, r.now);
    NewBallotFields(p, db.sessions[i], c.candidateId, c.deviceId, c.sequenceNumber, c.ballotId, r.now);
    var data := Some(p.eventJson(VoteCastData(b.id, b.deviceId, b.sequenceNumber, b.ballotHash)));
    var x := NextEntry(p, LogOf(db, b.electionId), "VOTE_CAST", data, Some(r.actor), Some(c.deviceId), r.now);
    NextEntryFields(p, LogOf(db, b.electionId), "VOTE_CAST", data, Some(r.actor), Some(c.deviceId), r.now);
    assert VoteAdded(p, db, Step(p, db, r), e, b, x);
  }

  ghost predicate VoteAdded(p: Primitives, db: Database, db': Database, e: string, b: Ballot, x: AuditEntry) {
    && db'.ballots == db.ballots + [b]
    && LogOf(db', e) == (if b.electionId == e then LogOf(db, e) + [x] else LogOf(db, e))
    && x.eventType == "VOTE_CAST" && x.eventData == Some(VoteEvent(p)(b))
  }

  lemma NextEntryFields(p: Primitives, log: seq<AuditEntry>, eventType: string, data: Option<string>,
                        actor: Option<string>, deviceId: Option<string>, now: DateTime)
    ensures var x := NextEntry(p, log, eventType, data, actor, deviceId, now);
            x.eventType == eventType && x.eventData == data
  {
  }

  lemma CastLogsVote(p: Primitives, db: Database, r: Request, e: string)
    requires r.command.CastVote? && VotesLogged(p, db, e)
    ensures VotesLogged(p, Step(p, db, r), e)
  {
    hide Step, VoteTrail, Filter, Map, LogOf;
    if Step(p, db, r) != db {
      CastEffect(p, db, r, e);
      var b, x :| VoteAdded(p, db, Step(p, db, r), e, b, x);
      FilterAppend(BallotIn(e), db.ballots, b);
      TrailAppend(LogOf(db, e), x);
      MapAppend(VoteEvent(p), BallotsOf(db, e), b);
    }
  }

  lemma NewBallotFields(p: Primitives, s: Session, c: string, d: string, n: int, id: string, now: DateTime)
    ensures var b := NewBallot(p, s, c, d, n, id, now);
            b.id == id && b.electionId == s.electionId && b.deviceId == d && b.sequenceNumber == n
  {
  }

  lemma StepKeepsTrail(p: Primitives, db: Database, r: Request, e: string)
    requires VotesLogged(p, db, e)
    ensures VotesLogged(p, Step(p, db, r), e)
  {
    hide Step, VoteTrail;
    if r.command.CastVote? {
      CastLogsVote(p, db, r, e);
    } else {
      OthersAddNoBallot(p, db, r);
      OthersLogNoVote(p, db, r, e);
      if LogOf(Step(p, db, r), e) != LogOf(db, e) {
        var x :| LogOf(Step(p, db, r), e) == LogOf(db, e) + [x] && x.eventType != "VOTE_CAST";
        TrailAppend(LogOf(db, e), x);
      }
    }
  }

  /** In every reachable state the log tells exactly the ballots, each once and in recording order. */
  lemma {:induction false} EveryVoteLogged(p: Primitives, rs: seq<Request>, e: string)
    ensures VotesLogged(p, Run(p, EMPTY, rs), e)
  {
    hide Step;
    if rs != [] {
      EveryVoteLogged(p, rs[..|rs| - 1], e);
      StepKeepsTrail(p, Run(p, EMPTY, rs[..|rs| - 1]), rs[|rs| - 1], e);
    }
  }

  // ---------- the audit root of a run pins its ballots ----------

  /** Different event data have different JSON texts. */
  ghost predicate FaithfulJson(p: Primitives) {
    forall x, y :: p.eventJson(x) == p.eventJson(y) ==> x == y
  }

  function TextOfBallot(b: Ballot): string {
    BallotText(b.electionId, b.sessionId, b.candidateId, b.deviceId, b.sequenceNumber, Iso(b.recordedAt))
  }

  /** No two different ballot texts of a and b have the same digest. */
  ghost predicate BallotsCollisionFree(p: Primitives, a: seq<Ballot>, b: seq<Ballot>) {
    forall i, j :: 0 <= i < |a| && 0 <= j < |b| && p.sha256(TextOfBallot(a[i])) == p.sha256(TextOfBallot(b[j]))
      ==> TextOfBallot(a[i]) == TextOfBallot(b[j])
  }

  ghost predicate HashedBallots(p: Primitives, bs: seq<Ballot>) {
    forall i :: 0 <= i < |bs| ==> bs[i].ballotHash == p.sha256(TextOfBallot(bs[i]))
  }

  /** Equal event types and equal data, entry by entry. */
  ghost predicate SameEvents(a: seq<AuditEntry>, b: seq<AuditEntry>) {
    |a| == |b| && forall i :: 0 <= i < |a| ==> SameEvent(a[i], b[i])
  }

  predicate SameEvent(x: AuditEntry, y: AuditEntry) {
    x.eventType == y.eventType && OrElse(x.eventData, "") == OrElse(y.eventData, "")
  }

  lemma SameHistorySameEvents(a: seq<AuditEntry>, b: seq<AuditEntry>)
    requires SameHistory(Map(ExportEntry, a), Map(ExportEntry, b))
    ensures SameEvents(a, b)
  {
    hide Iso;
    var x, y := Map(ExportEntry, a), Map(ExportEntry, b);
    assert |x| == |y|;
    forall i | 0 <= i < |a|
      ensures SameEvent(a[i], b[i])
    {
      assert SameHashedFields(x[i], y[i]);
      assert x[i] == ExportEntry(a[i]) && y[i] == ExportEntry(b[i]);
    }
  }

  lemma {:induction false} SameEventsSameTrail(a: seq<AuditEntry>, b: seq<AuditEntry>)
    requires SameEvents(a, b)
    ensures VoteTrail(a) == VoteTrail(b)
  {
    hide VoteTrail, OrElse;
    if a == [] {
      assert b == [];
    } else {
      var n := |a| - 1;
      assert SameEvent(a[n], b[n]);
      assert a == a[..n] + [a[n]] && b == b[..n] + [b[n]];
      SameEventsSameTrail(a[..n], b[..n]);
      TrailAppend(a[..n], a[n]);
      TrailAppend(b[..n], b[n]);
    }
  }

  lemma SameEventSameBallot(p: Primitives, a: seq<Ballot>, b: seq<Ballot>, i: nat)
    requires i < |a| && i < |b|
    requires FaithfulJson(p) && PlainBallots(a) && PlainBallots(b) && BallotsCollisionFree(p, a, b)
    requires HashedBallots(p, a) && HashedBallots(p, b)
    requires VoteEvent(p)(a[i]) == VoteEvent(p)(b[i])
    ensures a[i] == b[i]
  {
    var x, y := a[i], b[i];
    assert VoteCastData(x.id, x.deviceId, x.sequenceNumber, x.ballotHash)
        == VoteCastData(y.id, y.deviceId, y.sequenceNumber, y.ballotHash);
    assert TextOfBallot(x) == TextOfBallot(y);
    IsoCanonical(x.recordedAt);
    IsoCanonical(y.recordedAt);
    BallotHashBinds(p, x.electionId, x.sessionId, x.candidateId, x.deviceId, x.sequenceNumber, Iso(x.recordedAt),
                    y.electionId, y.sessionId, y.candidateId, y.deviceId, y.sequenceNumber, Iso(y.recordedAt));
    IsoInjective(x.recordedAt, y.recordedAt);
  }

  lemma BallotsHashed(p: Primitives, db: Database, e: string)
    requires TablesOk(p, db)
    ensures HashedBallots(p, BallotsOf(db, e))
  {
    hide CandidatesOk, DevicesOk, SessionsOk, VotesKept, DeviceCountersOk, ElectionTotalsOk, ConfigurationsOk;
    forall i | 0 <= i < |BallotsOf(db, e)|
      ensures BallotsOf(db, e)[i].ballotHash == p.sha256(TextOfBallot(BallotsOf(db, e)[i]))
    {
      assert BallotsOf(db, e)[i] in db.ballots;
      assert BallotOk(p, db.candidates, db.devices, db.sessions, BallotsOf(db, e)[i]);
    }
  }

  /** What a reachable state exports as audit log. */
  lemma ExportedTrail(p: Primitives, db: Database, e: string)
    requires p.Sound() && Inv(p, db) && e in db.elections
    ensures var out := Map(ExportEntry, LogOf(db, e));
            out != [] && ChainAccepted(p, out) && AllSeparatorFree(out)
            && out[|out| - 1].entryHash == Root(LogOf(db, e))
  {
    hide *;
    LogOfElection(p, db, e);
    LogExports(p, LogOf(db, e));
  }

  lemma LogExports(p: Primitives, log: seq<AuditEntry>)
    requires p.Sound() && LogOk(p, log) && log != []
    ensures var out := Map(ExportEntry, log);
            out != [] && ChainAccepted(p, out) && AllSeparatorFree(out) && out[|out| - 1].entryHash == Root(log)
  {
    LogParts(p, log);
    hide LogOk, ChainAccepted, ValidLog, AllSeparatorFree, Map, Root;
    LogExported(p, log);
    ValidRootInLog(p, log);
    LastExported(log);
    SeparatorFreeLog(log);
  }

  lemma LogParts(p: Primitives, log: seq<AuditEntry>)
    requires LogOk(p, log)
    ensures ValidLog(p, log)
    ensures forall i :: 0 <= i < |log| ==> PipeFree(log[i].eventType)
  {
    hide ValidLog, PipeFree;
  }

  lemma LastExported(log: seq<AuditEntry>)
    requires log != []
    ensures Map(ExportEntry, log)[|log| - 1].entryHash == log[|log| - 1].entryHash
  {
    hide Iso;
  }

  lemma SeparatorFreeLog(log: seq<AuditEntry>)
    requires forall i :: 0 <= i < |log| ==> PipeFree(log[i].eventType)
    ensures AllSeparatorFree(Map(ExportEntry, log))
  {
    var out := Map(ExportEntry, log);
    hide PipeFree, SeparatorFree, ExportEntry;
    forall i | 0 <= i < |out|
      ensures SeparatorFree(out[i])
    {
      ExportSeparatorFree(log[i]);
    }
  }

  lemma ExportSeparatorFree(x: AuditEntry)
    requires PipeFree(x.eventType)
    ensures SeparatorFree(ExportEntry(x))
  {
    hide Iso, PipeFree;
    IsoCanonical(x.timestamp);
  }

  lemma LogOfElection(p: Primitives, db: Database, e: string)
    requires Inv(p, db) && e in db.elections
    ensures LogOk(p, LogOf(db, e)) && LogOf(db, e) != []
  {
    hide TablesOk, ManifestsOk, AnchorsOk, LogOk;
  }

  lemma SameRoots(a: seq<ArchiveEntry>, b: seq<ArchiveEntry>)
    requires a != [] && b != [] && a[|a| - 1].entryHash == b[|b| - 1].entryHash
    ensures SameRoot(a, b)
  {
  }

  /** Equal roots, equal exported histories. */
  lemma EqualRootsSameHistory(p: Primitives, a: Database, b: Database, e: string)
    requires p.Sound() && Inv(p, a) && Inv(p, b) && e in a.elections && e in b.elections
    requires Root(LogOf(a, e)) == Root(LogOf(b, e))
    requires CollisionFree(p, Map(ExportEntry, LogOf(a, e)), Map(ExportEntry, LogOf(b, e)))
    ensures SameHistory(Map(ExportEntry, LogOf(a, e)), Map(ExportEntry, LogOf(b, e)))
  {
    hide *;
    ExportedTrail(p, a, e);
    ExportedTrail(p, b, e);
    SameRoots(Map(ExportEntry, LogOf(a, e)), Map(ExportEntry, LogOf(b, e)));
    RootPinsSeparated(p, Map(ExportEntry, LogOf(a, e)), Map(ExportEntry, LogOf(b, e)));
  }

  /** The same root means the same ballots, as far as the rows hold no separator in their identifiers. */
  lemma RootPinsPlainBallots(p: Primitives, rs: seq<Request>, rs': seq<Request>, e: string)
    requires p.Sound() && FaithfulJson(p)
    requires e in Run(p, EMPTY, rs).elections && e in Run(p, EMPTY, rs').elections
    requires var a, b := Run(p, EMPTY, rs), Run(p, EMPTY, rs');
             && Root(LogOf(a, e)) == Root(LogOf(b, e))
             && CollisionFree(p, Map(ExportEntry, LogOf(a, e)), Map(ExportEntry, LogOf(b, e)))
             && PlainBallots(BallotsOf(a, e)) && PlainBallots(BallotsOf(b, e))
             && BallotsCollisionFree(p, BallotsOf(a, e), BallotsOf(b, e))
    ensures BallotsOf(Run(p, EMPTY, rs), e) == BallotsOf(Run(p, EMPTY, rs'), e)
  {
    hide Inv, TablesOk, Run, BallotsOf, VoteTrail, SameHistory, HashedBallots, CollisionFree, BallotsCollisionFree,
         PlainBallots, FaithfulJson, Root;
    var a, b := Run(p, EMPTY, rs), Run(p, EMPTY, rs');
    ReachableInv(p, rs);
    ReachableInv(p, rs');
    InvTables(p, a);
    InvTables(p, b);
    EqualRootsSameHistory(p, a, b, e);
    SameHistorySameEvents(LogOf(a, e), LogOf(b, e));
    SameEventsSameTrail(LogOf(a, e), LogOf(b, e));
    EveryVoteLogged(p, rs, e);
    EveryVoteLogged(p, rs', e);
    BallotsHashed(p, a, e);
    BallotsHashed(p, b, e);
    var x, y := BallotsOf(a, e), BallotsOf(b, e);
    assert |x| == |y|;
    forall i | 0 <= i < |x|
      ensures x[i] == y[i]
    {
      assert VoteTrail(LogOf(a, e))[i] == VoteTrail(LogOf(b, e))[i];
      SameEventSameBallot(p, x, y, i);
    }
  }

  /**
   * The audit root pins the ballots. Two runs of requests without separators in their identifiers that end with the
   * same root for an election, without a digest collision among the texts hashed in them, recorded the very same
   * ballots in the same order.
   */
  lemma RootPinsBallots(p: Primitives, rs: seq<Request>, rs': seq<Request>, e: string)
    requires p.Sound() && FaithfulJson(p) && PlainRequests(rs) && PlainRequests(rs')
    requires e in Run(p, EMPTY, rs).elections && e in Run(p, EMPTY, rs').elections
    requires var a, b := Run(p, EMPTY, rs), Run(p, EMPTY, rs');
             && Root(LogOf(a, e)) == Root(LogOf(b, e))
             && CollisionFree(p, Map(ExportEntry, LogOf(a, e)), Map(ExportEntry, LogOf(b, e)))
             && BallotsCollisionFree(p, BallotsOf(a, e), BallotsOf(b, e))
    ensures BallotsOf(Run(p, EMPTY, rs), e) == BallotsOf(Run(p, EMPTY, rs'), e)
  {
    hide *;
    ReachableBallotsPlain(p, rs, e);
    ReachableBallotsPlain(p, rs', e);
    RootPinsPlainBallots(p, rs, rs', e);
  }

  // ---------- what an anchored root pins ----------

  /** No event data of the log holds a field separator. */
  predicate PlainData(log: seq<AuditEntry>) {
    forall i :: 0 <= i < |log| ==> PipeFree(OrElse(log[i].eventData, ""))
  }

  lemma PlainDataExported(p: Primitives, log: seq<AuditEntry>)
    requires LogOk(p, log)
    ensures AllPlain(Map(ExportEntry, log)) <==> PlainData(log)
  {
    LogParts(p, log);
    var out := Map(ExportEntry, log);
    hide PipeFree, ExportEntry, OrElse, LogOk;
    forall i | 0 <= i < |log|
      ensures Plain(out[i]) <==> PipeFree(OrElse(log[i].eventData, ""))
    {
      ExportSeparatorFree(log[i]);
      ExportKeepsData(log[i]);
    }
    if AllPlain(out) {
      forall i | 0 <= i < |log|
        ensures PipeFree(OrElse(log[i].eventData, ""))
      {
        assert Plain(out[i]);
      }
    }
  }

  lemma ExportKeepsData(x: AuditEntry)
    ensures ExportEntry(x).eventData == x.eventData
  {
  }

  lemma PlainTrail(p: Primitives, db: Database, e: string)
    requires Inv(p, db) && e in db.elections
    ensures AllPlain(Map(ExportEntry, LogOf(db, e))) <==> PlainData(LogOf(db, e))
  {
    hide Inv, LogOk, LogOf, Map, AllPlain, PlainData;
    LogOfElection(p, db, e);
    PlainDataExported(p, LogOf(db, e));
  }

  /**
   * Soundness of anchoring. Any archive at all, however it was made, that is accepted together with the receipt for the
   * root of a reachable state contains that state's exported audit log as a prefix: text by hashed text in any case,
   * and field by hashed field if no event data of that state's log holds a separator.
   */
  lemma AnchorPinsArchive(p: Primitives, rs: seq<Request>, e: string, anchorId: string, a: Archive, key: Option<string>)
    requires p.Sound() && e in Run(p, EMPTY, rs).elections
    requires ReportOf(p, a, key, Some(ReceiptFor(p, Run(p, EMPTY, rs), e, anchorId))).valid
    requires CollisionFree(p, Map(ExportEntry, LogOf(Run(p, EMPTY, rs), e)), Sort(SequenceLe, a.body.auditLog))
    ensures var db := Run(p, EMPTY, rs);
            var anchored, log := Map(ExportEntry, LogOf(db, e)), Sort(SequenceLe, a.body.auditLog);
            ExtendsTexts(anchored, log) && (PlainData(LogOf(db, e)) ==> ExtendsHistory(anchored, log))
  {
    hide Inv, Run, ReportOf, LogOf, CollisionFree, ExtendsHistory, ExtendsTexts, Sort, PlainData, AllPlain;
    var db := Run(p, EMPTY, rs);
    ReachableInv(p, rs);
    ExportedTrail(p, db, e);
    PlainTrail(p, db, e);
    AcceptedArchiveExtendsAnchor(p, a, key, ReceiptFor(p, db, e, anchorId), Map(ExportEntry, LogOf(db, e)));
  }

  /** Every archive accepted with the receipt starts with the anchored history, hashed field by hashed field. */
  ghost predicate Pinned(p: Primitives, anchored: seq<ArchiveEntry>, receipt: AnchorReceipt, key: Option<string>) {
    forall a :: ReportOf(p, a, key, Some(receipt)).valid
                && CollisionFree(p, anchored, Sort(SequenceLe, a.body.auditLog))
                ==> ExtendsHistory(anchored, Sort(SequenceLe, a.body.auditLog))
  }

  /**
   * Exactly when an anchor pins the fields. If the honest export of a reachable state is accepted with the receipt for
   * its root, then every archive accepted with that receipt agrees with it in every hashed field if and only if no
   * event data of the anchored log holds a separator, which can be checked before anchoring.
   */
  lemma AnchorPinsExactly(p: Primitives, rs: seq<Request>, e: string, anchorId: string, key: Option<string>,
                          exportedAt: string)
    requires p.Sound() && e in Run(p, EMPTY, rs).elections
    requires var db := Run(p, EMPTY, rs);
             && ReportOf(p, ExportView(p, ViewOf(db, e), exportedAt), key, Some(ReceiptFor(p, db, e, anchorId))).valid
             && CollisionFree(p, Map(ExportEntry, LogOf(db, e)), Map(ExportEntry, LogOf(db, e)))
    ensures var db := Run(p, EMPTY, rs);
            Pinned(p, Map(ExportEntry, LogOf(db, e)), ReceiptFor(p, db, e, anchorId), key) <==> PlainData(LogOf(db, e))
  {
    hide Inv, Run, ReportOf, LogOf, CollisionFree, ExtendsHistory, ExtendsTexts, Sort, PlainData, AllPlain;
    var db := Run(p, EMPTY, rs);
    var receipt := ReceiptFor(p, db, e, anchorId);
    ReachableInv(p, rs);
    PlainTrail(p, db, e);
    if PlainData(LogOf(db, e)) {
      forall a | ReportOf(p, a, key, Some(receipt)).valid
                 && CollisionFree(p, Map(ExportEntry, LogOf(db, e)), Sort(SequenceLe, a.body.auditLog))
        ensures ExtendsHistory(Map(ExportEntry, LogOf(db, e)), Sort(SequenceLe, a.body.auditLog))
      {
        AnchorPinsArchive(p, rs, e, anchorId, a, key);
      }
    } else {
      UnpinnedArchive(p, db, e, receipt, key, exportedAt);
    }
  }

  /** With a separator in the event data of an accepted export, another archive passes with another history. */
  lemma UnpinnedArchive(p: Primitives, db: Database, e: string, receipt: AnchorReceipt, key: Option<string>,
                        exportedAt: string)
    requires p.Sound() && Inv(p, db) && e in db.elections
    requires ReportOf(p, ExportView(p, ViewOf(db, e), exportedAt), key, Some(receipt)).valid
    requires CollisionFree(p, Map(ExportEntry, LogOf(db, e)), Map(ExportEntry, LogOf(db, e)))
    requires !AllPlain(Map(ExportEntry, LogOf(db, e)))
    ensures !Pinned(p, Map(ExportEntry, LogOf(db, e)), receipt, key)
  {
    ExportedLogIs(p, db, e, exportedAt);
    hide Inv, ReportOf, ExportView, CollisionFree, SameHistory, SameTexts, Sort, AllPlain, ChainAccepted, LogOf, Map,
         AllSeparatorFree, WithLog, Pinned, ViewOf;
    ExportedTrail(p, db, e);
    ForgedLog(p, ExportView(p, ViewOf(db, e), exportedAt), Map(ExportEntry, LogOf(db, e)), receipt, key);
  }

  lemma ForgedLog(p: Primitives, a: Archive, log: seq<ArchiveEntry>, receipt: AnchorReceipt, key: Option<string>)
    requires p.Sound() && ReportOf(p, a, key, Some(receipt)).valid && a.body.auditLog == log
    requires ChainAccepted(p, log) && AllSeparatorFree(log) && CollisionFree(p, log, log) && !AllPlain(log)
    ensures !Pinned(p, log, receipt, key)
  {
    hide ReportOf, CollisionFree, SameHistory, SameTexts, Sort, AllPlain, ChainAccepted, AllSeparatorFree, Pinned;
    AcceptedLogSorted(p, log);
    var other := SeparatorCounterexample(p, log);
    SameTextsAccepted(p, a, other, key, Some(receipt));
    AcceptedLogSorted(p, other);
    assert other[..|log|] == other;
    NotPinned(p, log, receipt, key, WithLog(p, a, other));
  }

  lemma NotPinned(p: Primitives, log: seq<ArchiveEntry>, receipt: AnchorReceipt, key: Option<string>, a: Archive)
    requires ReportOf(p, a, key, Some(receipt)).valid && CollisionFree(p, log, Sort(SequenceLe, a.body.auditLog))
    requires !ExtendsHistory(log, Sort(SequenceLe, a.body.auditLog))
    ensures !Pinned(p, log, receipt, key)
  {
    hide ReportOf, CollisionFree, Sort, ExtendsHistory;
  }

  lemma ExportedLogIs(p: Primitives, db: Database, e: string, exportedAt: string)
    requires e in db.elections
    ensures ExportView(p, ViewOf(db, e), exportedAt).body.auditLog == Map(ExportEntry, LogOf(db, e))
  {
  }
}
