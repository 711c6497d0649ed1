/** What a granted request leaves behind, row by row and field by field: the tables, and the entry in the log. */
module Effects {
  import opened Prelude
  import opened Text
  import opened Timestamps
  import opened Grouping
  import opened Records
  import opened Hashing
  import opened AuditChain
  import opened Export
  import opened Transactions
  import opened Frames
  import opened Invariants
  import opened Runs
  import opened Interference
  import opened Verdicts

  // ---------- the log entry ----------

  /** The next entry of the log: its number, the hash before it, the digest of its own fields, who, where and when. */
  predicate IsNext(p: Primitives, log: seq<AuditEntry>, x: AuditEntry, eventType: string, data: EventData,
                   actor: string, deviceId: Option<string>, now: DateTime)
  {
    && x.eventType == eventType && x.eventData == Some(p.eventJson(data))
    && x.actor == Some(actor) && x.deviceId == deviceId && x.timestamp == now
    && x.sequenceNumber == (if log == [] then 1 else log[|log| - 1].sequenceNumber + 1)
    && x.previousHash == (if log == [] then None else Some(log[|log| - 1].entryHash))
    && x.entryHash == p.sha256(EntryLine(ExportEntry(x)))
  }

  /** The call logs one such event in the log of e and touches no other log. */
  ghost predicate EntryAdded(p: Primitives, db: Database, db': Database, e: string, eventType: string, data: EventData,
                             actor: string, deviceId: Option<string>, now: DateTime)
  {
    exists x :: IsNext(p, LogOf(db, e), x, eventType, data, actor, deviceId, now)
                && db'.audit == db.audit[e := LogOf(db, e) + [x]]
  }

  lemma EventLogged(p: Primitives, a: Database, b: Database, e: string, eventType: string, data: EventData,
                    actor: string, deviceId: Option<string>, now: DateTime)
    requires b.audit == a.audit
    ensures EntryAdded(p, a, LogEvent(p, b, e, eventType, data, actor, deviceId, now), e, eventType, data, actor,
                       deviceId, now)
    ensures LogEvent(p, b, e, eventType, data, actor, deviceId, now)
         == b.(audit := LogEvent(p, b, e, eventType, data, actor, deviceId, now).audit)
  {
    var x := NextEntry(p, LogOf(b, e), eventType, Some(p.eventJson(data)), Some(actor), deviceId, now);
    EntryFollows(p, LogOf(b, e), eventType, data, actor, deviceId, now);
    hide NextEntry, IsNext;
    assert LogOf(a, e) == LogOf(b, e);
  }

  lemma EntryFollows(p: Primitives, log: seq<AuditEntry>, eventType: string, data: EventData, actor: string,
                     deviceId: Option<string>, now: DateTime)
    ensures IsNext(p, log, NextEntry(p, log, eventType, Some(p.eventJson(data)), Some(actor), deviceId, now),
                   eventType, data, actor, deviceId, now)
  {
    var x := NextEntry(p, log, eventType, Some(p.eventJson(data)), Some(actor), deviceId, now);
    EntryLineMeans(p, ExportEntry(x));
    hide Str, Iso, Join;
  }

  // ---------- the rows ----------

  /** One entry for every key that some row has, with the number of rows that have it. */
  ghost predicate Counts(totals: map<string, int>, key: Ballot -> string, rows: seq<Ballot>) {
    && (forall k :: k in totals <==> exists b :: b in rows && key(b) == k)
    && (forall k :: k in totals ==> totals[k] == CountOf(key, rows, k))
  }

  /** The manifest row after a verification: what the ballots and the log show, and the signature that was there. */
  ghost predicate Verified(p: Primitives, db: Database, e: string, m: Manifest) {
    && e in db.elections
    && m.electionId == e && m.totalBallots == |BallotsOf(db, e)|
    && Counts(m.candidateTotals, BallotCandidate(), BallotsOf(db, e))
    && Counts(m.deviceTotals, BallotDevice(), BallotsOf(db, e))
    && m.reconciliationStatus == "PASSED" && m.auditChainStatus == "INTACT"
    && m.configurationHash
       == (if db.elections[e].configurationHash.Some? then db.elections[e].configurationHash.value else "")
    && m.manifestHash
       == p.sha256(p.manifestJson(ManifestData(m.electionId, m.totalBallots, m.candidateTotals, m.deviceTotals,
                                               m.reconciliationStatus, m.auditChainStatus, m.configurationHash)))
    && m.digitalSignature == (if e in db.manifests then db.manifests[e].digitalSignature else None)
  }

  /** The payload over the stored manifest and the latest entry of the log. */
  ghost predicate PayloadFor(db: Database, e: string, x: SignedPayload) {
    && e in db.manifests && LogOf(db, e) != []
    && x.electionId == e
    && x.manifestHash == db.manifests[e].manifestHash
    && x.configurationHash == db.manifests[e].configurationHash
    && x.auditRootHash == LogOf(db, e)[|LogOf(db, e)| - 1].entryHash
    && x.totalBallots == db.manifests[e].totalBallots
    && x.reconciliationStatus == db.manifests[e].reconciliationStatus
    && x.auditChainStatus == db.manifests[e].auditChainStatus
  }

  ghost predicate ElectionAdded(p: Primitives, db: Database, r: Request, db': Database)
    requires r.command.CreateElection?
  {
    var e := r.command.electionId;
    && db' == db.(elections := db.elections[e := Election(e, r.command.name, Created, None, 0)],
                  audit := db'.audit)
    && EntryAdded(p, db, db', e, "ELECTION_CREATED", ElectionCreatedData(e, r.command.name), r.actor, None, r.now)
  }

  /** The rows come in the order of the batch, and two candidates in all configure the election. */
  ghost predicate Added(p: Primitives, db: Database, r: Request, db': Database)
    requires r.command.AddCandidates?
  {
    var e, batch := r.command.electionId, r.command.batch;
    && e in db.elections
    && |db'.candidates| == |db.candidates| + |batch|
    && (forall i :: 0 <= i < |db.candidates| ==> db'.candidates[i] == db.candidates[i])
    && (forall i :: 0 <= i < |batch| ==> db'.candidates[|db.candidates| + i] == Candidate(batch[i], e))
    && db' == db.(candidates := db'.candidates, audit := db'.audit,
                  elections := db.elections[e := db.elections[e].(
                    state := if |CandidatesOf(db', e)| >= 2 then Configured else Created)])
    && EntryAdded(p, db, db', e, "CANDIDATES_ADDED",
                  CandidatesAddedData(|batch|, Map((c: CandidateInfo) => c.id, batch), |CandidatesOf(db', e)| >= 2),
                  r.actor, None, r.now)
  }

  /** Locking seals the candidates, by position; nothing else but the state changes. */
  ghost predicate Changed(p: Primitives, db: Database, r: Request, db': Database)
    requires r.command.ChangeState?
  {
    var e, to := r.command.electionId, r.command.newState;
    && e in db.elections && e in db'.elections
    && var row, row' := db.elections[e], db'.elections[e];
    && row' == row.(state := to, configurationHash := row'.configurationHash)
    && (to != Locked ==> row'.configurationHash == row.configurationHash)
    && (to == Locked ==>
          exists cs :: ByPosition(cs, Map(InfoOf(), CandidatesOf(db, e)))
                       && row'.configurationHash == Some(p.sha256(p.configJson(ConfigData(e, cs)))))
    && db' == db.(elections := db.elections[e := row'], audit := db'.audit)
    && EntryAdded(p, db, db', e, "STATE_CHANGE", StateChangeData(row.state, to, r.command.reason), r.actor, None, r.now)
  }

  ghost predicate DeviceStored(p: Primitives, db: Database, r: Request, db': Database)
    requires r.command.RegisterDevice?
  {
    var e, d, name := r.command.electionId, r.command.deviceId, r.command.name;
    && db' == db.(devices := db.devices + [Device(d, e, name, Registered, 0, 0)], audit := db'.audit)
    && EntryAdded(p, db, db', e, "DEVICE_REGISTERED", DeviceRegisteredData(d, name), r.actor, Some(d), r.now)
  }

  /** One device changes its status and is logged, or it had that status already and nothing happens. */
  ghost predicate StatusSet(p: Primitives, db: Database, r: Request, db': Database)
    requires r.command.UpdateDeviceStatus?
  {
    var e, d, status := r.command.electionId, r.command.deviceId, r.command.status;
    exists k :: 0 <= k < |db.devices| && db.devices[k].id == d && db.devices[k].electionId == e
      && if db.devices[k].status == status then db' == db
         else && db' == db.(devices := db.devices[k := db.devices[k].(status := status)], audit := db'.audit)
              && EntryAdded(p, db, db', e, "DEVICE_STATUS_CHANGED", DeviceStatusData(d, db.devices[k].status, status),
                            r.actor, Some(d), r.now)
  }

  ghost predicate SessionAdded(p: Primitives, db: Database, r: Request, db': Database)
    requires r.command.AuthorizeSession?
  {
    var AuthorizeSession(e, credential, d, sid, token) := r.command;
    && db' == db.(sessions := db.sessions + [Session(sid, e, d, token, credential, Authorized)], audit := db'.audit)
    && EntryAdded(p, db, db', e, "SESSION_AUTHORIZED", SessionAuthorizedData(sid, d, credential), r.actor, Some(d),
                  r.now)
  }

  /** The ballot, its session used up, its device one vote and its number further, its election one ballot further. */
  ghost predicate VoteAt(p: Primitives, db: Database, r: Request, db': Database, i: nat, k: nat, b: Ballot)
    requires r.command.CastVote?
  {
    && i < |db.sessions| && k < |db.devices| && b.electionId in db.elections
    && var s, x, row := db.sessions[i], db.devices[k], db.elections[b.electionId];
    && s.token == r.command.token && x.id == r.command.deviceId
    && b.id == r.command.ballotId && b.electionId == s.electionId && b.sessionId == s.id
    && b.deviceId == r.command.deviceId && b.candidateId == r.command.candidateId
    && b.sequenceNumber == r.command.sequenceNumber && b.recordedAt == r.now
    && b.ballotHash
       == p.sha256(b.electionId + "|" + b.sessionId + "|" + b.candidateId + "|" + b.deviceId + "|"
                   + Str(b.sequenceNumber) + "|" + Iso(b.recordedAt))
    && db' == db.(
         ballots := db.ballots + [b],
         sessions := db.sessions[i := s.(status := Voted)],
         devices := db.devices[k := x.(lastSequenceNumber := b.sequenceNumber, totalVotesCast := x.totalVotesCast + 1)],
         elections := db.elections[b.electionId := row.(totalBallots := row.totalBallots + 1)],
         audit := db'.audit)
    && EntryAdded(p, db, db', b.electionId, "VOTE_CAST", VoteCastData(b.id, b.deviceId, b.sequenceNumber, b.ballotHash),
                  r.actor, Some(b.deviceId), r.now)
  }

  ghost predicate VoteRecorded(p: Primitives, db: Database, r: Request, db': Database)
    requires r.command.CastVote?
  {
    exists i: nat, k: nat, b :: VoteAt(p, db, r, db', i, k, b)
  }

  ghost predicate ManifestStored(p: Primitives, db: Database, r: Request, db': Database)
    requires r.command.RunFullVerification?
  {
    var e := r.command.electionId;
    && e in db'.manifests
    && var m := db'.manifests[e];
    && Verified(p, db, e, m)
    && db' == db.(manifests := db.manifests[e := m], audit := db'.audit)
    && EntryAdded(p, db, db', e, "MANIFEST_GENERATED",
                  ManifestGeneratedData(m.manifestHash, "PASSED", "INTACT", m.totalBallots), r.actor, None, r.now)
  }

  ghost predicate SignatureStored(p: Primitives, db: Database, r: Request, db': Database)
    requires r.command.SignManifest?
  {
    var e := r.command.electionId;
    && e in db.manifests && e in db'.manifests && r.command.key.Some? && db'.manifests[e].digitalSignature.Some?
    && var key, s := r.command.key.value, db'.manifests[e].digitalSignature.value;
    && PayloadFor(db, e, s.payload)
    && s.publicKey == p.publicKey(key) && s.signature == p.sign(key, s.payload)
    && db' == db.(manifests := db.manifests[e := db.manifests[e].(digitalSignature := Some(s))], audit := db'.audit)
    && EntryAdded(p, db, db', e, "MANIFEST_SIGNED", ManifestSignedData(s.payload.manifestHash, p.publicKey(key)),
                  r.actor, None, r.now)
  }

  /** A receipt for the latest entry of the log, under a reference made of election, root and anchor ID. */
  ghost predicate ReceiptGood(p: Primitives, db: Database, e: string, id: string, x: AnchorReceipt) {
    && LogOf(db, e) != []
    && var last := LogOf(db, e)[|LogOf(db, e)| - 1];
    && x.electionId == e && x.rootHash == last.entryHash && x.entryCount == last.sequenceNumber == |LogOf(db, e)|
    && (e in db.manifests ==> x.manifestHash == Some(db.manifests[e].manifestHash))
    && (e !in db.manifests ==> x.manifestHash == None)
    && var digest := p.sha256(e + ":" + last.entryHash + ":" + id);
    && x.reference == "local-anc-" + (if |digest| < 16 then digest else digest[..16])
  }

  ghost predicate RootAnchored(p: Primitives, db: Database, r: Request, db': Database)
    requires r.command.AnchorElectionRoot?
  {
    var AnchorElectionRoot(e, provider, id) := r.command;
    match provider
    case UnknownProvider => false
    case LocalProvider =>
      exists x :: ReceiptGood(p, db, e, id, x)
        && db' == db.(anchors := db.anchors[x.reference := x], audit := db'.audit)
        && EntryAdded(p, db, db', e, "AUDIT_ROOT_ANCHORED", RootAnchoredData("LOCAL ANCHOR", x.reference, x.rootHash),
                      r.actor, None, r.now)
    case ExternalProvider(configured) =>
      LogOf(db, e) != [] &&
      if !configured then db' == db
      else db' == db.(audit := db'.audit)
           && EntryAdded(p, db, db', e, "AUDIT_ROOT_ANCHORED",
                         RootAnchoredData("EXTERNAL ANCHOR", id, LogOf(db, e)[|LogOf(db, e)| - 1].entryHash),
                         r.actor, None, r.now)
  }

  ghost predicate CardRejected(p: Primitives, db: Database, r: Request, db': Database)
    requires r.command.RejectCard?
  {
    var RejectCard(e, cause, pseudonym, d) := r.command;
    && db' == db.(audit := db'.audit)
    && EntryAdded(p, db, db', e, "RFID_CARD_REJECTED", CardRejectedData(cause, pseudonym), "rfid_reader", Some(d),
                  r.now)
  }

  ghost predicate Effect(p: Primitives, db: Database, r: Request, db': Database) {
    match r.command
    case CreateElection(_, _) => ElectionAdded(p, db, r, db')
    case AddCandidates(_, _) => Added(p, db, r, db')
    case ChangeState(_, _, _) => Changed(p, db, r, db')
    case RegisterDevice(_, _, _) => DeviceStored(p, db, r, db')
    case UpdateDeviceStatus(_, _, _) => StatusSet(p, db, r, db')
    case AuthorizeSession(_, _, _, _, _) => SessionAdded(p, db, r, db')
    case CastVote(_, _, _, _, _) => VoteRecorded(p, db, r, db')
    case RunFullVerification(_) => ManifestStored(p, db, r, db')
    case SignManifest(_, _) => SignatureStored(p, db, r, db')
    case AnchorElectionRoot(_, _, _) => RootAnchored(p, db, r, db')
    case RejectCard(_, _, _, _) => CardRejected(p, db, r, db')
  }

  // ---------- one lemma per request ----------

  lemma CreateEffect(p: Primitives, db: Database, r: Request)
    requires r.command.CreateElection? && Serve(p, db, r).Accepted?
    ensures ElectionAdded(p, db, r, Step(p, db, r))
  {
    hide LogEvent, EntryAdded;
    var e, name := r.command.electionId, r.command.name;
    EventLogged(p, db, db.(elections := db.elections[e := Election(e, name, Created, None, 0)]), e,
                "ELECTION_CREATED", ElectionCreatedData(e, name), r.actor, None, r.now);
  }

  lemma OwnAdded(cs: seq<Candidate>, e: string, batch: seq<CandidateInfo>)
    ensures |Filter(CandidateIn(e), cs + NewRows(e, batch))| == |Filter(CandidateIn(e), cs)| + |batch|
  {
    FilterConcat(CandidateIn(e), cs, NewRows(e, batch));
    FilterAll(CandidateIn(e), NewRows(e, batch));
  }

  lemma AddEffect(p: Primitives, db: Database, r: Request)
    requires r.command.AddCandidates? && Serve(p, db, r).Accepted?
    ensures Added(p, db, r, Step(p, db, r))
  {
    hide LogEvent, EntryAdded, FreshBatch, IdsUnused, Filter;
    var e, batch := r.command.electionId, r.command.batch;
    OwnAdded(db.candidates, e, batch);
    var enough := |CandidatesOf(db, e)| + |batch| >= 2;
    var row := if enough then db.elections[e].(state := Configured) else db.elections[e];
    var db1 := db.(candidates := db.candidates + NewRows(e, batch), elections := db.elections[e := row]);
    assert BatchIds(batch) == Map((c: CandidateInfo) => c.id, batch);
    EventLogged(p, db, db1, e, "CANDIDATES_ADDED", CandidatesAddedData(|batch|, BatchIds(batch), enough), r.actor,
                None, r.now);
  }

  lemma LockSeals(p: Primitives, db: Database, e: string)
    ensures exists cs :: ByPosition(cs, Map(InfoOf(), CandidatesOf(db, e)))
                         && ConfigurationHash(p, e, Map(InfoOf(), CandidatesOf(db, e)))
                            == p.sha256(p.configJson(ConfigData(e, cs)))
  {
    SortsByPosition(Map(InfoOf(), CandidatesOf(db, e)));
  }

  lemma RowChanged(p: Primitives, db: Database, e: string, to: ElectionState)
    requires e in db.elections && ValidTransition(db.elections[e].state, to)
    ensures var row, row' := db.elections[e], ChangedRow(p, db, e, to);
            && row' == row.(state := to, configurationHash := row'.configurationHash)
            && (to != Locked ==> row'.configurationHash == row.configurationHash)
            && (to == Locked ==>
                  exists cs :: ByPosition(cs, Map(InfoOf(), CandidatesOf(db, e)))
                               && row'.configurationHash == Some(p.sha256(p.configJson(ConfigData(e, cs)))))
  {
    LockSeals(p, db, e);
    hide ByPosition, ConfigurationHash, CandidatesOf, Map;
  }

  lemma ChangeEffect(p: Primitives, db: Database, r: Request)
    requires r.command.ChangeState? && Serve(p, db, r).Accepted?
    ensures Changed(p, db, r, Step(p, db, r))
  {
    var ChangeState(e, to, reason) := r.command;
    hide LogEvent, EntryAdded, ByPosition, ChangedRow, CandidatesOf, Map, HasActiveDevice, ValidTransition,
         DoCreateElection, DoAddCandidates, DoChangeState, DoRegisterDevice, DoUpdateDeviceStatus, DoAuthorizeSession,
         DoCastVote, DoRunFullVerification, DoSignManifest, DoAnchorElectionRoot;
    ChangeByRow(p, db, e, to, reason, r.actor, r.now);
    RowChanged(p, db, e, to);
    EventLogged(p, db, db.(elections := db.elections[e := ChangedRow(p, db, e, to)]), e, "STATE_CHANGE",
                StateChangeData(db.elections[e].state, to, reason), r.actor, None, r.now);
  }

  lemma RegisterEffect(p: Primitives, db: Database, r: Request)
    requires r.command.RegisterDevice? && Serve(p, db, r).Accepted?
    ensures DeviceStored(p, db, r, Step(p, db, r))
  {
    hide LogEvent, EntryAdded, FindIndex;
    var e, d, name := r.command.electionId, r.command.deviceId, r.command.name;
    EventLogged(p, db, db.(devices := db.devices + [Device(d, e, name, Registered, 0, 0)]), e, "DEVICE_REGISTERED",
                DeviceRegisteredData(d, name), r.actor, Some(d), r.now);
  }

  lemma StatusEffect(p: Primitives, db: Database, r: Request)
    requires r.command.UpdateDeviceStatus? && Serve(p, db, r).Accepted?
    ensures StatusSet(p, db, r, Step(p, db, r))
  {
    var e, d, status := r.command.electionId, r.command.deviceId, r.command.status;
    var k := FindIndex(HasDeviceId(d), db.devices).value;
    hide LogEvent, EntryAdded, FindIndex, ValidStatusTransition;
    assert db.devices[k].id == d && db.devices[k].electionId == e;
    EventLogged(p, db, db.(devices := db.devices[k := db.devices[k].(status := status)]), e, "DEVICE_STATUS_CHANGED",
                DeviceStatusData(d, db.devices[k].status, status), r.actor, Some(d), r.now);
  }

  lemma AuthorizeEffect(p: Primitives, db: Database, r: Request)
    requires r.command.AuthorizeSession? && Serve(p, db, r).Accepted?
    ensures SessionAdded(p, db, r, Step(p, db, r))
  {
    hide LogEvent, EntryAdded, FindIndex, CredentialUsed, SessionKeysFree;
    var AuthorizeSession(e, credential, d, sid, token) := r.command;
    EventLogged(p, db, db.(sessions := db.sessions + [Session(sid, e, d, token, credential, Authorized)]), e,
                "SESSION_AUTHORIZED", SessionAuthorizedData(sid, d, credential), r.actor, Some(d), r.now);
  }

  lemma BallotOfVote(p: Primitives, s: Session, c: string, d: string, n: int, id: string, now: DateTime)
    ensures var b := NewBallot(p, s, c, d, n, id, now);
            && b.id == id && b.electionId == s.electionId && b.sessionId == s.id && b.deviceId == d
            && b.candidateId == c && b.sequenceNumber == n && b.recordedAt == now
            && b.ballotHash
               == p.sha256(b.electionId + "|" + b.sessionId + "|" + b.candidateId + "|" + b.deviceId + "|"
                           + Str(b.sequenceNumber) + "|" + Iso(b.recordedAt))
  {
    var b := NewBallot(p, s, c, d, n, id, now);
    IsoCanonical(now);
    BallotLineMeans(s.electionId, ExportBallot()(b));
    hide BallotText, Iso, Normalise, Str;
  }

  lemma VoteCommitted(p: Primitives, db: Database, r: Request, i: nat, k: nat)
    requires r.command.CastVote? && i < |db.sessions| && k < |db.devices| && db.sessions[i].electionId in db.elections
    requires db.sessions[i].token == r.command.token && db.devices[k].id == r.command.deviceId
    ensures var CastVote(token, c, d, n, id) := r.command;
            VoteRecorded(p, db, r, VoteOutcome(p, db, i, k, c, d, n, id, r.actor, r.now).db)
  {
    var CastVote(token, c, d, n, id) := r.command;
    var b := NewBallot(p, db.sessions[i], c, d, n, id, r.now);
    BallotOfVote(p, db.sessions[i], c, d, n, id, r.now);
    hide LogEvent, EntryAdded, NewBallot, Str, Iso;
    EventLogged(p, db, RecordVote(db, i, k, b), b.electionId, "VOTE_CAST", VoteCastData(id, d, n, b.ballotHash),
                r.actor, Some(d), r.now);
    assert VoteAt(p, db, r, VoteOutcome(p, db, i, k, c, d, n, id, r.actor, r.now).db, i, k, b);
  }

  lemma VoteEffect(p: Primitives, db: Database, r: Request)
    requires r.command.CastVote? && Serve(p, db, r).Accepted?
    ensures VoteRecorded(p, db, r, Step(p, db, r))
  {
    var CastVote(token, c, d, n, id) := r.command;
    VoteByChecks(p, db, token, c, d, n, id, r.actor, r.now);
    hide VoteRecorded, VoteOutcome, VoteChecks, DoCreateElection, DoAddCandidates, DoChangeState, DoRegisterDevice,
         DoUpdateDeviceStatus, DoAuthorizeSession, DoCastVote, DoRunFullVerification, DoSignManifest,
         DoAnchorElectionRoot;
    var (i, k) := VoteChecks(db, token, c, d, n, id).value;
    VoteCommitted(p, db, r, i, k);
  }

  lemma GroupByCountsRows(key: Ballot -> string, rows: seq<Ballot>)
    ensures Counts(GroupBy(key, rows), key, rows)
  {
    forall k
      ensures k in GroupBy(key, rows) <==> exists b :: b in rows && key(b) == k
    {
      if b :| b in rows && key(b) == k {
        var i :| 0 <= i < |rows| && rows[i] == b;
      }
    }
  }

  lemma VerifiedFields(p: Primitives, db: Database, e: string)
    requires Inv(p, db) && e in db.elections
    ensures Verified(p, db, e, ManifestFrom(p, VerifiedManifest(p, db, e), ManifestOf(db, e)))
  {
    hide TablesOk, Inv, VerifiedManifest, BallotsOf, GroupBy, Counts;
    VerifiedIsCurrent(p, db, e);
    InvTables(p, db);
    ElectionIdIsKey(p, db, e);
    GroupByCountsRows(BallotCandidate(), BallotsOf(db, e));
    GroupByCountsRows(BallotDevice(), BallotsOf(db, e));
  }

  lemma VerifyEffect(p: Primitives, db: Database, r: Request)
    requires Inv(p, db) && r.command.RunFullVerification? && Serve(p, db, r).Accepted?
    ensures ManifestStored(p, db, r, Step(p, db, r))
  {
    hide Inv, LogEvent, EntryAdded, Verified, VerifiedManifest;
    hide DoCreateElection, DoAddCandidates, DoChangeState, DoRegisterDevice, DoUpdateDeviceStatus, DoAuthorizeSession,
         DoCastVote, DoSignManifest, DoAnchorElectionRoot;
    var e := r.command.electionId;
    var data := VerifiedManifest(p, db, e);
    var m := ManifestFrom(p, data, ManifestOf(db, e));
    VerifiedFields(p, db, e);
    VerifiedIsCurrent(p, db, e);
    EventLogged(p, db, db.(manifests := db.manifests[e := m]), e, "MANIFEST_GENERATED",
                ManifestGeneratedData(m.manifestHash, data.reconciliationStatus, data.auditChainStatus,
                                      data.totalBallots), r.actor, None, r.now);
  }

  /** The audit root of an election is the hash of its latest entry. */
  lemma RootIsLast(p: Primitives, db: Database, e: string)
    requires p.Sound() && Inv(p, db) && e in db.elections
    ensures LogOf(db, e) != [] && Root(LogOf(db, e)) == LogOf(db, e)[|LogOf(db, e)| - 1].entryHash
    ensures LogOf(db, e)[|LogOf(db, e)| - 1].sequenceNumber == |LogOf(db, e)|
  {
    hide TablesOk, ManifestsOk, AnchorsOk;
    assert LogOk(p, LogOf(db, e));
    ValidRootInLog(p, LogOf(db, e));
  }

  lemma SignEffect(p: Primitives, db: Database, r: Request)
    requires p.Sound() && Inv(p, db) && r.command.SignManifest? && Serve(p, db, r).Accepted?
    ensures SignatureStored(p, db, r, Step(p, db, r))
  {
    hide Inv, LogEvent, EntryAdded, Root;
    hide DoCreateElection, DoAddCandidates, DoChangeState, DoRegisterDevice, DoUpdateDeviceStatus, DoAuthorizeSession,
         DoCastVote, DoRunFullVerification, DoAnchorElectionRoot;
    var e, key := r.command.electionId, r.command.key.value;
    RootIsLast(p, db, e);
    var s := SignPayload(p, key, PayloadOf(db.manifests[e], e, Root(LogOf(db, e))));
    EventLogged(p, db, db.(manifests := db.manifests[e := db.manifests[e].(digitalSignature := Some(s))]), e,
                "MANIFEST_SIGNED", ManifestSignedData(db.manifests[e].manifestHash, s.publicKey), r.actor, None, r.now);
  }

  lemma AnchorEffect(p: Primitives, db: Database, r: Request)
    requires p.Sound() && Inv(p, db) && r.command.AnchorElectionRoot? && Serve(p, db, r).Accepted?
    ensures RootAnchored(p, db, r, Step(p, db, r))
  {
    hide Inv, LogEvent, EntryAdded, Root;
    hide DoCreateElection, DoAddCandidates, DoChangeState, DoRegisterDevice, DoUpdateDeviceStatus, DoAuthorizeSession,
         DoCastVote, DoRunFullVerification, DoSignManifest;
    var AnchorElectionRoot(e, provider, id) := r.command;
    RootIsLast(p, db, e);
    var x := ReceiptFor(p, db, e, id);
    EventLogged(p, db, db.(anchors := db.anchors[x.reference := x]), e, "AUDIT_ROOT_ANCHORED",
                RootAnchoredData("LOCAL ANCHOR", x.reference, x.rootHash), r.actor, None, r.now);
    EventLogged(p, db, db, e, "AUDIT_ROOT_ANCHORED", RootAnchoredData("EXTERNAL ANCHOR", id, x.rootHash), r.actor,
                None, r.now);
    assert ReceiptGood(p, db, e, id, x);
    hide ReceiptFor, ReceiptGood;
  }

  lemma CardEffect(p: Primitives, db: Database, r: Request)
    requires r.command.RejectCard?
    ensures CardRejected(p, db, r, Step(p, db, r))
  {
    hide LogEvent, EntryAdded;
    var RejectCard(e, cause, pseudonym, d) := r.command;
    EventLogged(p, db, db, e, "RFID_CARD_REJECTED", CardRejectedData(cause, pseudonym), "rfid_reader", Some(d), r.now);
  }

  /**
   * What a granted request does, exactly: which rows it writes, with which value in each column, and which entry it
   * logs, by whom, on which device, when, and under which hash. A refused request changes nothing.
   */
  lemma EffectExactly(p: Primitives, db: Database, r: Request)
    requires p.Sound() && Inv(p, db)
    ensures if Serve(p, db, r).Accepted? then Effect(p, db, r, Step(p, db, r)) else Step(p, db, r) == db
  {
    if Serve(p, db, r).Accepted? {
      hide Inv, Serve, Step, ElectionAdded, Added, Changed, DeviceStored, StatusSet, SessionAdded, VoteRecorded,
           ManifestStored, SignatureStored, RootAnchored, CardRejected;
      match r.command {
        case CreateElection(_, _) => CreateEffect(p, db, r);
        case AddCandidates(_, _) => AddEffect(p, db, r);
        case ChangeState(_, _, _) => ChangeEffect(p, db, r);
        case RegisterDevice(_, _, _) => RegisterEffect(p, db, r);
        case UpdateDeviceStatus(_, _, _) => StatusEffect(p, db, r);
        case AuthorizeSession(_, _, _, _, _) => AuthorizeEffect(p, db, r);
        case CastVote(_, _, _, _, _) => VoteEffect(p, db, r);
        case RunFullVerification(_) => VerifyEffect(p, db, r);
        case SignManifest(_, _) => SignEffect(p, db, r);
        case AnchorElectionRoot(_, _, _) => AnchorEffect(p, db, r);
        case RejectCard(_, _, _, _) => CardEffect(p, db, r);
      }
    }
  }
}
