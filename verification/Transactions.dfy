/**
 * The service calls as transactions on the tables. A call is rejected, and the request's rollback leaves the
 * tables as they were, or it is accepted with the new tables, usually with one more audit entry.
 */
module Transactions {
  import opened Prelude
  import opened Timestamps
  import opened Grouping
  import opened Records
  import opened Hashing
  import opened AuditChain
  import opened Export

  /** The tables. Rows stand in insertion order; each election's audit log stands in sequence order. */
  datatype Database = Database(
    elections: map<string, Election>, candidates: seq<Candidate>, devices: seq<Device>,
    sessions: seq<Session>, ballots: seq<Ballot>, audit: map<string, seq<AuditEntry>>,
    manifests: map<string, Manifest>, anchors: map<string, AnchorReceipt>)

  const EMPTY := Database(map[], [], [], [], [], map[], map[], map[])

  /** 404, 409, 403, 400, 503, a violated key constraint, and 401. */
  datatype Error = NotFound | Conflict | Forbidden | BadRequest | Unavailable | Integrity | Unauthorized

  datatype Outcome = Accepted(db: Database) | Rejected(error: Error)

  datatype Provider = LocalProvider | ExternalProvider(configured: bool) | UnknownProvider

  datatype Command =
    | CreateElection(electionId: string, name: string)
    | AddCandidates(electionId: string, batch: seq<CandidateInfo>)
    | ChangeState(electionId: string, newState: ElectionState, reason: Option<string>)
    | RegisterDevice(electionId: string, deviceId: string, name: string)
    | UpdateDeviceStatus(electionId: string, deviceId: string, status: DeviceStatus)
    | AuthorizeSession(electionId: string, credential: string, deviceId: string, sessionId: string, token: string)
    | CastVote(token: string, candidateId: string, deviceId: string, sequenceNumber: int, ballotId: string)
    | RunFullVerification(electionId: string)
    | SignManifest(electionId: string, key: Option<string>)
    | AnchorElectionRoot(electionId: string, provider: Provider, anchorId: string)
    | RejectCard(electionId: string, cause: string, pseudonym: string, deviceId: string)

  /** A request with its authenticated actor and the clock reading it is served at. */
  datatype Request = Request(command: Command, actor: string, now: DateTime)

  // ---------- where clauses ----------

  function CandidateIn(e: string): Candidate -> bool {
    (c: Candidate) => c.electionId == e
  }

  function DeviceIn(e: string): Device -> bool {
    (d: Device) => d.electionId == e
  }

  function BallotIn(e: string): Ballot -> bool {
    (b: Ballot) => b.electionId == e
  }

  function HasCandidateId(id: string): Candidate -> bool {
    (c: Candidate) => c.info.id == id
  }

  function HasDeviceId(id: string): Device -> bool {
    (d: Device) => d.id == id
  }

  function HasToken(t: string): Session -> bool {
    (s: Session) => s.token == t
  }

  function CandidatesOf(db: Database, e: string): seq<Candidate> {
    Filter(CandidateIn(e), db.candidates)
  }

  function DevicesOf(db: Database, e: string): seq<Device> {
    Filter(DeviceIn(e), db.devices)
  }

  function BallotsOf(db: Database, e: string): seq<Ballot> {
    Filter(BallotIn(e), db.ballots)
  }

  function LogOf(db: Database, e: string): seq<AuditEntry> {
    if e in db.audit then db.audit[e] else []
  }

  function ManifestOf(db: Database, e: string): Option<Manifest> {
    if e in db.manifests then Some(db.manifests[e]) else None
  }

  function ViewOf(db: Database, e: string): View
    requires e in db.elections
  {
    View(db.elections[e], CandidatesOf(db, e), DevicesOf(db, e), BallotsOf(db, e), LogOf(db, e), ManifestOf(db, e))
  }

  // ---------- audit ----------

  /** AuditService.log_event */
  function LogEvent(p: Primitives, db: Database, e: string, eventType: string, data: EventData,
                    actor: string, deviceId: Option<string>, now: DateTime): Database
  {
    var entry := NextEntry(p, LogOf(db, e), eventType, Some(p.eventJson(data)), Some(actor), deviceId, now);
    db.(audit := db.audit[e := LogOf(db, e) + [entry]])
  }

  // ---------- elections ----------

  function DoCreateElection(p: Primitives, db: Database, e: string, name: string, actor: string, now: DateTime): Outcome
  {
    if e in db.elections then Rejected(Conflict)
    else
      var db1 := db.(elections := db.elections[e := Election(e, name, Created, None, 0)]);
      Accepted(LogEvent(p, db1, e, "ELECTION_CREATED", ElectionCreatedData(e, name), actor, None, now))
  }

  /** The batch repeats no ID and no position, neither within itself nor of the stored candidates. */
  predicate FreshBatch(stored: seq<CandidateInfo>, batch: seq<CandidateInfo>) {
    forall j :: 0 <= j < |batch| ==>
      && (forall i :: 0 <= i < |stored| ==> stored[i].id != batch[j].id && stored[i].position != batch[j].position)
      && (forall i :: 0 <= i < j ==> batch[i].id != batch[j].id && batch[i].position != batch[j].position)
  }

  /** The candidate ID is a primary key over all elections. */
  predicate IdsUnused(stored: seq<Candidate>, batch: seq<CandidateInfo>) {
    forall i, j :: 0 <= i < |stored| && 0 <= j < |batch| ==> stored[i].info.id != batch[j].id
  }

  function NewRows(e: string, batch: seq<CandidateInfo>): seq<Candidate> {
    seq(|batch|, i requires 0 <= i < |batch| => Candidate(batch[i], e))
  }

  function BatchIds(batch: seq<CandidateInfo>): seq<string> {
    seq(|batch|, i requires 0 <= i < |batch| => batch[i].id)
  }

  function DoAddCandidates(p: Primitives, db: Database, e: string, batch: seq<CandidateInfo>, actor: string,
                           now: DateTime)
    : Outcome
  {
    if e !in db.elections then Rejected(NotFound)
    else if db.elections[e].state != Created then Rejected(Conflict)
    else if !FreshBatch(Map(InfoOf(), CandidatesOf(db, e)), batch) then Rejected(Conflict)
    else if !IdsUnused(db.candidates, batch) then Rejected(Integrity)
    else
      var enough := |CandidatesOf(db, e)| + |batch| >= 2;
      var row := if enough then db.elections[e].(state := Configured) else db.elections[e];
      var db1 := db.(candidates := db.candidates + NewRows(e, batch), elections := db.elections[e := row]);
      Accepted(LogEvent(p, db1, e, "CANDIDATES_ADDED",
                        CandidatesAddedData(|batch|, BatchIds(batch), enough), actor, None, now))
  }

  /** VALID_TRANSITIONS */
  predicate ValidTransition(from: ElectionState, to: ElectionState) {
    match from
    case Created => to == Configured
    case Configured => to == Locked
    case Locked => to == Open
    case Open => to == Suspended || to == Closed
    case Suspended => to == Open || to == Closed
    case Closed => to == Published
    case Published => false
  }

  predicate HasActiveDevice(db: Database, e: string) {
    exists i :: 0 <= i < |db.devices| && db.devices[i].electionId == e && db.devices[i].status == Active
  }

  function DoChangeState(p: Primitives, db: Database, e: string, to: ElectionState, reason: Option<string>,
                         actor: string, now: DateTime): Outcome
  {
    if e !in db.elections then Rejected(NotFound)
    else
      var row := db.elections[e];
      if !ValidTransition(row.state, to) then Rejected(Conflict)
      else if row.state == Locked && to == Open && !HasActiveDevice(db, e) then Rejected(Conflict)
      else
        var row1 :=
          if row.state == Configured && to == Locked then
            row.(state := to, configurationHash :=
                   Some(ConfigurationHash(p, e, Map(InfoOf(), CandidatesOf(db, e)))))
          else row.(state := to);
        Accepted(LogEvent(p, db.(elections := db.elections[e := row1]), e, "STATE_CHANGE",
                          StateChangeData(row.state, to, reason), actor, None, now))
  }

  // ---------- devices ----------

  function DoRegisterDevice(p: Primitives, db: Database, e: string, d: string, name: string, actor: string,
                            now: DateTime)
    : Outcome
  {
    if e !in db.elections then Rejected(NotFound)
    else if db.elections[e].state !in {Configured, Locked, Open} then Rejected(Conflict)
    else if FindIndex(HasDeviceId(d), db.devices).Some? then Rejected(Conflict)
    else
      var db1 := db.(devices := db.devices + [Device(d, e, name, Registered, 0, 0)]);
      Accepted(LogEvent(p, db1, e, "DEVICE_REGISTERED", DeviceRegisteredData(d, name), actor, Some(d), now))
  }

  /** VALID_STATUS_TRANSITIONS */
  predicate ValidStatusTransition(from: DeviceStatus, to: DeviceStatus) {
    match from
    case Registered => to == Active
    case Active => to == DeviceSuspended || to == Revoked
    case DeviceSuspended => to == Active || to == Revoked
    case Revoked => false
  }

  function DoUpdateDeviceStatus(p: Primitives, db: Database, e: string, d: string, status: DeviceStatus,
                                actor: string, now: DateTime): Outcome
  {
    match FindIndex(HasDeviceId(d), db.devices)
    case None => Rejected(NotFound)
    case Some(i) =>
      var row := db.devices[i];
      if row.electionId != e then Rejected(NotFound)
      else if row.status == status then Accepted(db)
      else if !ValidStatusTransition(row.status, status) then Rejected(Conflict)
      else
        Accepted(LogEvent(p, db.(devices := db.devices[i := row.(status := status)]), e, "DEVICE_STATUS_CHANGED",
                          DeviceStatusData(d, row.status, status), actor, Some(d), now))
  }

  // ---------- voting ----------

  predicate CredentialUsed(db: Database, e: string, credential: string) {
    exists i :: 0 <= i < |db.sessions| && db.sessions[i].electionId == e && db.sessions[i].credential == credential
  }

  /** The freshly generated session ID and token hit no unique key. */
  predicate SessionKeysFree(db: Database, sessionId: string, token: string) {
    forall i :: 0 <= i < |db.sessions| ==> db.sessions[i].id != sessionId && db.sessions[i].token != token
  }

  function DoAuthorizeSession(p: Primitives, db: Database, e: string, credential: string, d: string,
                              sessionId: string, token: string, actor: string, now: DateTime): Outcome
  {
    if e !in db.elections then Rejected(NotFound)
    else if db.elections[e].state != Open then Rejected(Conflict)
    else
      match FindIndex(HasDeviceId(d), db.devices)
      case None => Rejected(Forbidden)
      case Some(i) =>
        if db.devices[i].electionId != e || db.devices[i].status != Active then Rejected(Forbidden)
        else if CredentialUsed(db, e, credential) then Rejected(Conflict)
        else if !SessionKeysFree(db, sessionId, token) then Rejected(Integrity)
        else
          var db1 := db.(sessions := db.sessions + [Session(sessionId, e, d, token, credential, Authorized)]);
          Accepted(LogEvent(p, db1, e, "SESSION_AUTHORIZED", SessionAuthorizedData(sessionId, d, credential),
                            actor, Some(d), now))
  }

  predicate BallotIdFree(db: Database, id: string) {
    forall i :: 0 <= i < |db.ballots| ==> db.ballots[i].id != id
  }

  /** The checks of cast_vote, in order; on success the positions of the session and the device. */
  function VoteChecks(db: Database, token: string, c: string, d: string, n: int, ballotId: string)
    : (r: Result<(nat, nat), Error>)
    ensures r.Ok? ==>
              var (i, k) := r.value;
              && i < |db.sessions| && k < |db.devices|
              && db.sessions[i].token == token && db.sessions[i].status == Authorized
              && db.sessions[i].electionId in db.elections
              && db.elections[db.sessions[i].electionId].state == Open
              && db.sessions[i].deviceId == d && db.devices[k].id == d && db.devices[k].status == Active
              && n > db.devices[k].lastSequenceNumber
              && BallotIdFree(db, ballotId)
              && exists j :: 0 <= j < |db.candidates| && db.candidates[j].info.id == c
                             && db.candidates[j].electionId == db.sessions[i].electionId
  {
    match FindIndex(HasToken(token), db.sessions)
    case None => Err(NotFound)
    case Some(i) =>
      var s := db.sessions[i];
      if s.status != Authorized then Err(Conflict)
      else if s.electionId !in db.elections || db.elections[s.electionId].state != Open then Err(Conflict)
      else if d != s.deviceId then Err(Conflict)
      else
        match FindIndex(HasDeviceId(d), db.devices)
        case None => Err(Forbidden)
        case Some(k) =>
          if db.devices[k].status != Active then Err(Forbidden)
          else
            match FindIndex(HasCandidateId(c), db.candidates)
            case None => Err(NotFound)
            case Some(j) =>
              if db.candidates[j].electionId != s.electionId then Err(NotFound)
              else if n <= db.devices[k].lastSequenceNumber then Err(Conflict)
              else if !BallotIdFree(db, ballotId) then Err(Integrity)
              else Ok((i, k))
  }

  function NewBallot(p: Primitives, s: Session, c: string, d: string, n: int, ballotId: string, now: DateTime): Ballot {
    Ballot(ballotId, s.electionId, s.id, d, c, n, BallotHash(p, s.electionId, s.id, c, d, n, Iso(now)), now)
  }

  /** The four tables a recorded vote touches. */
  function RecordVote(db: Database, i: nat, k: nat, b: Ballot): Database
    requires i < |db.sessions| && k < |db.devices| && db.sessions[i].electionId in db.elections
  {
    var e := db.sessions[i].electionId;
    var dev := db.devices[k];
    db.(ballots := db.ballots + [b],
        sessions := db.sessions[i := db.sessions[i].(status := Voted)],
        devices := db.devices[k := dev.(lastSequenceNumber := b.sequenceNumber,
                                        totalVotesCast := dev.totalVotesCast + 1)],
        elections := db.elections[e := db.elections[e].(totalBallots := db.elections[e].totalBallots + 1)])
  }

  function DoCastVote(p: Primitives, db: Database, token: string, c: string, d: string, n: int, ballotId: string,
                      actor: string, now: DateTime): Outcome
  {
    match VoteChecks(db, token, c, d, n, ballotId)
    case Err(error) => Rejected(error)
    case Ok((i, k)) =>
      var s := db.sessions[i];
      var b := NewBallot(p, s, c, d, n, ballotId, now);
      Accepted(LogEvent(p, RecordVote(db, i, k, b), s.electionId, "VOTE_CAST",
                        VoteCastData(ballotId, d, n, b.ballotHash), actor, Some(d), now))
  }

  // ---------- verification, signing, anchoring ----------

  /** What reconcile compares beyond its own counts: the stored totals against the ballot rows. */
  ghost predicate StoredTotalsMatch(row: Option<Election>, devices: seq<Device>, ballots: seq<Ballot>) {
    && (row.Some? ==> row.value.totalBallots == |ballots|)
    && (forall i :: 0 <= i < |devices| ==>
          devices[i].totalVotesCast == CountOf(BallotDevice(), ballots, devices[i].id))
  }

  ghost function VerifiedManifest(p: Primitives, db: Database, e: string): ManifestData
    requires e in db.elections
  {
    var row, ballots, log := db.elections[e], BallotsOf(db, e), LogOf(db, e);
    ManifestData(
      e, |ballots|, GroupBy(BallotCandidate(), ballots), GroupBy(BallotDevice(), ballots),
      if StoredTotalsMatch(Some(row), DevicesOf(db, e), ballots) then "PASSED" else "RECONCILIATION FAILURE",
      if LinkedUpTo(p, log, |log|) then "INTACT" else "BROKEN",
      OrElse(row.configurationHash, ""))
  }

  /** Updating a manifest keeps its signature, whatever that signature is over. */
  function ManifestFrom(p: Primitives, data: ManifestData, previous: Option<Manifest>): Manifest {
    Manifest(data.electionId, data.totalBallots, data.candidateTotals, data.deviceTotals,
             data.reconciliationStatus, data.auditChainStatus, data.configurationHash,
             ManifestHash(p, data), if previous.Some? then previous.value.digitalSignature else None)
  }

  ghost function DoRunFullVerification(p: Primitives, db: Database, e: string, actor: string, now: DateTime): Outcome {
    if e !in db.elections then Rejected(NotFound)
    else
      var data := VerifiedManifest(p, db, e);
      var m := ManifestFrom(p, data, ManifestOf(db, e));
      Accepted(LogEvent(p, db.(manifests := db.manifests[e := m]), e, "MANIFEST_GENERATED",
                        ManifestGeneratedData(m.manifestHash, data.reconciliationStatus, data.auditChainStatus,
                                              data.totalBallots), actor, None, now))
  }

  function PayloadOf(m: Manifest, e: string, auditRoot: string): SignedPayload {
    SignedPayload(e, m.manifestHash, m.configurationHash, auditRoot, m.totalBallots,
                  m.reconciliationStatus, m.auditChainStatus)
  }

  function SignPayload(p: Primitives, key: string, payload: SignedPayload): SignedArtifact {
    SignedArtifact(p.publicKey(key), p.sign(key, payload), payload)
  }

  function DoSignManifest(p: Primitives, db: Database, e: string, key: Option<string>, actor: string, now: DateTime)
    : Outcome
  {
    if e !in db.elections then Rejected(NotFound)
    else if db.elections[e].state != Closed && db.elections[e].state != Published then Rejected(BadRequest)
    else if e !in db.manifests then Rejected(NotFound)
    else
      var m := db.manifests[e];
      if m.reconciliationStatus != "PASSED" && m.reconciliationStatus != "EXACT_MATCH" then Rejected(BadRequest)
      else if key == None then Rejected(Unavailable)
      else
        var s := SignPayload(p, key.value, PayloadOf(m, e, Root(LogOf(db, e))));
        Accepted(LogEvent(p, db.(manifests := db.manifests[e := m.(digitalSignature := Some(s))]), e,
                          "MANIFEST_SIGNED", ManifestSignedData(m.manifestHash, s.publicKey), actor, None, now))
  }

  /** "local-anc-" and the first sixteen digits of a hash over election, root and anchor ID. */
  function AnchorReference(p: Primitives, e: string, root: string, anchorId: string): string {
    var h := p.sha256(e + ":" + root + ":" + anchorId);
    "local-anc-" + (if |h| <= 16 then h else h[..16])
  }

  /** The receipt anchor_election_root hands out for the log as it stands. */
  function ReceiptFor(p: Primitives, db: Database, e: string, anchorId: string): AnchorReceipt {
    var log := LogOf(db, e);
    var manifest := ManifestOf(db, e);
    AnchorReceipt(e, Root(log), AnchorReference(p, e, Root(log), anchorId),
                  if manifest.Some? then Some(manifest.value.manifestHash) else None,
                  if log == [] then 0 else log[|log| - 1].sequenceNumber)
  }

  function DoAnchorElectionRoot(p: Primitives, db: Database, e: string, provider: Provider, anchorId: string,
                                actor: string, now: DateTime): Outcome
  {
    if e !in db.elections then Rejected(NotFound)
    else
      var r := ReceiptFor(p, db, e, anchorId);
      match provider
      case UnknownProvider => Rejected(BadRequest)
      case LocalProvider =>
        Accepted(LogEvent(p, db.(anchors := db.anchors[r.reference := r]), e, "AUDIT_ROOT_ANCHORED",
                          RootAnchoredData("LOCAL ANCHOR", r.reference, r.rootHash), actor, None, now))
      case ExternalProvider(configured) =>
        if configured then
          Accepted(LogEvent(p, db, e, "AUDIT_ROOT_ANCHORED",
                            RootAnchoredData("EXTERNAL ANCHOR", anchorId, r.rootHash), actor, None, now))
        else Accepted(db)
  }

  // ---------- requests and runs ----------

  ghost function Serve(p: Primitives, db: Database, r: Request): Outcome {
    match r.command
    case CreateElection(e, name) => DoCreateElection(p, db, e, name, r.actor, r.now)
    case AddCandidates(e, batch) => DoAddCandidates(p, db, e, batch, r.actor, r.now)
    case ChangeState(e, to, reason) => DoChangeState(p, db, e, to, reason, r.actor, r.now)
    case RegisterDevice(e, d, name) => DoRegisterDevice(p, db, e, d, name, r.actor, r.now)
    case UpdateDeviceStatus(e, d, status) => DoUpdateDeviceStatus(p, db, e, d, status, r.actor, r.now)
    case AuthorizeSession(e, credential, d, sid, token) =>
      DoAuthorizeSession(p, db, e, credential, d, sid, token, r.actor, r.now)
    case CastVote(token, c, d, n, id) => DoCastVote(p, db, token, c, d, n, id, r.actor, r.now)
    case RunFullVerification(e) => DoRunFullVerification(p, db, e, r.actor, r.now)
    case SignManifest(e, key) => DoSignManifest(p, db, e, key, r.actor, r.now)
    case AnchorElectionRoot(e, provider, id) => DoAnchorElectionRoot(p, db, e, provider, id, r.actor, r.now)
    case RejectCard(e, cause, pseudonym, d) =>
      Accepted(LogEvent(p, db, e, "RFID_CARD_REJECTED", CardRejectedData(cause, pseudonym), "rfid_reader", Some(d),
                        r.now))
  }

  /** One request: an error rolls back. */
  ghost function Step(p: Primitives, db: Database, r: Request): Database {
    match Serve(p, db, r)
    case Accepted(db1) => db1
    case Rejected(_) => db
  }

  ghost function Run(p: Primitives, db: Database, rs: seq<Request>): Database {
    if rs == [] then db else Step(p, Run(p, db, rs[..|rs| - 1]), rs[|rs| - 1])
  }

  lemma {:induction false} RunConcat(p: Primitives, db: Database, a: seq<Request>, b: seq<Request>)
    ensures Run(p, db, a + b) == Run(p, Run(p, db, a), b)
  {
    if b == [] {
      assert a + b == a;
    } else {
      assert (a + b)[..|a + b| - 1] == a + b[..|b| - 1];
      RunConcat(p, db, a, b[..|b| - 1]);
    }
  }
}
