/** The rows of the backend's tables and the archive built from them. */
module Records {
  import opened Prelude
  import opened Timestamps

  datatype ElectionState = Created | Configured | Locked | Open | Suspended | Closed | Published

  datatype Election = Election(
    id: string, name: string, state: ElectionState,
    configurationHash: Option<string>, totalBallots: int)

  /** The columns of a candidate that the configuration hash covers. */
  datatype CandidateInfo = CandidateInfo(
    id: string, name: string, party: Option<string>, symbol: Option<string>, position: int)

  datatype Candidate = Candidate(info: CandidateInfo, electionId: string)

  datatype DeviceStatus = Registered | Active | DeviceSuspended | Revoked

  datatype Device = Device(
    id: string, electionId: string, name: string, status: DeviceStatus,
    lastSequenceNumber: int, totalVotesCast: int)

  datatype SessionStatus = Authorized | Voted

  datatype Session = Session(
    id: string, electionId: string, deviceId: string, token: string,
    credential: string, status: SessionStatus)

  datatype Ballot = Ballot(
    id: string, electionId: string, sessionId: string, deviceId: string, candidateId: string,
    sequenceNumber: int, ballotHash: string, recordedAt: DateTime)

  datatype AuditEntry = AuditEntry(
    sequenceNumber: int, eventType: string, eventData: Option<string>,
    actor: Option<string>, deviceId: Option<string>, timestamp: DateTime,
    previousHash: Option<string>, entryHash: string)

  datatype SignedPayload = SignedPayload(
    electionId: string, manifestHash: string, configurationHash: string, auditRootHash: string,
    totalBallots: int, reconciliationStatus: string, auditChainStatus: string)

  datatype SignedArtifact = SignedArtifact(
    publicKey: string, signature: string, payload: SignedPayload)

  datatype Manifest = Manifest(
    electionId: string, totalBallots: int, candidateTotals: map<string, int>, deviceTotals: map<string, int>,
    reconciliationStatus: string, auditChainStatus: string, configurationHash: string,
    manifestHash: string, digitalSignature: Option<SignedArtifact>)

  datatype AnchorReceipt = AnchorReceipt(
    electionId: string, rootHash: string, reference: string, manifestHash: Option<string>, entryCount: int)

  /** What json.dumps is applied to when an audit event is logged. */
  datatype EventData =
    | ElectionCreatedData(electionId: string, name: string)
    | CandidatesAddedData(count: int, candidateIds: seq<string>, autoConfigured: bool)
    | StateChangeData(oldState: ElectionState, newState: ElectionState, reason: Option<string>)
    | DeviceRegisteredData(deviceId: string, deviceName: string)
    | DeviceStatusData(deviceId: string, oldStatus: DeviceStatus, newStatus: DeviceStatus)
    | SessionAuthorizedData(sessionId: string, deviceId: string, credential: string)
    | VoteCastData(ballotId: string, deviceId: string, sequenceNumber: int, ballotHash: string)
    | ManifestGeneratedData(manifestHash: string, reconciliationStatus: string, auditChainStatus: string,
                            totalBallots: int)
    | ManifestSignedData(manifestHash: string, publicKey: string)
    | RootAnchoredData(providerType: string, reference: string, rootHash: string)
    | CardRejectedData(cause: string, pseudonym: string)
    | SimulationData(kind: string, number: int, text: string)

  datatype ConfigData = ConfigData(electionId: string, candidates: seq<CandidateInfo>)

  datatype ManifestData = ManifestData(
    electionId: string, totalBallots: int, candidateTotals: map<string, int>, deviceTotals: map<string, int>,
    reconciliationStatus: string, auditChainStatus: string, configurationHash: string)

  // ---------- the archive ----------

  datatype ArchiveBallot = ArchiveBallot(
    id: string, sessionId: string, deviceId: string, candidateId: string,
    sequenceNumber: int, ballotHash: string, recordedAt: string)

  datatype ArchiveEntry = ArchiveEntry(
    sequenceNumber: int, eventType: string, eventData: Option<string>,
    actor: Option<string>, deviceId: Option<string>, timestamp: string,
    previousHash: Option<string>, entryHash: string)

  datatype ArchiveBody = ArchiveBody(
    exportedAt: string, election: Election, candidates: seq<CandidateInfo>, devices: seq<Device>,
    ballots: seq<ArchiveBallot>, auditLog: seq<ArchiveEntry>, manifest: Option<Manifest>)

  /** The exported JSON object; a missing export_hash is the empty string. */
  datatype Archive = Archive(body: ArchiveBody, exportHash: string)

  /** All rows of one election, in insertion order (the audit log in sequence order). */
  datatype View = View(
    election: Election, candidates: seq<Candidate>, devices: seq<Device>, ballots: seq<Ballot>,
    log: seq<AuditEntry>, manifest: Option<Manifest>)
}
