/** export_election: from the rows of one election to the archive the standalone verifier reads. */
module Export {
  import opened Prelude
  import opened Timestamps
  import opened Sorting
  import opened Grouping
  import opened Records
  import opened Hashing
  import opened AuditChain

  function InfoOf(): Candidate -> CandidateInfo {
    (c: Candidate) => c.info
  }

  function BallotCandidate(): Ballot -> string {
    (b: Ballot) => b.candidateId
  }

  function BallotDevice(): Ballot -> string {
    (b: Ballot) => b.deviceId
  }

  function BallotNumber(): Ballot -> int {
    (b: Ballot) => b.sequenceNumber
  }

  predicate DeviceLe(a: Device, b: Device) {
    StringLe(a.id, b.id)
  }

  /** ORDER BY device_id, sequence_number */
  predicate BallotLe(a: Ballot, b: Ballot) {
    if a.deviceId == b.deviceId then a.sequenceNumber <= b.sequenceNumber
    else StringLe(a.deviceId, b.deviceId)
  }

  lemma BallotOrder()
    ensures TotalPreorder(BallotLe)
  {
    forall a: Ballot, b: Ballot ensures BallotLe(a, b) || BallotLe(b, a) {
      StringLeTotal(a.deviceId, b.deviceId);
    }
    forall a: Ballot, b: Ballot, c: Ballot | BallotLe(a, b) && BallotLe(b, c) ensures BallotLe(a, c) {
      BallotLeTransitive(a, b, c);
    }
  }

  lemma BallotLeTransitive(a: Ballot, b: Ballot, c: Ballot)
    requires BallotLe(a, b) && BallotLe(b, c)
    ensures BallotLe(a, c)
  {
    if a.deviceId != b.deviceId && b.deviceId != c.deviceId {
      StringLeTransitive(a.deviceId, b.deviceId, c.deviceId);
      if a.deviceId == c.deviceId {
        StringLeAntisymmetric(a.deviceId, b.deviceId);
      }
    }
  }

  function ExportBallot(): Ballot -> ArchiveBallot {
    (b: Ballot) => ArchiveBallot(b.id, b.sessionId, b.deviceId, b.candidateId, b.sequenceNumber,
                                 b.ballotHash, Iso(b.recordedAt))
  }

  function OrderedCandidates(rows: seq<Candidate>): seq<CandidateInfo> {
    Sort(PositionLe, Map(InfoOf(), rows))
  }

  function ExportBody(v: View, exportedAt: string): ArchiveBody {
    ArchiveBody(
      exportedAt, v.election, OrderedCandidates(v.candidates), Sort(DeviceLe, v.devices),
      Map(ExportBallot(), Sort(BallotLe, v.ballots)), Map(ExportEntry, v.log), v.manifest)
  }

  function ExportView(p: Primitives, v: View, exportedAt: string): Archive {
    var body := ExportBody(v, exportedAt);
    Archive(body, p.sha256(p.archiveJson(body)))
  }

  // ---------- what the backend keeps about the rows of an election ----------

  ghost predicate BallotRowGood(p: Primitives, v: View, b: Ballot) {
    && b.ballotHash == BallotHash(p, v.election.id, b.sessionId, b.candidateId, b.deviceId,
                                  b.sequenceNumber, Iso(b.recordedAt))
    && (exists i :: 0 <= i < |v.candidates| && v.candidates[i].info.id == b.candidateId)
    && (exists i :: 0 <= i < |v.devices| && v.devices[i].id == b.deviceId)
  }

  /** Recording order never repeats or lowers a device's sequence number. */
  ghost predicate ReplayFree(ballots: seq<Ballot>) {
    && (forall i :: 0 <= i < |ballots| ==> ballots[i].sequenceNumber > 0)
    && (forall i, j :: 0 <= i < j < |ballots| && ballots[i].deviceId == ballots[j].deviceId
          ==> ballots[i].sequenceNumber < ballots[j].sequenceNumber)
  }

  ghost predicate RowsGood(p: Primitives, v: View) {
    && (forall b :: b in v.ballots ==> BallotRowGood(p, v, b))
    && ReplayFree(v.ballots)
    && ValidLog(p, v.log) && v.log != []
  }

  /** The manifest data a verification of these rows generates now. */
  function CurrentManifest(v: View): ManifestData {
    ManifestData(
      v.election.id, |v.ballots|, GroupBy(BallotCandidate(), v.ballots), GroupBy(BallotDevice(), v.ballots),
      "PASSED", "INTACT", OrElse(v.election.configurationHash, ""))
  }

  function DataOf(m: Manifest): ManifestData {
    ManifestData(m.electionId, m.totalBallots, m.candidateTotals, m.deviceTotals,
                 m.reconciliationStatus, m.auditChainStatus, m.configurationHash)
  }
}
