/** What an export shows of the tables, row by row and column by column. */
module Exports {
  import opened Prelude
  import opened Timestamps
  import opened Sorting
  import opened Records
  import opened Hashing
  import opened Export
  import opened Verdicts

  /** A ballot row as it is exported. */
  predicate ShowsBallot(x: ArchiveBallot, b: Ballot) {
    && x.id == b.id && x.sessionId == b.sessionId && x.deviceId == b.deviceId && x.candidateId == b.candidateId
    && x.sequenceNumber == b.sequenceNumber && x.ballotHash == b.ballotHash && x.recordedAt == Iso(b.recordedAt)
  }

  /** An audit row as it is exported. */
  predicate ShowsEntry(x: ArchiveEntry, e: AuditEntry) {
    && x.sequenceNumber == e.sequenceNumber && x.eventType == e.eventType && x.eventData == e.eventData
    && x.actor == e.actor && x.deviceId == e.deviceId && x.timestamp == Iso(e.timestamp)
    && x.previousHash == e.previousHash && x.entryHash == e.entryHash
  }

  /** First by device ID, then by number. */
  predicate InOrder(a: Ballot, b: Ballot) {
    if a.deviceId == b.deviceId then a.sequenceNumber <= b.sequenceNumber else StringLe(a.deviceId, b.deviceId)
  }

  /** Every ballot once, by device and number. */
  ghost predicate ShowsBallots(out: seq<ArchiveBallot>, rows: seq<Ballot>) {
    exists ordered: seq<Ballot> ::
      && multiset(ordered) == multiset(rows)
      && (forall i, j :: 0 <= i < j < |ordered| ==> InOrder(ordered[i], ordered[j]))
      && |out| == |ordered| && forall i :: 0 <= i < |out| ==> ShowsBallot(out[i], ordered[i])
  }

  lemma BallotsShown(rows: seq<Ballot>)
    ensures ShowsBallots(Map(ExportBallot(), Sort(BallotLe, rows)), rows)
  {
    var ordered, out := Sort(BallotLe, rows), Map(ExportBallot(), Sort(BallotLe, rows));
    BallotOrder();
    SortMultiset(BallotLe, rows);
    SortSorted(BallotLe, rows);
    hide Sort, Iso, StringLe;
    forall i, j | 0 <= i < j < |ordered|
      ensures InOrder(ordered[i], ordered[j])
    {
      assert BallotLe(ordered[i], ordered[j]);
    }
    assert forall i :: 0 <= i < |out| ==> ShowsBallot(out[i], ordered[i]);
  }

  lemma DevicesShown(rows: seq<Device>)
    ensures var out := Sort(DeviceLe, rows);
            multiset(out) == multiset(rows)
            && forall i, j :: 0 <= i < j < |out| ==> StringLe(out[i].id, out[j].id)
  {
    var out := Sort(DeviceLe, rows);
    DeviceOrder();
    SortMultiset(DeviceLe, rows);
    SortSorted(DeviceLe, rows);
    hide Sort, StringLe;
    forall i, j | 0 <= i < j < |out|
      ensures StringLe(out[i].id, out[j].id)
    {
      assert DeviceLe(out[i], out[j]);
    }
  }

  lemma DeviceOrder()
    ensures TotalPreorder(DeviceLe)
  {
    forall a: Device, b: Device
      ensures DeviceLe(a, b) || DeviceLe(b, a)
    {
      StringLeTotal(a.id, b.id);
    }
    forall a: Device, b: Device, c: Device | DeviceLe(a, b) && DeviceLe(b, c)
      ensures DeviceLe(a, c)
    {
      StringLeTransitive(a.id, b.id, c.id);
    }
  }

  /**
   * The archive of an election: its row, its candidates by position, its devices by ID, every ballot once by device and
   * number, the audit log entry by entry, the manifest as it is stored, and the digest of all that.
   */
  lemma ExportColumns(p: Primitives, v: View, exportedAt: string)
    ensures var a := ExportView(p, v, exportedAt);
            var b := a.body;
            && a.exportHash == p.sha256(p.archiveJson(b))
            && b.exportedAt == exportedAt && b.election == v.election && b.manifest == v.manifest
            && ByPosition(b.candidates, Map((c: Candidate) => c.info, v.candidates))
            && multiset(b.devices) == multiset(v.devices)
            && (forall i, j :: 0 <= i < j < |b.devices| ==> StringLe(b.devices[i].id, b.devices[j].id))
            && ShowsBallots(b.ballots, v.ballots)
            && |b.auditLog| == |v.log| && forall i :: 0 <= i < |v.log| ==> ShowsEntry(b.auditLog[i], v.log[i])
  {
    var infos := Map((c: Candidate) => c.info, v.candidates);
    assert infos == Map(InfoOf(), v.candidates);
    SortsByPosition(infos);
    DevicesShown(v.devices);
    BallotsShown(v.ballots);
    hide Sort, ByPosition, ShowsBallots, Iso, StringLe;
  }
}
