/** reconcile, _verify_tally_independently, and the conservation law behind them. */
module Reconciliation {
  import opened Prelude
  import opened Grouping
  import opened Records
  import opened Hashing
  import opened Export
  import opened Transactions
  import opened Invariants
  import opened Runs

  datatype Finding =
    | CandidateSumMismatch(sum: int, total: int)
    | DeviceSumMismatch(sum: int, total: int)
    | CrossMismatch(candidateSum: int, deviceSum: int)
    | ElectionTotalMismatch(stored: int, counted: int)
    | DeviceTotalMismatch(deviceId: string, stored: int, counted: int)
    | Passed(total: int, candidates: nat, devices: nat)

  datatype Reconciled = Reconciled(
    totalBallots: int, candidateTotals: map<string, int>, deviceTotals: map<string, int>,
    sumCandidateTotals: int, sumDeviceTotals: int, isExactMatch: bool, status: string, details: seq<Finding>)

  function DeviceFinding(ballots: seq<Ballot>): Device -> seq<Finding> {
    (d: Device) =>
      var counted := CountOf(BallotDevice(), ballots, d.id);
      if d.totalVotesCast != counted then [DeviceTotalMismatch(d.id, d.totalVotesCast, counted)] else []
  }

  function ElectionFinding(row: Option<Election>, ballots: seq<Ballot>): seq<Finding> {
    if row.Some? && row.value.totalBallots != |ballots|
    then [ElectionTotalMismatch(row.value.totalBallots, |ballots|)] else []
  }

  lemma FindingsMeaning(row: Option<Election>, devices: seq<Device>, ballots: seq<Ballot>)
    ensures ElectionFinding(row, ballots) + FlatMap(DeviceFinding(ballots), devices) == []
            <==> StoredTotalsMatch(row, devices, ballots)
  {
    FlatMapEmpty(DeviceFinding(ballots), devices);
    var f := DeviceFinding(ballots);
    if StoredTotalsMatch(row, devices, ballots) {
      forall d | d in devices ensures f(d) == [] {
        var i :| 0 <= i < |devices| && devices[i] == d;
      }
    }
    if FlatMap(f, devices) == [] {
      forall i | 0 <= i < |devices|
        ensures devices[i].totalVotesCast == CountOf(BallotDevice(), ballots, devices[i].id)
      {
        assert f(devices[i]) == [];
      }
    }
  }

  /** The findings are exactly the stored totals that are off, each with what is stored and what was counted. */
  lemma FindingsMean(row: Option<Election>, devices: seq<Device>, ballots: seq<Ballot>, f: Finding)
    ensures f in ElectionFinding(row, ballots) + FlatMap(DeviceFinding(ballots), devices) <==>
              || (f.ElectionTotalMismatch? && row.Some? && f.stored == row.value.totalBallots
                  && f.counted == |ballots| && f.stored != f.counted)
              || (f.DeviceTotalMismatch?
                  && exists i :: 0 <= i < |devices| && devices[i].id == f.deviceId
                                 && devices[i].totalVotesCast == f.stored
                                 && f.counted == CountOf(BallotDevice(), ballots, f.deviceId) && f.stored != f.counted)
  {
    FlatMapHas(DeviceFinding(ballots), devices, f);
    hide CountOf, FlatMap;
  }

  /**
   * ReconciliationService.reconcile on arbitrary stored rows. The three sum comparisons never fail, so the verdict is
   * exactly whether the election's and the devices' stored totals are the counted ones.
   */
  method Reconcile(row: Option<Election>, devices: seq<Device>, ballots: seq<Ballot>) returns (r: Reconciled)
    ensures r.totalBallots == r.sumCandidateTotals == r.sumDeviceTotals == |ballots|
    ensures forall c :: GetOrZero(r.candidateTotals, c) == CountOf(BallotCandidate(), ballots, c)
    ensures forall d :: GetOrZero(r.deviceTotals, d) == CountOf(BallotDevice(), ballots, d)
    ensures r.candidateTotals == GroupBy(BallotCandidate(), ballots)
    ensures r.deviceTotals == GroupBy(BallotDevice(), ballots)
    ensures r.isExactMatch <==> StoredTotalsMatch(row, devices, ballots)
    ensures r.status == if r.isExactMatch then "PASSED" else "RECONCILIATION FAILURE"
    ensures r.details ==
            if r.isExactMatch then [Passed(|ballots|, |r.candidateTotals|, |r.deviceTotals|)]
            else ElectionFinding(row, ballots) + FlatMap(DeviceFinding(ballots), devices)
  {
    hide GroupBy, CountOf, StoredTotalsMatch, FlatMap, SumValues, GetOrZero;
    var details: seq<Finding> := [];
    var candidateTotals := GroupBy(BallotCandidate(), ballots);
    var deviceTotals := GroupBy(BallotDevice(), ballots);
    var total := |ballots|;
    var sumCandidate := SumDict(candidateTotals);
    var sumDevice := SumDict(deviceTotals);
    GroupByTotal(BallotCandidate(), ballots);
    GroupByTotal(BallotDevice(), ballots);
    var isExactMatch := sumCandidate == total && sumDevice == total && sumCandidate == sumDevice;
    if sumCandidate != total {
      details := details + [CandidateSumMismatch(sumCandidate, total)];
    }
    if sumDevice != total {
      details := details + [DeviceSumMismatch(sumDevice, total)];
    }
    if sumCandidate != sumDevice {
      details := details + [CrossMismatch(sumCandidate, sumDevice)];
    }
    if row.Some? && row.value.totalBallots != total {
      isExactMatch := false;
      details := details + [ElectionTotalMismatch(row.value.totalBallots, total)];
    }
    var devicesExact, deviceDetails := CheckDevices(devices, deviceTotals, ballots);
    isExactMatch := isExactMatch && devicesExact;
    details := details + deviceDetails;
    FindingsMeaning(row, devices, ballots);
    if isExactMatch {
      details := details + [Passed(total, |candidateTotals|, |deviceTotals|)];
    }
    forall k ensures GetOrZero(candidateTotals, k) == CountOf(BallotCandidate(), ballots, k) {
      GroupByCounts(BallotCandidate(), ballots, k);
    }
    forall k ensures GetOrZero(deviceTotals, k) == CountOf(BallotDevice(), ballots, k) {
      GroupByCounts(BallotDevice(), ballots, k);
    }
    r := Reconciled(total, candidateTotals, deviceTotals, sumCandidate, sumDevice, isExactMatch,
                    if isExactMatch then "PASSED" else "RECONCILIATION FAILURE", details);
  }

  /** The loop over the device rows. */
  method CheckDevices(devices: seq<Device>, deviceTotals: map<string, int>, ballots: seq<Ballot>)
    returns (exact: bool, details: seq<Finding>)
    requires deviceTotals == GroupBy(BallotDevice(), ballots)
    ensures details == FlatMap(DeviceFinding(ballots), devices)
    ensures exact <==> details == []
  {
    exact := true;
    details := [];
    var i := 0;
    while i < |devices|
      invariant 0 <= i <= |devices|
      invariant details == FlatMap(DeviceFinding(ballots), devices[..i])
      invariant exact <==> details == []
    {
      var device := devices[i];
      var counted := GetOrZero(deviceTotals, device.id);
      GroupByCounts(BallotDevice(), ballots, device.id);
      assert devices[..i + 1] == devices[..i] + [device];
      FlatMapAppend(DeviceFinding(ballots), devices[..i], device);
      if device.totalVotesCast != counted {
        exact := false;
        details := details + [DeviceTotalMismatch(device.id, device.totalVotesCast, counted)];
      }
      i := i + 1;
    }
    assert devices[..|devices|] == devices;
  }

  /** _verify_tally_independently: the reported totals are the recounted ones, for every candidate. */
  method VerifyTallyIndependently(reported: map<string, int>, ballots: seq<Ballot>) returns (verified: bool)
    ensures verified <==> forall c :: GetOrZero(reported, c) == CountOf(BallotCandidate(), ballots, c)
  {
    hide GroupBy, CountOf;
    var independent := GroupBy(BallotCandidate(), ballots);
    var mismatches: set<string> := {};
    var all := reported.Keys + independent.Keys;
    var remaining := all;
    while remaining != {}
      invariant remaining <= all
      invariant forall c ::
                  c in mismatches <==> c in all - remaining && GetOrZero(reported, c) != GetOrZero(independent, c)
      decreases remaining
    {
      var c :| c in remaining;
      if GetOrZero(reported, c) != GetOrZero(independent, c) {
        mismatches := mismatches + {c};
      }
      remaining := remaining - {c};
    }
    verified := mismatches == {};
    forall c ensures GetOrZero(independent, c) == CountOf(BallotCandidate(), ballots, c) {
      GroupByCounts(BallotCandidate(), ballots, c);
    }
    if verified {
      forall c ensures GetOrZero(reported, c) == GetOrZero(independent, c) {
        if c in all {
          assert c !in mismatches;
        }
      }
    }
  }

  // ---------- conservation ----------

  function SumVotesCast(devices: seq<Device>): int {
    if devices == [] then 0 else devices[0].totalVotesCast + SumVotesCast(devices[1..])
  }

  function Ids(devices: seq<Device>): set<string> {
    set i | 0 <= i < |devices| :: devices[i].id
  }

  lemma {:induction false} DeviceSums(devices: seq<Device>, ballots: seq<Ballot>)
    requires forall i, j :: 0 <= i < j < |devices| ==> devices[i].id != devices[j].id
    requires forall i ::
               0 <= i < |devices| ==> devices[i].totalVotesCast == CountOf(BallotDevice(), ballots, devices[i].id)
    ensures SumVotesCast(devices) == |Filter(KeyedIn(BallotDevice(), Ids(devices)), ballots)|
  {
    if devices == [] {
      FilterNone(KeyedIn(BallotDevice(), Ids(devices)), ballots);
    } else {
      var d, tail := devices[0], devices[1..];
      assert forall i :: 0 <= i < |tail| ==> tail[i] == devices[i + 1];
      DeviceSums(tail, ballots);
      CountSplit(BallotDevice(), ballots, Ids(devices), d.id);
      assert Ids(devices) - {d.id} == Ids(tail) by {
        forall x | x in Ids(devices) - {d.id} ensures x in Ids(tail) {
          var i :| 0 <= i < |devices| && devices[i].id == x;
          assert tail[i - 1].id == x;
        }
        forall x | x in Ids(tail) ensures x in Ids(devices) - {d.id} {
          var i :| 0 <= i < |tail| && tail[i].id == x;
          assert devices[i + 1].id == x;
        }
      }
    }
  }

  lemma DistinctDevicesOf(db: Database, e: string)
    requires DevicesOk(db.elections.Keys, db.devices)
    ensures var ds := DevicesOf(db, e); forall i, j :: 0 <= i < j < |ds| ==> ds[i].id != ds[j].id
  {
    var apart := (a: Device, b: Device) => a.id != b.id;
    assert Pairwise(apart, db.devices);
    FilterPairwise(DeviceIn(e), apart, db.devices);
    assert forall i, j :: 0 <= i < j < |DevicesOf(db, e)| ==> apart(DevicesOf(db, e)[i], DevicesOf(db, e)[j]);
  }

  lemma BallotHasItsDevice(p: Primitives, db: Database, e: string, b: Ballot)
    requires BallotsOk(p, db.candidates, db.devices, db.sessions, db.ballots)
    requires b in db.ballots && b.electionId == e
    ensures b.deviceId in Ids(DevicesOf(db, e))
  {
    var ds := DevicesOf(db, e);
    assert BallotOk(p, db.candidates, db.devices, db.sessions, b);
    hide BallotsOk, Filter;
    var k :| 0 <= k < |db.devices| && db.devices[k].id == b.deviceId && db.devices[k].electionId == e;
    FilterKeeps(DeviceIn(e), db.devices, k);
    var x :| 0 <= x < |ds| && ds[x] == db.devices[k];
  }

  lemma EveryBallotHasItsDevice(p: Primitives, db: Database, e: string)
    requires BallotsOk(p, db.candidates, db.devices, db.sessions, db.ballots)
    ensures Filter(KeyedIn(BallotDevice(), Ids(DevicesOf(db, e))), BallotsOf(db, e)) == BallotsOf(db, e)
  {
    var ds := DevicesOf(db, e);
    forall b | b in BallotsOf(db, e) ensures KeyedIn(BallotDevice(), Ids(ds))(b) {
      assert BallotIn(e)(b) && b in db.ballots;
      BallotHasItsDevice(p, db, e, b);
    }
    hide KeyedIn, Ids;
    FilterAll(KeyedIn(BallotDevice(), Ids(ds)), BallotsOf(db, e));
  }

  /**
   * Conservation. In every reachable state the stored total, the ballots, the sessions that voted, the candidate
   * counts and the devices' own counters of an election are one number.
   */
  lemma Conservation(p: Primitives, rs: seq<Request>, e: string)
    requires p.Sound() && e in Run(p, EMPTY, rs).elections
    ensures var db := Run(p, EMPTY, rs);
            var n := |BallotsOf(db, e)|;
            && db.elections[e].totalBallots == n
            && |Filter(VotedIn(e), db.sessions)| == n
            && SumValues(GroupBy(BallotCandidate(), BallotsOf(db, e))) == n
            && SumVotesCast(DevicesOf(db, e)) == n
            && StoredTotalsMatch(Some(db.elections[e]), DevicesOf(db, e), BallotsOf(db, e))
  {
    var db := Run(p, EMPTY, rs);
    ReachableInv(p, rs);
    ConservationHolds(p, db, e);
  }

  lemma ConservationHolds(p: Primitives, db: Database, e: string)
    requires TablesOk(p, db) && e in db.elections
    ensures var n := |BallotsOf(db, e)|;
            && db.elections[e].totalBallots == n
            && |Filter(VotedIn(e), db.sessions)| == n
            && SumValues(GroupBy(BallotCandidate(), BallotsOf(db, e))) == n
            && SumVotesCast(DevicesOf(db, e)) == n
            && StoredTotalsMatch(Some(db.elections[e]), DevicesOf(db, e), BallotsOf(db, e))
  {
    hide CandidatesOk, DevicesOk, SessionsOk, BallotsOk, VotesKept, DeviceCountersOk, ConfigurationsOk;
    GroupByTotal(BallotCandidate(), BallotsOf(db, e));
    StoredTotalsAlwaysMatch(p, db, e);
    DistinctDevicesOf(db, e);
    DeviceSums(DevicesOf(db, e), BallotsOf(db, e));
    EveryBallotHasItsDevice(p, db, e);
  }
}
