/** The rule that reports a device recording four ballots within five seconds. */
module RateBursts {
  import opened Prelude
  import opened Sorting
  import opened Grouping
  import opened Timestamps
  import opened Records
  import opened Export

  const WINDOW: int := 5_000_000

  /** Microseconds since the epoch. */
  type Clock = DateTime -> int

  datatype Finding = Finding(deviceId: string, startSequence: int, endSequence: int, duration: int, at: DateTime)

  /** One device's ballots in the order of the scan. */
  function Group(rows: seq<Ballot>, d: string): seq<Ballot> {
    Filter(Keyed(BallotDevice(), d), Sort(BallotLe, rows))
  }

  /** Four neighbours from i on, the last recorded at most five seconds after the first. */
  predicate Hit(clock: Clock, xs: seq<Ballot>, i: int) {
    0 <= i && i + 3 < |xs| && clock(xs[i + 3].recordedAt) - clock(xs[i].recordedAt) <= WINDOW
  }

  function Report(clock: Clock, d: string, xs: seq<Ballot>, i: nat): Finding
    requires i + 3 < |xs|
  {
    Finding(d, xs[i].sequenceNumber, xs[i + 3].sequenceNumber,
            clock(xs[i + 3].recordedAt) - clock(xs[i].recordedAt), xs[i + 3].recordedAt)
  }

  function ScanFrom(clock: Clock, d: string, xs: seq<Ballot>, i: nat): seq<Finding>
    decreases |xs| - i
  {
    if i + 3 >= |xs| then []
    else if Hit(clock, xs, i) then [Report(clock, d, xs, i)]
    else ScanFrom(clock, d, xs, i + 1)
  }

  /** The device's finding: the first hit of the scan, if any. */
  function Scan(clock: Clock, rows: seq<Ballot>): string -> seq<Finding> {
    d => ScanFrom(clock, d, Group(rows, d), 0)
  }

  function Devices(rows: seq<Ballot>): seq<string> {
    Distinct(Map(BallotDevice(), Sort(BallotLe, rows)))
  }

  function Findings(clock: Clock, rows: seq<Ballot>): seq<Finding> {
    FlatMap(Scan(clock, rows), Devices(rows))
  }

  // ---------- The rule as a method ----------

  lemma FilterSnoc<T>(p: T -> bool, xs: seq<T>, i: nat)
    requires i < |xs|
    ensures Filter(p, xs[..i + 1]) == if p(xs[i]) then Filter(p, xs[..i]) + [xs[i]] else Filter(p, xs[..i])
  {
    assert xs[..i + 1] == xs[..i] + [xs[i]];
    FilterAppend(p, xs[..i], xs[i]);
  }

  lemma DistinctSnoc(rows: seq<Ballot>, i: nat)
    requires i < |rows|
    ensures var front, d := Distinct(Map(BallotDevice(), rows[..i])), rows[i].deviceId;
            Distinct(Map(BallotDevice(), rows[..i + 1])) == if d in front then front else front + [d]
  {
    var now := Map(BallotDevice(), rows[..i + 1]);
    assert now[..i] == Map(BallotDevice(), rows[..i]);
    assert now[i] == rows[i].deviceId;
  }

  /** The dictionary of ballot lists after the given rows. */
  ghost predicate Grouped(groups: map<string, seq<Ballot>>, order: seq<string>, rows: seq<Ballot>) {
    && order == Distinct(Map(BallotDevice(), rows))
    && (forall d :: d in groups <==> d in order)
    && (forall d :: d in groups ==> groups[d] == Filter(Keyed(BallotDevice(), d), rows))
  }

  lemma NewGroup(rows: seq<Ballot>, d: string)
    requires d !in Distinct(Map(BallotDevice(), rows))
    ensures Filter(Keyed(BallotDevice(), d), rows) == []
  {
    forall b | b in rows
      ensures !Keyed(BallotDevice(), d)(b)
    {
      var i :| 0 <= i < |rows| && rows[i] == b;
      assert Map(BallotDevice(), rows)[i] == b.deviceId;
    }
    FilterNone(Keyed(BallotDevice(), d), rows);
  }

  function Added(groups: map<string, seq<Ballot>>, b: Ballot): map<string, seq<Ballot>> {
    groups[b.deviceId := (if b.deviceId in groups then groups[b.deviceId] else []) + [b]]
  }

  lemma GroupedStart()
    ensures Grouped(map[], [], [])
  {
  }

  lemma GroupedStep(groups: map<string, seq<Ballot>>, order: seq<string>, rows: seq<Ballot>, i: nat)
    requires i < |rows| && Grouped(groups, order, rows[..i])
    ensures Grouped(Added(groups, rows[i]),
                    if rows[i].deviceId in groups then order else order + [rows[i].deviceId], rows[..i + 1])
  {
    hide Filter, Distinct, Map;
    var b := rows[i];
    DistinctSnoc(rows, i);
    if b.deviceId !in groups {
      NewGroup(rows[..i], b.deviceId);
    }
    var next := Added(groups, b);
    forall d | d in next
      ensures next[d] == Filter(Keyed(BallotDevice(), d), rows[..i + 1])
    {
      FilterSnoc(Keyed(BallotDevice(), d), rows, i);
    }
  }

  method GroupByDevice(rows: seq<Ballot>) returns (groups: map<string, seq<Ballot>>, order: seq<string>)
    ensures Grouped(groups, order, rows)
  {
    hide Grouped;
    groups, order := map[], [];
    GroupedStart();
    assert rows[..0] == [];
    for i := 0 to |rows|
      invariant Grouped(groups, order, rows[..i])
    {
      GroupedStep(groups, order, rows, i);
      var b := rows[i];
      if b.deviceId in groups {
        groups := groups[b.deviceId := groups[b.deviceId] + [b]];
      } else {
        groups, order := groups[b.deviceId := [] + [b]], order + [b.deviceId];
      }
    }
    assert rows[..|rows|] == rows;
  }

  lemma GroupedLists(groups: map<string, seq<Ballot>>, order: seq<string>, rows: seq<Ballot>)
    requires Grouped(groups, order, Sort(BallotLe, rows))
    ensures order == Devices(rows)
    ensures forall j :: 0 <= j < |order| ==> order[j] in groups && groups[order[j]] == Group(rows, order[j])
  {
    hide Filter, Distinct, Map, Sort;
  }

  /** The findings come device by device; each device's scan stops at its first hit. */
  method CheckVotingRateBursts(clock: Clock, rows: seq<Ballot>) returns (findings: seq<Finding>)
    ensures findings == Findings(clock, rows)
  {
    hide Sort, Group, Devices, Grouped, ScanFrom, Distinct, Filter, FlatMap;
    var ballots := Sort(BallotLe, rows);
    var groups, order := GroupByDevice(ballots);
    GroupedLists(groups, order, rows);
    findings := [];
    NoFindings(clock, rows);
    assert order[..0] == [];
    for j := 0 to |order|
      invariant findings == FlatMap(Scan(clock, rows), order[..j])
    {
      var d := order[j];
      assert order[..j + 1] == order[..j] + [d];
      FlatMapAppend(Scan(clock, rows), order[..j], d);
      var found := ScanDevice(clock, d, groups[d]);
      findings := findings + found;
    }
    assert order[..|order|] == order;
  }

  lemma NoFindings(clock: Clock, rows: seq<Ballot>)
    ensures FlatMap(Scan(clock, rows), []) == []
  {
  }

  /** One turn of the outer loop: the window slides until its first hit. */
  method ScanDevice(clock: Clock, d: string, list: seq<Ballot>) returns (found: seq<Finding>)
    ensures found == ScanFrom(clock, d, list, 0)
  {
    found := [];
    if |list| >= 4 {
      for i := 0 to |list| - 3
        invariant found == [] && ScanFrom(clock, d, list, 0) == ScanFrom(clock, d, list, i)
      {
        if Hit(clock, list, i) {
          found := [Report(clock, d, list, i)];
          break;
        }
      }
    }
  }

  // ---------- What a finding means ----------

  predicate Close(clock: Clock, a: Ballot, b: Ballot) {
    -WINDOW <= clock(a.recordedAt) - clock(b.recordedAt) <= WINDOW
  }

  /** Four different ballots of device d, any two within five seconds. */
  predicate Four(clock: Clock, rows: seq<Ballot>, d: string, a: Ballot, b: Ballot, c: Ballot, e: Ballot) {
    && a in rows && b in rows && c in rows && e in rows
    && a.deviceId == b.deviceId == c.deviceId == e.deviceId == d
    && a != b && a != c && a != e && b != c && b != e && c != e
    && Close(clock, a, b) && Close(clock, a, c) && Close(clock, a, e)
    && Close(clock, b, c) && Close(clock, b, e) && Close(clock, c, e)
  }

  ghost predicate Burst(clock: Clock, rows: seq<Ballot>, d: string) {
    exists a, b, c, e :: Four(clock, rows, d, a, b, c, e)
  }

  /** The clock ran back by at most slack: a ballot of d with a higher number was recorded at most that much earlier. */
  ghost predicate SteadyUpTo(clock: Clock, rows: seq<Ballot>, d: string, slack: nat) {
    forall a, b :: a in rows && b in rows && a.deviceId == b.deviceId == d && a.sequenceNumber < b.sequenceNumber
                   ==> clock(a.recordedAt) <= clock(b.recordedAt) + slack
  }

  /** No two ballots of d carry the same number. */
  ghost predicate NumbersDistinct(rows: seq<Ballot>, d: string) {
    forall i, j :: 0 <= i < j < |rows| && rows[i].deviceId == rows[j].deviceId == d
                   ==> rows[i].sequenceNumber != rows[j].sequenceNumber
  }

  lemma GroupElements(rows: seq<Ballot>, d: string)
    ensures forall b :: b in Group(rows, d) <==> b in rows && b.deviceId == d
  {
    SortElements(BallotLe, rows);
    var sorted := Sort(BallotLe, rows);
    forall b | b in rows && b.deviceId == d
      ensures b in Group(rows, d)
    {
      assert b in sorted;
      var i :| 0 <= i < |sorted| && sorted[i] == b;
      FilterKeeps(Keyed(BallotDevice(), d), sorted, i);
    }
  }

  /** Without a hit, three positions apart means more than five seconds apart, and so on. */
  lemma {:induction false} Spread(clock: Clock, xs: seq<Ballot>, p: nat, k: nat)
    requires forall i :: !Hit(clock, xs, i)
    requires k > 0 && p + 3 * k < |xs|
    ensures clock(xs[p + 3 * k].recordedAt) - clock(xs[p].recordedAt) > WINDOW
  {
    var q := p + 3 * (k - 1);
    assert !Hit(clock, xs, q);
    if k > 1 {
      Spread(clock, xs, p, k - 1);
    }
  }

  /** Close ballots on a scan without hits stand at positions that differ modulo three. */
  lemma CloseMeansApart(clock: Clock, xs: seq<Ballot>, p: nat, q: nat)
    requires forall i :: !Hit(clock, xs, i)
    requires p < |xs| && q < |xs| && p != q && Close(clock, xs[p], xs[q])
    ensures p % 3 != q % 3
  {
    if p % 3 == q % 3 {
      if p < q {
        Spread(clock, xs, p, (q - p) / 3);
      } else {
        Spread(clock, xs, q, (p - q) / 3);
      }
    }
  }

  /** Among four positions two agree modulo three: no order of recording times hides a burst. */
  lemma BurstIsHit(clock: Clock, rows: seq<Ballot>, d: string)
    requires Burst(clock, rows, d)
    ensures exists i :: Hit(clock, Group(rows, d), i)
  {
    var a, b, c, e :| Four(clock, rows, d, a, b, c, e);
    var xs := Group(rows, d);
    GroupElements(rows, d);
    var p: nat :| p < |xs| && xs[p] == a;
    var q: nat :| q < |xs| && xs[q] == b;
    var r: nat :| r < |xs| && xs[r] == c;
    var s: nat :| s < |xs| && xs[s] == e;
    hide Group;
    FourApart(clock, xs, p, q, r, s);
  }

  lemma FourApart(clock: Clock, xs: seq<Ballot>, p: nat, q: nat, r: nat, s: nat)
    requires p < |xs| && q < |xs| && r < |xs| && s < |xs|
    requires p != q && p != r && p != s && q != r && q != s && r != s
    requires Close(clock, xs[p], xs[q]) && Close(clock, xs[p], xs[r]) && Close(clock, xs[p], xs[s])
    requires Close(clock, xs[q], xs[r]) && Close(clock, xs[q], xs[s]) && Close(clock, xs[r], xs[s])
    ensures exists i :: Hit(clock, xs, i)
  {
    if forall i :: !Hit(clock, xs, i) {
      hide Close, Hit;
      CloseMeansApart(clock, xs, p, q);
      CloseMeansApart(clock, xs, p, r);
      CloseMeansApart(clock, xs, p, s);
      CloseMeansApart(clock, xs, q, r);
      CloseMeansApart(clock, xs, q, s);
      CloseMeansApart(clock, xs, r, s);
    }
  }

  lemma OwnNumbersDistinct(rows: seq<Ballot>, d: string)
    requires NumbersDistinct(rows, d)
    ensures KeysDistinct(BallotLe, Filter(Keyed(BallotDevice(), d), rows))
  {
    var apart := (a: Ballot, b: Ballot) =>
      a.deviceId == b.deviceId == d ==> a.sequenceNumber != b.sequenceNumber;
    assert Pairwise(apart, rows);
    FilterPairwise(Keyed(BallotDevice(), d), apart, rows);
    var xs := Filter(Keyed(BallotDevice(), d), rows);
    forall i, j | 0 <= i < j < |xs|
      ensures !(BallotLe(xs[i], xs[j]) && BallotLe(xs[j], xs[i]))
    {
      assert apart(xs[i], xs[j]);
      assert Keyed(BallotDevice(), d)(xs[i]) && Keyed(BallotDevice(), d)(xs[j]);
    }
  }

  /** In scan order the numbers of a device strictly increase. */
  lemma GroupOrder(rows: seq<Ballot>, d: string)
    requires NumbersDistinct(rows, d)
    ensures var xs := Group(rows, d); forall i, j :: 0 <= i < j < |xs| ==> xs[i].sequenceNumber < xs[j].sequenceNumber
  {
    var own := Filter(Keyed(BallotDevice(), d), rows);
    BallotOrder();
    FilterSort(BallotLe, Keyed(BallotDevice(), d), rows);
    OwnNumbersDistinct(rows, d);
    SortSorted(BallotLe, own);
    DistinctThroughSort(BallotLe, own);
    GroupElements(rows, d);
    var xs := Group(rows, d);
    hide Sort, Filter, Group;
    forall i, j | 0 <= i < j < |xs|
      ensures xs[i].sequenceNumber < xs[j].sequenceNumber
    {
      assert xs[i] in xs && xs[j] in xs;
    }
  }

  lemma HitIsBurst(clock: Clock, rows: seq<Ballot>, d: string, i: nat)
    requires NumbersDistinct(rows, d) && SteadyUpTo(clock, rows, d, 0)
    requires Hit(clock, Group(rows, d), i)
    ensures Burst(clock, rows, d)
  {
    var xs := Group(rows, d);
    GroupElements(rows, d);
    GroupOrder(rows, d);
    assert Four(clock, rows, d, xs[i], xs[i + 1], xs[i + 2], xs[i + 3]);
  }

  lemma {:induction false} ScanMeaning(clock: Clock, d: string, xs: seq<Ballot>, i: nat)
    ensures ScanFrom(clock, d, xs, i) == [] <==> forall k: nat :: k >= i ==> !Hit(clock, xs, k)
    ensures |ScanFrom(clock, d, xs, i)| <= 1
    ensures forall f :: f in ScanFrom(clock, d, xs, i) ==> f.deviceId == d
    decreases |xs| - i
  {
    if i + 3 < |xs| && !Hit(clock, xs, i) {
      ScanMeaning(clock, d, xs, i + 1);
    }
  }

  function About(d: string): Finding -> bool {
    (f: Finding) => f.deviceId == d
  }

  /** The four neighbours from i on, by their first and last number, their duration and the time of the last. */
  predicate FourFrom(clock: Clock, xs: seq<Ballot>, i: nat, f: Finding) {
    && i + 3 < |xs|
    && f.startSequence == xs[i].sequenceNumber && f.endSequence == xs[i + 3].sequenceNumber
    && f.duration == clock(xs[i + 3].recordedAt) - clock(xs[i].recordedAt)
    && f.at == xs[i + 3].recordedAt
  }

  predicate Slow(clock: Clock, xs: seq<Ballot>, i: nat) {
    i + 3 < |xs| && clock(xs[i + 3].recordedAt) - clock(xs[i].recordedAt) > 5_000_000
  }

  /** The first four neighbours within five seconds. */
  ghost predicate FirstHit(clock: Clock, xs: seq<Ballot>, from: nat, f: Finding) {
    exists i: nat :: from <= i && FourFrom(clock, xs, i, f) && f.duration <= 5_000_000
                     && forall j: nat :: from <= j < i ==> Slow(clock, xs, j)
  }

  lemma LaterHit(clock: Clock, xs: seq<Ballot>, from: nat, f: Finding)
    requires Slow(clock, xs, from)
    ensures FirstHit(clock, xs, from, f) <==> FirstHit(clock, xs, from + 1, f)
  {
    if FirstHit(clock, xs, from, f) {
      var i: nat :| from <= i && FourFrom(clock, xs, i, f) && f.duration <= 5_000_000
                    && forall j: nat :: from <= j < i ==> Slow(clock, xs, j);
      assert i != from;
    }
    if FirstHit(clock, xs, from + 1, f) {
      var i: nat :| from + 1 <= i && FourFrom(clock, xs, i, f) && f.duration <= 5_000_000
                    && forall j: nat :: from + 1 <= j < i ==> Slow(clock, xs, j);
      assert forall j: nat :: from <= j < i ==> Slow(clock, xs, j);
    }
  }

  lemma {:induction false} ScanReports(clock: Clock, d: string, xs: seq<Ballot>, from: nat, f: Finding)
    ensures f in ScanFrom(clock, d, xs, from) <==> f.deviceId == d && FirstHit(clock, xs, from, f)
    decreases |xs| - from
  {
    if from + 3 < |xs| {
      if Hit(clock, xs, from) {
        assert !Slow(clock, xs, from);
        assert f == Report(clock, d, xs, from) <==> f.deviceId == d && FourFrom(clock, xs, from, f);
        assert FirstHit(clock, xs, from, f) <==> FourFrom(clock, xs, from, f);
      } else {
        ScanReports(clock, d, xs, from + 1, f);
        LaterHit(clock, xs, from, f);
      }
    }
  }

  /** The findings are, for each device with ballots, the first such four in the order of its numbers. */
  lemma FindingsReport(clock: Clock, rows: seq<Ballot>, f: Finding)
    ensures f in Findings(clock, rows) <==> FirstHit(clock, Group(rows, f.deviceId), 0, f)
  {
    var ds := Devices(rows);
    FlatMapHas(Scan(clock, rows), ds, f);
    forall i | 0 <= i < |ds|
      ensures f in Scan(clock, rows)(ds[i]) <==> f.deviceId == ds[i] && FirstHit(clock, Group(rows, ds[i]), 0, f)
    {
      ScanReports(clock, ds[i], Group(rows, ds[i]), 0, f);
    }
    hide FlatMap, ScanFrom;
    if FirstHit(clock, Group(rows, f.deviceId), 0, f) {
      GroupElements(rows, f.deviceId);
      assert Group(rows, f.deviceId)[0] in Group(rows, f.deviceId);
      DeviceListed(rows, f.deviceId);
    }
  }

  lemma DeviceListed(rows: seq<Ballot>, d: string)
    requires exists b :: b in rows && b.deviceId == d
    ensures exists i :: 0 <= i < |Devices(rows)| && Devices(rows)[i] == d
  {
    var sorted := Sort(BallotLe, rows);
    SortElements(BallotLe, rows);
    var b :| b in rows && b.deviceId == d;
    assert b in sorted;
    var i :| 0 <= i < |sorted| && sorted[i] == b;
    assert Map(BallotDevice(), sorted)[i] == d;
    assert d in Devices(rows);
  }

  lemma {:induction false} OneDeviceOneScan(clock: Clock, rows: seq<Ballot>, ds: seq<string>, d: string)
    requires forall i, j :: 0 <= i < j < |ds| ==> ds[i] != ds[j]
    ensures Filter(About(d), FlatMap(Scan(clock, rows), ds)) == if d in ds then Scan(clock, rows)(d) else []
  {
    hide ScanFrom, Group, Filter;
    if ds == [] {
      FilterNone(About(d), []);
    } else {
      var front, last := ds[..|ds| - 1], ds[|ds| - 1];
      assert ds == front + [last];
      OneDeviceOneScan(clock, rows, front, d);
      var found := Scan(clock, rows)(last);
      FilterConcat(About(d), FlatMap(Scan(clock, rows), front), found);
      ScanMeaning(clock, last, Group(rows, last), 0);
      if last == d {
        FilterAll(About(d), found);
      } else {
        FilterNone(About(d), found);
      }
    }
  }

  /** How many findings name device d: those of its own scan. */
  lemma FindingsOf(clock: Clock, rows: seq<Ballot>, d: string)
    ensures |Filter(About(d), Findings(clock, rows))|
         == if exists i :: Hit(clock, Group(rows, d), i) then 1 else 0
  {
    OneDeviceOneScan(clock, rows, Devices(rows), d);
    ScanMeaning(clock, d, Group(rows, d), 0);
    if d !in Devices(rows) {
      NewGroup(Sort(BallotLe, rows), d);
    }
  }

  /** No burst is ever missed, whatever the clock did, and a device has at most one finding. */
  lemma NoBurstMissed(clock: Clock, rows: seq<Ballot>, d: string)
    ensures |Filter(About(d), Findings(clock, rows))| <= 1
    ensures Burst(clock, rows, d) ==> |Filter(About(d), Findings(clock, rows))| == 1
  {
    FindingsOf(clock, rows, d);
    if Burst(clock, rows, d) {
      BurstIsHit(clock, rows, d);
    }
  }

  /**
   * With a clock that does not run backwards the rule is exact: one finding for each device
   * with four ballots in five seconds, none for the others.
   */
  lemma AdjacentWindowsSuffice(clock: Clock, rows: seq<Ballot>, d: string)
    requires NumbersDistinct(rows, d) && SteadyUpTo(clock, rows, d, 0)
    ensures |Filter(About(d), Findings(clock, rows))| == if Burst(clock, rows, d) then 1 else 0
  {
    NoBurstMissed(clock, rows, d);
    FindingsOf(clock, rows, d);
    if i: nat :| Hit(clock, Group(rows, d), i) {
      HitIsBurst(clock, rows, d, i);
    }
  }

  /** The rule is right about d: one finding if d has a burst, else none. */
  ghost predicate Right(clock: Clock, rows: seq<Ballot>, d: string) {
    |Filter(About(d), Findings(clock, rows))| == if Burst(clock, rows, d) then 1 else 0
  }

  /** Rows the table of ballots can hold: IDs, sessions, and the numbers of a device are distinct. */
  ghost predicate Storable(rows: seq<Ballot>) {
    forall i, j :: 0 <= i < j < |rows| ==>
      && rows[i].id != rows[j].id
      && rows[i].sessionId != rows[j].sessionId
      && (rows[i].deviceId == rows[j].deviceId ==> rows[i].sequenceNumber != rows[j].sequenceNumber)
  }

  /** Within one minute the clock counts microseconds. */
  ghost predicate Ticks(clock: Clock) {
    forall t: DateTime, u: DateTime :: t.(second := 0, microsecond := 0) == u.(second := 0, microsecond := 0) ==>
      clock(t) - clock(u) == 1_000_000 * (t.second - u.second) + t.microsecond - u.microsecond
  }

  const DEVICE := "EVM-001"
  const BALLOT_IDS := "7d3c9e18-2f4b-4a76-8c05-e1b9d6f7a34"
  const SESSION_IDS := "0b6f4a52-6c1e-4d0f-9a83-5f2d7c1e8b9"
  const BALLOT_HASH := "9c56cc51b374c3ba189210d5b6d4bf57790d351c96c47c02190ecf1e430635ab"

  /** One of ten UUIDs with a common beginning. */
  function Uuid(prefix: string, n: nat): string
    requires n < 10
  {
    prefix + ["0123456789"[n]]
  }

  lemma UuidsDiffer(prefix: string, n: nat, k: nat)
    requires n < 10 && k < 10 && n != k
    ensures Uuid(prefix, n) != Uuid(prefix, k)
  {
    assert Uuid(prefix, n)[|prefix|] != Uuid(prefix, k)[|prefix|];
  }

  function Noon(second: nat, microsecond: nat): DateTime
    requires second < 60 && microsecond < 1_000_000
  {
    DateTimeFields(2026, 5, 4, 12, 0, second, microsecond)
  }

  /** The n-th ballot of the device; the rule does not read its hash. */
  function CastAt(n: nat, now: DateTime): Ballot
    requires n < 10
  {
    Ballot(Uuid(BALLOT_IDS, n), "EV-2026-001", Uuid(SESSION_IDS, n), DEVICE, "C001", n, BALLOT_HASH, now)
  }

  /** Four ballots: the second is one microsecond too late, and the clock then falls back by as much. */
  function FallBack(): seq<Ballot> {
    [CastAt(1, Noon(0, 0)), CastAt(2, Noon(5, 1)), CastAt(3, Noon(5, 0)), CastAt(4, Noon(5, 0))]
  }

  /** Four rows in number order whose clock falls back by one microsecond before the third. */
  ghost predicate FallsBack(clock: Clock, xs: seq<Ballot>) {
    && |xs| == 4
    && (forall i :: 0 <= i < 4 ==> xs[i].sequenceNumber == i + 1 && xs[i].deviceId == DEVICE)
    && clock(xs[1].recordedAt) == clock(xs[0].recordedAt) + WINDOW + 1
    && clock(xs[2].recordedAt) == clock(xs[3].recordedAt) == clock(xs[0].recordedAt) + WINDOW
  }

  lemma FallBackRows(clock: Clock)
    requires Ticks(clock)
    ensures FallsBack(clock, FallBack())
  {
    hide Uuid;
    var xs := FallBack();
    assert Noon(0, 0).(second := 0, microsecond := 0) == Noon(5, 1).(second := 0, microsecond := 0)
        == Noon(5, 0).(second := 0, microsecond := 0);
    assert xs[0].recordedAt == Noon(0, 0) && xs[1].recordedAt == Noon(5, 1) && xs[2].recordedAt == Noon(5, 0);
  }

  lemma NumberedStorable(rows: seq<Ballot>, ids: string, sessions: string)
    requires |rows| < 9
    requires forall i :: 0 <= i < |rows| ==>
               && rows[i].id == Uuid(ids, i + 1) && rows[i].sessionId == Uuid(sessions, i + 1)
               && rows[i].sequenceNumber == i + 1
    ensures Storable(rows)
  {
    hide Uuid;
    forall i, j | 0 <= i < j < |rows|
      ensures rows[i].id != rows[j].id && rows[i].sessionId != rows[j].sessionId
    {
      UuidsDiffer(ids, i + 1, j + 1);
      UuidsDiffer(sessions, i + 1, j + 1);
    }
  }

  lemma FallBackStorable()
    ensures Storable(FallBack())
  {
    hide Uuid, Noon, Storable;
    NumberedStorable(FallBack(), BALLOT_IDS, SESSION_IDS);
  }

  lemma StorableNumbers(rows: seq<Ballot>, d: string)
    requires Storable(rows)
    ensures NumbersDistinct(rows, d)
  {
  }

  /**
   * When the clock runs back by one microsecond the scan can raise a false alarm: it compares the first of the four
   * with the last only.
   */
  lemma BackwardClockFalseAlarm(clock: Clock, slack: nat)
    requires Ticks(clock) && slack > 0
    ensures Storable(FallBack()) && SteadyUpTo(clock, FallBack(), DEVICE, slack)
    ensures !Right(clock, FallBack(), DEVICE)
  {
    var rows := FallBack();
    FallBackRows(clock);
    FallBackStorable();
    StorableNumbers(rows, DEVICE);
    hide FallBack, Storable, NumbersDistinct, Group, Findings, Filter;
    FallBackGroup(clock, rows);
    assert Hit(clock, Group(rows, DEVICE), 0);
    FindingsOf(clock, rows, DEVICE);
    NoBurstInFallBack(clock, rows);
    FallBackSteady(clock, rows, slack);
  }

  lemma FallBackSteady(clock: Clock, rows: seq<Ballot>, slack: nat)
    requires FallsBack(clock, rows) && slack > 0
    ensures SteadyUpTo(clock, rows, DEVICE, slack)
  {
    assert forall x :: x in rows ==> x == rows[0] || x == rows[1] || x == rows[2] || x == rows[3];
  }

  lemma NoBurstInFallBack(clock: Clock, rows: seq<Ballot>)
    requires FallsBack(clock, rows)
    ensures !Burst(clock, rows, DEVICE)
  {
    var first, second := rows[0], rows[1];
    assert !Close(clock, first, second) && !Close(clock, second, first);
    forall x | x in rows
      ensures x == first || x == second || 3 <= x.sequenceNumber <= 4
    {
    }
    assert forall x, y :: x in rows && y in rows && x.sequenceNumber == y.sequenceNumber ==> x == y;
    hide Close, FallsBack;
    forall a, b, c, e
      ensures !Four(clock, rows, DEVICE, a, b, c, e)
    {
    }
  }

  lemma FallBackGroup(clock: Clock, rows: seq<Ballot>)
    requires FallsBack(clock, rows)
    ensures Group(rows, DEVICE) == rows
  {
    assert Sorted(BallotLe, rows) by {
      hide StringLe;
    }
    hide Sort, Filter, Sorted;
    SortOfSorted(BallotLe, rows);
    FilterAll(Keyed(BallotDevice(), DEVICE), rows);
  }

  /**
   * How steady a clock must be that counts microseconds: the rule is right on all rows the database can hold whose
   * clock ran back by at most slack if and only if it did not run back at all.
   */
  lemma BurstRuleExactly(clock: Clock, slack: nat)
    requires Ticks(clock)
    ensures (forall rows, d :: Storable(rows) && SteadyUpTo(clock, rows, d, slack) ==> Right(clock, rows, d))
            <==> slack == 0
  {
    hide Storable, NumbersDistinct, SteadyUpTo, Findings, Filter, Burst;
    if slack == 0 {
      forall rows, d | Storable(rows) && SteadyUpTo(clock, rows, d, slack)
        ensures Right(clock, rows, d)
      {
        StorableNumbers(rows, d);
        AdjacentWindowsSuffice(clock, rows, d);
      }
    } else {
      BackwardClockFalseAlarm(clock, slack);
    }
  }
}
