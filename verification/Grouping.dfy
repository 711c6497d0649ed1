/** `GROUP BY ... COUNT(*)` and sums over the resulting dictionaries. */
module Grouping {
  import opened Prelude
  import opened Sorting

  /** The rows whose key is k. */
  function Keyed<T>(key: T -> string, k: string): T -> bool {
    x => key(x) == k
  }

  function CountOf<T>(key: T -> string, rows: seq<T>, k: string): nat {
    |Filter(Keyed(key, k), rows)|
  }

  lemma CountAppend<T>(key: T -> string, rows: seq<T>, x: T, k: string)
    ensures CountOf(key, rows + [x], k) == CountOf(key, rows, k) + (if key(x) == k then 1 else 0)
  {
    hide Filter;
    FilterAppend(Keyed(key, k), rows, x);
  }

  function KeysOf<T>(key: T -> string, rows: seq<T>): set<string> {
    set i | 0 <= i < |rows| :: key(rows[i])
  }

  /** select key, count(*) from rows group by key: groups without rows do not appear. */
  function GroupBy<T>(key: T -> string, rows: seq<T>): map<string, int> {
    map k | k in KeysOf(key, rows) :: CountOf(key, rows, k)
  }

  /** Python's dict.get(k, 0). */
  function GetOrZero(m: map<string, int>, k: string): int {
    if k in m then m[k] else 0
  }

  ghost function SumOver(ks: set<string>, m: map<string, int>): int
    requires ks <= m.Keys
  {
    if ks == {} then 0
    else var k :| k in ks; m[k] + SumOver(ks - {k}, m)
  }

  ghost function SumValues(m: map<string, int>): int {
    SumOver(m.Keys, m)
  }

  lemma {:induction false} SumOverPick(ks: set<string>, m: map<string, int>, k: string)
    requires ks <= m.Keys && k in ks
    ensures SumOver(ks, m) == m[k] + SumOver(ks - {k}, m)
  {
    var k' :| k' in ks && SumOver(ks, m) == m[k'] + SumOver(ks - {k'}, m);
    if k' != k {
      SumOverPick(ks - {k'}, m, k);
      SumOverPick(ks - {k}, m, k');
      assert ks - {k'} - {k} == ks - {k} - {k'};
    }
  }

  /** The rows whose key is one of ks. */
  function KeyedIn<T>(key: T -> string, ks: set<string>): T -> bool {
    x => key(x) in ks
  }

  lemma {:induction false} CountSplit<T>(key: T -> string, rows: seq<T>, ks: set<string>, k: string)
    requires k in ks
    ensures |Filter(KeyedIn(key, ks), rows)| == CountOf(key, rows, k) + |Filter(KeyedIn(key, ks - {k}), rows)|
  {
    if rows != [] {
      CountSplit(key, rows[1..], ks, k);
    }
  }

  /** Counting group by group over ks counts each row whose key is in ks once. */
  lemma {:induction false} SumOfCounts<T>(key: T -> string, rows: seq<T>, ks: set<string>, m: map<string, int>)
    requires ks <= m.Keys
    requires forall k :: k in ks ==> m[k] == CountOf(key, rows, k)
    ensures SumOver(ks, m) == |Filter(KeyedIn(key, ks), rows)|
    decreases |ks|
  {
    if ks == {} {
      FilterNone(KeyedIn(key, ks), rows);
    } else {
      var k :| k in ks;
      SumOverPick(ks, m, k);
      SumOfCounts(key, rows, ks - {k}, m);
      CountSplit(key, rows, ks, k);
    }
  }

  /** Every row is in exactly one group, so a group-by count can never drift from the row count. */
  lemma GroupByTotal<T>(key: T -> string, rows: seq<T>)
    ensures SumValues(GroupBy(key, rows)) == |rows|
  {
    var ks := KeysOf(key, rows);
    var m := GroupBy(key, rows);
    assert m.Keys == ks;
    SumOfCounts(key, rows, ks, m);
    forall x | x in rows ensures KeyedIn(key, ks)(x) {
      var i :| 0 <= i < |rows| && rows[i] == x;
      assert key(rows[i]) in ks;
    }
    FilterAll(KeyedIn(key, ks), rows);
  }

  lemma CountPositive<T>(key: T -> string, rows: seq<T>, k: string)
    ensures k in KeysOf(key, rows) <==> CountOf(key, rows, k) > 0
  {
    if k in KeysOf(key, rows) {
      var i :| 0 <= i < |rows| && key(rows[i]) == k;
      FilterKeeps(Keyed(key, k), rows, i);
    } else {
      forall x | x in rows ensures !Keyed(key, k)(x) {
        var i :| 0 <= i < |rows| && rows[i] == x;
        assert key(rows[i]) in KeysOf(key, rows);
      }
      FilterNone(Keyed(key, k), rows);
    }
  }

  lemma GroupByCounts<T>(key: T -> string, rows: seq<T>, k: string)
    ensures GetOrZero(GroupBy(key, rows), k) == CountOf(key, rows, k)
  {
    CountPositive(key, rows, k);
  }

  /** Sorting rows changes no count. */
  lemma CountThroughSort<T(!new)>(le: (T, T) -> bool, key: T -> string, rows: seq<T>, k: string)
    requires TotalPreorder(le)
    ensures CountOf(key, Sort(le, rows), k) == CountOf(key, rows, k)
  {
    FilterSort(le, Keyed(key, k), rows);
    SortElements(le, Filter(Keyed(key, k), rows));
  }

  /** Counts survive a projection that keeps the key. */
  lemma CountThroughMap<T, U>(key: T -> string, key': U -> string, f: T -> U, rows: seq<T>, k: string)
    requires forall x :: x in rows ==> key'(f(x)) == key(x)
    ensures CountOf(key', Map(f, rows), k) == CountOf(key, rows, k)
  {
    FilterMap(Keyed(key, k), Keyed(key', k), f, rows);
  }

  /** `sum(d.values())`. */
  method SumDict(m: map<string, int>) returns (total: int)
    ensures total == SumValues(m)
  {
    total := 0;
    var remaining := m.Keys;
    while remaining != {}
      invariant remaining <= m.Keys
      invariant total + SumOver(remaining, m) == SumValues(m)
      decreases remaining
    {
      var k :| k in remaining;
      SumOverPick(remaining, m, k);
      total := total + m[k];
      remaining := remaining - {k};
    }
  }
}
