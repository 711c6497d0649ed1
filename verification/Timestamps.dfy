/** UTC instants and their ISO text, as the backend renders it and as the standalone verifier normalises it. */
module Timestamps {
  import opened Text

  /** A datetime in UTC down to the microsecond. */
  datatype DateTimeFields = DateTimeFields(
    year: nat, month: nat, day: nat, hour: nat, minute: nat, second: nat, microsecond: nat)
  {
    predicate InRange() {
      && year < 10000 && month < 100 && day < 100
      && hour < 100 && minute < 100 && second < 100 && microsecond < 1000000
    }
  }

  type DateTime = d: DateTimeFields | d.InRange() witness DateTimeFields(1970, 1, 1, 0, 0, 0, 0)

  /** n in exactly width decimal digits. */
  function Pad(n: nat, width: nat): (s: string)
    ensures |s| == width
    ensures forall i :: 0 <= i < |s| ==> '0' <= s[i] <= '9'
  {
    if width == 0 then "" else Pad(n / 10, width - 1) + [Digit(n % 10)]
  }

  function Power10(w: nat): nat {
    if w == 0 then 1 else 10 * Power10(w - 1)
  }

  lemma {:induction false} PadInjective(m: nat, n: nat, width: nat)
    requires m < Power10(width) && n < Power10(width)
    requires Pad(m, width) == Pad(n, width)
    ensures m == n
  {
    if width > 0 {
      var a, b := Pad(m / 10, width - 1), Pad(n / 10, width - 1);
      assert a == Pad(m, width)[..width - 1] && b == Pad(n, width)[..width - 1];
      assert Pad(m, width)[width - 1] == Digit(m % 10) && Pad(n, width)[width - 1] == Digit(n % 10);
      PadInjective(m / 10, n / 10, width - 1);
    }
  }

  function DatePart(d: DateTime): (s: string)
    ensures |s| == 10
  {
    Pad(d.year, 4) + "-" + Pad(d.month, 2) + "-" + Pad(d.day, 2)
  }

  function ClockPart(d: DateTime): (s: string)
    ensures |s| == 8
  {
    Pad(d.hour, 2) + ":" + Pad(d.minute, 2) + ":" + Pad(d.second, 2)
  }

  /** datetime.isoformat() leaves the fraction out when it is zero. */
  function FractionPart(d: DateTime): (s: string)
    ensures |s| == if d.microsecond == 0 then 0 else 7
  {
    if d.microsecond == 0 then "" else "." + Pad(d.microsecond, 6)
  }

  /** The backend's format_iso_timestamp on a UTC datetime. */
  function Iso(d: DateTime): string {
    DatePart(d) + "T" + ClockPart(d) + FractionPart(d) + "+00:00"
  }

  /** The standalone verifier's format_iso_timestamp: a text without a zone mark is taken to be UTC. */
  function Normalise(ts: string): string {
    var tail := if |ts| > 10 then ts[10..] else "";
    if ts == "" then ""
    else if !(ts[|ts| - 1] == 'Z' || '+' in tail || ('-' in tail && 'T' in ts)) then ts + "+00:00"
    else ts
  }

  lemma {:induction false} PadReads(n: nat, width: nat)
    requires n < Power10(width)
    ensures Value(Pad(n, width)) == n
  {
    if width > 0 {
      PadReads(n / 10, width - 1);
      assert Pad(n, width)[..width - 1] == Pad(n / 10, width - 1);
    }
  }

  lemma SliceAt(s: string, a: string, x: string, b: string)
    requires s == a + x + b
    ensures |s| == |a| + |x| + |b| && s[|a|..|a| + |x|] == x
  {
  }

  /** A column of a text reads as the number. */
  ghost predicate Reads(s: string, from: nat, to: nat, n: nat) {
    from <= to <= |s| && Value(s[from..to]) == n
  }

  lemma PadColumn(s: string, a: string, n: nat, width: nat, b: string)
    requires s == a + Pad(n, width) + b && n < Power10(width)
    ensures Reads(s, |a|, |a| + width, n)
  {
    PadReads(n, width);
    SliceAt(s, a, Pad(n, width), b);
    hide Pad, Value;
  }

  lemma DateReads(d: DateTime)
    ensures var s := DatePart(d);
            Reads(s, 0, 4, d.year) && s[4] == '-' && Reads(s, 5, 7, d.month) && s[7] == '-' && Reads(s, 8, 10, d.day)
  {
    Powers();
    hide Pad, Reads, Power10;
    var s, y, m, n := DatePart(d), Pad(d.year, 4), Pad(d.month, 2), Pad(d.day, 2);
    PadColumn(s, "", d.year, 4, "-" + m + "-" + n);
    PadColumn(s, y + "-", d.month, 2, "-" + n);
    PadColumn(s, y + "-" + m + "-", d.day, 2, "");
  }

  lemma ClockReads(d: DateTime)
    ensures var s := ClockPart(d);
            Reads(s, 0, 2, d.hour) && s[2] == ':' && Reads(s, 3, 5, d.minute) && s[5] == ':' && Reads(s, 6, 8, d.second)
  {
    Powers();
    hide Pad, Reads, Power10;
    var s, h, m, n := ClockPart(d), Pad(d.hour, 2), Pad(d.minute, 2), Pad(d.second, 2);
    PadColumn(s, "", d.hour, 2, ":" + m + ":" + n);
    PadColumn(s, h + ":", d.minute, 2, ":" + n);
    PadColumn(s, h + ":" + m + ":", d.second, 2, "");
  }

  lemma ReadsWithin(s: string, a: string, x: string, b: string, from: nat, to: nat, n: nat)
    requires s == a + x + b && Reads(x, from, to, n)
    ensures Reads(s, |a| + from, |a| + to, n)
  {
    SliceAt(s, a, x, b);
    assert s[|a|..|a| + |x|][from..to] == s[|a| + from..|a| + to];
    hide Value;
  }

  /** How the text of an instant reads, column by column; the fraction is there only if it is not zero. */
  lemma IsoReads(d: DateTime)
    ensures var s := Iso(d);
            && |s| == (if d.microsecond == 0 then 25 else 32)
            && Reads(s, 0, 4, d.year) && s[4] == '-' && Reads(s, 5, 7, d.month) && s[7] == '-' && Reads(s, 8, 10, d.day)
            && s[10] == 'T'
            && Reads(s, 11, 13, d.hour) && s[13] == ':' && Reads(s, 14, 16, d.minute) && s[16] == ':'
            && Reads(s, 17, 19, d.second)
            && (d.microsecond > 0 ==> s[19] == '.' && Reads(s, 20, 26, d.microsecond))
            && s[|s| - 6..] == "+00:00"
  {
    DateReads(d);
    ClockReads(d);
    Powers();
    hide Pad, Reads, Power10, DatePart, ClockPart;
    var s, x, y, f := Iso(d), DatePart(d), ClockPart(d), FractionPart(d);
    ReadsWithin(s, "", x, "T" + y + f + "+00:00", 0, 4, d.year);
    ReadsWithin(s, "", x, "T" + y + f + "+00:00", 5, 7, d.month);
    ReadsWithin(s, "", x, "T" + y + f + "+00:00", 8, 10, d.day);
    ReadsWithin(s, x + "T", y, f + "+00:00", 0, 2, d.hour);
    ReadsWithin(s, x + "T", y, f + "+00:00", 3, 5, d.minute);
    ReadsWithin(s, x + "T", y, f + "+00:00", 6, 8, d.second);
    if d.microsecond > 0 {
      PadColumn(s, x + "T" + y + ".", d.microsecond, 6, "+00:00");
    }
  }

  predicate Unzoned(s: string) {
    forall i :: 0 <= i < |s| ==> s[i] != '+' && s[i] != '-' && s[i] != 'Z'
  }

  lemma UnzonedConcat(a: string, b: string)
    requires Unzoned(a) && Unzoned(b)
    ensures Unzoned(a + b)
  {
  }

  lemma ClockUnzoned(d: DateTime)
    ensures Unzoned("T" + ClockPart(d) + FractionPart(d))
  {
    var h, m, n := Pad(d.hour, 2), Pad(d.minute, 2), Pad(d.second, 2);
    assert Unzoned(FractionPart(d)) by {
      UnzonedConcat(".", Pad(d.microsecond, 6));
    }
    UnzonedConcat("T", h);
    UnzonedConcat(h, ":");
    UnzonedConcat(h + ":", m);
    UnzonedConcat(h + ":" + m, ":");
    UnzonedConcat(h + ":" + m + ":", n);
    hide Pad, FractionPart, Unzoned;
    UnzonedConcat("T", ClockPart(d));
    UnzonedConcat("T" + ClockPart(d), FractionPart(d));
  }

  lemma UnzonedTail(s: string, head: string, tail: string)
    requires s == head + tail && |head| == 10 && tail != "" && Unzoned(tail)
    ensures Normalise(s) == s + "+00:00"
    ensures Normalise(s + "Z") == s + "Z"
  {
    assert s[10..] == tail && s[|s| - 1] == tail[|tail| - 1];
  }

  /** The verifier takes a text without a zone for UTC, and leaves one that ends in Z alone. */
  lemma NaiveIsUtc(d: DateTime)
    ensures var naive := Iso(d)[..|Iso(d)| - 6];
            Normalise(naive) == Iso(d) && Normalise(naive + "Z") == naive + "Z"
  {
    hide DatePart, ClockPart, FractionPart, Unzoned, Normalise;
    ClockUnzoned(d);
    var head, tail := DatePart(d), "T" + ClockPart(d) + FractionPart(d);
    assert Iso(d) == (head + tail) + "+00:00";
    UnzonedTail(head + tail, head, tail);
    assert Iso(d)[..|Iso(d)| - 6] == head + tail;
  }

  /** The verifier leaves what the backend wrote alone, and the text never holds the field separator. */
  lemma IsoCanonical(d: DateTime)
    ensures Normalise(Iso(d)) == Iso(d)
    ensures PipeFree(Iso(d))
  {
    var s := Iso(d);
    var k := 19 + |FractionPart(d)|;
    assert s[k] == '+';
    assert s[10..][k - 10] == '+';
    assert PipeFree(DatePart(d)) && PipeFree(ClockPart(d)) && PipeFree(FractionPart(d));
  }

  /** Different instants are written differently. */
  lemma IsoInjective(a: DateTime, b: DateTime)
    requires Iso(a) == Iso(b)
    ensures a == b
  {
    assert |Iso(a)| == 25 + |FractionPart(a)| && |Iso(b)| == 25 + |FractionPart(b)|;
    assert DatePart(a) == Iso(a)[..10] == Iso(b)[..10] == DatePart(b);
    assert ClockPart(a) == Iso(a)[11..19] == Iso(b)[11..19] == ClockPart(b);
    assert FractionPart(a) == Iso(a)[19..19 + |FractionPart(a)|];
    assert FractionPart(b) == Iso(b)[19..19 + |FractionPart(b)|];
    DateInjective(a, b);
    ClockInjective(a, b);
    if a.microsecond != 0 {
      assert Pad(a.microsecond, 6) == FractionPart(a)[1..] == FractionPart(b)[1..] == Pad(b.microsecond, 6);
      Powers();
      PadInjective(a.microsecond, b.microsecond, 6);
    }
  }

  lemma Powers()
    ensures Power10(2) == 100 && Power10(4) == 10000 && Power10(6) == 1000000
  {
    assert Power10(2) == 10 * Power10(1);
    assert Power10(4) == 10 * Power10(3) && Power10(3) == 10 * Power10(2);
    assert Power10(6) == 10 * Power10(5) && Power10(5) == 10 * Power10(4);
  }

  lemma DateInjective(a: DateTime, b: DateTime)
    requires DatePart(a) == DatePart(b)
    ensures a.year == b.year && a.month == b.month && a.day == b.day
  {
    Powers();
    assert Pad(a.year, 4) == DatePart(a)[..4] == DatePart(b)[..4] == Pad(b.year, 4);
    assert Pad(a.month, 2) == DatePart(a)[5..7] == DatePart(b)[5..7] == Pad(b.month, 2);
    assert Pad(a.day, 2) == DatePart(a)[8..10] == DatePart(b)[8..10] == Pad(b.day, 2);
    PadInjective(a.year, b.year, 4);
    PadInjective(a.month, b.month, 2);
    PadInjective(a.day, b.day, 2);
  }

  lemma ClockInjective(a: DateTime, b: DateTime)
    requires ClockPart(a) == ClockPart(b)
    ensures a.hour == b.hour && a.minute == b.minute && a.second == b.second
  {
    Powers();
    assert Pad(a.hour, 2) == ClockPart(a)[..2] == ClockPart(b)[..2] == Pad(b.hour, 2);
    assert Pad(a.minute, 2) == ClockPart(a)[3..5] == ClockPart(b)[3..5] == Pad(b.minute, 2);
    assert Pad(a.second, 2) == ClockPart(a)[6..8] == ClockPart(b)[6..8] == Pad(b.second, 2);
    PadInjective(a.hour, b.hour, 2);
    PadInjective(a.minute, b.minute, 2);
    PadInjective(a.second, b.second, 2);
  }
}
