/** The text layer under every hash: `|`-joined fields, decimal numbers, hexadecimal digests. */
module Text {

  predicate PipeFree(s: string) {
    '|' !in s
  }

  /** "|".join(parts) */
  function Join(parts: seq<string>): string {
    if parts == [] then ""
    else if |parts| == 1 then parts[0]
    else parts[0] + "|" + Join(parts[1..])
  }

  lemma SplitFirst(a: string, x: string, b: string, y: string)
    requires PipeFree(a) && PipeFree(b)
    requires a + "|" + x == b + "|" + y
    ensures a == b && x == y
  {
    var s := a + "|" + x;
    assert s == b + "|" + y;
    assert s[|a|] == '|' && s[|b|] == '|';
    assert |a| >= |b|;
    assert |b| >= |a|;
    assert a == s[..|a|] && b == s[..|b|];
    assert x == s[|a| + 1..] && y == s[|b| + 1..];
  }

  lemma SplitLast(x: string, a: string, y: string, b: string)
    requires PipeFree(a) && PipeFree(b)
    requires x + "|" + a == y + "|" + b
    ensures a == b && x == y
  {
    var s := x + "|" + a;
    assert s == y + "|" + b;
    assert s[|x|] == '|' && s[|y|] == '|';
    assert |x| >= |y|;
    assert |y| >= |x|;
    assert x == s[..|x|] && y == s[..|y|];
    assert a == s[|x| + 1..] && b == s[|y| + 1..];
  }

  /** Joining equally many pipe-free fields loses nothing. */
  lemma {:induction false} JoinInjective(a: seq<string>, b: seq<string>)
    requires |a| == |b|
    requires forall i :: 0 <= i < |a| ==> PipeFree(a[i]) && PipeFree(b[i])
    requires Join(a) == Join(b)
    ensures a == b
  {
    if |a| > 1 {
      SplitFirst(a[0], Join(a[1..]), b[0], Join(b[1..]));
      JoinInjective(a[1..], b[1..]);
      assert a == [a[0]] + a[1..] && b == [b[0]] + b[1..];
    }
  }

  lemma JoinFive(a: string, b: string, c: string, d: string, e: string)
    ensures Join([a, b, c, d, e]) == a + "|" + (b + "|" + ((c + "|" + d) + "|" + e))
  {
    assert [a, b, c, d, e][1..] == [b, c, d, e];
    assert [b, c, d, e][1..] == [c, d, e];
    assert [c, d, e][1..] == [d, e];
    assert [d, e][1..] == [e];
    assert Join([d, e]) == d + "|" + e;
    assert Join([c, d, e]) == c + "|" + (d + "|" + e);
    assert c + "|" + (d + "|" + e) == (c + "|" + d) + "|" + e;
    assert Join([b, c, d, e]) == b + "|" + Join([c, d, e]);
  }

  /** With one free-form field in the middle, five joined fields are still recovered. */
  lemma JoinFiveInjective(a: string, b: string, c: string, d: string, e: string,
                          a': string, b': string, c': string, d': string, e': string)
    requires PipeFree(a) && PipeFree(b) && PipeFree(d) && PipeFree(e)
    requires PipeFree(a') && PipeFree(b') && PipeFree(d') && PipeFree(e')
    requires Join([a, b, c, d, e]) == Join([a', b', c', d', e'])
    ensures a == a' && b == b' && c == c' && d == d' && e == e'
  {
    JoinFive(a, b, c, d, e);
    JoinFive(a', b', c', d', e');
    SplitFirst(a, b + "|" + ((c + "|" + d) + "|" + e), a', b' + "|" + ((c' + "|" + d') + "|" + e'));
    SplitFirst(b, (c + "|" + d) + "|" + e, b', (c' + "|" + d') + "|" + e');
    SplitLast(c + "|" + d, e, c' + "|" + d', e');
    SplitLast(c, d, c', d');
  }

  /** How many field separators a text holds. */
  function Pipes(s: string): nat {
    if s == "" then 0 else (if s[0] == '|' then 1 else 0) + Pipes(s[1..])
  }

  lemma {:induction false} PipesConcat(s: string, t: string)
    ensures Pipes(s + t) == Pipes(s) + Pipes(t)
  {
    if s == "" {
      assert s + t == t;
    } else {
      assert (s + t)[1..] == s[1..] + t;
      PipesConcat(s[1..], t);
    }
  }

  lemma {:induction false} PipesOfPipeFree(s: string)
    ensures Pipes(s) == 0 <==> PipeFree(s)
  {
    if s != "" {
      PipesOfPipeFree(s[1..]);
      assert s == [s[0]] + s[1..];
    }
  }

  lemma PipesBetween(s: string, t: string)
    ensures Pipes(s + "|" + t) == Pipes(s) + 1 + Pipes(t)
  {
    PipesConcat(s + "|", t);
    PipesConcat(s, "|");
    assert "|"[1..] == "";
  }

  lemma PipesOfFive(a: string, b: string, c: string, d: string, e: string)
    ensures Pipes(Join([a, b, c, d, e])) == Pipes(a) + Pipes(b) + Pipes(c) + Pipes(d) + Pipes(e) + 4
  {
    JoinFive(a, b, c, d, e);
    PipesBetween(a, b + "|" + ((c + "|" + d) + "|" + e));
    PipesBetween(b, (c + "|" + d) + "|" + e);
    PipesBetween(c + "|" + d, e);
    PipesBetween(c, d);
  }

  /** Whatever the three middle fields hold, the outer two of five joined fields are recovered. */
  lemma JoinFiveOuter(a: string, b: string, c: string, d: string, e: string,
                      a': string, b': string, c': string, d': string, e': string)
    requires PipeFree(a) && PipeFree(e) && PipeFree(a') && PipeFree(e')
    requires Join([a, b, c, d, e]) == Join([a', b', c', d', e'])
    ensures a == a' && e == e'
  {
    JoinFive(a, b, c, d, e);
    JoinFive(a', b', c', d', e');
    SplitFirst(a, b + "|" + ((c + "|" + d) + "|" + e), a', b' + "|" + ((c' + "|" + d') + "|" + e'));
    Regroup(b, c + "|" + d, e);
    Regroup(b', c' + "|" + d', e');
    SplitLast(b + "|" + (c + "|" + d), e, b' + "|" + (c' + "|" + d'), e');
  }

  lemma Regroup(x: string, y: string, z: string)
    ensures x + "|" + (y + "|" + z) == (x + "|" + y) + "|" + z
  {
  }

  /** If the five fields on one side are pipe-free, those on the other side are, and they are the same. */
  lemma JoinFivePlain(a: string, b: string, c: string, d: string, e: string,
                      a': string, b': string, c': string, d': string, e': string)
    requires PipeFree(a) && PipeFree(b) && PipeFree(c) && PipeFree(d) && PipeFree(e)
    requires Join([a, b, c, d, e]) == Join([a', b', c', d', e'])
    ensures a == a' && b == b' && c == c' && d == d' && e == e'
  {
    hide Pipes, PipeFree, Join;
    PipesOfFive(a, b, c, d, e);
    PipesOfFive(a', b', c', d', e');
    PipesOfPipeFree(a);
    PipesOfPipeFree(b);
    PipesOfPipeFree(c);
    PipesOfPipeFree(d);
    PipesOfPipeFree(e);
    PipesOfPipeFree(a');
    PipesOfPipeFree(b');
    PipesOfPipeFree(d');
    PipesOfPipeFree(e');
    JoinFiveInjective(a, b, c, d, e, a', b', c', d', e');
  }

  /** A pipe in the middle field can be moved into its left neighbour: the joined text is the same. */
  lemma JoinFiveShift(a: string, b: string, c: string, d: string, e: string, k: nat)
    requires k < |c| && c[k] == '|'
    ensures Join([a, b, c, d, e]) == Join([a, b + "|" + c[..k], c[k + 1..], d, e])
  {
    JoinFive(a, b, c, d, e);
    JoinFive(a, b + "|" + c[..k], c[k + 1..], d, e);
    assert c == c[..k] + "|" + c[k + 1..];
    Regroup(b, c[..k], c[k + 1..]);
    Regroup(b, c, d);
    Regroup(b + "|" + c[..k], c[k + 1..], d);
    assert b + "|" + c == (b + "|" + c[..k]) + "|" + c[k + 1..];
    Regroup(b, c + "|" + d, e);
    Regroup(b + "|" + c[..k], c[k + 1..] + "|" + d, e);
  }

  function Digit(n: nat): char
    requires n < 10
  {
    '0' + (n as char)
  }

  /** Decimal digits without leading zeros. */
  function Digits(n: nat): string {
    if n < 10 then [Digit(n)] else Digits(n / 10) + [Digit(n % 10)]
  }

  /** Python's str(n) on an integer. */
  function Str(n: int): string {
    if n < 0 then "-" + Digits(-n) else Digits(n)
  }

  function Value(s: string): nat {
    if s == "" then 0
    else
      var c := s[|s| - 1] as int - '0' as int;
      10 * Value(s[..|s| - 1]) + (if 0 <= c < 10 then c else 0)
  }

  lemma {:induction false} DigitsRoundTrip(n: nat)
    ensures Value(Digits(n)) == n
    ensures Digits(n) != ""
    ensures forall i :: 0 <= i < |Digits(n)| ==> '0' <= Digits(n)[i] <= '9'
  {
    if n >= 10 {
      DigitsRoundTrip(n / 10);
      assert Digits(n)[..|Digits(n)| - 1] == Digits(n / 10);
    } else {
      assert Digits(n)[..|Digits(n)| - 1] == "";
      assert Value("") == 0;
    }
  }

  lemma {:induction false} NoLeadingZero(n: nat)
    ensures Digits(n) != "" && (n > 0 ==> Digits(n)[0] != '0')
  {
    if n >= 10 {
      NoLeadingZero(n / 10);
      assert Digits(n)[0] == Digits(n / 10)[0];
    }
  }

  /** A number is written in decimal digits that read as the number, without a leading zero; a minus sign goes first. */
  lemma StrReads(n: int)
    ensures n < 0 ==> Str(n) == "-" + Str(-n)
    ensures n >= 0 ==>
              && Str(n) != "" && Value(Str(n)) == n && (n > 0 ==> Str(n)[0] != '0') && (n == 0 ==> Str(n) == "0")
              && forall i :: 0 <= i < |Str(n)| ==> '0' <= Str(n)[i] <= '9'
  {
    if n >= 0 {
      DigitsRoundTrip(n);
      NoLeadingZero(n);
    }
  }

  lemma StrInjective(m: int, n: int)
    requires Str(m) == Str(n)
    ensures m == n
  {
    DigitsRoundTrip(if m < 0 then -m else m);
    DigitsRoundTrip(if n < 0 then -n else n);
    if m < 0 {
      assert Str(m)[0] == '-';
      assert Str(m)[1..] == Digits(-m);
    }
    if n < 0 {
      assert Str(n)[0] == '-';
      assert Str(n)[1..] == Digits(-n);
    }
  }

  lemma StrPipeFree(n: int)
    ensures PipeFree(Str(n))
  {
    DigitsRoundTrip(if n < 0 then -n else n);
    assert forall i :: 0 <= i < |Str(n)| ==> Str(n)[i] == '-' || '0' <= Str(n)[i] <= '9';
  }

  /** The alphabet of `hexdigest()`. */
  predicate IsHex(s: string) {
    && s != ""
    && forall i :: 0 <= i < |s| ==> '0' <= s[i] <= '9' || 'a' <= s[i] <= 'f'
  }

  function LowerChar(c: char): char {
    if 'A' <= c <= 'Z' then c + ' ' else c
  }

  /** str.lower() on ASCII text. */
  function Lower(s: string): string {
    seq(|s|, i requires 0 <= i < |s| => LowerChar(s[i]))
  }

  lemma HexFacts(s: string)
    requires IsHex(s)
    ensures Lower(s) == s && PipeFree(s) && s != "GENESIS"
  {
    assert "GENESIS"[0] == 'G';
  }
}
