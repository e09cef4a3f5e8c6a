/**
 * The Python built-ins the cache layer relies on for text: `str()` of an
 * integer, `int()` of a text, and `'.'.join(...)`. `Split` is not used by
 * the cache layer; it is the inverse of `Join` on dot-free parts, and the
 * lemmas below use it to say when a joined text still determines its parts.
 */
module Text {
  import opened Wrappers

  predicate IsDigit(c: char) {
    '0' <= c <= '9'
  }

  predicate AllDigits(s: string) {
    forall i :: 0 <= i < |s| ==> IsDigit(s[i])
  }

  predicate DotFree(s: string) {
    '.' !in s
  }

  function DigitChar(d: nat): (c: char)
    requires d < 10
    ensures IsDigit(c) && c as int - '0' as int == d
  {
    ('0' as int + d) as char
  }

  function DigitValue(c: char): (d: nat)
    requires IsDigit(c)
    ensures d < 10 && DigitChar(d) == c
  {
    c as int - '0' as int
  }

  /** The number a string of decimal digits denotes, most significant digit first. */
  function DecimalValue(s: string): nat
    requires AllDigits(s)
  {
    if s == [] then 0 else 10 * DecimalValue(s[..|s| - 1]) + DigitValue(s[|s| - 1])
  }

  /** `str(n)` for `n >= 0`: decimal digits without leading zeros. */
  function NatToDecimal(n: nat): (s: string)
    ensures |s| > 0 && AllDigits(s)
    ensures s[0] == '0' <==> n == 0
    ensures DecimalValue(s) == n
    decreases n
  {
    if n < 10 then
      [DigitChar(n)]
    else
      var t := NatToDecimal(n / 10);
      assert (t + [DigitChar(n % 10)])[..|t|] == t;
      t + [DigitChar(n % 10)]
  }

  /** `str(n)` for any integer: a negative number gets a leading '-'. */
  function IntToDecimal(n: int): (s: string)
    ensures |s| > 0
    ensures s[0] == '-' <==> n < 0
    ensures n >= 0 ==> AllDigits(s)
    ensures n < 0 ==> AllDigits(s[1..]) && |s| >= 2
    ensures n >= 0 ==> (s[0] == '0' <==> n == 0)
    ensures n < 0 ==> s[1] != '0'
  {
    if n < 0 then "-" + NatToDecimal(-n) else NatToDecimal(n)
  }

  /**
   * `int(s)` on text: an optional sign followed by one or more decimal
   * digits. `None` stands for the `ValueError` Python raises otherwise.
   */
  function ParseInt(s: string): (r: Option<int>)
    ensures r.Some? ==> |s| > 0 && (IsDigit(s[0]) || s[0] == '-' || s[0] == '+')
    ensures |s| > 0 && AllDigits(s) ==> r == Some(DecimalValue(s))
    ensures s == [] ==> r == None
  {
    if |s| >= 2 && s[0] == '-' && AllDigits(s[1..]) then Some(0 - DecimalValue(s[1..]) as int)
    else if |s| >= 2 && s[0] == '+' && AllDigits(s[1..]) then Some(DecimalValue(s[1..]))
    else if |s| >= 1 && AllDigits(s) then Some(DecimalValue(s))
    else None
  }

  /** `int(str(n)) == n` for every integer. */
  lemma ParseIntToDecimal(n: int)
    ensures ParseInt(IntToDecimal(n)) == Some(n)
  {
    if n < 0 {
      var t := NatToDecimal(-n);
      assert ("-" + t)[1..] == t;
    }
  }

  /** `'.'.join(parts)`. */
  function Join(parts: seq<string>): (s: string)
    ensures |parts| == 1 ==> s == parts[0]
    ensures |parts| >= 2 ==> '.' in s
    ensures parts == [] ==> s == ""
  {
    if parts == [] then ""
    else if |parts| == 1 then parts[0]
    else
      var rest := Join(parts[1..]);
      assert (parts[0] + "." + rest)[|parts[0]|] == '.';
      parts[0] + "." + rest
  }

  /** Index of the first '.' in `s`. */
  function FirstDot(s: string): (i: nat)
    requires '.' in s
    ensures i < |s| && s[i] == '.' && DotFree(s[..i])
  {
    if s[0] == '.' then 0
    else
      var j := FirstDot(s[1..]);
      assert s[..j + 1] == [s[0]] + s[1..][..j];
      j + 1
  }

  /** `s.split('.')`: the maximal dot-free pieces of `s`, in order. */
  function Split(s: string): (parts: seq<string>)
    ensures |parts| > 0
    ensures forall i :: 0 <= i < |parts| ==> DotFree(parts[i])
    decreases |s|
  {
    if '.' !in s then [s]
    else
      var i := FirstDot(s);
      [s[..i]] + Split(s[i + 1..])
  }

  lemma {:induction false} FirstDotAfterDotFree(p: string, t: string)
    requires DotFree(p)
    ensures '.' in p + "." + t && FirstDot(p + "." + t) == |p|
  {
    var s := p + "." + t;
    assert s[|p|] == '.';
    if p != [] {
      assert s[0] == p[0] && p[0] != '.';
      assert s[1..] == p[1..] + "." + t;
      FirstDotAfterDotFree(p[1..], t);
    }
  }

  /** Splitting a join of dot-free parts gives the parts back. */
  lemma {:induction false} SplitJoin(parts: seq<string>)
    requires |parts| > 0
    requires forall i :: 0 <= i < |parts| ==> DotFree(parts[i])
    ensures Split(Join(parts)) == parts
  {
    if |parts| > 1 {
      var p, rest := parts[0], Join(parts[1..]);
      var s := p + "." + rest;
      FirstDotAfterDotFree(p, rest);
      assert s[..|p|] == p;
      assert s[|p| + 1..] == rest;
      assert Join(parts) == s;
      assert Split(s) == [p] + Split(rest);
      SplitJoin(parts[1..]);
      assert parts == [p] + parts[1..];
    }
  }

  /** Joining is injective on non-empty lists of dot-free parts. */
  lemma JoinInjective(xs: seq<string>, ys: seq<string>)
    requires |xs| > 0 && |ys| > 0
    requires forall i :: 0 <= i < |xs| ==> DotFree(xs[i])
    requires forall i :: 0 <= i < |ys| ==> DotFree(ys[i])
    requires Join(xs) == Join(ys)
    ensures xs == ys
  {
    SplitJoin(xs);
    SplitJoin(ys);
  }

  /**
   * A dot-free head is determined by where the first '.' is: two texts of the form
   * `a + "." + s` with dot-free `a` agree on `a` and on `s` when they are equal.
   */
  lemma DotFreeHead(a: string, s: string, b: string, t: string)
    requires DotFree(a) && DotFree(b)
    requires a + "." + s == b + "." + t
    ensures a == b && s == t
  {
    FirstDotAfterDotFree(a, s);
    FirstDotAfterDotFree(b, t);
    var x := a + "." + s;
    assert a == x[..|a|];
    assert b == x[..|b|];
    assert s == x[|a| + 1..];
    assert t == x[|b| + 1..];
  }
}
