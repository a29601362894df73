/**
  Optional values, used wherever the game answers "nothing here": a missing
  round file, a line that is not an answer, a points field that is not a number.
 */
module Options {

  datatype Option<+T> = None | Some(value: T) {

    /** The carried value, or `default` when there is none. */
    function GetOr(default: T): T {
      match this
      case Some(v) => v
      case None => default
    }
  }
}

/**
  The few string operations the content loaders rely on, written out with
  the meaning they have in Python: `str.strip()`, `str.split(',')` and the
  decimal form of `int()`.
 */
module Text {
  import opened Options

  /** The characters Python's `str.isspace()` accepts, which `str.strip()` removes. */
  predicate IsSpace(c: char) {
    || c == ' '
    || ('\t' <= c <= '\r')
    || ('\U{1c}' <= c <= '\U{1f}')
    || c == '\U{85}' || c == '\U{a0}' || c == '\U{1680}'
    || ('\U{2000}' <= c <= '\U{200a}')
    || c == '\U{2028}' || c == '\U{2029}' || c == '\U{202f}'
    || c == '\U{205f}' || c == '\U{3000}'
  }

  predicate AllSpace(s: string) {
    forall k :: 0 <= k < |s| ==> IsSpace(s[k])
  }

  /** Neither end of `s` is whitespace: `s` is a fixed point of `Strip`. */
  predicate IsStripped(s: string) {
    |s| == 0 || (!IsSpace(s[0]) && !IsSpace(s[|s| - 1]))
  }

  /** Length of the longest all-whitespace prefix. */
  function LeadingSpaces(s: string): (n: nat)
    ensures n <= |s| && (n < |s| ==> !IsSpace(s[n]))
  {
    if |s| > 0 && IsSpace(s[0]) then 1 + LeadingSpaces(s[1..]) else 0
  }

  /** Length of the longest all-whitespace suffix. */
  function TrailingSpaces(s: string): (n: nat)
    ensures n <= |s| && (n < |s| ==> !IsSpace(s[|s| - 1 - n]))
  {
    if |s| > 0 && IsSpace(s[|s| - 1]) then 1 + TrailingSpaces(s[..|s| - 1]) else 0
  }

  /** Python's `s.strip()`: drop whitespace from both ends. */
  function Strip(s: string): (r: string)
    ensures IsStripped(r) && |r| <= |s|
  {
    var a := LeadingSpaces(s);
    if a == |s| then []
    else
      var b := |s| - TrailingSpaces(s);
      assert a < b by {
        TrailingAreSpaces(s);
      }
      s[a..b]
  }

  lemma {:induction false} LeadingAreSpaces(s: string)
    ensures forall k :: 0 <= k < LeadingSpaces(s) ==> IsSpace(s[k])
  {
    if |s| > 0 && IsSpace(s[0]) {
      LeadingAreSpaces(s[1..]);
    }
  }

  lemma {:induction false} TrailingAreSpaces(s: string)
    ensures forall k :: |s| - TrailingSpaces(s) <= k < |s| ==> IsSpace(s[k])
  {
    if |s| > 0 && IsSpace(s[|s| - 1]) {
      TrailingAreSpaces(s[..|s| - 1]);
    }
  }

  /** `r` is `s` with some whitespace cut from each end. */
  ghost predicate TrimOf(r: string, s: string) {
    exists a, b :: 0 <= a <= b <= |s| && r == s[a..b] && AllSpace(s[..a]) && AllSpace(s[b..])
  }

  /**
    `Strip` removes whitespace and only whitespace, and only at the two ends;
    it leaves nothing exactly when the string is all whitespace.
   */
  lemma StripTrims(s: string)
    ensures TrimOf(Strip(s), s)
    ensures |Strip(s)| == 0 <==> AllSpace(s)
  {
    var a := LeadingSpaces(s);
    LeadingAreSpaces(s);
    TrailingAreSpaces(s);
    if a == |s| {
      assert s[..a] == s && |s[a..a]| == 0 && |s[a..]| == 0;
    } else {
      var b := |s| - TrailingSpaces(s);
      assert Strip(s) == s[a..b];
    }
  }

  /** Stripping a string whose ends are already non-blank changes nothing. */
  lemma StripStripped(s: string)
    requires IsStripped(s)
    ensures Strip(s) == s
  {
    if |s| > 0 {
      assert LeadingSpaces(s) == 0;
      assert TrailingSpaces(s) == 0;
      assert s[0..|s|] == s;
    }
  }

  /** `Strip` only removes characters: whatever `s` lacks, its stripped form lacks too. */
  lemma StripKeepsOut(s: string, c: char)
    requires c !in s
    ensures c !in Strip(s)
  {
    var a := LeadingSpaces(s);
    if a < |s| {
      var b := |s| - TrailingSpaces(s);
      assert forall k :: 0 <= k < b - a ==> Strip(s)[k] == s[a + k];
    }
  }

  /** Number of commas in `s`. */
  function Commas(s: string): nat {
    multiset(s)[',']
  }

  /** Glue pieces back together with a comma between neighbours. */
  function Join(parts: seq<string>): (s: string)
    requires |parts| >= 1
  {
    if |parts| == 1 then parts[0] else parts[0] + [','] + Join(parts[1..])
  }

  /** Python's `s.split(',')`: the maximal comma-free pieces, in order. */
  function Split(s: string): (parts: seq<string>)
    ensures |parts| == Commas(s) + 1
    ensures forall k :: 0 <= k < |parts| ==> ',' !in parts[k]
  {
    if |s| == 0 then [[]]
    else
      var rest := Split(s[1..]);
      CommasCons(s);
      if s[0] == ',' then [[]] + rest
      else [[s[0]] + rest[0]] + rest[1..]
  }

  lemma CommasCons(s: string)
    requires |s| > 0
    ensures Commas(s) == Commas(s[1..]) + (if s[0] == ',' then 1 else 0)
  {
    assert s == [s[0]] + s[1..];
  }

  /** Round trip: joining the pieces of `s` with commas gives `s` back. */
  lemma {:induction false} JoinSplit(s: string)
    ensures Join(Split(s)) == s
  {
    if |s| > 0 {
      var rest := Split(s[1..]);
      JoinSplit(s[1..]);
      if s[0] == ',' {
        JoinComma(rest);
      } else {
        JoinCons(s[0], rest);
      }
      assert [s[0]] + s[1..] == s;
    }
  }

  lemma JoinComma(rest: seq<string>)
    requires |rest| >= 1
    ensures Join([[]] + rest) == [','] + Join(rest)
  {
    assert ([[]] + rest)[1..] == rest;
  }

  lemma JoinCons(c: char, rest: seq<string>)
    requires |rest| >= 1
    ensures Join([[c] + rest[0]] + rest[1..]) == [c] + Join(rest)
  {
    var parts := [[c] + rest[0]] + rest[1..];
    if |rest| > 1 {
      assert parts[1..] == rest[1..];
    }
  }

  /** Splitting `a,b` where neither side has a comma gives exactly `a` and `b`. */
  lemma {:induction false} SplitPair(a: string, b: string)
    requires ',' !in a && ',' !in b
    ensures var parts := Split(a + [','] + b); |parts| == 2 && parts[0] == a && parts[1] == b
  {
    var s := a + [','] + b;
    if |a| == 0 {
      assert s == [','] + b;
      assert s[1..] == b;
      SplitSingle(b);
    } else {
      assert s[1..] == a[1..] + [','] + b;
      SplitPair(a[1..], b);
      assert [a[0]] + a[1..] == a;
    }
  }

  /** A comma-free string is a single piece. */
  lemma {:induction false} SplitSingle(b: string)
    requires ',' !in b
    ensures |Split(b)| == 1 && Split(b)[0] == b
  {
    if |b| > 0 {
      SplitSingle(b[1..]);
      assert [b[0]] + b[1..] == b;
    }
  }

  predicate IsDigit(c: char) {
    '0' <= c <= '9'
  }

  function DigitValue(c: char): nat
    requires IsDigit(c)
  {
    (c as int) - ('0' as int)
  }

  function DigitChar(d: nat): (c: char)
    requires d < 10
    ensures IsDigit(c) && DigitValue(c) == d
  {
    (('0' as int) + d) as char
  }

  /** A non-empty run of ASCII decimal digits. */
  predicate IsDigits(s: string) {
    |s| > 0 && forall k :: 0 <= k < |s| ==> IsDigit(s[k])
  }

  /** The value of a run of decimal digits, most significant first. */
  function DigitsValue(s: string): nat
    requires forall k :: 0 <= k < |s| ==> IsDigit(s[k])
  {
    if |s| == 0 then 0 else DigitsValue(s[..|s| - 1]) * 10 + DigitValue(s[|s| - 1])
  }

  /**
    The decimal part of Python's `int(s)` on an already stripped string:
    an optional sign followed by one or more digits; anything else is the
    `ValueError` case.
   */
  function ParseInt(s: string): Option<int> {
    if |s| > 0 && (s[0] == '-' || s[0] == '+') then
      if IsDigits(s[1..]) then
        var v: int := DigitsValue(s[1..]);
        Some(if s[0] == '-' then -v else v)
      else None
    else if IsDigits(s) then Some(DigitsValue(s))
    else None
  }

  /** Shortest decimal numeral of a natural number. */
  function ShowNat(n: nat): (s: string)
    ensures IsDigits(s) && DigitsValue(s) == n
  {
    if n < 10 then [DigitChar(n)]
    else
      var s := ShowNat(n / 10) + [DigitChar(n % 10)];
      assert s[..|s| - 1] == ShowNat(n / 10);
      s
  }

  /** Decimal numeral of an integer, with a leading `-` when negative. */
  function ShowInt(n: int): (s: string)
    ensures IsStripped(s) && ',' !in s
  {
    if n < 0 then ['-'] + ShowNat(-n) else ShowNat(n)
  }

  /** `ParseInt` reads back every numeral `ShowInt` writes. */
  lemma ParseShowInt(n: int)
    ensures ParseInt(ShowInt(n)) == Some(n)
  {
    if n < 0 {
      assert ShowInt(n)[1..] == ShowNat(-n);
    }
  }
}
