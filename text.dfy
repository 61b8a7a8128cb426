/**
  Text operations the configuration converters and the bot rely on:
  Python's `str.strip()`, `str.split(sep)`, `sep.join(...)`, `str(int)`
  and the decimal part of `int(str)`.
 */
module Text {
  import opened Wrappers

  /** The characters for which Python's `str.isspace()` holds. */
  predicate IsSpace(c: char) {
    || c == ' '
    || ('\t' <= c <= '\r')
    || ('\U{1c}' <= c <= '\U{1f}')
    || c == '\U{85}'
    || c == '\U{a0}'
    || c == '\U{1680}'
    || ('\U{2000}' <= c <= '\U{200a}')
    || c == '\U{2028}'
    || c == '\U{2029}'
    || c == '\U{202f}'
    || c == '\U{205f}'
    || c == '\U{3000}'
  }

  predicate AllSpace(s: string) {
    forall i :: 0 <= i < |s| ==> IsSpace(s[i])
  }

  /** Neither end of `s` is whitespace. */
  predicate IsTrimmed(s: string) {
    s == [] || (!IsSpace(s[0]) && !IsSpace(s[|s| - 1]))
  }

  function StripLeft(s: string): (r: string)
    ensures |r| <= |s| && r == s[|s| - |r|..]
    ensures r == [] || !IsSpace(r[0])
  {
    if |s| > 0 && IsSpace(s[0]) then StripLeft(s[1..]) else s
  }

  function StripRight(s: string): (r: string)
    ensures |r| <= |s| && r == s[..|r|]
    ensures r == [] || !IsSpace(r[|r| - 1])
  {
    if |s| > 0 && IsSpace(s[|s| - 1]) then StripRight(s[..|s| - 1]) else s
  }

  /** Python's `s.strip()`. */
  function Strip(s: string): (r: string)
    ensures IsTrimmed(r)
    ensures |r| <= |s|
    ensures forall c :: c in r ==> c in s
  {
    var l := StripLeft(s);
    var r := StripRight(l);
    assert r == l[..|r|];
    assert forall c :: c in r ==> c in l;
    r
  }

  lemma {:induction false} StripLeftPadded(p: string, t: string)
    requires AllSpace(p)
    requires t == [] || !IsSpace(t[0])
    ensures StripLeft(p + t) == t
  {
    if p == [] {
      assert p + t == t;
    } else {
      assert (p + t)[1..] == p[1..] + t;
      StripLeftPadded(p[1..], t);
    }
  }

  lemma {:induction false} StripRightPadded(t: string, q: string)
    requires AllSpace(q)
    requires t == [] || !IsSpace(t[|t| - 1])
    ensures StripRight(t + q) == t
  {
    if q == [] {
      assert t + q == t;
    } else {
      var q' := q[..|q| - 1];
      assert (t + q)[..|t + q| - 1] == t + q';
      StripRightPadded(t, q');
    }
  }

  /** Stripping removes exactly the whitespace padding around a trimmed text. */
  /** A trimmed text strips to itself. */
  lemma StripTrimmed(t: string)
    requires IsTrimmed(t)
    ensures Strip(t) == t
  {
    StripPadded([], t, []);
    assert [] + t + [] == t;
  }

  lemma StripPadded(p: string, t: string, q: string)
    requires AllSpace(p) && AllSpace(q) && IsTrimmed(t)
    ensures Strip(p + t + q) == t
  {
    if t == [] {
      assert p + t + q == p + q;
      assert AllSpace(p + q);
      StripLeftPadded(p + q, []);
      assert p + q + [] == p + q;
    } else {
      assert p + t + q == p + (t + q);
      StripLeftPadded(p, t + q);
      StripRightPadded(t, q);
    }
  }

  /** The number of occurrences of `c` in `s`. */
  function Count(s: string, c: char): nat {
    if s == [] then 0 else (if s[0] == c then 1 else 0) + Count(s[1..], c)
  }

  /** Python's `s.split(sep)` for a one-character separator. */
  function Split(s: string, sep: char): (r: seq<string>)
    ensures |r| == Count(s, sep) + 1
    ensures forall i :: 0 <= i < |r| ==> sep !in r[i]
  {
    if s == [] then [[]]
    else
      var rest := Split(s[1..], sep);
      if s[0] == sep then [[]] + rest
      else [[s[0]] + rest[0]] + rest[1..]
  }

  /** Python's `sep.join(ts)`. */
  function Join(ts: seq<string>, sep: string): string {
    if |ts| == 0 then ""
    else if |ts| == 1 then ts[0]
    else ts[0] + sep + Join(ts[1..], sep)
  }

  lemma {:induction false} SplitWithoutSeparator(t: string, sep: char)
    requires sep !in t
    ensures Split(t, sep) == [t]
  {
    if t != [] {
      SplitWithoutSeparator(t[1..], sep);
      assert [t[0]] + t[1..] == t;
    }
  }

  /** Text before the first separator becomes the first piece. */
  lemma {:induction false} SplitAtFirstSeparator(t: string, sep: char, u: string)
    requires sep !in t
    ensures Split(t + [sep] + u, sep) == [t] + Split(u, sep)
  {
    if t == [] {
      assert t + [sep] + u == [sep] + u;
      assert ([sep] + u)[1..] == u;
    } else {
      assert (t + [sep] + u)[1..] == t[1..] + [sep] + u;
      SplitAtFirstSeparator(t[1..], sep, u);
      assert [t[0]] + t[1..] == t;
    }
  }

  /** Splitting undoes joining, for pieces free of the separator. */
  lemma {:induction false} SplitJoin(ts: seq<string>, sep: char)
    requires |ts| >= 1
    requires forall i :: 0 <= i < |ts| ==> sep !in ts[i]
    ensures Split(Join(ts, [sep]), sep) == ts
  {
    if |ts| == 1 {
      SplitWithoutSeparator(ts[0], sep);
    } else {
      SplitJoin(ts[1..], sep);
      SplitAtFirstSeparator(ts[0], sep, Join(ts[1..], [sep]));
      assert [ts[0]] + ts[1..] == ts;
    }
  }

  /** Joining undoes splitting, for every text. */
  lemma {:induction false} JoinSplit(s: string, sep: char)
    ensures Join(Split(s, sep), [sep]) == s
  {
    if s != [] {
      var rest := Split(s[1..], sep);
      JoinSplit(s[1..], sep);
      if s[0] == sep {
        assert ([[]] + rest)[1..] == rest;
        assert [s[0]] + s[1..] == s;
      } else {
        var r := [[s[0]] + rest[0]] + rest[1..];
        assert r[1..] == rest[1..];
        assert [s[0]] + s[1..] == s;
      }
    }
  }

  /** Joining one more piece appends the separator and that piece. */
  lemma {:induction false} JoinAppend(ts: seq<string>, x: string, sep: string)
    requires |ts| >= 1
    ensures Join(ts + [x], sep) == Join(ts, sep) + sep + x
  {
    if |ts| > 1 {
      assert (ts + [x])[1..] == ts[1..] + [x];
      JoinAppend(ts[1..], x, sep);
    } else {
      assert (ts + [x])[1..] == [x];
    }
  }

  predicate IsDigit(c: char) {
    '0' <= c <= '9'
  }

  predicate AllDigits(s: string) {
    forall i :: 0 <= i < |s| ==> IsDigit(s[i])
  }

  function DigitChar(d: nat): (c: char)
    requires d < 10
    ensures IsDigit(c)
  {
    "0123456789"[d]
  }

  /** The value of a string of ASCII decimal digits. */
  function DigitsValue(ds: string): nat
    requires AllDigits(ds)
  {
    if ds == [] then 0
    else DigitsValue(ds[..|ds| - 1]) * 10 + (ds[|ds| - 1] as int - '0' as int)
  }

  /** Python's `str(n)` for a non-negative integer: no leading zero except for 0 itself. */
  function NatText(n: nat): (r: string)
    ensures |r| >= 1 && AllDigits(r)
    ensures r[0] == '0' <==> n == 0
    ensures n == 0 ==> r == "0"
  {
    if n < 10 then [DigitChar(n)] else NatText(n / 10) + [DigitChar(n % 10)]
  }

  /** Python's `str(n)` for an integer. */
  function DecimalText(n: int): (r: string)
    ensures |r| >= 1
    ensures r[0] == '-' <==> n < 0
    ensures AllDigits(if n < 0 then r[1..] else r)
  {
    if n < 0 then "-" + NatText(-n) else NatText(n)
  }

  /** `[+|-]digits`: the texts `int()` accepts once whitespace is stripped. */
  predicate IsDecimalLiteral(t: string) {
    || (|t| >= 1 && AllDigits(t))
    || (|t| >= 2 && (t[0] == '+' || t[0] == '-') && AllDigits(t[1..]))
  }

  /**
    The integer written by an already stripped text of the form
    `[+|-]digits`, or None for any other text.
   */
  function ParseDecimal(t: string): (r: Option<int>)
    ensures r.Some? ==> |t| >= 1 && IsTrimmed(t)
    ensures r.Some? && r.value < 0 ==> t[0] == '-'
    ensures |t| >= 1 && AllDigits(t) ==> r.Some? && r.value >= 0
  {
    if |t| >= 2 && t[0] == '-' && AllDigits(t[1..]) then Some(-(DigitsValue(t[1..]) as int))
    else if |t| >= 2 && t[0] == '+' && AllDigits(t[1..]) then Some(DigitsValue(t[1..]))
    else if |t| >= 1 && AllDigits(t) then Some(DigitsValue(t))
    else None
  }

  lemma {:induction false} NatTextValue(n: nat)
    ensures DigitsValue(NatText(n)) == n
  {
    if n >= 10 {
      var r := NatText(n);
      assert r[..|r| - 1] == NatText(n / 10);
      NatTextValue(n / 10);
      assert r[|r| - 1] == DigitChar(n % 10);
    } else {
      assert NatText(n) == [DigitChar(n)];
    }
  }

  /** `int()` accepts exactly the decimal literals. */
  lemma ParseDecimalAccepts(t: string)
    ensures ParseDecimal(t).Some? <==> IsDecimalLiteral(t)
  {
  }

  /**
    `str(n)` is canonical: after the optional `-` the first digit is `0`
    only for 0 itself, and then it is the whole text.
   */
  lemma DecimalTextCanonical(n: int)
    ensures var r := DecimalText(n);
      && (n < 0 ==> |r| >= 2 && r[1] != '0')
      && (r[0] == '0' ==> n == 0 && r == "0")
  {
    if n < 0 {
      assert DecimalText(n)[1..] == NatText(-n);
    }
  }

  /** A leading `0` before a digit does not change the value of a digit string. */
  lemma {:induction false} DigitsValueLeadingZero(ds: string)
    requires AllDigits(ds)
    ensures AllDigits("0" + ds) && DigitsValue("0" + ds) == DigitsValue(ds)
    decreases |ds|
  {
    var s := "0" + ds;
    if ds == [] {
      assert s[..|s| - 1] == [];
    } else {
      var init := ds[..|ds| - 1];
      assert s[..|s| - 1] == "0" + init;
      DigitsValueLeadingZero(init);
      assert s[|s| - 1] == ds[|ds| - 1];
    }
  }

  /**
    Non-canonical texts `int()` still accepts: a `+` sign or a leading zero
    leaves the value unchanged, and a `-` sign negates it.
   */
  lemma ParseDecimalNonCanonical(ds: string)
    requires |ds| >= 1 && AllDigits(ds)
    ensures ParseDecimal("+" + ds) == ParseDecimal(ds)
    ensures ParseDecimal("0" + ds) == ParseDecimal(ds)
    ensures ParseDecimal("-" + ds) == Some(-ParseDecimal(ds).value)
  {
    assert ("+" + ds)[1..] == ds;
    assert ("-" + ds)[1..] == ds;
    DigitsValueLeadingZero(ds);
  }

  /** Parsing reads back what `str(n)` wrote. */
  lemma ParseDecimalText(n: int)
    ensures ParseDecimal(DecimalText(n)) == Some(n)
  {
    if n < 0 {
      ParseNegativeText(n);
    } else {
      ParseNatText(n);
    }
  }

  lemma ParseNatText(n: int)
    requires n >= 0
    ensures ParseDecimal(DecimalText(n)) == Some(n)
  {
    var t := DecimalText(n);
    NatTextValue(n);
    assert IsDigit(t[0]);
  }

  lemma ParseNegativeText(n: int)
    requires n < 0
    ensures ParseDecimal(DecimalText(n)) == Some(n)
  {
    var m: nat := -n;
    var t := DecimalText(n);
    var digits := NatText(m);
    assert t == "-" + digits;
    assert t[1..] == digits;
    NatTextValue(m);
    assert t[0] == '-' && AllDigits(t[1..]) && DigitsValue(t[1..]) == m;
  }

  /** `str(n)` has no whitespace at either end. */
  lemma DecimalTextTrimmed(n: int)
    ensures IsTrimmed(DecimalText(n))
  {
    var r := DecimalText(n);
    assert IsDigit(r[|r| - 1]);
  }

  /** Different integers have different decimal texts. */
  lemma DecimalTextInjective(a: int, b: int)
    requires DecimalText(a) == DecimalText(b)
    ensures a == b
  {
    ParseDecimalText(a);
    ParseDecimalText(b);
  }

  /** Two sequence facts that the list and I/O-record proofs cite as explicit steps. */
  lemma SeqAssociative<T>(a: seq<T>, b: seq<T>, c: seq<T>)
    ensures a + (b + c) == (a + b) + c
  {
  }

  lemma HeadTail<T>(s: seq<T>)
    requires |s| >= 1
    ensures [s[0]] + s[1..] == s
  {
  }
}
