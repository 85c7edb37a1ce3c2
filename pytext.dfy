// Python string operations used by the parsers: strip, lower, split, replace,
// startswith and the int()/str() conversions between integers and text.
module PyText {
  import opened Wrappers

  /** The characters Python's `str.strip()` and `str.split()` treat as blanks. */
  predicate IsSpace(c: char)
  {
    c == ' ' || c == '\t' || c == '\n' || c == '\r' || c == '\U{000B}' || c == '\U{000C}'
  }

  function LStrip(s: string): (r: string)
    ensures |r| <= |s| && r == s[|s| - |r|..]
    ensures r == [] || !IsSpace(r[0])
    ensures forall k :: 0 <= k < |s| - |r| ==> IsSpace(s[k])
  {
    if s != [] && IsSpace(s[0]) then LStrip(s[1..]) else s
  }

  function RStrip(s: string): (r: string)
    ensures |r| <= |s| && r == s[..|r|]
    ensures r == [] || !IsSpace(r[|r| - 1])
    ensures forall k :: |r| <= k < |s| ==> IsSpace(s[k])
  {
    if s != [] && IsSpace(s[|s| - 1]) then RStrip(s[..|s| - 1]) else s
  }

  /** `str.strip()`: the text without leading and trailing blanks. */
  function Strip(s: string): (r: string)
  {
    RStrip(LStrip(s))
  }

  lemma StripProperties(s: string)
    ensures Strip(s) == [] || (!IsSpace(Strip(s)[0]) && !IsSpace(Strip(s)[|Strip(s)| - 1]))
    ensures Strip(Strip(s)) == Strip(s)
  {
    var t := LStrip(s);
    var r := RStrip(t);
    if r != [] {
      assert r[0] == t[0];
      assert LStrip(r) == r;
      assert RStrip(r) == r;
    } else {
      assert LStrip(r) == [];
    }
  }

  /** `str.rstrip(c)` for one character. */
  function RStripChar(s: string, c: char): (r: string)
    ensures |r| <= |s| && r == s[..|r|]
    ensures r == [] || r[|r| - 1] != c
    ensures forall k :: |r| <= k < |s| ==> s[k] == c
  {
    if s != [] && s[|s| - 1] == c then RStripChar(s[..|s| - 1], c) else s
  }

  /** Stripping one trailing c that is not preceded by another. */
  lemma RStripOne(s: string, c: char)
    requires s == [] || s[|s| - 1] != c
    ensures RStripChar(s + [c], c) == s
  {
    assert (s + [c])[..|s|] == s;
  }

  function LowerChar(c: char): char
  {
    if 'A' <= c <= 'Z' then (c as int - 'A' as int + 'a' as int) as char else c
  }

  /** `str.lower()` on ASCII letters. */
  function Lower(s: string): (r: string)
    ensures |r| == |s|
    ensures forall k :: 0 <= k < |s| ==> r[k] == LowerChar(s[k])
  {
    if s == [] then [] else [LowerChar(s[0])] + Lower(s[1..])
  }

  predicate StartsWith(s: string, prefix: string)
  {
    |prefix| <= |s| && s[..|prefix|] == prefix
  }

  /** `s.split(sep)` for a one-character separator: always at least one piece. */
  function Split(s: string, sep: char): (r: seq<string>)
    ensures |r| >= 1
    ensures forall k :: 0 <= k < |r| ==> sep !in r[k]
  {
    if s == [] then [""]
    else
      var rest := Split(s[1..], sep);
      if s[0] == sep then [""] + rest else [[s[0]] + rest[0]] + rest[1..]
  }

  /** `s.count(c)`. */
  function Count(s: string, c: char): (r: nat)
    ensures r == 0 <==> c !in s
  {
    if s == [] then 0 else (if s[0] == c then 1 else 0) + Count(s[1..], c)
  }

  /** Split gives one more piece than there are separators. */
  lemma {:induction false} SplitSize(s: string, sep: char)
    ensures |Split(s, sep)| == Count(s, sep) + 1
  {
    if s != [] {
      SplitSize(s[1..], sep);
    }
  }

  /** `sep.join(parts)`. */
  function Join(parts: seq<string>, sep: char): string
    requires |parts| >= 1
  {
    if |parts| == 1 then parts[0] else parts[0] + [sep] + Join(parts[1..], sep)
  }

  /** Splitting and joining on the same separator gives the text back. */
  lemma {:induction false} JoinSplit(s: string, sep: char)
    ensures Join(Split(s, sep), sep) == s
  {
    if s != [] {
      JoinSplit(s[1..], sep);
      var rest := Split(s[1..], sep);
      if s[0] != sep && |rest| > 1 {
        assert ([[s[0]] + rest[0]] + rest[1..])[1..] == rest[1..];
      } else if s[0] == sep {
        assert ([""] + rest)[1..] == rest;
      }
    }
  }

  /** Joining one more part appends the separator and that part. */
  lemma {:induction false} JoinSnoc(parts: seq<string>, x: string, sep: char)
    requires |parts| >= 1
    ensures Join(parts + [x], sep) == Join(parts, sep) + [sep] + x
  {
    if |parts| > 1 {
      JoinSnoc(parts[1..], x, sep);
      assert (parts + [x])[1..] == parts[1..] + [x];
    }
  }

  /** `"".join(parts)`. */
  function Concat(parts: seq<string>): string
  {
    if parts == [] then "" else Concat(parts[..|parts| - 1]) + parts[|parts| - 1]
  }

  /** Splitting text without the separator gives the text itself. */
  lemma {:induction false} SplitNone(s: string, sep: char)
    requires sep !in s
    ensures Split(s, sep) == [s]
  {
    if s != [] {
      SplitNone(s[1..], sep);
      assert [s[0]] + s[1..] == s;
    }
  }

  /** Splitting a + sep + b, with no separator in a, gives a and the split of b. */
  lemma {:induction false} SplitAt(a: string, b: string, sep: char)
    requires sep !in a
    ensures Split(a + [sep] + b, sep) == [a] + Split(b, sep)
  {
    if a != [] {
      SplitAt(a[1..], b, sep);
      assert (a + [sep] + b)[1..] == a[1..] + [sep] + b;
      assert [a[0]] + a[1..] == a;
    } else {
      assert (a + [sep] + b)[1..] == b;
    }
  }

  /** Joining parts that do not hold the separator and splitting again gives
      the parts back. */
  lemma {:induction false} SplitJoin(parts: seq<string>, sep: char)
    requires |parts| >= 1
    requires forall k :: 0 <= k < |parts| ==> sep !in parts[k]
    ensures Split(Join(parts, sep), sep) == parts
  {
    if |parts| == 1 {
      SplitNone(parts[0], sep);
    } else {
      SplitJoin(parts[1..], sep);
      SplitAt(parts[0], Join(parts[1..], sep), sep);
      assert [parts[0]] + parts[1..] == parts;
    }
  }

  /** The leading run of non-blank characters. */
  function Word(s: string): (r: string)
    ensures |r| <= |s| && r == s[..|r|]
    ensures forall k :: 0 <= k < |r| ==> !IsSpace(r[k])
    ensures |r| == |s| || IsSpace(s[|r|])
  {
    if s == [] || IsSpace(s[0]) then [] else [s[0]] + Word(s[1..])
  }

  /** `str.split()` with no argument: the maximal runs of non-blank characters. */
  function Tokens(s: string): (r: seq<string>)
    ensures forall k :: 0 <= k < |r| ==> r[k] != [] && forall j :: 0 <= j < |r[k]| ==> !IsSpace(r[k][j])
    decreases |s|
  {
    if s == [] then []
    else if IsSpace(s[0]) then Tokens(s[1..])
    else var w := Word(s); [w] + Tokens(s[|w|..])
  }

  /** `s.replace(pat, rep)`: every non-overlapping occurrence, left to right. */
  function ReplaceAll(s: string, pat: string, rep: string): (r: string)
    requires pat != []
    decreases |s|
  {
    if |s| < |pat| then s
    else if s[..|pat|] == pat then rep + ReplaceAll(s[|pat|..], pat, rep)
    else [s[0]] + ReplaceAll(s[1..], pat, rep)
  }

  /** Text lacking one of the pattern's characters is left as it is. */
  lemma {:induction false} ReplaceNone(s: string, pat: string, rep: string, c: char)
    requires pat != [] && c in pat && c !in s
    ensures ReplaceAll(s, pat, rep) == s
    decreases |s|
  {
    if |s| >= |pat| {
      assert c !in s[..|pat|];
      ReplaceNone(s[1..], pat, rep, c);
      assert [s[0]] + s[1..] == s;
    }
  }

  /** A pattern at the front is replaced and the rest is scanned. */
  lemma ReplaceFront(pat: string, s: string, rep: string)
    requires pat != []
    ensures ReplaceAll(pat + s, pat, rep) == rep + ReplaceAll(s, pat, rep)
  {
    assert (pat + s)[..|pat|] == pat;
    assert (pat + s)[|pat|..] == s;
  }

  /** A prefix without the pattern's first character is kept and the scan
      goes on after it. */
  lemma {:induction false} ReplaceSkip(a: string, b: string, pat: string, rep: string)
    requires pat != [] && pat[0] !in a
    ensures ReplaceAll(a + b, pat, rep) == a + ReplaceAll(b, pat, rep)
    decreases |a|
  {
    if a != [] {
      var s := a + b;
      assert s[0] == a[0];
      assert s[1..] == a[1..] + b;
      ReplaceSkip(a[1..], b, pat, rep);
      if |s| >= |pat| {
        assert s[..|pat|][0] != pat[0];
        assert [a[0]] + a[1..] == a;
      }
    } else {
      assert a + b == b;
    }
  }

  function DigitChar(d: nat): char
    requires d < 10
  {
    ('0' as int + d) as char
  }

  predicate IsDigit(c: char)
  {
    '0' <= c <= '9'
  }

  /** `str(n)` for a natural number. */
  function NatToString(n: nat): (r: string)
    ensures r != [] && forall k :: 0 <= k < |r| ==> IsDigit(r[k])
    ensures n > 0 ==> r[0] != '0'
  {
    if n < 10 then [DigitChar(n)] else NatToString(n / 10) + [DigitChar(n % 10)]
  }

  /** `str(n)` for an integer. */
  function IntToString(n: int): string
  {
    if n < 0 then "-" + NatToString(-n) else NatToString(n)
  }

  /** The value of a run of decimal digits; None when some character is not
      a digit. */
  function DigitsValue(s: string): (r: Option<nat>)
  {
    if s == [] then Some(0)
    else if !IsDigit(s[|s| - 1]) then None
    else
      match DigitsValue(s[..|s| - 1])
      case None => None
      case Some(v) => Some(10 * v + (s[|s| - 1] as int - '0' as int))
  }

  /** An optional sign followed by one or more decimal digits, nothing else. */
  function SignedDigits(t: string): (r: Option<int>)
    ensures r.Some? ==> t != []
  {
    var digits := if t != [] && (t[0] == '-' || t[0] == '+') then t[1..] else t;
    if digits == [] then None
    else
      match DigitsValue(digits)
      case None => None
      case Some(v) => Some(if t[0] == '-' then -(v as int) else v as int)
  }

  /** Python `int(s)` on text: optional blanks, an optional sign, then decimal digits. */
  function ParseInt(s: string): (r: Option<int>)
    ensures r.Some? ==> Strip(s) != []
  {
    SignedDigits(Strip(s))
  }

  /** The first index of a character of `cs` in `s`, or |s| when there is none. */
  function IndexOfAny(s: string, cs: set<char>): (r: nat)
    ensures r <= |s|
    ensures forall k :: 0 <= k < r ==> s[k] !in cs
    ensures r < |s| ==> s[r] in cs
  {
    if s == [] then 0 else if s[0] in cs then 0 else 1 + IndexOfAny(s[1..], cs)
  }

  /** m times 10 to the power e, for any integer e. */
  function Scaled(m: real, e: int): real
    decreases if e < 0 then -e else e
  {
    if e == 0 then m else if e > 0 then 10.0 * Scaled(m, e - 1) else Scaled(m, e + 1) / 10.0
  }

  /** Digits with at most one decimal point (at least one digit in all),
      scaled by 10 to the power `exponent`. */
  function ParseDecimal(mantissa: string, exponent: int): Option<real>
  {
    var p := IndexOfAny(mantissa, {'.'});
    var digits := mantissa[..p] + (if p < |mantissa| then mantissa[p + 1..] else []);
    var fracLen := if p < |mantissa| then |mantissa| - p - 1 else 0;
    if digits == [] then None
    else
      match DigitsValue(digits)
      case None => None
      case Some(v) => Some(Scaled(v as real, exponent - fracLen))
  }

  /** An unsigned decimal number with an optional exponent `e`/`E`. */
  function ParseUnsigned(body: string): Option<real>
  {
    var e := IndexOfAny(body, {'e', 'E'});
    if e == |body| then ParseDecimal(body, 0)
    else
      match SignedDigits(body[e + 1..])
      case None => None
      case Some(x) => ParseDecimal(body[..e], x)
  }

  /** Python `float(s)` on decimal text: optional blanks and sign, then an
      unsigned decimal number. */
  function ParseFloat(s: string): (r: Option<real>)
    ensures r.Some? ==> Strip(s) != []
  {
    var t := Strip(s);
    if t == [] then None
    else if t[0] == '-' then
      match ParseUnsigned(t[1..])
      case None => None
      case Some(m) => Some(-m)
    else if t[0] == '+' then ParseUnsigned(t[1..])
    else ParseUnsigned(t)
  }

  lemma {:induction false} DigitsValueOfNat(n: nat)
    ensures DigitsValue(NatToString(n)) == Some(n)
  {
    if n >= 10 {
      DigitsValueOfNat(n / 10);
      var s := NatToString(n);
      assert s[..|s| - 1] == NatToString(n / 10);
    }
  }

  lemma StripUnchanged(s: string)
    requires s != [] && !IsSpace(s[0]) && !IsSpace(s[|s| - 1])
    ensures Strip(s) == s
  {
    assert LStrip(s) == s;
  }

  /** `str(n)` has no blanks to strip. */
  lemma IntToStringStripped(n: int)
    ensures Strip(IntToString(n)) == IntToString(n)
  {
    var s := IntToString(n);
    var u := NatToString(if n < 0 then -n else n);
    assert s[|s| - 1] == u[|u| - 1];
    assert IsDigit(u[|u| - 1]);
    assert n >= 0 ==> IsDigit(s[0]);
    StripUnchanged(s);
  }

  lemma SignedDigitsOfInt(n: int)
    ensures SignedDigits(IntToString(n)) == Some(n)
  {
    var s := IntToString(n);
    DigitsValueOfNat(if n < 0 then -n else n);
    if n < 0 {
      assert s[1..] == NatToString(-n);
    } else {
      assert IsDigit(s[0]);
    }
  }

  /** `int(str(n)) == n`. */
  lemma ParseIntToString(n: int)
    ensures ParseInt(IntToString(n)) == Some(n)
  {
    calc {
      ParseInt(IntToString(n));
    == { IntToStringStripped(n); }
      SignedDigits(IntToString(n));
    == { SignedDigitsOfInt(n); }
      Some(n);
    }
  }

  /** `float(str(n)) == n` for an integer n. */
  lemma ParseFloatOfInt(n: int)
    ensures ParseFloat(IntToString(n)) == Some(n as real)
  {
    IntToStringStripped(n);
    if n < 0 {
      UnsignedOfNat(-n);
      ParseFloatNegative(IntToString(n), (-n) as real);
    } else {
      UnsignedOfNat(n);
      ParseFloatUnsigned(IntToString(n));
    }
  }

  lemma UnsignedOfNat(m: nat)
    ensures ParseUnsigned(NatToString(m)) == Some(m as real)
  {
    var u := NatToString(m);
    DigitsValueOfNat(m);
    forall k | 0 <= k < |u| ensures u[k] !in {'e', 'E'} && u[k] !in {'.'} { assert IsDigit(u[k]); }
    IndexOfAnyAbsent(u, {'e', 'E'});
    IndexOfAnyAbsent(u, {'.'});
    assert u[..|u|] + [] == u;
  }

  lemma {:induction false} IndexOfAnyAbsent(s: string, cs: set<char>)
    requires forall k :: 0 <= k < |s| ==> s[k] !in cs
    ensures IndexOfAny(s, cs) == |s|
  {
    if s != [] {
      IndexOfAnyAbsent(s[1..], cs);
    }
  }

  /** The number format of the settings files: `float("1E4") == 10000.0`. */
  lemma ParseFloatExponent(s: string)
    requires s == "1E4"
    ensures ParseFloat(s) == Some(10000.0)
  {
    StripUnchanged(s);
    ParseFloatUnsigned(s);
    UnsignedExponent();
  }

  lemma ParseFloatNegative(s: string, m: real)
    requires Strip(s) == s && s != [] && s[0] == '-' && ParseUnsigned(s[1..]) == Some(m)
    ensures ParseFloat(s) == Some(-m)
  {
  }

  lemma ParseFloatUnsigned(s: string)
    requires Strip(s) == s && s != [] && s[0] != '-' && s[0] != '+'
    ensures ParseFloat(s) == ParseUnsigned(s)
  {
  }

  lemma UnsignedExponent()
    ensures ParseUnsigned("1E4") == Some(10000.0)
  {
    assert IndexOfAny("1E4", {'e', 'E'}) == 1;
    assert SignedDigits("1E4"[2..]) == Some(4) by {
      assert "1E4"[2..] == "4";
    }
    assert ParseDecimal("1", 4) == Some(10000.0) by {
      assert IndexOfAny("1", {'.'}) == 1;
      assert "1"[..1] + [] == "1";
      assert DigitsValue("1") == Some(1) by { assert "1"[..0] == []; }
      assert Scaled(1.0, 4) == 10000.0;
    }
    assert "1E4"[..1] == "1";
  }
}
