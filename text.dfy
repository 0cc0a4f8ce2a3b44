/** The Python string built-ins the collector relies on, as functions on
    `seq<char>`: `str.isspace`, `str.strip`, `in` on strings, `str.replace(x, '')`,
    `str(n)` for a natural number and `float(s)` on decimal notation. */
module Text {
  import opened Wrappers

  /** `str.isspace` of one character; also what `\s` matches in a `str` pattern. */
  predicate IsSpace(c: char)
  {
    || ('\t' <= c <= '\r')
    || ('\U{1C}' <= c <= '\U{1F}')
    || c == ' ' || c == '\U{85}' || c == '\U{A0}' || c == '\U{1680}'
    || ('\U{2000}' <= c <= '\U{200A}')
    || c == '\U{2028}' || c == '\U{2029}' || c == '\U{202F}' || c == '\U{205F}' || c == '\U{3000}'
  }

  /** An ASCII decimal digit. */
  predicate IsDigit(c: char)
  {
    '0' <= c <= '9'
  }

  predicate AllDigits(s: string)
  {
    forall i :: 0 <= i < |s| ==> IsDigit(s[i])
  }

  predicate AllSpace(s: string)
  {
    forall i :: 0 <= i < |s| ==> IsSpace(s[i])
  }

  // ---------------------------------------------------------------------------
  // Decimal numbers

  /** The value of a digit string, most significant digit first. */
  function DigitsValue(s: string): nat
    requires AllDigits(s)
  {
    if s == [] then 0 else 10 * DigitsValue(s[..|s| - 1]) + (s[|s| - 1] as int - '0' as int)
  }

  function Pow10(n: nat): (r: nat)
    ensures r >= 1
  {
    if n == 0 then 1 else 10 * Pow10(n - 1)
  }

  /** The exact value of the decimal numeral `whole.frac`. */
  function DecimalValue(whole: string, frac: string): (r: real)
    requires AllDigits(whole) && AllDigits(frac)
    ensures r >= 0.0
  {
    DigitsValue(whole) as real + DigitsValue(frac) as real / Pow10(|frac|) as real
  }

  /** `str(n)` for a natural number: the canonical decimal numeral of `n`. */
  function NatToString(n: nat): (s: string)
    ensures |s| > 0 && AllDigits(s)
    ensures DigitsValue(s) == n
    ensures s[0] == '0' ==> s == "0"
  {
    var d := [(n % 10 + '0' as int) as char];
    if n < 10 then d
    else
      var s := NatToString(n / 10) + d;
      assert s[..|s| - 1] == NatToString(n / 10);
      s
  }

  /** Length of the longest prefix of `s` made of ASCII digits. */
  function LeadingDigits(s: string): (k: nat)
    ensures k <= |s|
    ensures forall i :: 0 <= i < k ==> IsDigit(s[i])
    ensures k < |s| ==> !IsDigit(s[k])
  {
    if s != [] && IsDigit(s[0]) then 1 + LeadingDigits(s[1..]) else 0
  }

  /** `float(s)` on an unsigned decimal numeral without surrounding blanks:
      digits, optionally followed by `.` and more digits, with at least one digit
      in all. Anything else is the `ValueError` case. */
  function ParseDecimal(s: string): (r: Option<real>)
    ensures r.Some? ==> r.value >= 0.0
    ensures r.Some? ==> exists i :: 0 <= i < |s| && IsDigit(s[i])
  {
    var k := LeadingDigits(s);
    if k == |s| then
      if k > 0 then Some(DigitsValue(s) as real) else None
    else if s[k] == '.' && AllDigits(s[k + 1..]) && (k > 0 || k + 1 < |s|) then
      assert k == 0 ==> IsDigit(s[k + 1..][0]);
      Some(DecimalValue(s[..k], s[k + 1..]))
    else None
  }

  /** `float(s)`: surrounding blanks are ignored and one sign is accepted. */
  function PyFloat(s: string): (r: Option<real>)
    ensures Strip(s) == [] ==> r == None
  {
    var t := Strip(s);
    if t != [] && (t[0] == '+' || t[0] == '-') then
      match ParseDecimal(t[1..])
      case Some(v) => Some(if t[0] == '-' then -v else v)
      case None => None
    else ParseDecimal(t)
  }

  /** `float` reads back an integer numeral. */
  lemma {:induction false} ParseDecimalWhole(d: string)
    requires |d| > 0 && AllDigits(d)
    ensures ParseDecimal(d) == Some(DigitsValue(d) as real)
  {
    LeadingDigitsOfNumeral(d, []);
  }

  /** `float` reads back a numeral with a decimal point. */
  lemma {:induction false} ParseDecimalFraction(d: string, f: string)
    requires AllDigits(d) && AllDigits(f)
    requires |d| > 0 || |f| > 0
    ensures ParseDecimal(d + "." + f) == Some(DecimalValue(d, f))
  {
    var s := d + "." + f;
    LeadingDigitsOfNumeral(d, "." + f);
    assert s[|d|] == '.';
    assert s[..|d|] == d;
    assert s[|d| + 1..] == f;
  }

  lemma {:induction false} LeadingDigitsOfNumeral(d: string, rest: string)
    requires AllDigits(d)
    requires rest != [] ==> !IsDigit(rest[0])
    ensures LeadingDigits(d + rest) == |d|
    decreases |d|
  {
    if d != [] {
      assert (d + rest)[1..] == d[1..] + rest;
      LeadingDigitsOfNumeral(d[1..], rest);
    } else {
      assert d + rest == rest;
    }
  }

  /** A numeral with no sign is never negative for `float`. */
  lemma UnsignedIsNonNegative(s: string)
    requires forall i :: 0 <= i < |s| ==> s[i] != '-'
    ensures PyFloat(s).Some? ==> PyFloat(s).value >= 0.0
  {
    var t := Strip(s);
    if t != [] {
      var a := StripIsSlice(s);
      assert t[0] == s[a];
    }
  }

  /** `[\d,]`: an ASCII digit or a thousands separator. */
  predicate IsNumChar(c: char)
  {
    IsDigit(c) || c == ','
  }

  /** A numeral as `[\d,]+\.?\d*` can match it: `intPart`, then optionally a dot and `frac`. */
  function Numeral(intPart: string, dot: bool, frac: string): string
  {
    intPart + (if dot then "." + frac else "")
  }

  /** The well-formed numerals of that shape. */
  predicate IsNumeral(intPart: string, dot: bool, frac: string)
  {
    && |intPart| > 0 && (forall i :: 0 <= i < |intPart| ==> IsNumChar(intPart[i]))
    && AllDigits(frac) && (!dot ==> frac == [])
  }

  /** Text made of `[\d,]` characters and dots only. */
  predicate NumberText(g: string)
  {
    forall i :: 0 <= i < |g| ==> IsNumChar(g[i]) || g[i] == '.'
  }

  /** `float` accepts no text without a digit. */
  lemma PyFloatNeedsDigit(s: string)
    ensures PyFloat(s).Some? ==> exists i :: 0 <= i < |s| && IsDigit(s[i])
  {
    if PyFloat(s).Some? {
      var t := Strip(s);
      var a := StripIsSlice(s);
      if t != [] && (t[0] == '+' || t[0] == '-') {
        var i :| 0 <= i < |t[1..]| && IsDigit(t[1..][i]);
        assert t[1..][i] == s[a + 1 + i];
      } else {
        var i :| 0 <= i < |t| && IsDigit(t[i]);
        assert t[i] == s[a + i];
      }
    }
  }

  // ---------------------------------------------------------------------------
  // str.strip()

  /** Index of the first non-blank character at or after `i` (or `|s|`). */
  function SkipSpaces(s: string, i: nat): (k: nat)
    requires i <= |s|
    ensures i <= k <= |s|
    ensures forall j :: i <= j < k ==> IsSpace(s[j])
    ensures k < |s| ==> !IsSpace(s[k])
    decreases |s| - i
  {
    if i < |s| && IsSpace(s[i]) then SkipSpaces(s, i + 1) else i
  }

  /** Index just past the last non-blank character of `s[lo..j]` (or `lo`). */
  function TrimEnd(s: string, lo: nat, j: nat): (k: nat)
    requires lo <= j <= |s|
    ensures lo <= k <= j
    ensures forall x :: k <= x < j ==> IsSpace(s[x])
    ensures k > lo ==> !IsSpace(s[k - 1])
    decreases j
  {
    if j > lo && IsSpace(s[j - 1]) then TrimEnd(s, lo, j - 1) else j
  }

  /** `str.strip()`: removes every leading and every trailing blank. */
  function Strip(s: string): (r: string)
    ensures |r| <= |s|
    ensures r != [] ==> !IsSpace(r[0]) && !IsSpace(r[|r| - 1])
    ensures r == [] ==> AllSpace(s)
  {
    var a := SkipSpaces(s, 0);
    s[a..TrimEnd(s, a, |s|)]
  }

  /** The stripped text is a slice of the input with only blanks around it. */
  lemma StripIsSlice(s: string) returns (a: nat)
    ensures var r := Strip(s);
      && a + |r| <= |s| && r == s[a..a + |r|]
      && (forall i :: 0 <= i < a ==> IsSpace(s[i]))
      && (forall i :: a + |r| <= i < |s| ==> IsSpace(s[i]))
  {
    a := SkipSpaces(s, 0);
  }

  /** Stripping text that is already stripped changes nothing. */
  lemma StripIdempotent(s: string)
    ensures Strip(Strip(s)) == Strip(s)
  {
    StripTrimmed(Strip(s));
  }

  /** Text that neither starts nor ends with a blank is its own strip. */
  lemma StripTrimmed(s: string)
    requires s != [] ==> !IsSpace(s[0]) && !IsSpace(s[|s| - 1])
    ensures Strip(s) == s
  {
    assert SkipSpaces(s, 0) == 0;
    assert TrimEnd(s, 0, |s|) == |s|;
    assert s[0..|s|] == s;
  }

  // ---------------------------------------------------------------------------
  // Substrings and str.replace(x, '')

  /** Python's `t in s` on strings. */
  predicate Contains(s: string, t: string)
    ensures Contains(s, t) ==> |t| <= |s|
    decreases |s|
  {
    t <= s || (s != [] && Contains(s[1..], t))
  }

  /** An occurrence of `t` at some offset of `s` makes `t in s` true. */
  lemma {:induction false} ContainsAt(s: string, t: string, i: nat)
    requires i + |t| <= |s| && s[i..i + |t|] == t
    ensures Contains(s, t)
    decreases i
  {
    if i > 0 {
      assert s[1..][i - 1..i - 1 + |t|] == t;
      ContainsAt(s[1..], t, i - 1);
    }
  }

  /** `t in s` holds only when `t` occurs at some offset of `s`. */
  lemma {:induction false} ContainsHasOccurrence(s: string, t: string) returns (i: nat)
    requires Contains(s, t)
    ensures i + |t| <= |s| && s[i..i + |t|] == t
    decreases |s|
  {
    if t <= s {
      i := 0;
    } else {
      var j := ContainsHasOccurrence(s[1..], t);
      assert s[1..][j..j + |t|] == s[j + 1..j + 1 + |t|];
      i := j + 1;
    }
  }

  /** `s.replace(c, '')` for a single character `c`. */
  function RemoveChar(s: string, c: char): (r: string)
    ensures |r| <= |s|
  {
    if s == [] then [] else (if s[0] == c then [] else [s[0]]) + RemoveChar(s[1..], c)
  }

  /** `s.replace(c, '')` keeps the other characters and only those, and changes
      nothing when `c` does not occur. */
  lemma {:induction false} RemoveCharSpec(s: string, c: char)
    ensures forall i :: 0 <= i < |RemoveChar(s, c)| ==> RemoveChar(s, c)[i] != c
    ensures forall i :: 0 <= i < |RemoveChar(s, c)| ==> RemoveChar(s, c)[i] in s
    ensures (forall i :: 0 <= i < |s| ==> s[i] != c) ==> RemoveChar(s, c) == s
    decreases |s|
  {
    if s != [] {
      RemoveCharSpec(s[1..], c);
      var r := RemoveChar(s, c);
      var head := if s[0] == c then [] else [s[0]];
      assert r == head + RemoveChar(s[1..], c);
      forall i | 0 <= i < |r| ensures r[i] in s {
        if i >= |head| {
          assert r[i] == RemoveChar(s[1..], c)[i - |head|];
          assert r[i] in s[1..];
        }
      }
      if forall i :: 0 <= i < |s| ==> s[i] != c {
        assert forall i :: 0 <= i < |s[1..]| ==> s[1..][i] != c by {
          forall i | 0 <= i < |s[1..]| ensures s[1..][i] != c {
            assert s[1..][i] == s[i + 1];
          }
        }
        assert s == [s[0]] + s[1..];
      }
    }
  }

  lemma {:induction false} RemoveCharAppend(a: string, b: string, c: char)
    ensures RemoveChar(a + b, c) == RemoveChar(a, c) + RemoveChar(b, c)
    decreases |a|
  {
    if a == [] {
      assert a + b == b;
    } else {
      assert (a + b)[0] == a[0];
      assert (a + b)[1..] == a[1..] + b;
      RemoveCharAppend(a[1..], b, c);
    }
  }

  /** `s.replace(pat, '')`: occurrences are removed left to right, without overlap. */
  function RemoveAll(s: string, pat: string): (r: string)
    requires |pat| > 0
    ensures |r| <= |s|
    decreases |s|
  {
    if s == [] then []
    else if pat <= s then RemoveAll(s[|pat|..], pat)
    else [s[0]] + RemoveAll(s[1..], pat)
  }

  // ---------------------------------------------------------------------------
  // Numerals with thousands separators, as `float(x.replace(',', ''))` reads them

  /** A well-formed numeral is text the number group can capture. */
  lemma NumeralIsNumberText(intPart: string, dot: bool, frac: string)
    requires IsNumeral(intPart, dot, frac)
    ensures NumberText(Numeral(intPart, dot, frac))
  {
    var num := Numeral(intPart, dot, frac);
    forall i | 0 <= i < |num| ensures IsNumChar(num[i]) || num[i] == '.' {
      if i < |intPart| {
        assert num[i] == intPart[i];
      } else if i > |intPart| {
        assert num[i] == frac[i - |intPart| - 1];
      }
    }
  }

  /** The separators of a well-formed numeral are all in its integer part. */
  lemma RemoveSeparators(intPart: string, dot: bool, frac: string)
    requires IsNumeral(intPart, dot, frac)
    ensures AllDigits(RemoveChar(intPart, ','))
    ensures RemoveChar(Numeral(intPart, dot, frac), ',') ==
      RemoveChar(intPart, ',') + (if dot then "." + frac else "")
  {
    var d := RemoveChar(intPart, ',');
    RemoveCharSpec(intPart, ',');
    RemoveCharSpec("." + frac, ',');
    forall i | 0 <= i < |d| ensures IsDigit(d[i]) {
      assert d[i] in intPart;
    }
    RemoveCharAppend(intPart, if dot then "." + frac else "", ',');
  }

  /** `float` reads an unsigned numeral without blanks as its exact value. */
  lemma PyFloatOfNumeral(d: string, dot: bool, frac: string)
    requires AllDigits(d) && AllDigits(frac) && (!dot ==> frac == [])
    requires |d| > 0 || |frac| > 0
    ensures PyFloat(d + (if dot then "." + frac else "")) == Some(DecimalValue(d, frac))
  {
    var s := d + (if dot then "." + frac else "");
    if dot {
      assert s == d + "." + frac;
      assert s[|s| - 1] == '.' || IsDigit(s[|s| - 1]);
      assert s[0] == '.' || IsDigit(s[0]);
      StripTrimmed(s);
      ParseDecimalFraction(d, frac);
    } else {
      assert s == d;
      StripTrimmed(s);
      ParseDecimalWhole(d);
      assert DigitsValue(frac) == 0 && Pow10(0) == 1;
    }
  }

  /** `s.replace(pat, '')` keeps a prefix in which `pat` cannot start. */
  lemma {:induction false} RemoveAllPlain(a: string, b: string, pat: string)
    requires |pat| > 0
    requires forall i :: 0 <= i < |a| ==> a[i] != pat[0]
    ensures RemoveAll(a + b, pat) == a + RemoveAll(b, pat)
    decreases |a|
  {
    if a == [] {
      assert a + b == b;
    } else {
      assert (a + b)[0] == a[0];
      assert (a + b)[1..] == a[1..] + b;
      RemoveAllPlain(a[1..], b, pat);
    }
  }
}
