/** Price extraction from the wear-condition buttons of a listing page
    (`YoupinScraper._extract_price_from_text` and `_parse_prices_from_page`).

    The three regular expressions of the source are written out as a scanner:
    `Search` is `re.search` (the leftmost start position at which the pattern
    matches) and `MatchAt` is the greedy match at one start position. */
module PriceExtraction {
  import opened Wrappers
  import opened Config
  import opened Text
  import opened DataProcessor

  /** `[¥￥]`: the half-width or the full-width yen sign. */
  predicate IsCurrency(c: char)
  {
    c == '¥' || c == '￥'
  }

  /** Index just past the run of `[\d,]` characters that starts at `i`. */
  function NumRunEnd(t: string, i: nat): (k: nat)
    requires i <= |t|
    ensures i <= k <= |t|
    ensures forall j :: i <= j < k ==> IsNumChar(t[j])
    ensures k < |t| ==> !IsNumChar(t[k])
    decreases |t| - i
  {
    if i < |t| && IsNumChar(t[i]) then NumRunEnd(t, i + 1) else i
  }

  /** Index just past the run of digits that starts at `i`. */
  function DigitRunEnd(t: string, i: nat): (k: nat)
    requires i <= |t|
    ensures i <= k <= |t|
    ensures forall j :: i <= j < k ==> IsDigit(t[j])
    ensures k < |t| ==> !IsDigit(t[k])
    decreases |t| - i
  {
    if i < |t| && IsDigit(t[i]) then DigitRunEnd(t, i + 1) else i
  }

  /** End of the greedy match of `[\d,]+\.?\d*` that starts at `s`. */
  function NumberEnd(t: string, s: nat): (m: nat)
    requires s < |t| && IsNumChar(t[s])
    ensures s < m <= |t|
    ensures NumberText(t[s..m])
  {
    var k := NumRunEnd(t, s);
    if k < |t| && t[k] == '.' then DigitRunEnd(t, k + 1) else k
  }

  // The three patterns, in the order they are tried: a yen sign, blanks and a
  // number; a number, blanks and "/天"; a number, blanks and "元". The number is
  // `[\d,]+\.?\d*` in each.
  datatype Pattern = CurrencyPrefix | PerDaySuffix | YuanSuffix

  const PATTERNS: seq<Pattern> := [CurrencyPrefix, PerDaySuffix, YuanSuffix]

  /** The unit that must follow the number in a suffix pattern. */
  function UnitOf(p: Pattern): string
  {
    match p
    case CurrencyPrefix => ""
    case PerDaySuffix => "/天"
    case YuanSuffix => "元"
  }

  /** The captured group of the match of `p` that starts exactly at `s`, if any.
      In the suffix patterns no shorter group can be followed by the unit (the
      character after it is a digit, a comma or a dot), so only the greedy
      group is tried. */
  function MatchAt(t: string, s: nat, p: Pattern): (g: Option<string>)
    requires s < |t|
    ensures g.Some? ==> |g.value| > 0 && NumberText(g.value)
  {
    if p == CurrencyPrefix then
      if IsCurrency(t[s]) then
        var w := SkipSpaces(t, s + 1);
        if w < |t| && IsNumChar(t[w]) then Some(t[w..NumberEnd(t, w)]) else None
      else None
    else if IsNumChar(t[s]) then
      var m := NumberEnd(t, s);
      var w := SkipSpaces(t, m);
      if UnitOf(p) <= t[w..] then Some(t[s..m]) else None
    else None
  }

  /** `re.search(p, t[i..])`: the group of the leftmost match starting at or after `i`. */
  function Search(t: string, i: nat, p: Pattern): (g: Option<string>)
    requires i <= |t|
    ensures g.Some? ==> |g.value| > 0 && NumberText(g.value)
    decreases |t| - i
  {
    if i == |t| then None
    else
      match MatchAt(t, i, p)
      case Some(g) => Some(g)
      case None => Search(t, i + 1, p)
  }

  /** `float(group.replace(',', ''))`, with `None` for the `ValueError` case. */
  function GroupValue(g: string): (r: Option<real>)
    requires NumberText(g)
    ensures r.Some? ==> r.value >= 0.0
  {
    var digits := RemoveChar(g, ',');
    RemoveCharSpec(g, ',');
    assert forall i :: 0 <= i < |digits| ==> digits[i] != '-' by {
      forall i | 0 <= i < |digits| ensures digits[i] != '-' {
        assert digits[i] in g;
      }
    }
    UnsignedIsNonNegative(digits);
    PyFloat(digits)
  }

  /** The loop over the patterns from position `k` on: the first pattern whose
      first match converts gives the price. */
  function TryPatterns(text: string, k: nat): (r: Option<real>)
    requires k <= |PATTERNS|
    ensures r.Some? ==> r.value >= 0.0
    decreases |PATTERNS| - k
  {
    if k == |PATTERNS| then None
    else
      match Search(text, 0, PATTERNS[k])
      case Some(g) =>
        (match GroupValue(g)
         case Some(v) => Some(v)
         case None => TryPatterns(text, k + 1))
      case None => TryPatterns(text, k + 1)
  }

  /** `_extract_price_from_text`: total, never negative, `None` for empty text. */
  function ExtractPrice(text: string): (r: Option<real>)
    ensures text == [] ==> r == None
    ensures r.Some? ==> r.value >= 0.0
  {
    if text == [] then None else TryPatterns(text, 0)
  }

  // ---------------------------------------------------------------------------
  // Facts about the scanner

  lemma {:induction false} NumRunEndAt(t: string, i: nat, j: nat)
    requires i <= j <= |t|
    requires forall x :: i <= x < j ==> IsNumChar(t[x])
    requires j < |t| ==> !IsNumChar(t[j])
    ensures NumRunEnd(t, i) == j
    decreases j - i
  {
    if i < j {
      NumRunEndAt(t, i + 1, j);
    }
  }

  lemma {:induction false} DigitRunEndAt(t: string, i: nat, j: nat)
    requires i <= j <= |t|
    requires forall x :: i <= x < j ==> IsDigit(t[x])
    requires j < |t| ==> !IsDigit(t[j])
    ensures DigitRunEnd(t, i) == j
    decreases j - i
  {
    if i < j {
      DigitRunEndAt(t, i + 1, j);
    }
  }

  lemma {:induction false} SkipSpacesAt(t: string, i: nat, j: nat)
    requires i <= j <= |t|
    requires forall x :: i <= x < j ==> IsSpace(t[x])
    requires j < |t| ==> !IsSpace(t[j])
    ensures SkipSpaces(t, i) == j
    decreases j - i
  {
    if i < j {
      SkipSpacesAt(t, i + 1, j);
    }
  }

  /** The character after a numeral stops the greedy match there. */
  predicate EndsNumeral(dot: bool, next: char)
  {
    if dot then !IsDigit(next) else !IsNumChar(next) && next != '.'
  }

  /** The greedy number match at `w` covers exactly a numeral written at `w`. */
  lemma NumberEndOfNumeral(t: string, w: nat, intPart: string, dot: bool, frac: string)
    requires IsNumeral(intPart, dot, frac)
    requires w + |Numeral(intPart, dot, frac)| <= |t|
    requires t[w..w + |Numeral(intPart, dot, frac)|] == Numeral(intPart, dot, frac)
    requires w + |Numeral(intPart, dot, frac)| < |t| ==>
      EndsNumeral(dot, t[w + |Numeral(intPart, dot, frac)|])
    ensures IsNumChar(t[w])
    ensures NumberEnd(t, w) == w + |Numeral(intPart, dot, frac)|
  {
    var num := Numeral(intPart, dot, frac);
    var k := w + |intPart|;
    assert forall x :: w <= x < k ==> t[x] == intPart[x - w] by {
      forall x | w <= x < k ensures t[x] == intPart[x - w] {
        assert t[x] == num[x - w];
      }
    }
    assert t[w] == intPart[0];
    if dot {
      assert t[k] == num[|intPart|] == '.';
      NumRunEndAt(t, w, k);
      var m := w + |num|;
      forall x | k + 1 <= x < m ensures IsDigit(t[x]) {
        assert t[x] == num[x - w] == frac[x - k - 1];
      }
      DigitRunEndAt(t, k + 1, m);
    } else {
      NumRunEndAt(t, w, k);
    }
  }

  /** The value of a well-formed numeral once its separators are removed. */
  lemma GroupValueOfNumeral(intPart: string, dot: bool, frac: string)
    requires IsNumeral(intPart, dot, frac)
    requires NumberText(Numeral(intPart, dot, frac))
    requires |RemoveChar(intPart, ',')| > 0 || |frac| > 0
    ensures AllDigits(RemoveChar(intPart, ','))
    ensures GroupValue(Numeral(intPart, dot, frac)) == Some(DecimalValue(RemoveChar(intPart, ','), frac))
  {
    RemoveSeparators(intPart, dot, frac);
    PyFloatOfNumeral(RemoveChar(intPart, ','), dot, frac);
  }

  /** `re.search` skips start positions at which the pattern does not match. */
  lemma {:induction false} SearchSkips(t: string, i: nat, j: nat, p: Pattern)
    requires i <= j <= |t|
    requires forall x :: i <= x < j ==> MatchAt(t, x, p).None?
    ensures Search(t, i, p) == Search(t, j, p)
    decreases j - i
  {
    if i < j {
      SearchSkips(t, i + 1, j, p);
    }
  }

  predicate NoCurrency(s: string)
  {
    forall i :: 0 <= i < |s| ==> !IsCurrency(s[i])
  }

  predicate NoNumChar(s: string)
  {
    forall i :: 0 <= i < |s| ==> !IsNumChar(s[i])
  }

  /** The yen-sign pattern matches at a yen sign followed (after blanks) by a
      numeral, and its group is the numeral. */
  lemma CurrencyMatch(a: string, c: char, sp: string, intPart: string, dot: bool, frac: string, b: string)
    requires IsCurrency(c) && AllSpace(sp)
    requires IsNumeral(intPart, dot, frac)
    requires b != [] ==> EndsNumeral(dot, b[0])
    ensures MatchAt(a + [c] + sp + Numeral(intPart, dot, frac) + b, |a|, CurrencyPrefix) == Some(Numeral(intPart, dot, frac))
  {
    var num := Numeral(intPart, dot, frac);
    var t := a + [c] + sp + num + b;
    var w := |a| + 1 + |sp|;
    forall x | |a| + 1 <= x < w ensures IsSpace(t[x]) {
      assert t[x] == sp[x - |a| - 1];
    }
    assert t[w..w + |num|] == num;
    assert w + |num| < |t| ==> t[w + |num|] == b[0];
    NumberEndOfNumeral(t, w, intPart, dot, frac);
    SkipSpacesAt(t, |a| + 1, w);
    assert t[|a|] == c;
  }

  /** Rule priority: when the leftmost match of the yen-sign pattern captures a
      convertible number, that number is the price, whatever follows it. */
  lemma LeftmostCurrencyRuleWins(a: string, c: char, sp: string, intPart: string, dot: bool, frac: string, b: string)
    requires IsCurrency(c) && AllSpace(sp)
    requires IsNumeral(intPart, dot, frac)
    requires |RemoveChar(intPart, ',')| > 0 || |frac| > 0
    requires b != [] ==> EndsNumeral(dot, b[0])
    requires forall x :: 0 <= x < |a| ==>
      MatchAt(a + [c] + sp + Numeral(intPart, dot, frac) + b, x, CurrencyPrefix).None?
    ensures AllDigits(RemoveChar(intPart, ','))
    ensures ExtractPrice(a + [c] + sp + Numeral(intPart, dot, frac) + b)
      == Some(DecimalValue(RemoveChar(intPart, ','), frac))
  {
    var t := a + [c] + sp + Numeral(intPart, dot, frac) + b;
    CurrencyMatch(a, c, sp, intPart, dot, frac, b);
    SearchSkips(t, 0, |a|, CurrencyPrefix);
    NumeralIsNumberText(intPart, dot, frac);
    GroupValueOfNumeral(intPart, dot, frac);
  }

  /** In particular, when the first yen sign of a text is followed (after
      blanks) by a convertible number, that number is the price. */
  lemma CurrencyRuleWins(a: string, c: char, sp: string, intPart: string, dot: bool, frac: string, b: string)
    requires NoCurrency(a) && IsCurrency(c) && AllSpace(sp)
    requires IsNumeral(intPart, dot, frac)
    requires |RemoveChar(intPart, ',')| > 0 || |frac| > 0
    requires b != [] ==> EndsNumeral(dot, b[0])
    ensures AllDigits(RemoveChar(intPart, ','))
    ensures ExtractPrice(a + [c] + sp + Numeral(intPart, dot, frac) + b)
      == Some(DecimalValue(RemoveChar(intPart, ','), frac))
  {
    var t := a + [c] + sp + Numeral(intPart, dot, frac) + b;
    forall x | 0 <= x < |a| ensures MatchAt(t, x, CurrencyPrefix).None? {
      assert t[x] == a[x];
    }
    LeftmostCurrencyRuleWins(a, c, sp, intPart, dot, frac, b);
  }

  /** `re.search` finds no match of the yen-sign pattern in text without a yen sign. */
  lemma NoCurrencyNoPrefixMatch(t: string)
    requires NoCurrency(t)
    ensures Search(t, 0, CurrencyPrefix) == None
  {
    SearchSkips(t, 0, |t|, CurrencyPrefix);
  }

  /** `re.search` finds no match of any pattern in text without a digit or comma. */
  lemma NoNumCharNoMatch(t: string, p: Pattern)
    requires NoNumChar(t)
    ensures Search(t, 0, p) == None
  {
    forall x | 0 <= x < |t| ensures MatchAt(t, x, p).None? {
      if p == CurrencyPrefix && IsCurrency(t[x]) {
        var w := SkipSpaces(t, x + 1);
        assert w < |t| ==> !IsNumChar(t[w]);
      }
    }
    SearchSkips(t, 0, |t|, p);
  }

  /** A suffix-rule price text built without yen signs contains none. */
  lemma SuffixTextNoCurrency(t: string, a: string, num: string, sp: string, u: string, b: string)
    requires u == "/天" || u == "元"
    requires NoCurrency(a) && NumberText(num) && AllSpace(sp) && NoCurrency(b)
    requires t == a + num + sp + u + b
    ensures NoCurrency(t)
  {
    var m := |a| + |num|;
    var v := m + |sp|;
    forall x | 0 <= x < |t| ensures !IsCurrency(t[x]) {
      if x < |a| {
        assert t[x] == a[x];
      } else if x < m {
        assert t[x] == num[x - |a|];
      } else if x < v {
        assert t[x] == sp[x - m];
      } else if x < v + |u| {
        assert t[x] == u[x - v];
      } else {
        assert t[x] == b[x - v - |u|];
      }
    }
  }

  /** In a suffix-rule text the greedy number at the numeral ends with it. */
  lemma SuffixNumberEnd(t: string, a: string, intPart: string, dot: bool, frac: string, sp: string, u: string, b: string)
    requires AllSpace(sp) && IsNumeral(intPart, dot, frac) && u != [] && !IsSpace(u[0]) && EndsNumeral(dot, u[0])
    requires t == a + Numeral(intPart, dot, frac) + sp + u + b
    ensures t[|a|..|a| + |Numeral(intPart, dot, frac)|] == Numeral(intPart, dot, frac)
    ensures IsNumChar(t[|a|]) && NumberEnd(t, |a|) == |a| + |Numeral(intPart, dot, frac)|
  {
    var num := Numeral(intPart, dot, frac);
    var m := |a| + |num|;
    assert t[|a|..m] == num;
    assert m < |t| && EndsNumeral(dot, t[m]) by {
      if sp != [] {
        assert t[m] == sp[0];
      } else {
        assert t[m] == u[0];
      }
    }
    NumberEndOfNumeral(t, |a|, intPart, dot, frac);
  }

  /** In a suffix-rule text the unit follows the blanks after the numeral. */
  lemma SuffixUnitAfterBlanks(t: string, a: string, num: string, sp: string, u: string, b: string)
    requires AllSpace(sp) && u != [] && !IsSpace(u[0])
    requires t == a + num + sp + u + b
    ensures u <= t[SkipSpaces(t, |a| + |num|)..]
  {
    var m := |a| + |num|;
    var v := m + |sp|;
    forall x | m <= x < v ensures IsSpace(t[x]) {
      assert t[x] == sp[x - m];
    }
    assert t[v] == u[0];
    SkipSpacesAt(t, m, v);
    assert t[v..] == u + b;
  }

  /** A suffix pattern matches where a greedy number is followed (after blanks)
      by its unit, and captures that number. */
  lemma SuffixMatchAt(t: string, s: nat, m: nat, p: Pattern)
    requires p != CurrencyPrefix && s < m <= |t|
    requires IsNumChar(t[s]) && NumberEnd(t, s) == m
    requires UnitOf(p) <= t[SkipSpaces(t, m)..]
    ensures MatchAt(t, s, p) == Some(t[s..m])
  {
  }

  /** A suffix pattern finds the first number that is followed (after blanks)
      by its unit when it matches at no earlier position. */
  lemma SuffixSearch(t: string, s: nat, m: nat, p: Pattern, u: string, g: string)
    requires p != CurrencyPrefix && u == UnitOf(p)
    requires s < m <= |t| && t[s..m] == g
    requires IsNumChar(t[s]) && NumberEnd(t, s) == m
    requires u <= t[SkipSpaces(t, m)..]
    requires forall x :: 0 <= x < s ==> MatchAt(t, x, p).None?
    ensures Search(t, 0, p) == Some(g)
  {
    SuffixMatchAt(t, s, m, p);
    SearchSkips(t, 0, s, p);
  }

  /** A pattern whose first match is missing, or captures no digit so that
      `float` fails, hands over to the next pattern. */
  lemma RuleFallsThrough(t: string, k: nat, g: Option<string>)
    requires k < |PATTERNS| && Search(t, 0, PATTERNS[k]) == g
    requires g.Some? ==> forall i :: 0 <= i < |g.value| ==> !IsDigit(g.value[i])
    ensures TryPatterns(t, k) == TryPatterns(t, k + 1)
  {
    if g.Some? {
      var digits := RemoveChar(g.value, ',');
      RemoveCharSpec(g.value, ',');
      forall i | 0 <= i < |digits| ensures !IsDigit(digits[i]) {
        assert digits[i] in g.value;
      }
      PyFloatNeedsDigit(digits);
    }
  }

  /** A pattern whose first match converts to a number gives the price. */
  lemma RuleApplies(t: string, k: nat, g: string)
    requires k < |PATTERNS| && Search(t, 0, PATTERNS[k]) == Some(g)
    requires GroupValue(g).Some?
    ensures TryPatterns(t, k) == GroupValue(g)
  {
  }

  /** Without a yen sign, a number followed (after blanks) by "/天" is the price. */
  lemma PerDayRuleApplies(a: string, intPart: string, dot: bool, frac: string, sp: string, b: string)
    requires NoCurrency(a) && NoNumChar(a) && AllSpace(sp) && NoCurrency(b)
    requires IsNumeral(intPart, dot, frac)
    requires |RemoveChar(intPart, ',')| > 0 || |frac| > 0
    ensures AllDigits(RemoveChar(intPart, ','))
    ensures ExtractPrice(a + Numeral(intPart, dot, frac) + sp + "/天" + b)
      == Some(DecimalValue(RemoveChar(intPart, ','), frac))
  {
    var num := Numeral(intPart, dot, frac);
    var t := a + num + sp + "/天" + b;
    PerDayFound(t, a, intPart, dot, frac, sp, b);
    NumeralIsNumberText(intPart, dot, frac);
    GroupValueOfNumeral(intPart, dot, frac);
    RuleApplies(t, 1, num);
  }

  /** No suffix pattern matches inside the leading text without digits or
      commas of a suffix-rule price text. */
  lemma PlainPrefixNoSuffix(t: string, a: string, num: string, sp: string, u: string, b: string, p: Pattern)
    requires p != CurrencyPrefix && NoNumChar(a) && t == a + num + sp + u + b
    ensures forall x :: 0 <= x < |a| ==> MatchAt(t, x, p).None?
  {
    forall x | 0 <= x < |a| ensures MatchAt(t, x, p).None? {
      assert t[x] == a[x];
    }
  }

  /** The per-day pattern finds nothing in a text made of a numeral, blanks and
      "元" between texts without digits or commas. */
  lemma YuanTextHasNoPerDay(a: string, intPart: string, dot: bool, frac: string, sp: string, b: string)
    requires NoNumChar(a) && AllSpace(sp) && NoNumChar(b)
    requires IsNumeral(intPart, dot, frac)
    ensures Search(a + Numeral(intPart, dot, frac) + sp + "元" + b, 0, PerDaySuffix) == None
  {
    var num := Numeral(intPart, dot, frac);
    var t := a + num + sp + "元" + b;
    var m := |a| + |num|;
    var v := m + |sp|;
    assert t[|a|..m] == num;
    assert m < |t| && !IsNumChar(t[m]) && t[m] != '.' && !IsDigit(t[m]) by {
      if sp != [] {
        assert t[m] == sp[0];
      } else {
        assert t[m] == '元';
      }
    }
    forall x | m <= x < v ensures IsSpace(t[x]) {
      assert t[x] == sp[x - m];
    }
    assert t[v] == '元';
    SkipSpacesAt(t, m, v);
    forall x | 0 <= x < |t| ensures MatchAt(t, x, PerDaySuffix).None? {
      assert IsNumChar(t[x]) ==> NumberEnd(t, x) == m by {
        if x < |a| {
          assert t[x] == a[x];
        } else if x < m {
          NumeralTailEnd(t, |a|, intPart, dot, frac, x);
        } else if x < v {
          assert t[x] == sp[x - m];
        } else if x > v {
          assert t[x] == b[x - v - 1];
        }
      }
      PerDayMissesAt(t, x, m, v);
    }
    SearchSkips(t, 0, |t|, PerDaySuffix);
  }

  /** The per-day pattern does not match where every number ends before blanks
      and "元". */
  lemma PerDayMissesAt(t: string, x: nat, m: nat, v: nat)
    requires x < |t| && m <= v < |t| && t[v] == '元' && SkipSpaces(t, m) == v
    requires IsNumChar(t[x]) ==> NumberEnd(t, x) == m
    ensures MatchAt(t, x, PerDaySuffix).None?
  {
  }

  /** From any position inside a numeral that ends before a character that is
      no digit, comma or dot, the greedy number match ends where the numeral
      ends, unless the position is that of the dot. */
  lemma NumeralTailEnd(t: string, w: nat, intPart: string, dot: bool, frac: string, x: nat)
    requires IsNumeral(intPart, dot, frac)
    requires w <= x < w + |Numeral(intPart, dot, frac)| < |t|
    requires t[w..w + |Numeral(intPart, dot, frac)|] == Numeral(intPart, dot, frac)
    requires !IsNumChar(t[w + |Numeral(intPart, dot, frac)|]) && t[w + |Numeral(intPart, dot, frac)|] != '.'
    ensures IsNumChar(t[x]) ==> NumberEnd(t, x) == w + |Numeral(intPart, dot, frac)|
  {
    var num := Numeral(intPart, dot, frac);
    var k := w + |intPart|;
    assert t[x] == num[x - w];
    if x < k {
      var tail := intPart[x - w..];
      assert Numeral(tail, dot, frac) == num[x - w..];
      assert t[x..x + |num[x - w..]|] == num[x - w..];
      NumberEndOfNumeral(t, x, tail, dot, frac);
    } else if x > k {
      var tail := frac[x - k - 1..];
      assert |tail| > 0 && (forall i :: 0 <= i < |tail| ==> IsNumChar(tail[i]));
      assert Numeral(tail, false, "") == num[x - w..];
      assert t[x..x + |num[x - w..]|] == num[x - w..];
      NumberEndOfNumeral(t, x, tail, false, "");
    } else {
      assert t[x] == '.';
    }
  }

  /** The third rule: without a yen sign and without a per-day match, a number
      followed (after blanks) by "元" is the price. */
  lemma YuanRuleApplies(a: string, intPart: string, dot: bool, frac: string, sp: string, b: string)
    requires NoCurrency(a) && NoNumChar(a) && AllSpace(sp) && NoCurrency(b) && NoNumChar(b)
    requires IsNumeral(intPart, dot, frac)
    requires |RemoveChar(intPart, ',')| > 0 || |frac| > 0
    ensures AllDigits(RemoveChar(intPart, ','))
    ensures ExtractPrice(a + Numeral(intPart, dot, frac) + sp + "元" + b)
      == Some(DecimalValue(RemoveChar(intPart, ','), frac))
  {
    var num := Numeral(intPart, dot, frac);
    var t := a + num + sp + "元" + b;
    YuanFound(t, a, intPart, dot, frac, sp, b);
    NumeralIsNumberText(intPart, dot, frac);
    GroupValueOfNumeral(intPart, dot, frac);
    RuleApplies(t, 2, num);
  }

  /** Without a yen sign and without a digit or comma before it, a numeral
      followed (after blanks) by "/天" is what the per-day rule finds. */
  lemma PerDayFound(t: string, a: string, intPart: string, dot: bool, frac: string, sp: string, b: string)
    requires NoCurrency(a) && NoNumChar(a) && AllSpace(sp) && NoCurrency(b)
    requires IsNumeral(intPart, dot, frac)
    requires t == a + Numeral(intPart, dot, frac) + sp + "/天" + b
    ensures ExtractPrice(t) == TryPatterns(t, 1)
    ensures Search(t, 0, PATTERNS[1]) == Some(Numeral(intPart, dot, frac))
  {
    var num := Numeral(intPart, dot, frac);
    NumeralIsNumberText(intPart, dot, frac);
    SuffixTextNoCurrency(t, a, num, sp, "/天", b);
    NoCurrencyNoPrefixMatch(t);
    PlainPrefixNoSuffix(t, a, num, sp, "/天", b, PerDaySuffix);
    SuffixNumberEnd(t, a, intPart, dot, frac, sp, "/天", b);
    SuffixUnitAfterBlanks(t, a, num, sp, "/天", b);
    SuffixRuleReached(t, 1, |a|, |a| + |num|, "/天", num);
  }

  /** Without a yen sign, without a digit or comma outside it and so without a
      per-day match, a numeral followed (after blanks) by "元" is what the yuan
      rule finds. */
  lemma YuanFound(t: string, a: string, intPart: string, dot: bool, frac: string, sp: string, b: string)
    requires NoCurrency(a) && NoNumChar(a) && AllSpace(sp) && NoCurrency(b) && NoNumChar(b)
    requires IsNumeral(intPart, dot, frac)
    requires t == a + Numeral(intPart, dot, frac) + sp + "元" + b
    ensures ExtractPrice(t) == TryPatterns(t, 2)
    ensures Search(t, 0, PATTERNS[2]) == Some(Numeral(intPart, dot, frac))
  {
    var num := Numeral(intPart, dot, frac);
    NumeralIsNumberText(intPart, dot, frac);
    SuffixTextNoCurrency(t, a, num, sp, "元", b);
    NoCurrencyNoPrefixMatch(t);
    YuanTextHasNoPerDay(a, intPart, dot, frac, sp, b);
    PlainPrefixNoSuffix(t, a, num, sp, "元", b, YuanSuffix);
    SuffixNumberEnd(t, a, intPart, dot, frac, sp, "元", b);
    SuffixUnitAfterBlanks(t, a, num, sp, "元", b);
    SuffixRuleReached(t, 2, |a|, |a| + |num|, "元", num);
  }

  /** When the earlier rules find nothing and the `k`-th pattern first matches
      at `s`, where the number `g` ends at `m` and is followed (after blanks) by
      the unit `u`, the extraction reaches that rule and its search returns `g`. */
  lemma SuffixRuleReached(t: string, k: nat, s: nat, m: nat, u: string, g: string)
    requires k == 1 || k == 2
    requires Search(t, 0, CurrencyPrefix) == None
    requires k == 2 ==> Search(t, 0, PerDaySuffix) == None
    requires s < m <= |t| && t[s..m] == g
    requires IsNumChar(t[s]) && NumberEnd(t, s) == m
    requires u == UnitOf(PATTERNS[k]) && u <= t[SkipSpaces(t, m)..]
    requires forall x :: 0 <= x < s ==> MatchAt(t, x, PATTERNS[k]).None?
    ensures ExtractPrice(t) == TryPatterns(t, k)
    ensures Search(t, 0, PATTERNS[k]) == Some(g)
  {
    SuffixSearch(t, s, m, PATTERNS[k], u, g);
    RuleFallsThrough(t, 0, None);
    if k == 2 {
      RuleFallsThrough(t, 1, None);
    }
  }

  /** A text without any digit or comma has no price. */
  lemma NoNumberNoPrice(t: string)
    requires NoNumChar(t)
    ensures ExtractPrice(t) == None
  {
    NoNumCharNoMatch(t, CurrencyPrefix);
    NoNumCharNoMatch(t, PerDaySuffix);
    NoNumCharNoMatch(t, YuanSuffix);
    assert TryPatterns(t, 2) == None;
  }

  /** The numeral of the sale example below and its value. */
  lemma SaleNumeral()
    ensures IsNumeral("2,329", false, "") && Numeral("2,329", false, "") == "2,329"
    ensures RemoveChar("2,329", ',') == "2329" && DecimalValue("2329", "") == 2329.0
  {
    assert "2329"[..3] == "232";
    assert "232"[..2] == "23";
    assert "23"[..1] == "2";
    assert RemoveChar("2,329", ',') == "2" + RemoveChar(",329", ',');
    assert RemoveChar(",329", ',') == RemoveChar("329", ',');
  }

  /** The numeral of the rent examples below and its value. */
  lemma RentNumeral()
    ensures IsNumeral("0", true, "60") && Numeral("0", true, "60") == "0.60"
    ensures RemoveChar("0", ',') == "0" && DecimalValue("0", "60") == 0.6
  {
    assert "60"[..1] == "6";
    assert "0"[..0] == "";
    assert Pow10(2) == 100;
  }

  /** The labels that the price of a button follows hold no yen sign and no digit. */
  lemma LabelHasNoNumber(w: Wear)
    ensures NoCurrency(Label(w)) && NoNumChar(Label(w))
  {
  }

  /** The sale price of a button with a thousands separator, after a text such as
      a wear label. */
  lemma SalePriceExample(lead: string)
    requires NoCurrency(lead)
    ensures ExtractPrice(lead + "¥2,329") == Some(2329.0)
  {
    SaleNumeral();
    assert lead + ['¥'] + "" + Numeral("2,329", false, "") + "" == lead + "¥2,329";
    CurrencyRuleWins(lead, '¥', "", "2,329", false, "", "");
  }

  /** A rent price with a yen sign and a per-day unit. */
  lemma RentPriceExample(lead: string)
    requires NoCurrency(lead)
    ensures ExtractPrice(lead + "¥0.60/天") == Some(0.6)
  {
    RentNumeral();
    assert lead + ['¥'] + "" + Numeral("0", true, "60") + "/天" == lead + "¥0.60/天";
    CurrencyRuleWins(lead, '¥', "", "0", true, "60", "/天");
  }

  /** The numeral "5" of the priority example below and its value. */
  lemma FiveNumeral()
    ensures IsNumeral("5", false, "") && Numeral("5", false, "") == "5"
    ensures RemoveChar("5", ',') == "5" && DecimalValue("5", "") == 5.0
  {
    assert "5"[..0] == "";
  }

  /** The yen-sign rule is tried before the per-day rule: in "¥5 0.60/天" the
      per-day pattern alone would give 0.6, but the price is 5. */
  lemma PriorityExample(lead: string)
    requires NoCurrency(lead)
    ensures ExtractPrice(lead + "¥5 0.60/天") == Some(5.0)
  {
    FiveNumeral();
    assert lead + ['¥'] + "" + Numeral("5", false, "") + " 0.60/天" == lead + "¥5 0.60/天";
    CurrencyRuleWins(lead, '¥', "", "5", false, "", " 0.60/天");
  }

  /** A rent price without a yen sign, after a text without digits such as a
      wear label. */
  lemma PerDayExample(lead: string)
    requires NoCurrency(lead) && NoNumChar(lead)
    ensures ExtractPrice(lead + "0.60/天") == Some(0.6)
  {
    RentNumeral();
    assert lead + Numeral("0", true, "60") + "" + "/天" + "" == lead + "0.60/天";
    PerDayRuleApplies(lead, "0", true, "60", "", "");
  }

  /** A sale price in yuan, after a text without digits such as a wear label. */
  lemma YuanExample(lead: string)
    requires NoCurrency(lead) && NoNumChar(lead)
    ensures ExtractPrice(lead + "2,329元") == Some(2329.0)
  {
    SaleNumeral();
    assert lead + Numeral("2,329", false, "") + "" + "元" + "" == lead + "2,329元";
    YuanRuleApplies(lead, "2,329", false, "", "", "");
  }

  /** The extraction reads a yen-prefixed numeral, with or without the per-day
      unit after it. */
  lemma YenNumeralExtraction(intPart: string, dot: bool, frac: string, unit: string)
    requires IsNumeral(intPart, dot, frac)
    requires |RemoveChar(intPart, ',')| > 0 || |frac| > 0
    requires unit == "/天" || unit == ""
    ensures AllDigits(RemoveChar(intPart, ','))
    ensures ExtractPrice("¥" + Numeral(intPart, dot, frac) + unit) == Some(DecimalValue(RemoveChar(intPart, ','), frac))
  {
    var num := Numeral(intPart, dot, frac);
    assert "" + ['¥'] + "" + num + unit == "¥" + num + unit;
    CurrencyRuleWins("", '¥', "", intPart, dot, frac, unit);
  }

  /** On the yen-prefixed formats it documents, `parse_price` reads the same
      value as the scraper's own extraction. */
  lemma ParsePriceAgreesWithExtraction(intPart: string, dot: bool, frac: string, perDay: bool)
    requires IsNumeral(intPart, dot, frac)
    requires |RemoveChar(intPart, ',')| > 0 || |frac| > 0
    ensures var t := "¥" + Numeral(intPart, dot, frac) + (if perDay then "/天" else "");
      ExtractPrice(t) == ParsePrice(t) && ParsePrice(t).Some?
  {
    YenNumeralExtraction(intPart, dot, frac, if perDay then "/天" else "");
    ParsePriceOfNumeral(true, intPart, dot, frac, perDay);
  }

  // ---------------------------------------------------------------------------
  // Classifying button texts into a price per wear condition

  /** `{wear: price}` over the five wear conditions. */
  type PriceMap = map<Wear, Option<real>>

  /** Every wear condition is a key. */
  predicate Total(m: PriceMap)
  {
    forall w: Wear :: w in m
  }

  /** `{wear: None for wear in WEAR_LEVELS}`. */
  function AllNone(): (m: PriceMap)
    ensures Total(m) && forall w: Wear :: m[w] == None
  {
    Config.WearLevelsEnumerateWear();
    map w | w in WEAR_LEVELS :: None
  }

  /** The first wear condition, in `WEAR_LEVELS` order from position `j`, whose
      label occurs in `t`. */
  function FirstWearFrom(t: string, j: nat): (r: Option<Wear>)
    requires j <= |WEAR_LEVELS|
    ensures r.Some? ==> j <= WearIndex(r.value) && Contains(t, Label(r.value))
    ensures r.Some? ==> forall i :: j <= i < WearIndex(r.value) ==> !Contains(t, Label(WEAR_LEVELS[i]))
    ensures r.None? ==> forall i :: j <= i < |WEAR_LEVELS| ==> !Contains(t, Label(WEAR_LEVELS[i]))
    decreases |WEAR_LEVELS| - j
  {
    if j == |WEAR_LEVELS| then None
    else if Contains(t, Label(WEAR_LEVELS[j])) then Some(WEAR_LEVELS[j])
    else FirstWearFrom(t, j + 1)
  }

  /** The wear condition a button text names: the first label it contains. */
  function FirstWear(t: string): (r: Option<Wear>)
    ensures r.Some? ==> Contains(t, Label(r.value))
    ensures r.Some? ==> forall i :: 0 <= i < WearIndex(r.value) ==> !Contains(t, Label(WEAR_LEVELS[i]))
    ensures r.None? ==> forall w: Wear :: !Contains(t, Label(w))
  {
    var r := FirstWearFrom(t, 0);
    assert r.None? ==> forall w: Wear :: !Contains(t, Label(w)) by {
      if r.None? {
        forall w: Wear ensures !Contains(t, Label(w)) {
          assert WEAR_LEVELS[WearIndex(w)] == w;
        }
      }
    }
    r
  }

  /** A stripped button text that is skipped: empty, or a StatTrak toggle. */
  predicate Skipped(t: string)
  {
    t == [] || Contains(t, "StatTrak") || Contains(t, "★")
  }

  /** What one button's text contributes: the wear it names and a price for it. */
  function Contribution(raw: string): Contrib
  {
    var t := Strip(raw);
    if Skipped(t) then None
    else
      match FirstWear(t)
      case None => None
      case Some(w) =>
        match ExtractPrice(t)
        case None => None
        case Some(p) => Some((w, p))
  }

  /** A button contributes exactly when its stripped text is not skipped, names
      a wear condition and holds a price; the contribution is then the first
      wear condition named in the text and the extracted price. */
  lemma ContributionSpec(raw: string)
    ensures Skipped(Strip(raw)) || ExtractPrice(Strip(raw)).None? ==> Contribution(raw) == None
    ensures (forall w: Wear :: !Contains(Strip(raw), Label(w))) ==> Contribution(raw) == None
    ensures !Skipped(Strip(raw)) && ExtractPrice(Strip(raw)).Some? && (exists w: Wear :: Contains(Strip(raw), Label(w)))
      ==> Contribution(raw).Some?
    ensures Contribution(raw).Some? ==> Contains(Strip(raw), Label(Contribution(raw).value.0))
    ensures Contribution(raw).Some? ==> forall i :: 0 <= i < WearIndex(Contribution(raw).value.0) ==>
      !Contains(Strip(raw), Label(WEAR_LEVELS[i]))
    ensures Contribution(raw).Some? ==> ExtractPrice(Strip(raw)) == Some(Contribution(raw).value.1)
  {
  }

  /** What a button contributes: a wear condition and its price, or nothing. */
  type Contrib = Option<(Wear, real)>

  predicate Names(c: Contrib, w: Wear)
  {
    c.Some? && c.value.0 == w
  }

  /** One iteration of the loop over the buttons: a contribution overwrites the
      entry of its wear condition. */
  function Apply(prices: PriceMap, c: Contrib): PriceMap
  {
    match c
    case None => prices
    case Some((w, p)) => prices[w := Some(p)]
  }

  /** The prices after the contributions `cs`, in order, starting with no price. */
  function Collect(cs: seq<Contrib>): (m: PriceMap)
    ensures Total(m)
  {
    if cs == [] then AllNone() else Apply(Collect(cs[..|cs| - 1]), cs[|cs| - 1])
  }

  /** `f` applied to each element of `s`, in order. */
  function MapSeq<A, B>(f: A -> B, s: seq<A>): (r: seq<B>)
    ensures |r| == |s|
  {
    if s == [] then [] else MapSeq(f, s[..|s| - 1]) + [f(s[|s| - 1])]
  }

  lemma {:induction false} MapSeqAt<A, B>(f: A -> B, s: seq<A>, j: nat)
    requires j < |s|
    ensures MapSeq(f, s)[j] == f(s[j])
  {
    var n := |s| - 1;
    if j < n {
      MapSeqAt(f, s[..n], j);
    }
  }

  /** The contribution of each button, in page order. */
  function Contributions(texts: seq<string>): (cs: seq<Contrib>)
    ensures |cs| == |texts|
  {
    MapSeq(Contribution, texts)
  }

  /** `_parse_prices_from_page` over the texts of the buttons, in page order. */
  function ParseTexts(texts: seq<string>): (m: PriceMap)
    ensures Total(m)
  {
    Collect(Contributions(texts))
  }

  lemma ContributionsAt(texts: seq<string>, j: nat)
    requires j < |texts|
    ensures Contributions(texts)[j] == Contribution(texts[j])
  {
    MapSeqAt(Contribution, texts, j);
  }

  /** One more button is one more iteration of the loop. */
  lemma ParseTextsSnoc(texts: seq<string>, raw: string)
    ensures ParseTexts(texts + [raw]) == Apply(ParseTexts(texts), Contribution(raw))
  {
    assert (texts + [raw])[..|texts|] == texts;
    var cs := Contributions(texts + [raw]);
    assert cs[..|cs| - 1] == Contributions(texts);
  }

  /** A blank button or a StatTrak toggle leaves the prices unchanged. */
  lemma SkippedTextChangesNothing(prices: PriceMap, raw: string)
    requires Skipped(Strip(raw))
    ensures Apply(prices, Contribution(raw)) == prices
  {
  }

  /** A button changes at most the entry of the first label it contains, and only
      when a price can be read from it. */
  lemma ApplyChangesOneEntry(prices: PriceMap, raw: string, w: Wear)
    requires w in prices
    ensures var t := Strip(raw);
      Apply(prices, Contribution(raw))[w] ==
        if !Skipped(t) && FirstWear(t) == Some(w) && ExtractPrice(t).Some? then ExtractPrice(t)
        else prices[w]
  {
  }

  /** A wear condition has no price exactly when no contribution names it. */
  lemma {:induction false} CollectNone(cs: seq<Contrib>, w: Wear)
    ensures Collect(cs)[w] == None <==> forall j :: 0 <= j < |cs| ==> !Names(cs[j], w)
  {
    if cs != [] {
      var n := |cs| - 1;
      CollectNone(cs[..n], w);
      assert forall j :: 0 <= j < n ==> cs[..n][j] == cs[j];
    }
  }

  /** Later contributions overwrite earlier ones. */
  lemma {:induction false} CollectLastWins(cs: seq<Contrib>, w: Wear)
    requires Collect(cs)[w].Some?
    ensures exists j ::
      && 0 <= j < |cs|
      && cs[j] == Some((w, Collect(cs)[w].value))
      && forall k :: j < k < |cs| ==> !Names(cs[k], w)
  {
    var n := |cs| - 1;
    if Names(cs[n], w) {
      assert cs[n] == Some((w, Collect(cs)[w].value));
    } else {
      var init := cs[..n];
      CollectLastWins(init, w);
      var j :| 0 <= j < n && init[j] == Some((w, Collect(init)[w].value))
        && forall k :: j < k < n ==> !Names(init[k], w);
      assert forall k :: j < k < n ==> init[k] == cs[k];
    }
  }

  /** A wear condition has no price exactly when no button contributes to it. */
  lemma ParseTextsNone(texts: seq<string>, w: Wear)
    ensures ParseTexts(texts)[w] == None <==>
      forall j :: 0 <= j < |texts| ==> !Names(Contribution(texts[j]), w)
  {
    var cs := Contributions(texts);
    CollectNone(cs, w);
    forall j | 0 <= j < |texts| ensures cs[j] == Contribution(texts[j]) {
      ContributionsAt(texts, j);
    }
  }

  /** Later buttons overwrite earlier ones: a price comes from the last button
      that contributes to its wear condition. */
  lemma ParseTextsLastWins(texts: seq<string>, w: Wear)
    requires ParseTexts(texts)[w].Some?
    ensures exists j ::
      && 0 <= j < |texts|
      && Contribution(texts[j]) == Some((w, ParseTexts(texts)[w].value))
      && forall k :: j < k < |texts| ==> !Names(Contribution(texts[k]), w)
  {
    var cs := Contributions(texts);
    CollectLastWins(cs, w);
    forall j | 0 <= j < |texts| ensures cs[j] == Contribution(texts[j]) {
      ContributionsAt(texts, j);
    }
  }

  /** `_parse_prices_from_page` over the button texts the page returned. */
  method ParsePricesFromPage(texts: seq<string>) returns (prices: PriceMap)
    ensures prices == ParseTexts(texts)
  {
    prices := AllNone();
    var i := 0;
    while i < |texts|
      invariant 0 <= i <= |texts|
      invariant prices == ParseTexts(texts[..i])
    {
      assert texts[..i + 1] == texts[..i] + [texts[i]];
      ParseTextsSnoc(texts[..i], texts[i]);
      ghost var before := prices;
      var btnText := Strip(texts[i]);
      if btnText == [] {
        i := i + 1;
        continue;
      }
      if Contains(btnText, "StatTrak") || Contains(btnText, "★") {
        i := i + 1;
        continue;
      }
      var j := 0;
      while j < |WEAR_LEVELS|
        invariant 0 <= j <= |WEAR_LEVELS|
        invariant FirstWearFrom(btnText, j) == FirstWear(btnText)
        invariant prices == before
      {
        var wearName := WEAR_LEVELS[j];
        if Contains(btnText, Label(wearName)) {
          var price := ExtractPrice(btnText);
          if price.Some? {
            prices := prices[wearName := price];
          }
          assert prices == Apply(before, Contribution(texts[i]));
          break;
        }
        j := j + 1;
      }
      assert prices == Apply(before, Contribution(texts[i]));
      i := i + 1;
    }
    assert texts[..i] == texts;
  }

  /** A button whose text starts with the first wear label and carries a price
      contributes that price to that condition. */
  lemma FactoryNewButton(raw: string, p: real)
    requires Strip(raw) == raw && !Skipped(raw)
    requires Label(FactoryNew) <= raw && ExtractPrice(raw) == Some(p)
    ensures Contribution(raw) == Some((FactoryNew, p))
  {
    ContainsAt(raw, Label(FactoryNew), 0);
    assert WearIndex(FactoryNew) == 0;
  }

  /** A StatTrak toggle is skipped even though it shows a wear label. */
  lemma StatTrakButtonExample(rest: string)
    ensures Contribution("★ StatTrak™ " + rest) == None
  {
    var raw := "★ StatTrak™ " + rest;
    assert raw[0] == '★';
    assert SkipSpaces(raw, 0) == 0;
    var t := Strip(raw);
    assert t[0] == '★';
    ContainsAt(t, "★", 0);
  }
}
