/** The collector's data model and helpers (data_processor.py): catalog items,
    price records with their rent-to-sell ratio, the report row of a record, the
    rows of one saved batch, listing URLs and the stand-alone price parser. */
module DataProcessor {
  import opened Wrappers
  import opened Config
  import opened Text

  // ---------------------------------------------------------------------------
  // Catalog items

  /** One catalog entry: a display name and the template ids of its normal and
      dark-gold variants (an empty id means the variant does not exist). */
  datatype Item = Item(name: string, normalId: string, darkGoldId: string)

  /** Text that neither starts nor ends with a blank. */
  predicate TrimmedText(s: string)
  {
    s != [] ==> !IsSpace(s[0]) && !IsSpace(s[|s| - 1])
  }

  /** No field of the item starts or ends with a blank. */
  predicate Trimmed(it: Item)
  {
    TrimmedText(it.name) && TrimmedText(it.normalId) && TrimmedText(it.darkGoldId)
  }

  /** `Item(name, normal_id, dark_gold_id)`: the constructor strips every field. */
  function NewItem(name: string, normalId: string, darkGoldId: string): (it: Item)
    ensures Trimmed(it)
    ensures |it.name| <= |name| && |it.normalId| <= |normalId| && |it.darkGoldId| <= |darkGoldId|
  {
    Item(Strip(name), Strip(normalId), Strip(darkGoldId))
  }

  /** Building an item from the fields of a trimmed item gives that item back. */
  lemma NewItemOfTrimmed(it: Item)
    requires Trimmed(it)
    ensures NewItem(it.name, it.normalId, it.darkGoldId) == it
  {
    StripTrimmed(it.name);
    StripTrimmed(it.normalId);
    StripTrimmed(it.darkGoldId);
  }

  /** The item `read_items_csv` builds from a row of at least three fields: the
      fields are stripped by the reader and again by the constructor. */
  function RowItem(row: seq<string>): Item
    requires |row| >= 3
  {
    NewItem(Strip(row[0]), Strip(row[1]), Strip(row[2]))
  }

  /** Stripping twice is stripping once: a row's item is built from its first three raw fields. */
  lemma RowItemIsNewItem(row: seq<string>)
    requires |row| >= 3
    ensures RowItem(row) == NewItem(row[0], row[1], row[2])
  {
    StripIdempotent(row[0]);
    StripIdempotent(row[1]);
    StripIdempotent(row[2]);
  }

  /** The items `read_items_csv` returns for the rows of a catalog, in row order. */
  function CatalogItems(rows: seq<seq<string>>): (items: seq<Item>)
    ensures |items| <= |rows|
  {
    if rows == [] then []
    else
      var last := rows[|rows| - 1];
      CatalogItems(rows[..|rows| - 1]) + (if |last| >= 3 then [RowItem(last)] else [])
  }

  /** Every item read from a catalog has trimmed fields. */
  lemma {:induction false} CatalogItemsTrimmed(rows: seq<seq<string>>)
    ensures forall k :: 0 <= k < |CatalogItems(rows)| ==> Trimmed(CatalogItems(rows)[k])
  {
    if rows != [] {
      CatalogItemsTrimmed(rows[..|rows| - 1]);
    }
  }

  /** The catalog of a single row: one item when the row has three fields or more,
      none otherwise. */
  lemma CatalogOfOneRow(row: seq<string>)
    ensures CatalogItems([row]) == if |row| >= 3 then [NewItem(row[0], row[1], row[2])] else []
  {
    assert [row][..0] == [];
    if |row| >= 3 {
      RowItemIsNewItem(row);
    }
  }

  /** Reading two parts of a catalog one after the other gives their items in
      the same order: the reader is a filter that keeps row order. */
  lemma {:induction false} CatalogOfConcatenation(a: seq<seq<string>>, b: seq<seq<string>>)
    ensures CatalogItems(a + b) == CatalogItems(a) + CatalogItems(b)
    decreases |b|
  {
    if b == [] {
      assert a + b == a;
    } else {
      var b' := b[..|b| - 1];
      assert (a + b)[..|a + b| - 1] == a + b';
      assert (a + b)[|a + b| - 1] == b[|b| - 1];
      CatalogOfConcatenation(a, b');
    }
  }

  /** The number of rows with fewer than three fields. */
  function ShortRows(rows: seq<seq<string>>): nat
  {
    if rows == [] then 0
    else ShortRows(rows[..|rows| - 1]) + (if |rows[|rows| - 1]| < 3 then 1 else 0)
  }

  /** Exactly the short rows are dropped: one item per row with three fields or more. */
  lemma {:induction false} CatalogDropsShortRows(rows: seq<seq<string>>)
    ensures |CatalogItems(rows)| + ShortRows(rows) == |rows|
  {
    if rows != [] {
      CatalogDropsShortRows(rows[..|rows| - 1]);
    }
  }

  /** `read_items_csv` over rows already split into fields. */
  method ReadItems(rows: seq<seq<string>>) returns (items: seq<Item>)
    ensures items == CatalogItems(rows)
  {
    items := [];
    var i := 0;
    while i < |rows|
      invariant 0 <= i <= |rows|
      invariant items == CatalogItems(rows[..i])
    {
      var row := rows[i];
      assert rows[..i + 1][..i] == rows[..i];
      if |row| >= 3 {
        var name := Strip(row[0]);
        var normalId := Strip(row[1]);
        var darkGoldId := Strip(row[2]);
        items := items + [NewItem(name, normalId, darkGoldId)];
      }
      i := i + 1;
    }
    assert rows[..i] == rows;
  }

  // ---------------------------------------------------------------------------
  // Price records

  /** One observation: an item variant in one wear condition, with its optional
      sell price and optional daily rent price. */
  datatype PriceRecord = PriceRecord(
    itemName: string,
    version: string,
    wear: Wear,
    sellPrice: Option<real>,
    rentPrice: Option<real>)

  /** Python truthiness of an optional number: present and non-zero. */
  predicate Truthy(x: Option<real>)
  {
    x.Some? && x.value != 0.0
  }

  /** `PriceRecord.rent_ratio`: rent as a percentage of sell, defined only for a
      positive sell price and a non-zero rent price. */
  function RentRatio(r: PriceRecord): (ratio: Option<real>)
    ensures ratio.Some? <==>
      r.sellPrice.Some? && r.sellPrice.value > 0.0 && r.rentPrice.Some? && r.rentPrice.value != 0.0
    ensures ratio.Some? ==> ratio.value * r.sellPrice.value == 100.0 * r.rentPrice.value
    ensures ratio.Some? ==> ratio.value != 0.0
  {
    if Truthy(r.sellPrice) && Truthy(r.rentPrice) && r.sellPrice.value > 0.0 then
      Some(r.rentPrice.value / r.sellPrice.value * 100.0)
    else None
  }

  lemma RentRatioExamples(name: string, version: string, w: Wear)
    ensures RentRatio(PriceRecord(name, version, w, Some(100.0), Some(5.0))) == Some(5.0)
    ensures RentRatio(PriceRecord(name, version, w, Some(0.0), Some(5.0))) == None
    ensures RentRatio(PriceRecord(name, version, w, None, Some(5.0))) == None
    ensures RentRatio(PriceRecord(name, version, w, Some(100.0), Some(0.0))) == None
  {
  }

  /** A cell of the report: text, a price, a ratio shown with four decimals, or blank. */
  datatype Cell = TextCell(s: string) | Price(amount: real) | Ratio(percent: real) | Blank

  /** The report's columns, in order. */
  const FIELDNAMES: seq<string> := ["商品名", "版本", "磨损度", "售价", "租价(天)", "租售比(%)"]

  /** `PriceRecord.to_dict`: the record's cells keyed by column name. */
  function ToDict(r: PriceRecord): (d: seq<(string, Cell)>)
    ensures |d| == |FIELDNAMES| && forall k :: 0 <= k < |d| ==> d[k].0 == FIELDNAMES[k]
    ensures d[0].1 == TextCell(r.itemName) && d[1].1 == TextCell(r.version) && d[2].1 == TextCell(Label(r.wear))
    ensures d[3].1 == (if Truthy(r.sellPrice) then Price(r.sellPrice.value) else Blank)
    ensures d[4].1 == (if Truthy(r.rentPrice) then Price(r.rentPrice.value) else Blank)
    ensures d[5].1 == (if RentRatio(r).Some? then Ratio(RentRatio(r).value) else Blank)
  {
    var ratio := RentRatio(r);
    [ (FIELDNAMES[0], TextCell(r.itemName)),
      (FIELDNAMES[1], TextCell(r.version)),
      (FIELDNAMES[2], TextCell(Label(r.wear))),
      (FIELDNAMES[3], if Truthy(r.sellPrice) then Price(r.sellPrice.value) else Blank),
      (FIELDNAMES[4], if Truthy(r.rentPrice) then Price(r.rentPrice.value) else Blank),
      (FIELDNAMES[5], if ratio.Some? && ratio.value != 0.0 then Ratio(ratio.value) else Blank) ]
  }

  /** The header row of a report: the column names, in order. */
  function HeaderRow(): (h: seq<Cell>)
    ensures |h| == |FIELDNAMES| && forall k :: 0 <= k < |h| ==> h[k] == TextCell(FIELDNAMES[k])
  {
    seq(|FIELDNAMES|, k requires 0 <= k < |FIELDNAMES| => TextCell(FIELDNAMES[k]))
  }

  /** The value of the first entry with key `key`, or a blank cell (`restval`)
      when there is none. */
  function Get(d: seq<(string, Cell)>, key: string): Cell
  {
    if d == [] then Blank else if d[0].0 == key then d[0].1 else Get(d[1..], key)
  }

  /** The cells `csv.DictWriter.writerow` writes for a record: the value its
      dictionary has for each column, in column order. The `k`-th entry of the
      dictionary is the one for the `k`-th column (`ToDict`), and the column
      names are distinct (`FieldNamesDistinct`). */
  function RecordRow(r: PriceRecord): (row: seq<Cell>)
    ensures |row| == |FIELDNAMES|
    ensures forall k :: 0 <= k < |FIELDNAMES| ==> ToDict(r)[k] == (FIELDNAMES[k], row[k])
  {
    var d := ToDict(r);
    var row := seq(|FIELDNAMES|, k requires 0 <= k < |FIELDNAMES| => Get(d, FIELDNAMES[k]));
    assert forall k :: 0 <= k < |FIELDNAMES| ==> d[k] == (FIELDNAMES[k], row[k]) by {
      FieldNamesDistinct();
      forall k | 0 <= k < |FIELDNAMES| ensures d[k] == (FIELDNAMES[k], row[k]) {
        GetAt(d, k);
      }
    }
    row
  }

  /** The six cells of a record's row: name, version and wear label as text, sell
      and rent blank when missing or zero, the ratio blank when undefined. */
  lemma RecordRowCells(r: PriceRecord)
    ensures RecordRow(r) == [TextCell(r.itemName), TextCell(r.version), TextCell(Label(r.wear)),
                             if Truthy(r.sellPrice) then Price(r.sellPrice.value) else Blank,
                             if Truthy(r.rentPrice) then Price(r.rentPrice.value) else Blank,
                             if RentRatio(r).Some? then Ratio(RentRatio(r).value) else Blank]
  {
    var row := RecordRow(r);
    var d := ToDict(r);
    FieldNamesDistinct();
    forall k | 0 <= k < |FIELDNAMES| ensures row[k] == d[k].1 {
      GetAt(d, k);
    }
  }

  /** No two columns have the same name. */
  lemma FieldNamesDistinct()
    ensures forall i, j :: 0 <= i < j < |FIELDNAMES| ==> FIELDNAMES[i] != FIELDNAMES[j]
  {
  }

  /** In a dictionary with distinct keys, looking up the `k`-th key gives the `k`-th value. */
  lemma {:induction false} GetAt(d: seq<(string, Cell)>, k: nat)
    requires k < |d|
    requires forall i :: 0 <= i < k ==> d[i].0 != d[k].0
    ensures Get(d, d[k].0) == d[k].1
  {
    if k > 0 {
      assert forall i :: 0 <= i < k - 1 ==> d[1..][i].0 != d[1..][k - 1].0 by {
        forall i | 0 <= i < k - 1 ensures d[1..][i].0 != d[1..][k - 1].0 {
          assert d[1..][i] == d[i + 1];
        }
      }
      GetAt(d[1..], k - 1);
    }
  }

  /** The file name of a batch saved at time `stamp` (a `YYYYMMDD_HHMMSS` string). */
  function OutputPath(stamp: string): (path: string)
    ensures |path| > 0
  {
    OUTPUT_DIR + "/" + "result_" + stamp + ".csv"
  }

  /** Batches saved at different times go to different files. */
  lemma OutputPathInjective(a: string, b: string)
    requires OutputPath(a) == OutputPath(b)
    ensures a == b
  {
    var n := |OUTPUT_DIR + "/" + "result_"|;
    assert |a| == |b|;
    assert a == OutputPath(a)[n..n + |a|];
    assert b == OutputPath(b)[n..n + |b|];
  }

  /** `save_results_csv` without the file system: the path it returns and the rows
      it writes, the header first and then one row per record in record order. */
  method SaveResults(records: seq<PriceRecord>, stamp: string) returns (path: string, rows: seq<seq<Cell>>)
    ensures path == OutputPath(stamp)
    ensures |rows| == |records| + 1 && rows[0] == HeaderRow()
    ensures forall k :: 0 <= k < |records| ==> rows[k + 1] == RecordRow(records[k])
  {
    path := OutputPath(stamp);
    rows := [HeaderRow()];
    var i := 0;
    while i < |records|
      invariant 0 <= i <= |records|
      invariant |rows| == i + 1 && rows[0] == HeaderRow()
      invariant forall k :: 0 <= k < i ==> rows[k + 1] == RecordRow(records[k])
    {
      rows := rows + [RecordRow(records[i])];
      i := i + 1;
    }
  }

  // ---------------------------------------------------------------------------
  // URLs

  const URL_HEAD: string := BASE_URL + "?listType="
  const URL_MIDDLE: string := "&templateId="
  /** `&gameId=` followed by `GAME_ID` in decimal (see `GameIdText`). */
  const URL_TAIL: string := "&gameId=730"

  /** `build_url`: the listing page of a template id for one listing type. */
  function BuildUrl(templateId: string, listType: nat): (url: string)
    ensures BASE_URL <= url
    ensures |url| >= |URL_TAIL| && url[|url| - |URL_TAIL|..] == URL_TAIL
  {
    var digits := NatToString(listType);
    Regroup(URL_HEAD, digits, URL_MIDDLE, templateId, URL_TAIL);
    SplitAfter(BASE_URL, "?listType=" + (digits + (URL_MIDDLE + (templateId + URL_TAIL))));
    SplitBefore(URL_HEAD + digits + URL_MIDDLE + templateId, URL_TAIL);
    URL_HEAD + digits + URL_MIDDLE + templateId + URL_TAIL
  }

  /** Reads the template id and the listing type back out of a listing URL. */
  function ParseUrl(url: string): Option<(string, nat)>
  {
    if !(URL_HEAD <= url) then None
    else
      var rest := url[|URL_HEAD|..];
      var k := LeadingDigits(rest);
      var mid := rest[k..];
      if k == 0 || !(URL_MIDDLE <= mid) then None
      else
        var tail := mid[|URL_MIDDLE|..];
        if |tail| >= |URL_TAIL| && tail[|tail| - |URL_TAIL|..] == URL_TAIL then
          Some((tail[..|tail| - |URL_TAIL|], DigitsValue(rest[..k])))
        else None
  }

  /** A listing URL determines the template id and the listing type it was built from. */
  lemma UrlRoundTrip(templateId: string, listType: nat)
    ensures ParseUrl(BuildUrl(templateId, listType)) == Some((templateId, listType))
  {
    var digits := NatToString(listType);
    var tail := templateId + URL_TAIL;
    var mid := URL_MIDDLE + tail;
    var rest := digits + mid;
    Regroup(URL_HEAD, digits, URL_MIDDLE, templateId, URL_TAIL);
    SplitAfter(URL_HEAD, rest);
    LeadingDigitsOfNumeral(digits, mid);
    SplitAfter(digits, mid);
    SplitAfter(URL_MIDDLE, tail);
    SplitBefore(templateId, URL_TAIL);
  }

  lemma Regroup<T>(a: seq<T>, b: seq<T>, c: seq<T>, d: seq<T>, e: seq<T>)
    ensures a + b + c + d + e == a + (b + (c + (d + e)))
  {
  }

  /** A concatenation split right after its first part. */
  lemma SplitAfter<T>(h: seq<T>, r: seq<T>)
    ensures h <= h + r && (h + r)[|h|..] == r && (h + r)[..|h|] == h
  {
  }

  /** A concatenation split right before its last part. */
  lemma SplitBefore<T>(x: seq<T>, t: seq<T>)
    ensures |x + t| >= |t| && (x + t)[|x + t| - |t|..] == t && (x + t)[..|x + t| - |t|] == x
  {
  }

  /** The game id in the URL is `GAME_ID` written in decimal. */
  lemma GameIdText()
    ensures URL_TAIL == "&gameId=" + NatToString(GAME_ID)
  {
    assert NatToString(73) == "73";
  }

  // ---------------------------------------------------------------------------
  // parse_price

  /** `parse_price`: drops '¥', then "/天", then ',', strips blanks and converts. */
  function ParsePrice(priceText: string): (r: Option<real>)
    ensures priceText == [] ==> r == None
  {
    if priceText == [] then None
    else PyFloat(Strip(RemoveChar(RemoveAll(RemoveChar(priceText, '¥'), "/天"), ',')))
  }

  /** `replace('¥', '')` drops the sign in front of a numeral. */
  lemma DropYenSign(sign: string, num: string, unit: string)
    requires sign == "¥" || sign == ""
    requires unit == "/天" || unit == ""
    requires NumberText(num)
    ensures RemoveChar(sign + num + unit, '¥') == num + unit
  {
    RemoveCharSpec(num, '¥');
    RemoveCharAppend(sign + num, unit, '¥');
    RemoveCharAppend(sign, num, '¥');
    assert RemoveChar(unit, '¥') == unit;
    assert RemoveChar(sign, '¥') == [];
  }

  /** The replacements of `parse_price` strip the sign and the unit off a numeral. */
  lemma CleanedNumeral(sign: string, num: string, unit: string)
    requires sign == "¥" || sign == ""
    requires unit == "/天" || unit == ""
    requires NumberText(num)
    ensures RemoveAll(RemoveChar(sign + num + unit, '¥'), "/天") == num
  {
    DropYenSign(sign, num, unit);
    RemoveAllPlain(num, unit, "/天");
    assert RemoveAll(unit, "/天") == [];
  }

  /** `parse_price` reads its documented formats ("¥2329", "¥0.60/天", "2329.00"):
      an optional yen sign, a numeral with optional thousands separators and an
      optional "/天". */
  lemma ParsePriceOfNumeral(yen: bool, intPart: string, dot: bool, frac: string, perDay: bool)
    requires IsNumeral(intPart, dot, frac)
    requires |RemoveChar(intPart, ',')| > 0 || |frac| > 0
    ensures AllDigits(RemoveChar(intPart, ','))
    ensures ParsePrice((if yen then "¥" else "") + Numeral(intPart, dot, frac) + (if perDay then "/天" else ""))
      == Some(DecimalValue(RemoveChar(intPart, ','), frac))
  {
    var num := Numeral(intPart, dot, frac);
    NumeralIsNumberText(intPart, dot, frac);
    CleanedNumeral(if yen then "¥" else "", num, if perDay then "/天" else "");
    RemoveSeparators(intPart, dot, frac);
    var d := RemoveChar(intPart, ',');
    var x := d + (if dot then "." + frac else "");
    assert x != [] && !IsSpace(x[0]) && !IsSpace(x[|x| - 1]) by {
      if dot {
        assert x[|x| - 1] == '.' || IsDigit(x[|x| - 1]);
        assert x[0] == '.' || IsDigit(x[0]);
      } else {
        assert x == d;
      }
    }
    StripTrimmed(x);
    PyFloatOfNumeral(d, dot, frac);
  }

  /** `parse_price` removes only the half-width yen sign: text that starts with the
      full-width sign is rejected by `float`. */
  lemma ParsePriceRejectsFullWidthSign(rest: string)
    ensures ParsePrice("￥" + rest) == None
  {
    var s := "￥" + rest;
    var r1 := RemoveChar(s, '¥');
    assert r1 == ['￥'] + RemoveChar(rest, '¥');
    var r2 := RemoveAll(r1, "/天");
    assert r2 == ['￥'] + RemoveAll(r1[1..], "/天");
    var r3 := RemoveChar(r2, ',');
    assert r3 == ['￥'] + RemoveChar(r2[1..], ',');
    var t := Strip(r3);
    assert SkipSpaces(r3, 0) == 0;
    assert t != [] && t[0] == '￥';
    assert Strip(t) == t by {
      StripIdempotent(r3);
    }
    assert LeadingDigits(t) == 0;
  }
}
