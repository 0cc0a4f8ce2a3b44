/** The collection loop of `YoupinScraper` (scraper.py): for every catalog item
    and each of its variants it visits the sell and the rent listing, turns the
    two pages into one record per wear condition, and saves the records in
    batches.

    The browser and the clock are parameters of the scraper: `page(n, url)` is
    what the browser shows when `url` is visited as the `n`-th event of the
    trace (a list of button texts, or a failure for an exception), and
    `clock(n)` is the time stamp read when a batch is saved after `n` events. */
module Scraper {
  import opened Wrappers
  import opened Config
  import opened DataProcessor
  import opened PriceExtraction

  /** What the browser yields for one visit. */
  datatype PageResult = Failure | Texts(buttons: seq<string>)

  /** What the scraper does to the outside world, in order: load the listing
      page `BuildUrl(templateId, listType)`, wait a random time, or save a batch
      of records to a file. */
  datatype Event = Visit(templateId: string, listType: nat) | Delay | Saved(path: string, batch: seq<PriceRecord>)

  /** `get_prices_from_page` once the page is loaded: its prices, and no price at
      all when the visit raised. */
  function PagePrices(r: PageResult): (m: PriceMap)
    ensures Total(m)
  {
    match r
    case Failure => AllNone()
    case Texts(ts) => ParseTexts(ts)
  }

  /** What `get_prices_from_page` returns for the listing of a template id and a
      listing type, when that visit is the `n`-th event of the trace. */
  type Observation = (nat, string, nat) -> PriceMap

  /** `dict.get`: the entry of `w`, or `None` when it is missing. */
  function Lookup(m: PriceMap, w: Wear): (r: Option<real>)
    ensures Total(m) ==> r == m[w]
    ensures r.Some? ==> w in m
  {
    if w in m then m[w] else None
  }

  const NORMAL: string := "普通"
  const DARK_GOLD: string := "暗金"

  /** The variants of an item in the order they are scraped: a version name and
      a template id. */
  function Versions(item: Item): seq<(string, string)>
  {
    [(NORMAL, item.normalId), (DARK_GOLD, item.darkGoldId)]
  }

  /** The records and the events of scraping some variants. */
  datatype Scrape = Scrape(records: seq<PriceRecord>, events: seq<Event>)

  /** The visits and delays of one variant: sell page, delay, rent page, delay. */
  function VariantEvents(id: string): seq<Event>
  {
    [Visit(id, LIST_TYPE_SELL), Delay, Visit(id, LIST_TYPE_RENT), Delay]
  }

  /** The record of one wear condition: its sell and its rent price, if any. */
  function WearRecord(name: string, version: string, sell: PriceMap, rent: PriceMap, w: Wear): PriceRecord
  {
    PriceRecord(name, version, w, Lookup(sell, w), Lookup(rent, w))
  }

  /** The loop over the wear conditions `ws`: one record each, in order. */
  function WearRecords(name: string, version: string, sell: PriceMap, rent: PriceMap, ws: seq<Wear>): seq<PriceRecord>
  {
    if ws == [] then []
    else WearRecords(name, version, sell, rent, ws[..|ws| - 1]) + [WearRecord(name, version, sell, rent, ws[|ws| - 1])]
  }

  /** One record per wear condition, in `WEAR_LEVELS` order. */
  function VariantRecords(name: string, version: string, sell: PriceMap, rent: PriceMap): seq<PriceRecord>
  {
    WearRecords(name, version, sell, rent, WEAR_LEVELS)
  }

  /** Scraping one variant whose first visit is the `start`-th event. */
  function ScrapeVariant(obs: Observation, start: nat, name: string, version: string, id: string): Scrape
  {
    var sell := obs(start, id, LIST_TYPE_SELL);
    var rent := obs(start + 2, id, LIST_TYPE_RENT);
    Scrape(VariantRecords(name, version, sell, rent), VariantEvents(id))
  }

  /** Scraping one variant, given the number of events the item has caused
      before it, its version name and its template id. */
  type VariantScraper = (nat, string, string) -> Scrape

  /** `scrape_item`'s scraping of one variant of the item `name`, whose first
      event is the `start`-th one. */
  function VariantAt(obs: Observation, start: nat, name: string): VariantScraper
  {
    (n: nat, version: string, id: string) => ScrapeVariant(obs, start + n, name, version, id)
  }

  /** One turn of the loop of `scrape_item`: variant `v` after the scrape `prev`;
      a variant with an empty template id is skipped. */
  function VersionStep(variant: VariantScraper, prev: Scrape, v: (string, string)): Scrape
  {
    if v.1 == [] then prev
    else
      var cur := variant(|prev.events|, v.0, v.1);
      Scrape(prev.records + cur.records, prev.events + cur.events)
  }

  /** The loop of `scrape_item` over the variants `vs`. */
  function ScrapeVersions(variant: VariantScraper, vs: seq<(string, string)>): Scrape
  {
    if vs == [] then Scrape([], [])
    else VersionStep(variant, ScrapeVersions(variant, vs[..|vs| - 1]), vs[|vs| - 1])
  }

  lemma ScrapeVersionsSnoc(variant: VariantScraper, vs: seq<(string, string)>, v: (string, string))
    ensures ScrapeVersions(variant, vs + [v]) == VersionStep(variant, ScrapeVersions(variant, vs), v)
  {
    var w := vs + [v];
    assert w[..|w| - 1] == vs;
  }

  /** `scrape_item` from the `start`-th event on. */
  function ScrapeItemSpec(obs: Observation, start: nat, item: Item): (sc: Scrape)
    ensures |sc.records| == |WEAR_LEVELS| * |Kept(Versions(item))|
    ensures |sc.events| == 4 * |Kept(Versions(item))|
  {
    VariantAtUniform(obs, start, item.name);
    ScrapeVersionsLength(VariantAt(obs, start, item.name), Versions(item));
    ScrapeVersions(VariantAt(obs, start, item.name), Versions(item))
  }

  /** The variants that are scraped: those with a template id. */
  function Kept(vs: seq<(string, string)>): (r: seq<(string, string)>)
    ensures |r| <= |vs|
  {
    if vs == [] then []
    else Kept(vs[..|vs| - 1]) + (if vs[|vs| - 1].1 == [] then [] else [vs[|vs| - 1]])
  }

  /** Filtering distributes over concatenation. */
  lemma {:induction false} KeptAppend(a: seq<(string, string)>, b: seq<(string, string)>)
    ensures Kept(a + b) == Kept(a) + Kept(b)
    decreases |b|
  {
    if b == [] {
      assert a + b == a;
    } else {
      var b' := b[..|b| - 1];
      assert (a + b)[..|a + b| - 1] == a + b';
      assert (a + b)[|a + b| - 1] == b[|b| - 1];
      KeptAppend(a, b');
    }
  }

  /** A single variant is kept exactly when it has a template id. */
  lemma KeptOne(v: (string, string))
    ensures Kept([v]) == if v.1 == [] then [] else [v]
  {
    assert [v][..0] == [];
  }

  /** Every kept variant is a variant of `vs` with a template id. */
  lemma {:induction false} KeptMember(vs: seq<(string, string)>, j: nat)
    requires j < |Kept(vs)|
    ensures Kept(vs)[j].1 != [] && Kept(vs)[j] in vs
    decreases |vs|
  {
    var init := vs[..|vs| - 1];
    if j < |Kept(init)| {
      KeptMember(init, j);
      assert Kept(vs)[j] == Kept(init)[j];
      assert Kept(init)[j] in init;
    } else {
      assert Kept(vs)[j] == vs[|vs| - 1];
    }
  }

  // ---------------------------------------------------------------------------
  // What one item yields

  lemma {:induction false} WearRecordsLength(name: string, version: string, sell: PriceMap, rent: PriceMap, ws: seq<Wear>)
    ensures |WearRecords(name, version, sell, rent, ws)| == |ws|
  {
    if ws != [] {
      WearRecordsLength(name, version, sell, rent, ws[..|ws| - 1]);
    }
  }

  lemma {:induction false} WearRecordsAt(name: string, version: string, sell: PriceMap, rent: PriceMap, ws: seq<Wear>, k: nat)
    requires k < |ws|
    ensures |WearRecords(name, version, sell, rent, ws)| == |ws|
    ensures WearRecords(name, version, sell, rent, ws)[k] == WearRecord(name, version, sell, rent, ws[k])
  {
    var n := |ws| - 1;
    WearRecordsLength(name, version, sell, rent, ws);
    WearRecordsLength(name, version, sell, rent, ws[..n]);
    if k < n {
      WearRecordsAt(name, version, sell, rent, ws[..n], k);
    }
  }

  /** The `k`-th record of a variant is that of the `k`-th wear condition, with
      the price each page has for it. */
  lemma VariantRecordsAt(name: string, version: string, sell: PriceMap, rent: PriceMap, k: nat)
    requires k < |WEAR_LEVELS|
    ensures var r := VariantRecords(name, version, sell, rent);
      |r| == |WEAR_LEVELS| &&
      r[k] == PriceRecord(name, version, WEAR_LEVELS[k], Lookup(sell, WEAR_LEVELS[k]), Lookup(rent, WEAR_LEVELS[k]))
  {
    WearRecordsAt(name, version, sell, rent, WEAR_LEVELS, k);
  }

  /** Every variant scraped adds five records and four events. */
  ghost predicate Uniform(variant: VariantScraper)
  {
    forall n: nat, version: string, id: string ::
      |variant(n, version, id).records| == |WEAR_LEVELS| && |variant(n, version, id).events| == 4
  }

  lemma VariantAtUniform(obs: Observation, start: nat, name: string)
    ensures Uniform(VariantAt(obs, start, name))
  {
    forall n: nat, version: string, id: string
      ensures |VariantAt(obs, start, name)(n, version, id).records| == |WEAR_LEVELS|
      ensures |VariantAt(obs, start, name)(n, version, id).events| == 4
    {
      assert VariantAt(obs, start, name)(n, version, id) == ScrapeVariant(obs, start + n, name, version, id);
      WearRecordsLength(name, version, obs(start + n, id, LIST_TYPE_SELL), obs(start + n + 2, id, LIST_TYPE_RENT), WEAR_LEVELS);
    }
  }

  /** Five records and four events per variant scraped. */
  lemma {:induction false} ScrapeVersionsLength(variant: VariantScraper, vs: seq<(string, string)>)
    requires Uniform(variant)
    ensures |ScrapeVersions(variant, vs).records| == |WEAR_LEVELS| * |Kept(vs)|
    ensures |ScrapeVersions(variant, vs).events| == 4 * |Kept(vs)|
  {
    if vs != [] {
      ScrapeVersionsLength(variant, vs[..|vs| - 1]);
    }
  }

  /** The `k`-th record is record `k % 5` of variant `k / 5`, which the
      `4 * (k / 5)` events of the earlier variants precede. */
  lemma {:induction false} ScrapeVersionsRecordAt(variant: VariantScraper, vs: seq<(string, string)>, k: nat)
    requires Uniform(variant) && k < |WEAR_LEVELS| * |Kept(vs)|
    ensures var sc := ScrapeVersions(variant, vs);
      var j := k / |WEAR_LEVELS|;
      var v := Kept(vs)[j];
      k < |sc.records| && sc.records[k] == variant(4 * j, v.0, v.1).records[k % |WEAR_LEVELS|]
  {
    ScrapeVersionsLength(variant, vs);
    var init := vs[..|vs| - 1];
    var v := vs[|vs| - 1];
    var prev := ScrapeVersions(variant, init);
    ScrapeVersionsLength(variant, init);
    if v.1 == [] {
      ScrapeVersionsRecordAt(variant, init, k);
    } else if k < |WEAR_LEVELS| * |Kept(init)| {
      ScrapeVersionsRecordAt(variant, init, k);
      assert Kept(vs)[k / |WEAR_LEVELS|] == Kept(init)[k / |WEAR_LEVELS|];
    } else {
      assert k / |WEAR_LEVELS| == |Kept(init)| && k - |prev.records| == k % |WEAR_LEVELS|;
      assert Kept(vs)[k / |WEAR_LEVELS|] == v;
    }
  }

  /** The `k`-th event is event `k % 4` of variant `k / 4`. */
  lemma {:induction false} ScrapeVersionsEventAt(variant: VariantScraper, vs: seq<(string, string)>, k: nat)
    requires Uniform(variant) && k < 4 * |Kept(vs)|
    ensures var sc := ScrapeVersions(variant, vs);
      var j := k / 4;
      var v := Kept(vs)[j];
      k < |sc.events| && sc.events[k] == variant(4 * j, v.0, v.1).events[k % 4]
  {
    ScrapeVersionsLength(variant, vs);
    var init := vs[..|vs| - 1];
    var v := vs[|vs| - 1];
    ScrapeVersionsLength(variant, init);
    if v.1 == [] {
      ScrapeVersionsEventAt(variant, init, k);
    } else if k < 4 * |Kept(init)| {
      ScrapeVersionsEventAt(variant, init, k);
      assert Kept(vs)[k / 4] == Kept(init)[k / 4];
    } else {
      assert k / 4 == |Kept(init)|;
      assert Kept(vs)[k / 4] == v;
    }
  }

  /** `scrape_item`'s loop yields five records per variant with a template id:
      record `k` is of variant `k / 5` and wear condition `k % 5`, with the
      prices of that variant's sell page and rent page. */
  lemma ScrapedRecordAt(obs: Observation, start: nat, name: string, vs: seq<(string, string)>, k: nat)
    requires k < |WEAR_LEVELS| * |Kept(vs)|
    ensures var sc := ScrapeVersions(VariantAt(obs, start, name), vs);
      var v := Kept(vs)[k / |WEAR_LEVELS|];
      var w := WEAR_LEVELS[k % |WEAR_LEVELS|];
      var n := start + 4 * (k / |WEAR_LEVELS|);
      |sc.records| == |WEAR_LEVELS| * |Kept(vs)| &&
      sc.records[k] == PriceRecord(name, v.0, w, Lookup(obs(n, v.1, LIST_TYPE_SELL), w), Lookup(obs(n + 2, v.1, LIST_TYPE_RENT), w))
  {
    var variant := VariantAt(obs, start, name);
    VariantAtUniform(obs, start, name);
    ScrapeVersionsLength(variant, vs);
    ScrapeVersionsRecordAt(variant, vs, k);
    var j := k / |WEAR_LEVELS|;
    var v := Kept(vs)[j];
    var n := start + 4 * j;
    var sell, rent := obs(n, v.1, LIST_TYPE_SELL), obs(n + 2, v.1, LIST_TYPE_RENT);
    assert variant(4 * j, v.0, v.1) == ScrapeVariant(obs, n, name, v.0, v.1);
    assert ScrapeVariant(obs, n, name, v.0, v.1).records == VariantRecords(name, v.0, sell, rent);
    VariantRecordsAt(name, v.0, sell, rent, k % |WEAR_LEVELS|);
  }

  /** `scrape_item`'s events come in groups of four per variant with a template
      id: its sell page, a delay, its rent page, a delay. */
  lemma ScrapedEventAt(obs: Observation, start: nat, name: string, vs: seq<(string, string)>, k: nat)
    requires k < 4 * |Kept(vs)|
    ensures var sc := ScrapeVersions(VariantAt(obs, start, name), vs);
      var id := Kept(vs)[k / 4].1;
      |sc.events| == 4 * |Kept(vs)| &&
      sc.events[k] == (if k % 4 == 0 then Visit(id, LIST_TYPE_SELL)
                       else if k % 4 == 2 then Visit(id, LIST_TYPE_RENT)
                       else Delay)
  {
    var variant := VariantAt(obs, start, name);
    VariantAtUniform(obs, start, name);
    ScrapeVersionsLength(variant, vs);
    ScrapeVersionsEventAt(variant, vs, k);
    var v := Kept(vs)[k / 4];
    assert variant(4 * (k / 4), v.0, v.1) == ScrapeVariant(obs, start + 4 * (k / 4), name, v.0, v.1);
  }

  /** `scrape_item` scrapes the normal variant, then the dark-gold one, each only
      when its template id is not empty. */
  lemma KeptVersions(item: Item)
    ensures Kept(Versions(item)) ==
      (if item.normalId == [] then [] else [(NORMAL, item.normalId)]) +
      (if item.darkGoldId == [] then [] else [(DARK_GOLD, item.darkGoldId)])
  {
    var vs := Versions(item);
    assert vs[..1] == [(NORMAL, item.normalId)];
    assert vs[..1][..0] == [];
  }

  // ---------------------------------------------------------------------------
  // The run loop

  /** `scrape_item`, from the `n`-th event on. */
  type ItemScraper = (nat, Item) -> Scrape

  /** `scrape_item` over the prices `obs`. */
  function ItemScrape(obs: Observation): ItemScraper
  {
    (start: nat, item: Item) => ScrapeItemSpec(obs, start, item)
  }

  /** No event in `es` is a save. */
  predicate SavesNothing(es: seq<Event>)
  {
    forall j :: 0 <= j < |es| ==> !es[j].Saved?
  }

  /** Scraping an item saves nothing. */
  lemma ItemScrapeSavesNothing(obs: Observation)
    ensures forall start: nat, item: Item :: SavesNothing(ItemScrape(obs)(start, item).events)
  {
    forall start: nat, item: Item ensures SavesNothing(ItemScrape(obs)(start, item).events) {
      var vs := Versions(item);
      var es := ScrapeItemSpec(obs, start, item).events;
      VariantAtUniform(obs, start, item.name);
      ScrapeVersionsLength(VariantAt(obs, start, item.name), vs);
      forall j | 0 <= j < |es| ensures !es[j].Saved? {
        ScrapedEventAt(obs, start, item.name, vs, j);
      }
    }
  }

  /** The batch size of `run`: a batch is saved after every tenth item and after
      the last one. */
  const BATCH_SIZE: nat := 10

  predicate IsFlushPoint(i: nat, n: nat)
  {
    (i + 1) % BATCH_SIZE == 0 || i + 1 == n
  }

  /** `self.records`, the trace so far and `output_file`; `collected` lists the
      records of every item that did not raise, which the run is meant to save. */
  datatype RunState = RunState(buffer: seq<PriceRecord>, trace: seq<Event>, output: string,
                               collected: seq<PriceRecord>)

  /** One iteration of the loop of `run`, for the `i`-th of `n` items. When
      `raises` holds, `scrape_item` raises after its visits: its records are
      dropped and the batch check is skipped (`continue`). */
  function ItemStep(scrape: ItemScraper, clock: nat -> string, s: RunState,
                    i: nat, n: nat, item: Item, raises: bool): (r: RunState)
    ensures |s.trace| <= |r.trace| && r.trace[..|s.trace|] == s.trace
  {
    var sc := scrape(|s.trace|, item);
    var trace := s.trace + sc.events;
    if raises then RunState(s.buffer, trace, s.output, s.collected)
    else
      var buffer := s.buffer + sc.records;
      var collected := s.collected + sc.records;
      if IsFlushPoint(i, n) && buffer != [] then
        var path := OutputPath(clock(|trace|));
        RunState([], trace + [Saved(path, buffer)], path, collected)
      else RunState(buffer, trace, s.output, collected)
  }

  /** The state after the first `k` items. */
  function RunUpTo(scrape: ItemScraper, clock: nat -> string, init: RunState,
                   items: seq<Item>, raises: nat -> bool, k: nat): (r: RunState)
    requires k <= |items|
    ensures |init.trace| <= |r.trace| && r.trace[..|init.trace|] == init.trace
  {
    if k == 0 then init
    else ItemStep(scrape, clock, RunUpTo(scrape, clock, init, items, raises, k - 1), k - 1, |items|, items[k - 1], raises(k - 1))
  }

  /** The records an event saves: the batch of a save, nothing otherwise. */
  function SavedBy(e: Event): seq<PriceRecord>
  {
    if e.Saved? then e.batch else []
  }

  /** The records of the batches saved in `es`, in order. */
  function SavedRecords(es: seq<Event>): seq<PriceRecord>
  {
    if es == [] then []
    else SavedRecords(es[..|es| - 1]) + SavedBy(es[|es| - 1])
  }

  /** The path of the last batch saved in `es`, or `none` when there is none. */
  function LastSaved(none: string, es: seq<Event>): string
  {
    if es == [] then none
    else if es[|es| - 1].Saved? then es[|es| - 1].path
    else LastSaved(none, es[..|es| - 1])
  }

  lemma {:induction false} SavedRecordsAppend(a: seq<Event>, b: seq<Event>)
    ensures SavedRecords(a + b) == SavedRecords(a) + SavedRecords(b)
  {
    if b == [] {
      assert a + b == a;
    } else {
      var n := |b| - 1;
      var ab := a + b;
      assert ab[..|ab| - 1] == a + b[..n];
      assert ab[|ab| - 1] == b[n];
      SavedRecordsAppend(a, b[..n]);
      calc {
        SavedRecords(ab);
        SavedRecords(a + b[..n]) + SavedBy(b[n]);
        (SavedRecords(a) + SavedRecords(b[..n])) + SavedBy(b[n]);
        SavedRecords(a) + (SavedRecords(b[..n]) + SavedBy(b[n]));
      }
    }
  }

  lemma {:induction false} LastSavedAppend(none: string, a: seq<Event>, b: seq<Event>)
    ensures LastSaved(none, a + b) == LastSaved(LastSaved(none, a), b)
  {
    if b == [] {
      assert a + b == a;
    } else {
      var n := |b| - 1;
      var ab := a + b;
      assert ab[..|ab| - 1] == a + b[..n];
      assert ab[|ab| - 1] == b[n];
      LastSavedAppend(none, a, b[..n]);
    }
  }

  /** Events that save nothing add no records and do not change the last save. */
  lemma {:induction false} NoSaves(es: seq<Event>, none: string)
    requires SavesNothing(es)
    ensures SavedRecords(es) == [] && LastSaved(none, es) == none
  {
    if es != [] {
      NoSaves(es[..|es| - 1], none);
    }
  }

  /** A save of `batch` after events that save nothing. */
  lemma OneSave(es: seq<Event>, path: string, batch: seq<PriceRecord>, none: string)
    requires SavesNothing(es)
    ensures SavedRecords(es + [Saved(path, batch)]) == batch
    ensures LastSaved(none, es + [Saved(path, batch)]) == path
  {
    var all := es + [Saved(path, batch)];
    assert all[..|all| - 1] == es;
    NoSaves(es, none);
  }

  /** What a later state appended since `a`, split at an intermediate state `b`. */
  lemma SliceSplit<T>(a: seq<T>, b: seq<T>, c: seq<T>)
    requires |a| <= |b| <= |c| && c[..|b|] == b
    ensures c[|a|..] == b[|a|..] + c[|b|..]
  {
  }

  /** The records an iteration of the loop of `run` adds to the buffer, followed
      by nothing or by a save of the whole buffer: either way, in order, the
      records saved and the new buffer. */
  lemma ItemStepConserves(scrape: ItemScraper, clock: nat -> string, s: RunState,
                          i: nat, n: nat, item: Item, raises: bool, s': RunState)
    requires s' == ItemStep(scrape, clock, s, i, n, item, raises)
    requires SavesNothing(scrape(|s.trace|, item).events)
    ensures var sc := scrape(|s.trace|, item);
      |s.trace| <= |s'.trace| &&
      s.buffer + (if raises then [] else sc.records) == SavedRecords(s'.trace[|s.trace|..]) + s'.buffer
  {
    var sc := scrape(|s.trace|, item);
    var es := s'.trace[|s.trace|..];
    if !raises && IsFlushPoint(i, n) && s.buffer + sc.records != [] {
      assert es == sc.events + [Saved(s'.output, s.buffer + sc.records)];
      OneSave(sc.events, s'.output, s.buffer + sc.records, s.output);
    } else {
      assert es == sc.events;
      NoSaves(sc.events, s.output);
    }
  }

  /** After an iteration of the loop of `run`, `output_file` is the path of the
      batch it saved, or what it was when it saved none. */
  lemma ItemStepOutput(scrape: ItemScraper, clock: nat -> string, s: RunState,
                       i: nat, n: nat, item: Item, raises: bool, s': RunState)
    requires s' == ItemStep(scrape, clock, s, i, n, item, raises)
    requires SavesNothing(scrape(|s.trace|, item).events)
    ensures |s.trace| <= |s'.trace| && LastSaved(s.output, s'.trace[|s.trace|..]) == s'.output
  {
    var sc := scrape(|s.trace|, item);
    var es := s'.trace[|s.trace|..];
    if !raises && IsFlushPoint(i, n) && s.buffer + sc.records != [] {
      assert es == sc.events + [Saved(s'.output, s.buffer + sc.records)];
      OneSave(sc.events, s'.output, s.buffer + sc.records, s.output);
    } else {
      assert es == sc.events;
      NoSaves(sc.events, s.output);
    }
  }

  /** An iteration of the loop of `run` saves only a nonempty batch, at a path
      `OutputPath` gives. */
  lemma ItemStepBatches(scrape: ItemScraper, clock: nat -> string, s: RunState,
                        i: nat, n: nat, item: Item, raises: bool, s': RunState)
    requires s' == ItemStep(scrape, clock, s, i, n, item, raises)
    requires SavesNothing(scrape(|s.trace|, item).events)
    ensures var es := s'.trace[|s.trace|..];
      |s.trace| <= |s'.trace| &&
      forall j :: 0 <= j < |es| && es[j].Saved? ==> es[j].batch != [] && es[j].path != []
  {
    var sc := scrape(|s.trace|, item);
    var es := s'.trace[|s.trace|..];
    if !raises && IsFlushPoint(i, n) && s.buffer + sc.records != [] {
      assert es == sc.events + [Saved(s'.output, s.buffer + sc.records)];
    } else {
      assert es == sc.events;
    }
  }

  /** No record is lost: the initial buffer and the records of every item that
      did not raise are, in order, the saved batches followed by the buffer. */
  lemma {:induction false} RunConservesRecords(scrape: ItemScraper, clock: nat -> string, init: RunState,
                                               items: seq<Item>, raises: nat -> bool, k: nat)
    requires k <= |items| && init.collected == []
    requires forall start: nat, item: Item :: SavesNothing(scrape(start, item).events)
    ensures var s := RunUpTo(scrape, clock, init, items, raises, k);
      |init.trace| <= |s.trace| &&
      init.buffer + s.collected == SavedRecords(s.trace[|init.trace|..]) + s.buffer
  {
    if k > 0 {
      RunConservesRecords(scrape, clock, init, items, raises, k - 1);
      var before := RunUpTo(scrape, clock, init, items, raises, k - 1);
      var s := RunUpTo(scrape, clock, init, items, raises, k);
      ConservesStep(scrape, clock, init, before, k - 1, |items|, items[k - 1], raises(k - 1), s);
    }
  }

  /** One iteration of the loop of `run` keeps the records conserved since the
      state `init`. */
  lemma ConservesStep(scrape: ItemScraper, clock: nat -> string, init: RunState,
                      before: RunState, i: nat, n: nat, item: Item, raises: bool, s: RunState)
    requires s == ItemStep(scrape, clock, before, i, n, item, raises)
    requires SavesNothing(scrape(|before.trace|, item).events)
    requires |init.trace| <= |before.trace|
    requires init.buffer + before.collected == SavedRecords(before.trace[|init.trace|..]) + before.buffer
    ensures |init.trace| <= |s.trace|
    ensures init.buffer + s.collected == SavedRecords(s.trace[|init.trace|..]) + s.buffer
  {
    var added := if raises then [] else scrape(|before.trace|, item).records;
    assert s.collected == before.collected + added;
    ItemStepConserves(scrape, clock, before, i, n, item, raises, s);
    SliceSplit(init.trace, before.trace, s.trace);
    var prev := before.trace[|init.trace|..];
    var ext := s.trace[|before.trace|..];
    SavedRecordsAppend(prev, ext);
    BufferStep(init.buffer, before.collected, added, SavedRecords(prev), SavedRecords(ext), before.buffer, s.buffer);
  }

  /** Moving records from the buffer into saved batches keeps their order. */
  lemma BufferStep<T>(init: seq<T>, collected: seq<T>, added: seq<T>,
                      saved: seq<T>, newlySaved: seq<T>, buffer: seq<T>, buffer': seq<T>)
    requires init + collected == saved + buffer
    requires buffer + added == newlySaved + buffer'
    ensures init + (collected + added) == (saved + newlySaved) + buffer'
  {
    calc {
      init + (collected + added);
      (init + collected) + added;
      (saved + buffer) + added;
      saved + (buffer + added);
      saved + (newlySaved + buffer');
    }
  }

  /** The run's output is the path of the last batch it saved, or the initial
      output when it saved none. */
  lemma {:induction false} RunOutputIsLastSave(scrape: ItemScraper, clock: nat -> string, init: RunState,
                                               items: seq<Item>, raises: nat -> bool, k: nat)
    requires k <= |items|
    requires forall start: nat, item: Item :: SavesNothing(scrape(start, item).events)
    ensures var s := RunUpTo(scrape, clock, init, items, raises, k);
      |init.trace| <= |s.trace| &&
      s.output == LastSaved(init.output, s.trace[|init.trace|..])
  {
    if k > 0 {
      RunOutputIsLastSave(scrape, clock, init, items, raises, k - 1);
      var before := RunUpTo(scrape, clock, init, items, raises, k - 1);
      var s := RunUpTo(scrape, clock, init, items, raises, k);
      ItemStepOutput(scrape, clock, before, k - 1, |items|, items[k - 1], raises(k - 1), s);
      SliceSplit(init.trace, before.trace, s.trace);
      var prev := before.trace[|init.trace|..];
      var ext := s.trace[|before.trace|..];
      LastSavedAppend(init.output, prev, ext);
    }
  }

  /** Every save in `t` from index `from` on holds at least one record and goes
      to a named file. */
  predicate NamedBatchesFrom(t: seq<Event>, from: nat)
  {
    forall j :: from <= j < |t| && t[j].Saved? ==> t[j].batch != [] && t[j].path != []
  }

  /** Every batch the run saves holds at least one record and goes to a named file. */
  lemma {:induction false} RunSavesNonEmptyBatches(scrape: ItemScraper, clock: nat -> string, init: RunState,
                                                   items: seq<Item>, raises: nat -> bool, k: nat)
    requires k <= |items|
    requires forall start: nat, item: Item :: SavesNothing(scrape(start, item).events)
    ensures NamedBatchesFrom(RunUpTo(scrape, clock, init, items, raises, k).trace, |init.trace|)
  {
    if k > 0 {
      RunSavesNonEmptyBatches(scrape, clock, init, items, raises, k - 1);
      var before := RunUpTo(scrape, clock, init, items, raises, k - 1);
      var t := RunUpTo(scrape, clock, init, items, raises, k).trace;
      ItemStepBatches(scrape, clock, before, k - 1, |items|, items[k - 1], raises(k - 1), RunUpTo(scrape, clock, init, items, raises, k));
      var es := t[|before.trace|..];
      forall j | |init.trace| <= j < |t| && t[j].Saved? ensures t[j].batch != [] && t[j].path != [] {
        if j >= |before.trace| {
          assert t[j] == es[j - |before.trace|];
        } else {
          assert t[j] == t[..|before.trace|][j] == before.trace[j];
        }
      }
    }
  }

  /** With named files only, no last save exactly when nothing was saved. */
  lemma {:induction false} LastSavedEmpty(es: seq<Event>)
    requires forall j :: 0 <= j < |es| && es[j].Saved? ==> es[j].path != []
    ensures LastSaved("", es) == "" <==> SavesNothing(es)
  {
    if es != [] {
      var n := |es| - 1;
      LastSavedEmpty(es[..n]);
      assert forall j :: 0 <= j < n ==> es[..n][j] == es[j];
    }
  }

  /** `run` returns "" exactly when it saved no batch. */
  lemma RunOutputEmptyIffNothingSaved(scrape: ItemScraper, clock: nat -> string, init: RunState,
                                      items: seq<Item>, raises: nat -> bool)
    requires init.output == ""
    requires forall start: nat, item: Item :: SavesNothing(scrape(start, item).events)
    ensures var s := RunUpTo(scrape, clock, init, items, raises, |items|);
      |init.trace| <= |s.trace| &&
      (s.output == "" <==> SavesNothing(s.trace[|init.trace|..]))
  {
    var t := RunUpTo(scrape, clock, init, items, raises, |items|).trace;
    RunOutputIsLastSave(scrape, clock, init, items, raises, |items|);
    RunSavesNonEmptyBatches(scrape, clock, init, items, raises, |items|);
    var es := t[|init.trace|..];
    forall j | 0 <= j < |es| && es[j].Saved? ensures es[j].path != [] {
      assert es[j] == t[j + |init.trace|];
    }
    LastSavedEmpty(es);
  }

  /** When the last item does not raise, the run ends with an empty buffer:
      everything collected has been saved. */
  lemma RunEndsFlushed(scrape: ItemScraper, clock: nat -> string, init: RunState,
                       items: seq<Item>, raises: nat -> bool)
    requires |items| > 0 && !raises(|items| - 1)
    ensures RunUpTo(scrape, clock, init, items, raises, |items|).buffer == []
  {
    RunFlushPointEmptiesBuffer(scrape, clock, init, items, raises, |items| - 1);
  }

  /** A run of `scrape_item` over a catalog whose last item does not raise saves,
      in order, every record of every item that did not raise, and nothing else. */
  lemma RunSavesAllCollected(obs: Observation, clock: nat -> string, init: RunState,
                             items: seq<Item>, raises: nat -> bool)
    requires init.buffer == [] && init.collected == []
    requires |items| > 0 && !raises(|items| - 1)
    ensures var s := RunUpTo(ItemScrape(obs), clock, init, items, raises, |items|);
      |init.trace| <= |s.trace| && SavedRecords(s.trace[|init.trace|..]) == s.collected
  {
    var s := RunUpTo(ItemScrape(obs), clock, init, items, raises, |items|);
    ItemScrapeSavesNothing(obs);
    RunConservesRecords(ItemScrape(obs), clock, init, items, raises, |items|);
    RunEndsFlushed(ItemScrape(obs), clock, init, items, raises);
    assert init.buffer + s.collected == s.collected;
    assert SavedRecords(s.trace[|init.trace|..]) + s.buffer == SavedRecords(s.trace[|init.trace|..]);
  }

  /** The batch schedule of one iteration of the loop of `run`: its visits and
      delays, then a save of the whole buffer exactly when the item did not
      raise, it is the tenth of its batch or the last item, and the buffer is
      not empty. */
  lemma ItemStepSchedule(scrape: ItemScraper, clock: nat -> string, s: RunState,
                         i: nat, n: nat, item: Item, raises: bool, s': RunState)
    requires s' == ItemStep(scrape, clock, s, i, n, item, raises)
    ensures var sc := scrape(|s.trace|, item);
      var flush := !raises && ((i + 1) % BATCH_SIZE == 0 || i + 1 == n) && s.buffer + sc.records != [];
      var path := OutputPath(clock(|s.trace| + |sc.events|));
      && s'.trace == s.trace + sc.events + (if flush then [Saved(path, s.buffer + sc.records)] else [])
      && s'.buffer == (if flush then [] else if raises then s.buffer else s.buffer + sc.records)
      && s'.output == (if flush then path else s.output)
      && s'.collected == s.collected + (if raises then [] else sc.records)
  {
  }

  /** The `k`-th turn of `run` follows the batch schedule of `ItemStepSchedule`. */
  lemma RunTurnSchedule(scrape: ItemScraper, clock: nat -> string, init: RunState,
                        items: seq<Item>, raises: nat -> bool, k: nat)
    requires k < |items|
    ensures var s := RunUpTo(scrape, clock, init, items, raises, k);
      var s' := RunUpTo(scrape, clock, init, items, raises, k + 1);
      var sc := scrape(|s.trace|, items[k]);
      var flush := !raises(k) && ((k + 1) % BATCH_SIZE == 0 || k + 1 == |items|) && s.buffer + sc.records != [];
      && s'.trace == s.trace + sc.events
           + (if flush then [Saved(OutputPath(clock(|s.trace| + |sc.events|)), s.buffer + sc.records)] else [])
      && s'.buffer == (if flush then [] else if raises(k) then s.buffer else s.buffer + sc.records)
  {
    var s := RunUpTo(scrape, clock, init, items, raises, k);
    ItemStepSchedule(scrape, clock, s, k, |items|, items[k], raises(k), RunUpTo(scrape, clock, init, items, raises, k + 1));
  }

  /** A turn of `run` on the tenth item of a batch, or on the last item, that
      does not raise leaves the buffer empty. */
  lemma RunFlushPointEmptiesBuffer(scrape: ItemScraper, clock: nat -> string, init: RunState,
                                   items: seq<Item>, raises: nat -> bool, k: nat)
    requires k < |items| && !raises(k) && ((k + 1) % BATCH_SIZE == 0 || k + 1 == |items|)
    ensures RunUpTo(scrape, clock, init, items, raises, k + 1).buffer == []
  {
    RunTurnSchedule(scrape, clock, init, items, raises, k);
  }

  /** When the last item raises, the batch check is skipped for it: the records
      collected since the last save stay in the buffer and are not written. */
  lemma RunEndsUnflushedWhenLastRaises(scrape: ItemScraper, clock: nat -> string, init: RunState,
                                       items: seq<Item>, raises: nat -> bool)
    requires |items| > 0 && raises(|items| - 1)
    ensures var before := RunUpTo(scrape, clock, init, items, raises, |items| - 1);
      var s := RunUpTo(scrape, clock, init, items, raises, |items|);
      s.buffer == before.buffer && s.output == before.output
  {
  }

  // ---------------------------------------------------------------------------
  // The scraper

  class YoupinScraper {
    const page: (nat, string) -> PageResult
    const clock: nat -> string
    /** The prices each visit yields; `Valid` ties it to `page`. */
    ghost const observed: Observation
    /** `self.records`: the records collected since the last save. */
    var records: seq<PriceRecord>
    /** Everything the scraper has done so far. */
    var trace: seq<Event>

    /** `observed` is what the browser's page gives under `PagePrices`. */
    ghost predicate Valid()
    {
      forall n: nat, id: string, lt: nat {:trigger PagePrices(page(n, BuildUrl(id, lt)))} ::
        observed(n, id, lt) == PagePrices(page(n, BuildUrl(id, lt)))
    }

    /** A visit that raised yields no price for any wear condition. */
    lemma FailedVisitHasNoPrices(n: nat, id: string, lt: nat, w: Wear)
      requires Valid() && page(n, BuildUrl(id, lt)) == Failure
      ensures Lookup(observed(n, id, lt), w) == None
    {
      assert observed(n, id, lt) == PagePrices(page(n, BuildUrl(id, lt)));
    }

    /** A visit that loaded yields the prices of the buttons it shows. */
    lemma LoadedVisitIsParsed(n: nat, id: string, lt: nat)
      requires Valid() && page(n, BuildUrl(id, lt)).Texts?
      ensures observed(n, id, lt) == ParseTexts(page(n, BuildUrl(id, lt)).buttons)
    {
      assert observed(n, id, lt) == PagePrices(page(n, BuildUrl(id, lt)));
    }

    constructor(page: (nat, string) -> PageResult, clock: nat -> string)
      ensures this.page == page && this.clock == clock
      ensures Valid()
      ensures records == [] && trace == []
    {
      this.page := page;
      this.clock := clock;
      observed := (n: nat, id: string, lt: nat) => PagePrices(page(n, BuildUrl(id, lt)));
      records := [];
      trace := [];
    }

    /** `get_prices_from_page`: visits the listing and reads its prices. */
    method GetPricesFromPage(templateId: string, listType: nat) returns (prices: PriceMap)
      requires Valid()
      modifies this
      ensures prices == observed(|old(trace)|, templateId, listType)
      ensures trace == old(trace) + [Visit(templateId, listType)]
      ensures records == old(records)
    {
      var url := BuildUrl(templateId, listType);
      var result := page(|trace|, url);
      assert observed(|trace|, templateId, listType) == PagePrices(result);
      trace := trace + [Visit(templateId, listType)];
      match result
      case Failure =>
        prices := AllNone();
      case Texts(ts) =>
        prices := ParsePricesFromPage(ts);
    }

    /** `random_delay`: the wait itself is not modelled, only that it happens. */
    method RandomDelay()
      modifies this
      ensures trace == old(trace) + [Delay]
      ensures records == old(records)
    {
      trace := trace + [Delay];
    }

    /** The body of the loop of `scrape_item` for one variant with a template
        id: the sell page and the rent page, each followed by a delay, then one
        record per wear condition. */
    method ScrapeVariantPages(name: string, versionName: string, templateId: string) returns (recs: seq<PriceRecord>)
      requires Valid()
      modifies this
      ensures var cur := ScrapeVariant(observed, |old(trace)|, name, versionName, templateId);
        recs == cur.records && trace == old(trace) + cur.events
      ensures records == old(records)
    {
      var sell := GetPricesFromPage(templateId, LIST_TYPE_SELL);
      RandomDelay();
      var rent := GetPricesFromPage(templateId, LIST_TYPE_RENT);
      RandomDelay();
      recs := [];
      var j := 0;
      while j < |WEAR_LEVELS|
        invariant 0 <= j <= |WEAR_LEVELS|
        invariant recs == WearRecords(name, versionName, sell, rent, WEAR_LEVELS[..j])
      {
        var wearName := WEAR_LEVELS[j];
        recs := recs + [PriceRecord(name, versionName, wearName, Lookup(sell, wearName), Lookup(rent, wearName))];
        assert WEAR_LEVELS[..j + 1][..j] == WEAR_LEVELS[..j];
        j := j + 1;
      }
      assert WEAR_LEVELS[..j] == WEAR_LEVELS;
    }

    /** `scrape_item`: the records of every variant of `item`. */
    method ScrapeItem(item: Item) returns (recs: seq<PriceRecord>)
      requires Valid()
      modifies this
      ensures var sc := ScrapeItemSpec(observed, |old(trace)|, item);
        recs == sc.records && trace == old(trace) + sc.events
      ensures records == old(records)
    {
      recs := [];
      var versions := Versions(item);
      var i := 0;
      while i < |versions|
        invariant 0 <= i <= |versions|
        invariant records == old(records)
        invariant var sc := ScrapeVersions(VariantAt(observed, |old(trace)|, item.name), versions[..i]);
          recs == sc.records && trace == old(trace) + sc.events
      {
        assert versions[..i + 1] == versions[..i] + [versions[i]];
        ScrapeVersionsSnoc(VariantAt(observed, |old(trace)|, item.name), versions[..i], versions[i]);
        var (versionName, templateId) := versions[i];
        if templateId == [] {
          i := i + 1;
          continue;
        }
        var cur := ScrapeVariantPages(item.name, versionName, templateId);
        recs := recs + cur;
        i := i + 1;
      }
      assert versions[..i] == versions;
    }

    /** One iteration of the loop of `run`, for the `i`-th of `n` items: scrape
        it, add its records to the buffer unless it raised, and save the buffer
        when the batch is complete. */
    method ProcessItem(i: nat, n: nat, item: Item, raised: bool, outputFile: string, ghost collected: seq<PriceRecord>)
      returns (outputFile': string, ghost collected': seq<PriceRecord>)
      requires Valid()
      modifies this
      ensures RunState(records, trace, outputFile', collected') ==
        ItemStep(ItemScrape(observed), clock, RunState(old(records), old(trace), outputFile, collected), i, n, item, raised)
    {
      assert ItemScrape(observed)(|trace|, item) == ScrapeItemSpec(observed, |trace|, item);
      outputFile', collected' := outputFile, collected;
      var recs := ScrapeItem(item);
      if raised {
        return;
      }
      records := records + recs;
      collected' := collected + recs;
      if (i + 1) % BATCH_SIZE == 0 || i + 1 == n {
        if records != [] {
          var path, _ := SaveResults(records, clock(|trace|));
          trace := trace + [Saved(path, records)];
          outputFile' := path;
          records := [];
        }
      }
    }

    /** `run` over the rows of the catalog file. `connected` is the outcome of
        `connect`; `raises(i)` says whether processing the `i`-th item raises. */
    method Run(rows: seq<seq<string>>, connected: bool, raises: nat -> bool) returns (output: string)
      requires Valid()
      modifies this
      ensures var items := CatalogItems(rows);
        if items == [] || !connected then
          output == "" && trace == old(trace) && records == old(records)
        else
          var s := RunUpTo(ItemScrape(observed), clock, RunState(old(records), old(trace), "", []), items, raises, |items|);
          output == s.output && trace == s.trace && records == s.buffer
    {
      var items := ReadItems(rows);
      if items == [] {
        return "";
      }
      if !connected {
        return "";
      }
      ghost var init := RunState(records, trace, "", []);
      ghost var collected := [];
      var outputFile := "";
      var i := 0;
      while i < |items|
        invariant 0 <= i <= |items|
        invariant RunUpTo(ItemScrape(observed), clock, init, items, raises, i) == RunState(records, trace, outputFile, collected)
      {
        outputFile, collected := ProcessItem(i, |items|, items[i], raises(i), outputFile, collected);
        i := i + 1;
      }
      if outputFile == [] {
        return "";
      }
      return outputFile;
    }
  }
}
