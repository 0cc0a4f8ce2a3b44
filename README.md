# CS2 skin price collector (zelight7/CSP) in Dafny

The collector reads a catalog of CS2 skins. Each catalog row gives a name, the template id of the normal variant and the template id of the dark-gold variant. For every variant that has an id, the collector opens the listing page twice on the Youpin marketplace:

- once with `listType=10` (sale prices);
- once with `listType=30` (daily rent prices).

Each listing shows one button per wear condition, for example `崭新出厂¥2,329` or `崭新出厂¥0.60/天`. The collector reads a price out of each button and builds one record per wear condition. A record holds the sell price, the rent price and the rent-to-sell ratio. Records are written to a CSV report in batches: after every tenth item and after the last item.

The project models this pipeline in six modules:

- `Wrappers`: Python's `None` as an `Option`.
- `Config` (config.py): the five wear conditions in their key order, the listing types, the game id, the base URL and the output directory, as constants.
- `Text`: the Python string built-ins the code relies on, as functions on `seq<char>`. These are `str.isspace`, `str.strip`, `in` on strings, `str.replace(x, '')`, `str(n)` and `float()` on decimal notation.
- `DataProcessor` (data_processor.py):
  - `Item` and its stripping constructor;
  - the `read_items_csv` row filter, as a method over rows already split into fields;
  - `PriceRecord` with `rent_ratio` and `to_dict`;
  - the header and rows `save_results_csv` writes;
  - `build_url`, with a parser that reads a URL back;
  - `parse_price`.
- `PriceExtraction` (scraper.py:205-296):
  - `_extract_price_from_text`. Its three regular expressions are written out as a scanner: `Search` is `re.search` and `MatchAt` is the greedy match at one start position.
  - `_parse_prices_from_page`, as a method with the source's nested loop and `break`. It is specified by a fold over the button texts.
- `Scraper` (scraper.py:152-403). The class `YoupinScraper` has these fields:
  - `records`, which is `self.records`;
  - `trace`, the visits, delays and saves done so far;
  - the browser `page` and the `clock`, both as parameters.

  Its methods are `GetPricesFromPage`, `RandomDelay`, `ScrapeItem`, `ProcessItem` (one turn of the loop of `run`) and `Run`. Each method is proved against a specification function on values: `ScrapeItemSpec` for a scrape, `ItemStep` and `RunUpTo` for the run. The lemmas about those functions state the batch schedule of one turn, that no record is lost or reordered, that every save is a nonempty batch, and which path `run` returns.

Prices are exact decimal values (`real`): the numeral with its thousands separators removed. `page(n, url)` is what the browser shows when `url` is loaded as the `n`-th event of the trace. It is either `Failure` (the visit raised) or the texts of the wear buttons. `clock(n)` is the time stamp read when a batch is saved after `n` events. `raises(i)` says whether processing the `i`-th catalog item raises.

## Model

| member | source | states |
|---|---|---|
| Config.WearIndex | config.py:20-26 | every wear condition has a position in the key order of `WEAR_LEVELS`, and the entry at that position is that condition |
| Config.WearLevelsEnumerateWear | config.py:20-26 | `WEAR_LEVELS` lists each of the five wear conditions exactly once, and their labels are pairwise distinct |
| Text.NatToString | data_processor.py:127 | `str(n)` of a natural number is a nonempty digit string whose value is `n`, with no leading zero unless it is "0" |
| Text.PyFloat | scraper.py:291-294 | `float` of empty or all-blank text fails |
| Text.ParseDecimal | scraper.py:291-292 | `float` on unsigned decimal text gives a non-negative value, and only for text containing a digit |
| Text.ParseDecimalWhole | scraper.py:292 | `float` reads a digit string back as its value |
| Text.ParseDecimalFraction | scraper.py:292 | `float` reads `d.f` back as the exact decimal value of `d.f` when `d` or `f` is nonempty |
| Text.UnsignedIsNonNegative | scraper.py:290-292 | text without a minus sign never converts to a negative number |
| Text.PyFloatNeedsDigit | scraper.py:291-294 | `float` rejects every text without a digit, so a group made only of commas and dots takes the `ValueError` path |
| Text.Strip | data_processor.py:16-18 | the result of `strip()` neither starts nor ends with a blank, and is empty only for all-blank text |
| Text.StripIsSlice | data_processor.py:16-18 | `strip()` returns a slice of its input with only blanks before and after it |
| Text.StripIdempotent | data_processor.py:75-77 | stripping a stripped text changes nothing |
| Text.StripTrimmed | data_processor.py:16-18 | a text without surrounding blanks is its own strip |
| Text.Contains | scraper.py:237-243 | `t in s` holds only when `t` is no longer than `s` |
| Text.ContainsAt | scraper.py:237-243 | `t in s` holds whenever `t` occurs at some offset of `s` |
| Text.ContainsHasOccurrence | scraper.py:237-243 | `t in s` holds only when `t` occurs at some offset of `s`, which the lemma returns |
| Text.RemoveChar | scraper.py:290 | `replace(c, '')` never lengthens the text |
| Text.RemoveCharSpec | scraper.py:290 | `replace(c, '')` leaves no `c`, keeps only characters of the input, and is the identity on text without `c` |
| Text.RemoveAll | data_processor.py:149 | `replace('/天', '')` never lengthens the text |
| Text.NumeralIsNumberText | scraper.py:282 | a numeral of the shape `[\d,]+\.?\d*` is made only of digits, commas and dots |
| Text.RemoveSeparators | scraper.py:290 | removing commas from a numeral leaves its fraction intact and its integer part all digits |
| Text.PyFloatOfNumeral | data_processor.py:152 | `float` reads an unsigned numeral without blanks as its exact decimal value |
| Text.RemoveAllPlain | data_processor.py:149 | `replace('/天', '')` keeps unchanged a prefix in which '/' does not occur |
| DataProcessor.NewItem | data_processor.py:15-18 | the `Item` constructor stores every field stripped |
| DataProcessor.NewItemOfTrimmed | data_processor.py:15-18 | building an item from the fields of a stripped item gives that item back |
| DataProcessor.RowItemIsNewItem | data_processor.py:74-78 | the reader's strip followed by the constructor's strip is one strip of the first three raw fields |
| DataProcessor.CatalogItems | data_processor.py:73-78 | the catalog has at most one item per row |
| DataProcessor.CatalogItemsTrimmed | data_processor.py:73-78 | every item read from a catalog has stripped fields |
| DataProcessor.CatalogOfOneRow | data_processor.py:73-78 | a single row gives one item built from its first three fields when it has three fields or more, and none otherwise |
| DataProcessor.CatalogOfConcatenation | data_processor.py:73-78 | the reader is a filter that keeps row order: the items of `a + b` are the items of `a` followed by those of `b` |
| DataProcessor.CatalogDropsShortRows | data_processor.py:74 | the number of items plus the number of rows with fewer than three fields is the number of rows |
| DataProcessor.ReadItems | data_processor.py:69-80 | the loop of `read_items_csv` returns exactly the catalog items of the rows |
| DataProcessor.RentRatio | data_processor.py:34-39 | the ratio exists exactly when sell is positive and rent is non-zero; then ratio × sell = 100 × rent and the ratio is non-zero |
| DataProcessor.RentRatioExamples | data_processor.py:37-39 | sell 100 and rent 5 give 5; a zero or missing sell price or a zero rent price gives no ratio |
| DataProcessor.ToDict | data_processor.py:41-50 | the dictionary has the six report columns in order; sell and rent are blank when missing or zero, and the ratio is blank when undefined |
| DataProcessor.RecordRow | data_processor.py:105-111 | a record's row has one cell per column, and the `k`-th entry of its `to_dict` dictionary pairs the `k`-th column with the `k`-th cell, so each cell is the value the dictionary gives for its column |
| DataProcessor.RecordRowCells | data_processor.py:108-111 | the row holds name, version and wear label as text, sell and rent blank when missing or zero, and the ratio blank when undefined, in column order |
| DataProcessor.FieldNamesDistinct | data_processor.py:105 | no two report columns have the same name |
| DataProcessor.GetAt | data_processor.py:111 | in a dictionary with distinct keys, looking up the `k`-th key gives the `k`-th value |
| DataProcessor.HeaderRow | data_processor.py:105-109 | the header row holds the six column names, in order |
| DataProcessor.OutputPath | data_processor.py:101-102 | the file name of a batch is never empty |
| DataProcessor.OutputPathInjective | data_processor.py:101-102 | batches saved at different time stamps go to different files |
| DataProcessor.SaveResults | data_processor.py:105-113 | the report is the header followed by one row per record in record order, and the returned path is that of the time stamp |
| DataProcessor.BuildUrl | data_processor.py:116-127 | a listing URL starts with `BASE_URL` and ends with the game id parameter |
| DataProcessor.UrlRoundTrip | data_processor.py:116-127 | a listing URL determines the template id and the listing type it was built from |
| DataProcessor.GameIdText | config.py:13 | the game id in every URL is 730 written in decimal |
| DataProcessor.ParsePrice | data_processor.py:145-146 | empty text has no price |
| DataProcessor.DropYenSign | data_processor.py:149 | `replace('¥', '')` removes the sign in front of a numeral and nothing else |
| DataProcessor.CleanedNumeral | data_processor.py:149 | the sign and unit replacements leave exactly the numeral |
| DataProcessor.ParsePriceOfNumeral | data_processor.py:130-154 | on the documented formats (an optional '¥', a numeral with optional separators, an optional "/天"), the result is the numeral's value without separators |
| DataProcessor.ParsePriceRejectsFullWidthSign | data_processor.py:149-154 | the full-width '￥' is not removed, so text starting with it gives no price |
| PriceExtraction.NumRunEnd | scraper.py:282-284 | the run of `[\d,]` at a position is maximal: every character in it is a digit or a comma, and the next one is neither |
| PriceExtraction.NumberEnd | scraper.py:282-284 | the greedy `[\d,]+\.?\d*` match is nonempty and made of digits, commas and dots |
| PriceExtraction.MatchAt | scraper.py:281-288 | a match of any of the three patterns captures a nonempty group of digits, commas and dots |
| PriceExtraction.Search | scraper.py:288 | `re.search` returns the group of a match, which has that same shape |
| PriceExtraction.GroupValue | scraper.py:290-292 | the converted group is never negative |
| PriceExtraction.TryPatterns | scraper.py:287-296 | trying the patterns in order gives a non-negative price or none; which price is stated by `RuleApplies` and `RuleFallsThrough` |
| PriceExtraction.RuleApplies | scraper.py:287-292 | when the first match of the current pattern converts, its value is the price |
| PriceExtraction.RuleFallsThrough | scraper.py:287-294 | when the current pattern finds nothing, or its group holds no digit so that `float` fails, the loop moves on to the next pattern |
| PriceExtraction.ExtractPrice | scraper.py:276-296 | the extraction is total: empty text has no price, and a price is never negative; the price of each rule, under the conditions given there, is stated by `LeftmostCurrencyRuleWins`, `PerDayRuleApplies` and `YuanRuleApplies` |
| PriceExtraction.NumberEndOfNumeral | scraper.py:282 | the greedy number match ends exactly at the end of a numeral that no further digit, separator or dot follows |
| PriceExtraction.GroupValueOfNumeral | scraper.py:290-292 | a captured numeral converts to its value without separators |
| PriceExtraction.SearchSkips | scraper.py:288 | `re.search` passes over start positions where the pattern does not match |
| PriceExtraction.CurrencyMatch | scraper.py:282 | at a yen sign followed by blanks and a numeral, the yen pattern captures exactly that numeral |
| PriceExtraction.LeftmostCurrencyRuleWins | scraper.py:281-292 | when `re.search` finds the yen pattern first right after `a`, at a yen sign followed by blanks and a convertible numeral, that numeral's value is the price, whatever follows |
| PriceExtraction.CurrencyRuleWins | scraper.py:281-292 | when the first yen sign of a text is followed by a convertible number, that number is the price, whatever suffix follows |
| PriceExtraction.NoCurrencyNoPrefixMatch | scraper.py:282 | the yen pattern finds nothing in text without '¥' or '￥' |
| PriceExtraction.NoNumCharNoMatch | scraper.py:282-284 | no pattern finds anything in text without a digit or a comma |
| PriceExtraction.SuffixTextNoCurrency | scraper.py:283-284 | a per-day or yuan price text built without yen signs contains none |
| PriceExtraction.SuffixNumberEnd | scraper.py:283-284 | in such a text the greedy number match at the numeral ends exactly at its end |
| PriceExtraction.SuffixUnitAfterBlanks | scraper.py:283-284 | after the numeral and its blanks comes the unit |
| PriceExtraction.SuffixMatchAt | scraper.py:283-284 | a suffix pattern matches at a number followed by blanks and its unit, capturing the number |
| PriceExtraction.SuffixSearch | scraper.py:283-288 | `re.search` finds that number when the pattern matches at no earlier position |
| PriceExtraction.PlainPrefixNoSuffix | scraper.py:283-288 | a suffix pattern cannot match inside a prefix with no digit or comma |
| PriceExtraction.SuffixRuleReached | scraper.py:281-294 | when the earlier patterns find nothing, the extraction is the loop from the suffix pattern on, and that pattern finds the number |
| PriceExtraction.PerDayFound | scraper.py:281-294 | in a text with no yen sign anywhere and no digit or comma before the numeral, the per-day pattern finds the numeral that blanks and "/天" follow, and decides the extraction |
| PriceExtraction.PerDayRuleApplies | scraper.py:281-292 | in a text with no yen sign anywhere and no digit or comma before the numeral, a numeral followed by blanks and "/天" is the price; an earlier number would be found first instead |
| PriceExtraction.NumeralTailEnd | scraper.py:284 | from any position inside a numeral except its dot, the greedy number match ends at the numeral's end |
| PriceExtraction.PerDayMissesAt | scraper.py:283 | the per-day pattern cannot match at a number followed by blanks and "元" |
| PriceExtraction.YuanTextHasNoPerDay | scraper.py:283-284 | in a text whose only digits and commas are those of the numeral before blanks and "元", the per-day pattern finds nothing, even if "/天" occurs after "元" |
| PriceExtraction.YuanFound | scraper.py:281-294 | in a text with no yen sign anywhere whose only digits and commas are those of the numeral before blanks and "元", both earlier patterns find nothing and the yuan pattern finds that numeral |
| PriceExtraction.YuanRuleApplies | scraper.py:281-294 | in a text with no yen sign anywhere whose only digits and commas are those of the numeral, a numeral followed by blanks and "元" is the price; another number before or after it could be found first by this or the per-day pattern |
| PriceExtraction.NoNumberNoPrice | scraper.py:287-296 | a text without digits or commas has no price |
| PriceExtraction.SaleNumeral | scraper.py:266 | "2,329" is a numeral whose value without separators is 2329 |
| PriceExtraction.RentNumeral | scraper.py:267 | "0.60" is a numeral whose value is 0.6 |
| PriceExtraction.LabelHasNoNumber | config.py:20-26 | no wear label contains a yen sign, a digit or a comma |
| PriceExtraction.SalePriceExample | scraper.py:266-292 | "…¥2,329" yields 2329 after any text without a yen sign, such as a wear label |
| PriceExtraction.RentPriceExample | scraper.py:267-292 | "…¥0.60/天" after a text without a yen sign yields 0.6 |
| PriceExtraction.PriorityExample | scraper.py:281-292 | "…¥5 0.60/天" after a text without a yen sign yields 5, not the 0.6 the per-day pattern would give: the yen rule is tried first |
| PriceExtraction.FiveNumeral | scraper.py:282 | "5" is a numeral whose value is 5 |
| PriceExtraction.YuanExample | scraper.py:284 | "…2,329元" after a text with no yen sign, digit or comma yields 2329 |
| PriceExtraction.PerDayExample | scraper.py:283 | "…0.60/天" after a text with no yen sign, digit or comma yields 0.6 |
| PriceExtraction.YenNumeralExtraction | scraper.py:282-292 | a yen-prefixed numeral, with or without "/天", yields its value |
| PriceExtraction.ParsePriceAgreesWithExtraction | data_processor.py:130-154 | on yen-prefixed numerals `parse_price` and the extraction agree and both find a price |
| PriceExtraction.AllNone | scraper.py:216 | the initial map has all five wear conditions as keys, each without a price |
| PriceExtraction.ContributionSpec | scraper.py:231-250 | a button contributes nothing when it is skipped, names no wear or has no price; otherwise it contributes the first wear label it contains, with the extracted price |
| PriceExtraction.FirstWearFrom | scraper.py:242-250 | the wear loop from a given position stops at the first label the text contains |
| PriceExtraction.FirstWear | scraper.py:242-250 | the wear a button names is the first one, in `WEAR_LEVELS` order, whose label it contains; none when it contains no label |
| PriceExtraction.Collect | scraper.py:216-259 | folding contributions keeps all five wear conditions as keys |
| PriceExtraction.Contributions | scraper.py:228 | one contribution per button |
| PriceExtraction.ParseTexts | scraper.py:205-259 | the parsed page always maps exactly the five wear conditions |
| PriceExtraction.ContributionsAt | scraper.py:228-250 | the `j`-th contribution is that of the `j`-th button |
| PriceExtraction.ParseTextsSnoc | scraper.py:228-250 | one more button is one more turn of the loop |
| PriceExtraction.SkippedTextChangesNothing | scraper.py:231-239 | an empty button, or one containing "StatTrak" or '★', leaves the prices unchanged |
| PriceExtraction.ApplyChangesOneEntry | scraper.py:242-250 | a button changes only the entry of the first label it contains, and only when a price can be read from it |
| PriceExtraction.CollectNone | scraper.py:242-250 | a wear condition has no price exactly when no contribution names it |
| PriceExtraction.CollectLastWins | scraper.py:247-248 | a price comes from the last contribution that names its wear condition |
| PriceExtraction.ParseTextsNone | scraper.py:216-250 | on a page, a wear condition stays `None` exactly when no button contributes to it |
| PriceExtraction.ParseTextsLastWins | scraper.py:247-248 | on a page, later buttons overwrite earlier ones for the same wear condition |
| PriceExtraction.ParsePricesFromPage | scraper.py:205-259 | the loop with its `continue` and `break` computes exactly the fold over the buttons |
| PriceExtraction.FactoryNewButton | scraper.py:242-250 | a button starting with "崭新出厂" and carrying a price contributes that price to Factory New |
| PriceExtraction.StatTrakButtonExample | scraper.py:236-239 | a "★ StatTrak™" toggle contributes nothing |
| Scraper.Lookup | scraper.py:336-337 | `dict.get` on a price map with all wear conditions is its entry, and a found price has its key in the map |
| Scraper.PagePrices | scraper.py:175-195 | whether the visit failed or loaded, the prices map all five wear conditions |
| Scraper.ScrapeVersionsSnoc | scraper.py:316-339 | scraping one more variant is one more turn of the loop of `scrape_item` |
| Scraper.Kept | scraper.py:316-318 | no more variants are scraped than the item has; which ones is stated by `KeptAppend`, `KeptOne` and `KeptMember` |
| Scraper.KeptAppend | scraper.py:316-318 | the variants scraped from `a + b` are those of `a` followed by those of `b` |
| Scraper.KeptOne | scraper.py:316-318 | a single variant is scraped exactly when its template id is not empty |
| Scraper.KeptMember | scraper.py:316-318 | every scraped variant has a template id and is one of the item's variants |
| Scraper.VariantRecordsAt | scraper.py:331-339 | the `k`-th record of a variant is that of the `k`-th wear condition, with the price each page has for it |
| Scraper.VariantAtUniform | scraper.py:322-339 | every scraped variant adds five records and four events |
| Scraper.ScrapeItemSpec | scraper.py:298-345 | an item yields five records and four events per variant with a template id |
| Scraper.ScrapeVersionsLength | scraper.py:316-339 | `scrape_item` returns five records and causes four events per variant with a template id |
| Scraper.ScrapeVersionsRecordAt | scraper.py:316-339 | record `k` is record `k % 5` of scraped variant `k / 5` |
| Scraper.ScrapeVersionsEventAt | scraper.py:316-328 | event `k` is event `k % 4` of scraped variant `k / 4` |
| Scraper.ScrapedRecordAt | scraper.py:316-339 | record `k` pairs the sell and rent prices of wear `k % 5` from the two pages of variant `k / 5`, including when a visit failed |
| Scraper.ScrapedEventAt | scraper.py:316-328 | each scraped variant visits its sell page, waits, visits its rent page and waits, in that order |
| Scraper.KeptVersions | scraper.py:311-318 | the normal variant is scraped before the dark-gold one, each only when its template id is not empty |
| Scraper.ItemScrapeSavesNothing | scraper.py:298-345 | scraping an item never saves a batch |
| Scraper.SavedRecordsAppend | scraper.py:389-395 | the records saved by consecutive event sequences are concatenated |
| Scraper.LastSavedAppend | scraper.py:392 | the last save of consecutive event sequences is that of the later one, if it has one |
| Scraper.NoSaves | scraper.py:389-395 | events without saves add no records and keep the last save |
| Scraper.OneSave | scraper.py:389-395 | one save after save-free events saves exactly its batch at its path |
| Scraper.ItemStep | scraper.py:379-398 | a turn of the `run` loop only appends to the trace |
| Scraper.RunUpTo | scraper.py:379-398 | the run only appends to the trace |
| Scraper.ItemStepSchedule | scraper.py:380-395 | a turn appends the item's visits and a save of the whole buffer exactly when the item did not raise, `(i + 1) % BATCH_SIZE == 0` or it is the last item, and the buffer is not empty; then the buffer is empty and `output_file` is the new path, otherwise the buffer is extended unless the item raised |
| Scraper.RunTurnSchedule | scraper.py:379-395 | turn `k` of the run follows that schedule |
| Scraper.RunFlushPointEmptiesBuffer | scraper.py:389-395 | a turn on every tenth item or on the last item that does not raise leaves the buffer empty |
| Scraper.ItemStepConserves | scraper.py:382-395 | a turn of the `run` loop moves the buffer plus the new records, in order, into the saved batch and the new buffer; a raising item adds nothing |
| Scraper.ItemStepOutput | scraper.py:390-393 | after a turn, `output_file` is the path of the batch saved, or unchanged when none was saved |
| Scraper.ItemStepBatches | scraper.py:390-392 | a turn saves only a nonempty buffer, to a named file |
| Scraper.RunConservesRecords | scraper.py:379-398 | no record is lost or reordered: the records of the items that did not raise are the saved batches followed by the buffer |
| Scraper.RunOutputIsLastSave | scraper.py:376-403 | `output_file` is the path of the last batch saved |
| Scraper.ConservesStep | scraper.py:382-395 | one turn keeps the records of the items that did not raise equal, in order, to the saved batches followed by the buffer |
| Scraper.RunSavesNonEmptyBatches | scraper.py:390-392 | every batch the run saves is nonempty and has a name |
| Scraper.LastSavedEmpty | scraper.py:399-401 | with named files, there is no last save exactly when nothing was saved |
| Scraper.RunOutputEmptyIffNothingSaved | scraper.py:399-403 | `run` returns "" exactly when it saved no batch |
| Scraper.RunEndsFlushed | scraper.py:390-395 | when the last item does not raise, the buffer is empty at the end |
| Scraper.RunSavesAllCollected | scraper.py:379-398 | when the last item does not raise, the saved batches hold, in order, every record of every item that did not raise |
| Scraper.RunEndsUnflushedWhenLastRaises | scraper.py:385-387 | when the last item raises, the batch check is skipped and the buffer and output stay as they were |
| Scraper.YoupinScraper.FailedVisitHasNoPrices | scraper.py:175-195 | a visit that raised yields no price for any wear condition |
| Scraper.YoupinScraper.LoadedVisitIsParsed | scraper.py:179-185 | a visit that loaded yields the parsed prices of its buttons |
| Scraper.YoupinScraper.constructor | scraper.py:39-54 | a new scraper has an empty buffer and an empty trace |
| Scraper.YoupinScraper.GetPricesFromPage | scraper.py:163-195 | one visit of `build_url(id, lt)` recorded in the trace; the prices are those of the page, or none when the visit failed |
| Scraper.YoupinScraper.RandomDelay | scraper.py:152-161 | one delay recorded in the trace, and nothing else changes |
| Scraper.YoupinScraper.ScrapeVariantPages | scraper.py:322-339 | the sell visit, a delay, the rent visit, a delay, and one record per wear condition in order |
| Scraper.YoupinScraper.ScrapeItem | scraper.py:298-345 | the records and events of `scrape_item` are those of its specification, and the buffer is unchanged |
| Scraper.YoupinScraper.ProcessItem | scraper.py:380-395 | one turn of the `run` loop: scrape the item; unless it raised, extend the buffer and flush a nonempty buffer at every tenth and at the last item |
| Scraper.YoupinScraper.Run | scraper.py:347-403 | an empty catalog or a failed connection returns "" with no visit; otherwise the state and the result are those of the loop specification |

## Left out

- The browser is not modelled: DrissionPage, `page.get`, `ele_displayed`, `eles`, `.text`, and the fallback selector at scraper.py:220-224. It is the parameter `page`, whose answer is a failure or the button texts in page order.
- `_wait_for_content` (scraper.py:197-203) is left out: it only waits and swallows its own timeout.
- `connect` and `start_chrome` (scraper.py:56-150) are not modelled (process launch, retries, sleeps); their outcome is the `connected` input of `Run`.
- `random_delay` does not model randomness or sleeping (scraper.py:152-161); it is a `Delay` event. The bounds `MIN_DELAY`/`MAX_DELAY` are therefore not used.
- `main`, logging and all printing (scraper.py:25-33, 369-371, 406-435) are left out as pure I/O.
- test_page_structure.py is not part of this model; it is an interactive diagnostic tool.
- File handling is not modelled: opening, encodings, `os.makedirs` and CSV quoting. `read_items_csv` starts from rows already split into fields, and `save_results_csv` returns the rows it would write.
- DataProcessor.OutputPath: joins the output directory and the file name with "/", while `os.path.join` (data_processor.py:102) uses the platform's separator, which is `\` on Windows.
- Nothing constrains `clock`: two saves get distinct file names only when their stamps differ (`OutputPathInjective`). With equal stamps, the source's `open(..., 'w')` (data_processor.py:107) would overwrite the earlier file. The model keeps both `Saved` events, so `RunSavesAllCollected` is about the batches saved, not the files left on disk.
- `datetime.now()` is the `clock` parameter; its value is a `YYYYMMDD_HHMMSS` string.
- Prices are exact reals, not IEEE doubles, and CSV cells hold values, not their text. Python's float repr and the `:.4f` formatting of the ratio (data_processor.py:47-49) are not modelled.
- Text.PyFloat: does not accept exponents, `inf`/`nan`, underscores or non-ASCII digits, which Python's `float()` also reads; only a sign and decimal notation are modelled.
- RegEx `\d` and `\s`: `\d` is ASCII digits only, while Python's `str` patterns also match other Unicode decimal digits. `\s` and `strip()` use Python's `isspace` set.
- DataProcessor.ParsePrice: its contract only states the empty-input case. Its values on other inputs are stated by `ParsePriceOfNumeral`, `ParsePriceRejectsFullWidthSign` and `ParsePriceAgreesWithExtraction`, not for every text.
- `parse_price` is imported by scraper.py but never called there. It is modelled on its own and compared with the extraction.
- The per-button `try`/`except` of `_parse_prices_from_page` (scraper.py:252-254) and the outer one (scraper.py:256-257) are not modelled. What can raise inside them is the browser: reading `.text` of a button, and the `self.page.eles(...)` lookups at scraper.py:220-224 under the outer one. The browser is the `page` parameter, and the model's texts are given.
- An exception inside `scrape_item` is modelled as happening once the item's visits are done: the visits stay in the trace, its records are dropped, and the batch check is skipped. An exception part-way through the visits is not modelled.
- `Event.Visit` records the template id and listing type rather than the URL text. `UrlRoundTrip` shows that the URL determines both, so nothing is lost.
- Scraper.YoupinScraper.GetPricesFromPage: its result is stated through the ghost field `observed`, which `Valid()` ties to `PagePrices` of the browser's answer for `BuildUrl(templateId, listType)`.
- `RunState.collected` and the ghost `collected` parameters of `ProcessItem` do not exist in the source. They record the records of every item that did not raise, so that the conservation lemmas can state what the run should save.
- When the last catalog item raises, the `continue` at scraper.py:387 skips the final flush. Records buffered since the last save are then never written, and `run` returns an earlier path or "". `RunEndsUnflushedWhenLastRaises` states this behaviour as written.
- The `use_existing_browser`/`AUTO_START_CHROME` settings of the constructor (scraper.py:39-54) drive only the browser connection, and are left out with it.
