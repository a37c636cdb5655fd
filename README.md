# Benco catalogue scraper — a Dafny model of its core

The scraper walks the category listing of the Benco Dental catalogue one page at a
time. For each page it reads the JSON-LD script blocks: `AggregateRating` blocks
fill a ratings map, and the first `OfferCatalog` block gives the category URL and
product total. It then turns each direct child of the `product-grid` div into one
product record, or skips it. A record holds the SKU, cleaned name, price, brand,
availability, category, image, URL, rating and review count. One seen-SKU set is
shared by every page, so a SKU is never saved twice. The orchestrator adds up the
detected, saved and skipped counts. It waits between pages, and at the end it
counts the records that have no price.

The model covers:

- **wrappers.dfy**, **document.dfy**: the `Option`/`Result` types and the parsed page. A page is its JSON-LD blocks (as the keys the scraper reads) plus, when present, the grid's children. Each child is given as its anchors, first image, text and add-to-cart `onclick`.
- **text.dfy**: the character classes and string operations the scraper uses. These are Python's `str.strip()`, `split('?')[0]` and `replace(c, '')`, plus the classes `\s`, `\d`, `\w` and ASCII case folding.
- **patterns.dfy**: ten of the eleven regular expressions of `scraper.py`, each written out as its match relation. This includes greedy quantifiers with their backtracking, case-insensitive matching and `re.search`'s leftmost rule. The eleventh, the `/Product/` filter on anchor links (scraper.py:116), only asks whether the `href` contains that text. It is `Fields.IsProductAnchor` in fields.dfy.
- **query.dfy**: the category-dependent fields of the search query.
- **fields.dfy**: per-item extraction of the product link, SKU, product URL, cleaned name, availability, price and brand.
- **jsonld.dfy**: the ratings map and the category information.
- **listing.dfy**: `parse_products`, a loop over the grid that grows the shared seen-set in place.
- **orchestration.dfy**: `Orchestrator.run`, the page loop with its statistics, page count, delays and error behaviour.

Imperative code stays imperative:

- `parse_products`, `_extract_availability`, `_extract_ratings_from_jsonld`, `get_category_info` and `run` are methods with loops.
- Each such method is proved equal to a specification function, and the properties are proved about that function.
- The seen-set is a class that the methods update in place.
- The orchestrator is a class whose `stats` field accumulates across runs, as the Python object does.

Two behaviours of the code are worth stating up front, because a reader might expect otherwise:

- **Non-numeric catalog item count.** `int()` on a non-integer string raises ValueError, and `get_category_info` does not catch it (scraper.py:245-248), so the run stops. The model returns `Failure(ItemCountNotAnInteger)`. A null, list or object count raises TypeError instead. That is caught, and the search moves on to the next block.
- **`max_pages = 0`.** The comment at main.py:77 says 0 means all pages, but the code fetches none (see Findings).

## Model

| member | source | states |
|---|---|---|
| Text.Strip | scraper.py:148 | `strip()`: the result is empty iff the text is all whitespace; otherwise it starts and ends with non-whitespace, is a contiguous piece of the text, and only whitespace lies around it |
| Text.StripTrimmed | scraper.py:209 | a text that neither starts nor ends with whitespace is unchanged by `strip()` |
| Text.StripIgnoresTrailingSpace | scraper.py:144-148 | trailing whitespace does not change what `strip()` keeps |
| Text.Before | scraper.py:140 | `split('?')[0]`: a prefix of the text without `?`, ending right before the first `?` or at the end |
| Text.Remove | scraper.py:41 | `replace(c, '')`: `c` no longer occurs, every other character is kept, the text does not grow |
| Text.RemoveCount | scraper.py:41 | removal shortens the text by exactly the occurrences removed; other characters keep their counts |
| Text.RemoveAppend | scraper.py:41 | removal distributes over concatenation |
| Text.RemoveAbsent | scraper.py:41 | removing an absent character changes nothing |
| Text.Lower | scraper.py:207 | case folding for `re.I`: each upper-case ASCII letter maps to its own lower-case letter (code point + 32), everything else to itself |
| Patterns.MatchAt | scraper.py:124-229 | the match of each of the ten patterns at `i`, through its own matcher below; a match found starts at `i`, and its group lies inside the whole match and the text |
| Patterns.SkuPathMatch | scraper.py:124 | `/Product/([^/]+)/` at `i`: the literal, then the longest slash-free run, which must be non-empty and be followed by a slash; group 1 is the run |
| Patterns.NameSuffixMatch | scraper.py:145 | the name-cleaning pattern at `i`: an alternative starts there and no line break precedes the last character, and the match runs to the end or to a final line break |
| Patterns.ShipDateMatch | scraper.py:197 | `Estimated Ship Date ` ignoring case, then a date, then ` - ` and a second date when one follows |
| Patterns.InStockInMatch | scraper.py:198 | `In Stock in ` ignoring case, then the longest non-empty run of word characters |
| Patterns.PhraseMatch | scraper.py:199-201 | a fixed phrase, ignoring case, and nothing more |
| Patterns.ShipsInMatch | scraper.py:202 | ignoring case: `Ships in `, a non-empty run of digits, a space, `day`, `week` or `business day` in that order of trial, and an `s` when one follows |
| Patterns.OnclickPriceMatch | scraper.py:225 | a backtick, a comma, any whitespace, then a quote, a non-empty run of digits and dots (group 1) and a quote |
| Patterns.OnclickBrandMatch | scraper.py:229 | a quote, a non-empty run of digits and dots, a quote and a comma, any whitespace, then a backtick, a non-empty backtick-free run (group 1) and a backtick |
| Patterns.SearchFrom | scraper.py:124 | the result is the first position from `i` where the pattern matches, or no position from `i` matches |
| Patterns.Search | scraper.py:207 | `re.search`: the match is at the leftmost position where the pattern matches, and there is none iff no position matches |
| Patterns.SearchIsFirstMatch | scraper.py:225 | a match with no match before it is the one `re.search` returns |
| Patterns.DateEnd | scraper.py:197 | a `d/m/y` date read by the ship-date pattern spans at least six characters and ends on a digit |
| Patterns.YearEnd | scraper.py:197 | `\d{2,4}` takes two to four digits and ends on a digit |
| Patterns.DayOrMonthEnd | scraper.py:197 | `\d{1,2}/` spans two or three characters and ends on the slash |
| Patterns.UnitEnd | scraper.py:202 | a shipping-time unit ends on a letter |
| Query.BuildQuery | scraper.py:32-47 | tab and selection criterion are the category, the page is the page, and the source is `Categories.` followed by the category slug, with no space or `&`; `TabId` and `CategoryId` are 0, grouping and grid display are on, and auto-correction, pricing, complete-cart and general-suggestion are off |
| Query.Slug | scraper.py:41 | spaces removed, then `&` removed; `SlugIsFilter` and `SlugIdempotent` characterise it |
| Query.SlugIsFilter | scraper.py:41 | the slug keeps exactly the characters other than space and `&`, in order; its length is the original minus those |
| Query.SlugIdempotent | scraper.py:41 | slugging a slug changes nothing |
| Query.SlugOfAmpersandPair | scraper.py:41 | a category `A & B` gets the slug `AB` |
| Query.RemoveSpacedAmpersand | scraper.py:41 | removing spaces and then `&` from ` & ` leaves nothing |
| Query.AcrylicsAndRelines | models.py:16 | the default category gives source `Categories.AcrylicsRelines` |
| Fields.FirstProductAnchor | scraper.py:116 | the index is the first anchor from `from` whose `href` contains `/Product/`, or there is none |
| Fields.IsProductAnchor | scraper.py:116 | an anchor qualifies when it has an `href` and `/Product/` occurs in it somewhere; `FirstProductAnchor` and `ProductLink` are stated with it |
| Fields.ProductLink | scraper.py:116-119 | no link iff no anchor has `/Product/` in its `href`; otherwise the link is the first such anchor |
| Fields.SkuOf | scraper.py:124-129 | a SKU, when there is one, is non-empty and has no slash |
| Fields.MatchIsSkuAt | scraper.py:124 | a match of the SKU pattern is `/Product/`, a slash-free SKU and a slash |
| Fields.SkuAtIsMatch | scraper.py:124 | every such occurrence is a match, with group 1 being the SKU |
| Fields.SkuOfIsLeftmost | scraper.py:124-129 | the SKU is the one at the leftmost occurrence |
| Fields.SkuOfOccurs | scraper.py:125-127 | no SKU (the item is skipped) iff the `href` has no occurrence; a SKU that comes out has one |
| Fields.ProductUrl | scraper.py:140 | the URL is the base URL followed by the `href` cut at its first `?`; it contains no `?` |
| Fields.CutsAtIsMatch | scraper.py:145 | the name pattern matches at `i` iff a status marker or a `dddd-ddd` code starts there and no line break comes before the last character |
| Fields.SuffixMatchIsLast | scraper.py:144-147 | after the first match nothing else matches, so `re.sub` removes only that one |
| Fields.WithoutSuffix | scraper.py:144-147 | `re.sub` with "": the text with its first match removed, or the text itself; `SuffixMatchIsLast` shows no second match exists, and `CleanNameCutsAtFirstMarker` gives the result |
| Fields.MarkerLength | scraper.py:145 | every alternative spans at least eight characters without a line break |
| Fields.CleanName | scraper.py:143-148 | the cleaned name starts and ends with non-whitespace and is no longer than the link text |
| Fields.CleanNameCutsAtFirstMarker | scraper.py:144-148 | the cleaned name is the stripped text before the first position where the pattern matches |
| Fields.CleanNameWithoutMarker | scraper.py:144-148 | with no match, the cleaned name is the stripped link text |
| Fields.CleanNameIsStrippedPrefix | scraper.py:144-148 | the cleaned name is the stripped text before a cut point with no match before it |
| Fields.MarkerGivesCut | scraper.py:145 | a status marker in the stripped single-line text before a cut point is a position where the name pattern matches |
| Fields.NoMarkerBeforeCut | scraper.py:145 | a single-line text before the first match contains no status marker |
| Fields.MarkerInInfix | scraper.py:145 | a marker inside a piece of the text is a marker of the whole text |
| Fields.CleanNameHasNoMarker | scraper.py:143-148 | a cleaned single-line name contains no status marker and no `dddd-ddd` code |
| Fields.ExtractAvailability | scraper.py:194-211 | the loop returns the availability of the item's text: the stripped match of the first pattern that matches, or "" |
| Fields.FirstStatus | scraper.py:206-211 | the stripped whole match of the first pattern in the list that matches, or ""; `FirstStatusEmpty` and `FirstStatusIsFirstMatch` characterise it |
| Fields.Availability | scraper.py:196-211 | `FirstStatus` over the six patterns in their order; `AvailabilityIsFirstMatch` characterises it |
| Fields.StatusMatchTrimmed | scraper.py:196-203 | every availability match is non-empty and starts and ends with non-whitespace, so `strip()` leaves it whole |
| Fields.StatusIsWholeMatch | scraper.py:207-209 | the same holds for the leftmost match `re.search` returns |
| Fields.FirstStatusEmpty | scraper.py:206-211 | trying the patterns in order yields "" iff none of them matches |
| Fields.FirstStatusIsFirstMatch | scraper.py:206-209 | otherwise it yields the whole match of the first pattern that matches |
| Fields.AvailabilityIsFirstMatch | scraper.py:194-211 | availability is "" iff none of the six patterns matches, and otherwise the whole match of the first one that does, so pattern order decides |
| Fields.ShipDateBeatsInStock | scraper.py:197-199 | "Estimated Ship Date 05/01/24 In Stock" yields the ship date, not "In Stock" |
| Fields.ExampleShipDateMatch | scraper.py:197 | the ship-date pattern matches that text's first 28 characters |
| Fields.ExampleDate | scraper.py:197 | the date in that text ends at position 28 |
| Fields.CleanNameDropsCodeSuffix | scraper.py:143-148 | "Acrylic Denture Base 2024-123 In Stock in Ohio" cleans to "Acrylic Denture Base" |
| Fields.ExampleNoCutBeforeCode | scraper.py:145 | in that text no alternative of the pattern starts before position 21 |
| Fields.ExampleCutAtCode | scraper.py:145 | in that text the code `2024-123` at position 21 is where the pattern matches |
| Fields.CleanNameBeforeSpacedCut | scraper.py:144-148 | a trimmed name followed by a space and then the first match cleans to exactly that name |
| Fields.NoMarkerAt | scraper.py:145 | no alternative starts at a character that is not a digit and not the first letter of a status |
| Fields.PriceGroup | scraper.py:225-227 | the price read from a price match is a non-empty run of digits and dots |
| Fields.BrandGroup | scraper.py:229-231 | the brand read from a brand match is non-empty and has no backtick |
| Fields.FromOnclick | scraper.py:213-233 | no button gives empty price and brand; the price consists only of digits and dots; the brand has no backtick; each is non-empty iff its pattern matches |
| Fields.BrandMatchShape | scraper.py:229 | a brand match opens a backtick right after a quote, a comma and whitespace |
| Fields.QuoteCommaAfterBacktick | scraper.py:229 | such an ending after the last backtick lies in the text after it |
| Fields.PriceFound | scraper.py:225 | in a layout whose first two backticks are the name's, the price match is the quoted price after the name |
| Fields.BrandMatchAt | scraper.py:229 | a quoted price followed by a backticked brand matches the brand pattern there |
| Fields.NoBrandBefore | scraper.py:229 | no brand match starts within the head or the name |
| Fields.BrandMatchNeedsQuoteComma | scraper.py:229 | a brand match that starts before the price's opening quote needs the head or the name to end with a quote, a comma and whitespace |
| Fields.BrandSearchInLayout | scraper.py:229 | so in the documented layout the leftmost brand match is the one right after the quoted price |
| Fields.CartPriceAt | scraper.py:225-227 | in that layout the price search finds the quoted price, and group 1 is exactly it |
| Fields.CartBrandAt | scraper.py:229-231 | in that layout the brand search finds the backticked brand, and group 1 is exactly it |
| Fields.OnclickLayout | scraper.py:216 | where each piece of a button text in the documented layout sits |
| Fields.HeadFacts | scraper.py:216 | the documented call's head has no backtick and does not end like a price |
| Fields.CartFieldsAt | scraper.py:225-231 | price and brand come out of a text whose pieces sit at those places |
| Fields.CartFieldsFromLayout | scraper.py:225-231 | price and brand come out of any text laid out like the documented call from the name on |
| Fields.OnclickRoundTrip | scraper.py:216-233 | reading a documented `QuantityChangeClick(...)` call returns exactly the price and brand written into it. The conditions are: SKU, quantity, id, name and brand hold no backtick; the price is a non-empty run of digits and dots; the brand is non-empty; and the name neither starts with a comma nor ends like a quoted price followed by a comma (a quote, a comma and then only whitespace). Otherwise the price or brand search can match inside the name |
| JsonLd.ExtractRatings | scraper.py:174-192 | the loop builds the ratings map of the blocks |
| JsonLd.RatingsOf | scraper.py:178-188 | the map after reading the blocks in order, each rating block with a named item overwriting its name's entry; `RatingsKeys` and `RatingsLastWriterWins` characterise it |
| JsonLd.RatingsKeys | scraper.py:181-185 | a name is a key iff some readable `AggregateRating` block reviews it with a non-empty name |
| JsonLd.RatingsLastWriterWins | scraper.py:185-188 | the entry for a name comes from the last such block naming it |
| JsonLd.GetCategoryInfo | scraper.py:235-251 | the loop returns the category information of the blocks |
| JsonLd.CategoryInfoOf | scraper.py:239-251 | the entry of the first catalog block `int()` does not reject with TypeError, or the empty default; `FirstCatalogDecides`, `NoCatalogDefault` and `CategoryFailureCause` characterise it |
| JsonLd.FirstCatalogDecides | scraper.py:242-247 | the first `OfferCatalog` block whose count `int()` does not reject with TypeError decides the name, total and URL, or the failure |
| JsonLd.NoCatalogDefault | scraper.py:251 | without such a block the result is empty name, total 0 and empty URL |
| JsonLd.CategoryFailureCause | scraper.py:245-248 | the lookup fails iff that deciding block's count is a non-integer string (an uncaught ValueError) |
| Listing.SkuSet.constructor | main.py:53 | the seen-set starts empty |
| Listing.SkuSet.Add | scraper.py:137 | adding a SKU adds exactly it |
| Listing.Classify | scraper.py:116-137 | a fresh item has a product link, a SKU from that link, and a SKU not yet seen; a duplicate's SKU was seen |
| Listing.BuildRecord | scraper.py:102-170 | the record holds the SKU, the cleaned link text, the product URL, the onclick price and brand, the availability of the item text, the image URL and the category; and it satisfies the field rules: non-empty slash-free SKU, the given category, URL under the base URL without `?`, digit-and-dot price, backtick-free brand, trimmed name, and ratings taken from the map entry of the cleaned name or empty |
| Listing.ImageUrl | scraper.py:151-154 | the first image's `src`, or "" when the item has no image |
| Listing.Step | scraper.py:98-170 | one item: counted as detected, then skipped, or turned into a record whose SKU joins the seen-set; `StepFirstNew` and `StepWellFormed` are stated on it |
| Listing.ScanItems | scraper.py:98-172 | the pass over the items from a given seen-set; `ScanIsFirstNew`, `ScanCounts` and `SkippedExactly` characterise it |
| Listing.ParseSpec | scraper.py:72-172 | nothing at all without a product grid, otherwise the pass over its items with the page's ratings map |
| Listing.ParseCandidate | scraper.py:98-170 | one grid child: a fresh item yields its record and adds its SKU to the seen-set; any other item yields nothing and leaves the set as it was |
| Listing.ParseProducts | scraper.py:72-172 | the loop returns the records and counts of the page's pass and leaves the seen-set as the pass does; a page without a grid yields nothing and changes nothing |
| Listing.FirstNew | scraper.py:132-137 | the first-occurrence filter returns unseen elements of the input, pairwise distinct |
| Listing.SkuList | scraper.py:170 | the SKUs of records, index by index |
| Listing.ScanCounts | scraper.py:98-134 | every grid child is detected, and detected = saved + skipped |
| Listing.FirstNewCovers | scraper.py:132-137 | every candidate SKU not seen before ends up saved |
| Listing.StepFirstNew | scraper.py:131-137 | one item keeps the saved SKUs equal to the first occurrences of unseen candidate SKUs |
| Listing.FirstNewAppend | scraper.py:132-137 | a SKU already seen or already taken leaves the first-occurrence list as it is; any other is appended |
| Listing.SkuListAppend | scraper.py:170 | appending a record appends its SKU |
| Listing.ScanIsFirstNew | scraper.py:116-170 | the saved SKUs are the first occurrences, in grid order, of the candidate SKUs not seen before, and the seen-set gains exactly those |
| Listing.ScanSeenIsCandidates | scraper.py:137 | the seen-set ends as the entry set plus every SKU a candidate carries |
| Listing.ScanSkusFreshAndDistinct | scraper.py:132-137 | no record's SKU was seen before, and no two records share a SKU |
| Listing.ScanSeenGrowsByRecords | scraper.py:136-137 | the seen-set grows by exactly the records' SKUs |
| Listing.SkippedExactly | scraper.py:117-134 | an item is skipped iff it has no product link, no SKU, or a SKU already seen on entry or earlier on the page; otherwise exactly one record with its SKU is appended |
| Listing.ScanRecordsWellFormed | scraper.py:98-170 | every record of a pass satisfies the field rules |
| Listing.StepWellFormed | scraper.py:170 | one item keeps all records well formed |
| Listing.AppendWellFormed | scraper.py:170 | appending a well-formed record keeps all well formed |
| Listing.ScanAllSeen | scraper.py:132-134 | if every candidate SKU was already seen, the pass saves nothing and leaves the set unchanged |
| Listing.ParseTwiceYieldsNothing | scraper.py:132-137 | parsing a page again with the seen-set the first parse left yields no records |
| Orchestration.PageCount | main.py:73 | the page count is the ceiling of total/24: 24·(n−1) < total ≤ 24·n, for negative totals too (floor division) |
| Orchestration.MissingPrice | main.py:97 | the count is at most the number of records, and 0 iff every record has a price |
| Orchestration.MissingPriceAppend | main.py:89-97 | the count over records gathered page by page is the sum of the counts of the pieces |
| Orchestration.Orchestrator.constructor | main.py:22-30 | a new orchestrator starts with zeroed statistics |
| Orchestration.Orchestrator.Run | main.py:38-97 | the run leaves the statistics and returns the records and waits of the page loop over 1..`max_pages`; a failing page-1 category lookup propagates with the statistics untouched |
| Orchestration.HeaderStep | main.py:69-79 | page 1 only: the category lookup, its URL into the statistics, and the new limit when `max_pages` is 0; a failing lookup is passed on |
| Orchestration.ParseStep | main.py:82-94 | the page's counts added to the statistics, its records appended, the seen-set threaded on, and a wait recorded unless the page is the last |
| Orchestration.PageStep | main.py:60-94 | one iteration: a failed fetch changes nothing, page 1 runs `HeaderStep`, and every fetched page runs `ParseStep` |
| Orchestration.PagesFrom | main.py:58-94 | the iterations for pages `n`..`last` with a fixed `last`, stopping at the first failure |
| Orchestration.RunSpec | main.py:55-94 | the loop over `range(1, max_pages + 1)` fixed before the first iteration |
| Orchestration.SkippedPage | main.py:64-66 | a page whose fetch failed leaves the rest of the loop exactly where it was |
| Orchestration.Orchestrator.VisitPage | main.py:67-94 | one fetched page: page 1 sets `categoryUrl` and, for `max_pages` = 0, the limit, or fails with the statistics untouched; then the counts grow by the page's pass, its records are returned, and a wait follows iff the page is below the limit |
| Orchestration.PagesTotals | main.py:82-89 | over a range of pages, detected grows by the grid sizes of the fetched pages, saved by the records appended, detected = saved + skipped growth, and earlier records are kept |
| Orchestration.ParseStepDistinct | main.py:82-89 | one page keeps the records' SKUs distinct and recorded in the shared seen-set |
| Orchestration.PagesDistinct | main.py:53 | sharing one seen-set across pages keeps SKUs distinct over the whole run |
| Orchestration.LaterPagesKeepUrl | main.py:69-71 | pages after the first never fail and never change `categoryUrl` |
| Orchestration.RunFailureAndUrl | main.py:64-71 | the run fails iff page 1 is in range, fetched, and its catalog count is a non-integer string; `categoryUrl` becomes the page-1 catalog URL, or stays as it was when page 1 was not fetched |
| Orchestration.PagesDelays | main.py:92-94 | the limit stays `max_pages`, and a wait follows page `p` iff `p` was fetched and `p` < `max_pages` |
| Orchestration.RunDelays | main.py:58-94 | the run waits after exactly the fetched pages 1 ≤ p < `max_pages`; a failed fetch is skipped without waiting |
| Orchestration.RunTotals | main.py:58-97 | a run counts every grid item of the fetched pages 1..`max_pages`, saves = records, detected = saved + skipped, no SKU twice, `missingPrice` ≤ records |
| Orchestration.LimitKept | main.py:93 | pages after the first never change the page limit |
| Orchestration.AsWrittenZeroPagesDoesNothing | main.py:55-58 | with `max_pages` = 0 the run fetches nothing and changes nothing |
| Orchestration.CorrectedZeroPagesReadsAll | main.py:77-79 | in the corrected loop, `max_pages` = 0 reads page 1 and then every page up to the ceiling of total/24 |
| Orchestration.CorrectedRunSpec | main.py:77-79 | the intended loop: with `max_pages` = 0, page 1 is read first and sets how many pages follow |

## Left out

- HTTP fetching is left out: the session, headers, timeout and the `Search` request. `fetch_page` is a parameter of `Run` that yields a parsed page or nothing.
- The JSON serialisation, gzip compression and Base64 encoding of the query are left out. The descriptor itself is modelled with all twelve fields.
- HTML parsing (BeautifulSoup) and JSON decoding are left out. A page arrives as its JSON-LD blocks and grid children. Text extraction (`get_text`, `strip=True`) is assumed to have produced each anchor's text and each item's text.
- A readable JSON-LD block is modelled as a JSON object with string values for the keys read. Cases where the top level is a non-object, `itemReviewed` is not an object, or values are non-strings raise AttributeError in the source, or store non-string values. They are not modelled.
- `int()` on a finite float `numberOfItems` truncates toward zero, and on a bool it gives 0 or 1. Both are folded into `Integral`. A NaN or infinite count, which `json.loads` accepts, makes `int()` raise ValueError or OverflowError. Neither is caught, but that outcome is not modelled: `CategoryFailureCause` covers only the non-integer string. Strings with surrounding whitespace or underscores that `int()` accepts are not told apart from the other integer strings.
- Unicode digits and word characters for `\d` and `\w`, and non-ASCII case folding under `re.I`, are left out: the classes are ASCII only.
- The random delay duration and `time.sleep` are left out. The model records only after which pages a wait happens.
- `startedAt`, `finishedAt` and `durationSeconds` (clock readings) are left out, as are the console output, the storage back ends (storage.py) and the loading of `Config` from the environment.
- Orchestration.Orchestrator.Run: the statistics are stated on the modelled fields only; the timestamps it also writes are not modelled.

## Findings

| source | as written | input that shows it | evidently intended | confidence | as-written member | corrected member |
|---|---|---|---|---|---|---|
| main.py:55-79 | the range `1..max_pages` is evaluated once, before page 1 can set `total_pages_to_scrape`, so `max_pages = 0` runs no iteration and saves nothing | `MAX_PAGES=0` with a catalog reporting 48 products | `max_pages = 0` scrapes all pages: page 1, then up to the ceiling of total/24 | not executed | Orchestration.AsWrittenZeroPagesDoesNothing | Orchestration.CorrectedZeroPagesReadsAll |

`Orchestrator.Run` keeps the behaviour as written. The corrected loop is `CorrectedRunSpec`.
