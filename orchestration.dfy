/**
 * `Orchestrator.run`: the page loop over pages 1..`max_pages`, the statistics
 * it accumulates, the SKU set it threads through every page, the page count
 * it derives from the category total and the rule for waiting between pages.
 * Fetching is a parameter: `fetch(p)` is the parsed page `p`, or `None` when
 * the request failed.
 */
module Orchestration {
  import opened Wrappers
  import opened Document
  import opened JsonLd
  import opened Listing

  /** Products per page on the site. */
  const PageSize := 24

  /** The run statistics the model tracks (the timestamps and the duration are left out). */
  datatype Statistics = Statistics(
    categoryUrl: string,
    totalDetected: int,
    totalSaved: int,
    totalSkipped: int,
    missingPrice: int)

  /** The statistics of a fresh orchestrator. */
  const InitialStatistics := Statistics("", 0, 0, 0, 0)

  /** The configuration the loop reads. */
  datatype Config = Config(categoryName: string, maxPages: int)

  /** The state of the loop: the statistics, the records so far, the seen SKUs, `total_pages_to_scrape` and the pages after which it waited. */
  datatype Progress = Progress(stats: Statistics, products: seq<Product>, seen: set<string>, limit: int, delays: seq<nat>)

  /** What `run` returns: the statistics and every record. */
  datatype RunOutput = RunOutput(statistics: Statistics, products: seq<Product>)

  /** The number of site pages for `total` products: the ceiling of `total / 24`, with Python's floor division. */
  function PageCount(total: int): (n: int)
    ensures PageSize * (n - 1) < total <= PageSize * n
  {
    total / PageSize + (if total % PageSize != 0 then 1 else 0)
  }

  /** The number of records without a price. */
  function MissingPrice(products: seq<Product>): (n: nat)
    ensures n <= |products|
    ensures n == 0 <==> forall i :: 0 <= i < |products| ==> products[i].price != ""
  {
    if products == [] then 0
    else
      var init := products[..|products| - 1];
      assert forall i :: 0 <= i < |init| ==> init[i] == products[i];
      MissingPrice(init) + (if products[|products| - 1].price == "" then 1 else 0)
  }

  /** Counting over a concatenation adds the counts, as `all_products` grows one page's records at a time. */
  lemma {:induction false} MissingPriceAppend(a: seq<Product>, b: seq<Product>)
    ensures MissingPrice(a + b) == MissingPrice(a) + MissingPrice(b)
    decreases |b|
  {
    if b != [] {
      var init := b[..|b| - 1];
      assert (a + b)[..|a + b| - 1] == a + init;
      MissingPriceAppend(a, init);
    } else {
      assert a + b == a;
    }
  }

  /** Page 1 only: read the category information, record its URL and, when `max_pages` is 0, reassign the limit. */
  function HeaderStep(cfg: Config, pr: Progress, page: Page): Result<Progress, CategoryError> {
    match CategoryInfoOf(page.scripts)
    case Failure(e) => Failure(e)
    case Success(info) =>
      Success(pr.(stats := pr.stats.(categoryUrl := info.url),
                  limit := if cfg.maxPages == 0 then PageCount(info.totalProducts) else pr.limit))
  }

  /** Parse a fetched page, add its counts, keep its records and wait unless it is the last page. */
  function ParseStep(cfg: Config, pr: Progress, n: nat, page: Page): Progress {
    var r := ParseSpec(page, pr.seen, cfg.categoryName);
    Progress(
      pr.stats.(totalDetected := pr.stats.totalDetected + r.detected,
                totalSkipped := pr.stats.totalSkipped + r.skipped,
                totalSaved := pr.stats.totalSaved + |r.products|),
      pr.products + r.products,
      r.seen,
      pr.limit,
      if n < pr.limit then pr.delays + [n] else pr.delays)
  }

  /** One iteration of the loop for page `n`; a failed fetch changes nothing. */
  function PageStep(cfg: Config, pr: Progress, n: nat, fetched: Option<Page>): Result<Progress, CategoryError> {
    match fetched
    case None => Success(pr)
    case Some(page) =>
      var head := if n == 1 then HeaderStep(cfg, pr, page) else Success(pr);
      match head
      case Failure(e) => Failure(e)
      case Success(pr1) => Success(ParseStep(cfg, pr1, n, page))
  }

  /** The iterations for pages `n`..`last`. */
  function PagesFrom(cfg: Config, pr: Progress, fetch: nat -> Option<Page>, n: nat, last: int): Result<Progress, CategoryError>
    decreases last + 1 - n
  {
    if n > last then Success(pr)
    else
      match PageStep(cfg, pr, n, fetch(n))
      case Failure(e) => Failure(e)
      case Success(next) => PagesFrom(cfg, next, fetch, n + 1, last)
  }

  /** The state a run starts from. */
  function Start(cfg: Config, stats: Statistics): Progress {
    Progress(stats, [], {}, cfg.maxPages, [])
  }

  /** The whole loop: the range 1..`max_pages` is fixed before the first iteration. */
  function RunSpec(cfg: Config, stats: Statistics, fetch: nat -> Option<Page>): Result<Progress, CategoryError> {
    PagesFrom(cfg, Start(cfg, stats), fetch, 1, cfg.maxPages)
  }

  class Orchestrator {
    const config: Config
    var stats: Statistics

    constructor (config: Config)
      ensures this.config == config && stats == InitialStatistics
    {
      this.config := config;
      stats := InitialStatistics;
    }

    /**
     * `run`: fetch and parse pages 1..`max_pages`, accumulating into `stats`;
     * also returns the pages after which it waits. A non-integer item count in
     * the page-1 catalog propagates out as a failure.
     */
    method Run(fetch: nat -> Option<Page>) returns (r: Result<RunOutput, CategoryError>, waits: seq<nat>)
      modifies this
      ensures match RunSpec(config, old(stats), fetch)
              case Failure(e) => r == Failure(e) && stats == old(stats) && waits == []
              case Success(pr) =>
                && stats == pr.stats.(missingPrice := MissingPrice(pr.products))
                && r == Success(RunOutput(stats, pr.products))
                && waits == pr.delays
    {
      var allProducts: seq<Product> := [];
      var seen := new SkuSet();
      var limit := config.maxPages;
      waits := [];
      var last := limit;
      var n: nat := 1;
      ghost var spec := RunSpec(config, stats, fetch);
      while n <= last
        invariant fresh(seen)
        invariant last == config.maxPages
        invariant spec == PagesFrom(config, Progress(stats, allProducts, seen.skus, limit, waits), fetch, n, last)
        invariant n == 1 ==> stats == old(stats) && waits == []
        decreases last + 1 - n
      {
        var html := fetch(n);
        ghost var pr := Progress(stats, allProducts, seen.skus, limit, waits);
        if html.None? {
          SkippedPage(config, pr, fetch, n, last);
          n := n + 1;
          continue;
        }
        var visited := VisitPage(n, html.value, seen, allProducts, limit, waits);
        if visited.Failure? {
          FailedPage(config, pr, fetch, n, last);
          return Failure(visited.error), waits;
        }
        allProducts := allProducts + visited.value.0;
        limit := visited.value.1;
        if n < limit {
          waits := waits + [n];
        }
        FetchedPage(config, pr, Progress(stats, allProducts, seen.skus, limit, waits), fetch, n, last);
        n := n + 1;
      }
      assert spec == Success(Progress(stats, allProducts, seen.skus, limit, waits));
      stats := stats.(missingPrice := MissingPrice(allProducts));
      return Success(RunOutput(stats, allProducts)), waits;
    }

    /**
     * The loop body for a fetched page `n`: on page 1 read the category
     * information (a failure ends the run), record its URL and, when `max_pages`
     * is 0, the new limit; then parse the page into `seen` and add its counts to
     * `stats`. Returns the page's records and the limit.
     */
    method VisitPage(n: nat, page: Page, seen: SkuSet, ghost products: seq<Product>, limit: int, ghost delays: seq<nat>)
        returns (r: Result<(seq<Product>, int), CategoryError>)
      modifies this, seen
      ensures var pr := Progress(old(stats), products, old(seen.skus), limit, delays);
              match PageStep(config, pr, n, Some(page))
              case Failure(e) => r == Failure(e) && n == 1 && stats == old(stats) && seen.skus == old(seen.skus)
              case Success(next) =>
                r.Success? &&
                next == Progress(stats, products + r.value.0, seen.skus, r.value.1,
                                 if n < r.value.1 then delays + [n] else delays)
    {
      ghost var pr := Progress(stats, products, seen.skus, limit, delays);
      var newLimit := limit;
      if n == 1 {
        var info := GetCategoryInfo(page.scripts);
        if info.Failure? {
          return Failure(info.error);
        }
        stats := stats.(categoryUrl := info.value.url);
        var total := info.value.totalProducts;
        var totalPages := PageCount(total);
        if config.maxPages == 0 {
          newLimit := totalPages;
        }
      }
      ghost var pr1 := Progress(stats, products, seen.skus, newLimit, delays);
      assert PageStep(config, pr, n, Some(page)) == Success(ParseStep(config, pr1, n, page));
      var found, detected, skipped := ParseProducts(page, seen, config.categoryName);
      stats := stats.(totalDetected := stats.totalDetected + detected,
                      totalSkipped := stats.totalSkipped + skipped,
                      totalSaved := stats.totalSaved + |found|);
      return Success((found, newLimit));
    }
  }

  /** A page whose fetch failed leaves the rest of the loop where it was. */
  lemma SkippedPage(cfg: Config, pr: Progress, fetch: nat -> Option<Page>, n: nat, last: int)
    requires n <= last && fetch(n).None?
    ensures PagesFrom(cfg, pr, fetch, n, last) == PagesFrom(cfg, pr, fetch, n + 1, last)
  {
  }

  /** A fetched page whose step fails ends the loop with that failure. */
  lemma FailedPage(cfg: Config, pr: Progress, fetch: nat -> Option<Page>, n: nat, last: int)
    requires n <= last && fetch(n).Some? && PageStep(cfg, pr, n, fetch(n)).Failure?
    ensures PagesFrom(cfg, pr, fetch, n, last) == Failure(PageStep(cfg, pr, n, fetch(n)).error)
  {
  }

  /** A fetched page whose step succeeds moves the loop on to the next page. */
  lemma FetchedPage(cfg: Config, pr: Progress, next: Progress, fetch: nat -> Option<Page>, n: nat, last: int)
    requires n <= last && PageStep(cfg, pr, n, fetch(n)) == Success(next)
    ensures PagesFrom(cfg, pr, fetch, n, last) == PagesFrom(cfg, next, fetch, n + 1, last)
  {
  }

  // ---------------------------------------------------------------- properties of the loop

  /** The number of grid items on the fetched pages among `n`..`last`. */
  function GridSum(fetch: nat -> Option<Page>, n: nat, last: int): nat
    decreases last + 1 - n
  {
    if n > last then 0
    else
      var here := match fetch(n)
                  case None => 0
                  case Some(page) => (match page.grid case None => 0 case Some(items) => |items|);
      here + GridSum(fetch, n + 1, last)
  }

  /**
   * Over pages `n`..`last`: `totalDetected` grows by the number of grid items on
   * the fetched pages, `totalSaved` by the number of records appended, and every
   * detected item is either saved or skipped. Earlier records are kept.
   */
  lemma {:induction false} PagesTotals(cfg: Config, pr: Progress, fetch: nat -> Option<Page>, n: nat, last: int)
    requires PagesFrom(cfg, pr, fetch, n, last).Success?
    ensures var q := PagesFrom(cfg, pr, fetch, n, last).value;
            && q.stats.totalDetected == pr.stats.totalDetected + GridSum(fetch, n, last)
            && q.stats.totalSaved == pr.stats.totalSaved + (|q.products| - |pr.products|)
            && (q.stats.totalSkipped - pr.stats.totalSkipped) + (q.stats.totalSaved - pr.stats.totalSaved) == GridSum(fetch, n, last)
            && |pr.products| <= |q.products| && q.products[..|pr.products|] == pr.products
    decreases last + 1 - n
  {
    if n <= last {
      var next := PageStep(cfg, pr, n, fetch(n)).value;
      PagesTotals(cfg, next, fetch, n + 1, last);
      match fetch(n)
      case None =>
      case Some(page) =>
        var pr1 := if n == 1 then HeaderStep(cfg, pr, page).value else pr;
        match page.grid
        case None =>
        case Some(items) =>
          ScanCounts(items, pr1.seen, cfg.categoryName, RatingsOf(page.scripts));
      var q := PagesFrom(cfg, pr, fetch, n, last).value;
      assert q.products[..|next.products|][..|pr.products|] == q.products[..|pr.products|];
    }
  }

  /** Every record's SKU is in the seen-set. */
  predicate SkusRecorded(pr: Progress) {
    forall i :: 0 <= i < |pr.products| ==> pr.products[i].sku in pr.seen
  }

  /** No two records share a SKU. */
  predicate DistinctSkus(products: seq<Product>) {
    forall i, j :: 0 <= i < j < |products| ==> products[i].sku != products[j].sku
  }

  /** Parsing one more page keeps the records' SKUs distinct and recorded in the seen-set. */
  lemma ParseStepDistinct(cfg: Config, pr: Progress, n: nat, page: Page)
    requires SkusRecorded(pr) && DistinctSkus(pr.products)
    ensures SkusRecorded(ParseStep(cfg, pr, n, page)) && DistinctSkus(ParseStep(cfg, pr, n, page).products)
  {
    var r := ParseSpec(page, pr.seen, cfg.categoryName);
    if page.grid.Some? {
      var items := page.grid.value;
      var ratings := RatingsOf(page.scripts);
      ScanSkusFreshAndDistinct(items, pr.seen, cfg.categoryName, ratings);
      ScanSeenGrowsByRecords(items, pr.seen, cfg.categoryName, ratings);
    }
    var ps := pr.products + r.products;
    forall i | 0 <= i < |ps|
      ensures ps[i].sku in r.seen
    {
      if i >= |pr.products| {
        assert ps[i] == r.products[i - |pr.products|];
      }
    }
    forall i, j | 0 <= i < j < |ps|
      ensures ps[i].sku != ps[j].sku
    {
      if j >= |pr.products| {
        assert ps[j] == r.products[j - |pr.products|];
        if i >= |pr.products| {
          assert ps[i] == r.products[i - |pr.products|];
        }
      }
    }
  }

  /** Because one seen-set is shared by every page, the records of pages `n`..`last` never repeat a SKU. */
  lemma {:induction false} PagesDistinct(cfg: Config, pr: Progress, fetch: nat -> Option<Page>, n: nat, last: int)
    requires SkusRecorded(pr) && DistinctSkus(pr.products)
    requires PagesFrom(cfg, pr, fetch, n, last).Success?
    ensures DistinctSkus(PagesFrom(cfg, pr, fetch, n, last).value.products)
    decreases last + 1 - n
  {
    if n <= last {
      match fetch(n)
      case None =>
        PagesDistinct(cfg, pr, fetch, n + 1, last);
      case Some(page) =>
        var pr1 := if n == 1 then HeaderStep(cfg, pr, page).value else pr;
        ParseStepDistinct(cfg, pr1, n, page);
        PagesDistinct(cfg, ParseStep(cfg, pr1, n, page), fetch, n + 1, last);
    }
  }

  /** Pages after the first never fail and never touch `categoryUrl`. */
  lemma {:induction false} LaterPagesKeepUrl(cfg: Config, pr: Progress, fetch: nat -> Option<Page>, n: nat, last: int)
    requires n >= 2
    ensures PagesFrom(cfg, pr, fetch, n, last).Success?
    ensures PagesFrom(cfg, pr, fetch, n, last).value.stats.categoryUrl == pr.stats.categoryUrl
    decreases last + 1 - n
  {
    if n <= last {
      LaterPagesKeepUrl(cfg, PageStep(cfg, pr, n, fetch(n)).value, fetch, n + 1, last);
    }
  }

  /**
   * The run fails only when page 1 is in range, is fetched, and its catalog item
   * count is not an integer; when it succeeds, `categoryUrl` is the page-1
   * catalog URL, or stays as it was when page 1 was not fetched.
   */
  lemma RunFailureAndUrl(cfg: Config, stats: Statistics, fetch: nat -> Option<Page>)
    ensures RunSpec(cfg, stats, fetch).Failure? <==>
            cfg.maxPages >= 1 && fetch(1).Some? && CategoryInfoOf(fetch(1).value.scripts).Failure?
    ensures RunSpec(cfg, stats, fetch).Success? && (cfg.maxPages < 1 || fetch(1).None?) ==>
            RunSpec(cfg, stats, fetch).value.stats.categoryUrl == stats.categoryUrl
    ensures RunSpec(cfg, stats, fetch).Success? && cfg.maxPages >= 1 && fetch(1).Some? ==>
            RunSpec(cfg, stats, fetch).value.stats.categoryUrl == CategoryInfoOf(fetch(1).value.scripts).value.url
  {
    var start := Start(cfg, stats);
    if cfg.maxPages >= 1 {
      match PageStep(cfg, start, 1, fetch(1))
      case Failure(e) =>
      case Success(next) =>
        LaterPagesKeepUrl(cfg, next, fetch, 2, cfg.maxPages);
    }
  }

  /**
   * The limit the loop tests stays `max_pages`, and the run waits after page `p`
   * exactly when `p` is fetched and `n <= p < max_pages`.
   */
  lemma {:induction false} PagesDelays(cfg: Config, pr: Progress, fetch: nat -> Option<Page>, n: nat, last: int)
    requires n >= 1 && cfg.maxPages != 0 && pr.limit == cfg.maxPages
    requires PagesFrom(cfg, pr, fetch, n, last).Success?
    ensures var q := PagesFrom(cfg, pr, fetch, n, last).value;
            && q.limit == cfg.maxPages
            && forall p :: p in q.delays <==> p in pr.delays || (n <= p <= last && p < cfg.maxPages && fetch(p).Some?)
    decreases last + 1 - n
  {
    if n <= last {
      var next := PageStep(cfg, pr, n, fetch(n)).value;
      PagesDelays(cfg, next, fetch, n + 1, last);
    }
  }

  /** With a nonzero `max_pages` the run waits after exactly the fetched pages before the last. */
  lemma RunDelays(cfg: Config, stats: Statistics, fetch: nat -> Option<Page>)
    requires RunSpec(cfg, stats, fetch).Success?
    ensures var q := RunSpec(cfg, stats, fetch).value;
            q.limit == cfg.maxPages && forall p :: p in q.delays <==> 1 <= p < cfg.maxPages && fetch(p).Some?
  {
    if cfg.maxPages != 0 {
      PagesDelays(cfg, Start(cfg, stats), fetch, 1, cfg.maxPages);
    }
  }

  /**
   * A successful run counts every grid item of the fetched pages 1..`max_pages`,
   * saves one record per new SKU with no SKU twice, and its `missingPrice` is at
   * most the number of records saved.
   */
  lemma RunTotals(cfg: Config, stats: Statistics, fetch: nat -> Option<Page>)
    requires RunSpec(cfg, stats, fetch).Success?
    ensures var q := RunSpec(cfg, stats, fetch).value;
            && q.stats.totalDetected == stats.totalDetected + GridSum(fetch, 1, cfg.maxPages)
            && q.stats.totalSaved == stats.totalSaved + |q.products|
            && (q.stats.totalSkipped - stats.totalSkipped) + |q.products| == GridSum(fetch, 1, cfg.maxPages)
            && DistinctSkus(q.products)
            && MissingPrice(q.products) <= |q.products|
  {
    PagesTotals(cfg, Start(cfg, stats), fetch, 1, cfg.maxPages);
    PagesDistinct(cfg, Start(cfg, stats), fetch, 1, cfg.maxPages);
  }

  // ---------------------------------------------------------------- max_pages == 0

  /**
   * As written, `max_pages == 0` makes the range 1..0 empty before the page-1
   * reassignment could widen it: the run fetches nothing and changes nothing.
   */
  lemma AsWrittenZeroPagesDoesNothing(cfg: Config, stats: Statistics, fetch: nat -> Option<Page>)
    requires cfg.maxPages == 0
    ensures RunSpec(cfg, stats, fetch) == Success(Start(cfg, stats))
    ensures GridSum(fetch, 1, cfg.maxPages) == 0
  {
  }

  /** The evidently intended loop: with `max_pages == 0`, page 1 sets how many pages follow. */
  function CorrectedRunSpec(cfg: Config, stats: Statistics, fetch: nat -> Option<Page>): Result<Progress, CategoryError> {
    if cfg.maxPages != 0 then RunSpec(cfg, stats, fetch)
    else
      match PageStep(cfg, Start(cfg, stats), 1, fetch(1))
      case Failure(e) => Failure(e)
      case Success(first) => PagesFrom(cfg, first, fetch, 2, first.limit)
  }

  /**
   * In the corrected loop, `max_pages == 0` with a readable page-1 catalog reads
   * page 1 and then every page up to the ceiling of its total over 24.
   */
  lemma CorrectedZeroPagesReadsAll(cfg: Config, stats: Statistics, fetch: nat -> Option<Page>, info: CategoryInfo)
    requires cfg.maxPages == 0 && fetch(1).Some? && CategoryInfoOf(fetch(1).value.scripts) == Success(info)
    ensures CorrectedRunSpec(cfg, stats, fetch).Success?
    ensures var q := CorrectedRunSpec(cfg, stats, fetch).value;
            q.limit == PageCount(info.totalProducts)
            && q.stats.totalDetected == stats.totalDetected + GridSum(fetch, 1, 1) + GridSum(fetch, 2, PageCount(info.totalProducts))
  {
    var first := PageStep(cfg, Start(cfg, stats), 1, fetch(1)).value;
    PagesTotals(cfg, Start(cfg, stats), fetch, 1, 1);
    assert PagesFrom(cfg, Start(cfg, stats), fetch, 1, 1) == Success(first);
    LaterPagesKeepUrl(cfg, first, fetch, 2, first.limit);
    PagesTotals(cfg, first, fetch, 2, first.limit);
    LimitKept(cfg, first, fetch, 2, first.limit);
  }

  /** Pages after the first never change the limit. */
  lemma {:induction false} LimitKept(cfg: Config, pr: Progress, fetch: nat -> Option<Page>, n: nat, last: int)
    requires n >= 2
    requires PagesFrom(cfg, pr, fetch, n, last).Success?
    ensures PagesFrom(cfg, pr, fetch, n, last).value.limit == pr.limit
    decreases last + 1 - n
  {
    if n <= last {
      LimitKept(cfg, PageStep(cfg, pr, n, fetch(n)).value, fetch, n + 1, last);
    }
  }
}
