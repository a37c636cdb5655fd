/**
 * `BencoScraper.parse_products`: one pass over the direct children of the
 * product grid that counts every candidate, skips those without a product
 * link, without a SKU or with a SKU already seen, adds every new SKU to the
 * shared seen-set in place and builds one record per new SKU.
 */
module Listing {
  import opened Wrappers
  import opened Text
  import opened Patterns
  import opened Document
  import opened Fields
  import opened JsonLd

  /** One output record; every field is a string, "" when the page does not provide it. */
  datatype Product = Product(
    sku: string,
    name: string,
    price: string,
    availability: string,
    brand: string,
    productCategory: string,
    imageUrl: string,
    productUrl: string,
    rating: string,
    reviewCount: string)

  /** The set of SKUs already seen during a run, shared by every page and grown in place. */
  class SkuSet {
    var skus: set<string>

    constructor ()
      ensures skus == {}
    {
      skus := {};
    }

    /** `seen_skus.add(sku)`. */
    method Add(sku: string)
      modifies this
      ensures skus == old(skus) + {sku}
    {
      skus := skus + {sku};
    }
  }

  /** What happens to one candidate given the SKUs seen before it. */
  datatype Verdict =
    | NoLink                        // no anchor whose href contains `/Product/`
    | NoSku                         // the href has no `/Product/<sku>/`
    | Duplicate(sku: string)        // the SKU was seen before
    | Fresh(link: Link, sku: string) // a new SKU: a record is built

  function Classify(item: Candidate, seen: set<string>): (v: Verdict)
    ensures v.Fresh? ==> ProductLink(item.anchors) == Some(v.link) && SkuOf(v.link.href) == Some(v.sku) && v.sku !in seen
    ensures v.Duplicate? ==> v.sku in seen
  {
    match ProductLink(item.anchors)
    case None => NoLink
    case Some(link) =>
      match SkuOf(link.href)
      case None => NoSku
      case Some(sku) => if sku in seen then Duplicate(sku) else Fresh(link, sku)
  }

  /** The SKU a candidate carries, seen or not. */
  function CandidateSku(item: Candidate): Option<string> {
    match ProductLink(item.anchors)
    case None => None
    case Some(link) => SkuOf(link.href)
  }

  /** The image URL: the first image's `src`, or "" without an image. */
  function ImageUrl(item: Candidate): string {
    match item.image
    case None => ""
    case Some(src) => src
  }

  /** The rating fields every record must satisfy: they come from the ratings map entry of the cleaned name, or are empty. */
  predicate RatedFromMap(p: Product, ratings: map<string, Rating>) {
    && (p.name in ratings ==> p.rating == ratings[p.name].rating && p.reviewCount == ratings[p.name].reviewCount)
    && (p.name !in ratings ==> p.rating == "" && p.reviewCount == "")
  }

  /** What every record of a page satisfies, whatever the candidate it came from. */
  predicate WellFormed(p: Product, category: string, ratings: map<string, Rating>) {
    && p.sku != [] && '/' !in p.sku
    && p.productCategory == category
    && |p.productUrl| >= |BaseUrl| && p.productUrl[..|BaseUrl|] == BaseUrl && '?' !in p.productUrl
    && (forall k :: 0 <= k < |p.price| ==> IsDigitOrDot(p.price[k]))
    && '`' !in p.brand
    && (p.name != [] ==> !IsSpace(p.name[0]) && !IsSpace(p.name[|p.name| - 1]))
    && RatedFromMap(p, ratings)
  }

  predicate AllWellFormed(ps: seq<Product>, category: string, ratings: map<string, Rating>) {
    forall i :: 0 <= i < |ps| ==> WellFormed(ps[i], category, ratings)
  }

  /** The record built for a new SKU. */
  function BuildRecord(item: Candidate, link: Link, sku: string, category: string,
                       ratings: map<string, Rating>): (p: Product)
    requires SkuOf(link.href) == Some(sku)
    ensures WellFormed(p, category, ratings)
    ensures p.sku == sku && p.name == CleanName(link.text) && p.productUrl == ProductUrl(link.href)
    ensures p.price == FromOnclick(item.cartButton).price && p.brand == FromOnclick(item.cartButton).brand
    ensures p.availability == Availability(item.text) && p.imageUrl == ImageUrl(item) && p.productCategory == category
  {
    var name := CleanName(link.text);
    var cart := FromOnclick(item.cartButton);
    var url := ProductUrl(link.href);
    var rated := name in ratings;
    var p := Product(
      sku := sku,
      name := name,
      price := cart.price,
      availability := Availability(item.text),
      brand := cart.brand,
      productCategory := category,
      imageUrl := ImageUrl(item),
      productUrl := url,
      rating := if rated then ratings[name].rating else "",
      reviewCount := if rated then ratings[name].reviewCount else "");
    assert p.sku != [] && '/' !in p.sku;
    assert |url| >= |BaseUrl| && url[..|BaseUrl|] == BaseUrl && '?' !in url;
    assert forall k :: 0 <= k < |p.price| ==> IsDigitOrDot(p.price[k]);
    assert name != [] ==> !IsSpace(name[0]) && !IsSpace(name[|name| - 1]);
    assert RatedFromMap(p, ratings);
    p
  }

  /** The state of the pass after some candidates. */
  datatype Scan = Scan(products: seq<Product>, detected: nat, skipped: nat, seen: set<string>)

  /** One candidate: counted, then either skipped or turned into a record whose SKU joins the seen-set. */
  function Step(prev: Scan, item: Candidate, category: string, ratings: map<string, Rating>): Scan {
    match Classify(item, prev.seen)
    case Fresh(link, sku) =>
      Scan(prev.products + [BuildRecord(item, link, sku, category, ratings)], prev.detected + 1, prev.skipped, prev.seen + {sku})
    case _ =>
      Scan(prev.products, prev.detected + 1, prev.skipped + 1, prev.seen)
  }

  /** The pass over `items`, starting from the seen-set `seen`. */
  function ScanItems(items: seq<Candidate>, seen: set<string>, category: string, ratings: map<string, Rating>): Scan {
    if items == [] then Scan([], 0, 0, seen)
    else Step(ScanItems(items[..|items| - 1], seen, category, ratings), items[|items| - 1], category, ratings)
  }

  /** What `parse_products` yields for a page: nothing at all without a product grid. */
  function ParseSpec(page: Page, seen: set<string>, category: string): Scan {
    match page.grid
    case None => Scan([], 0, 0, seen)
    case Some(items) => ScanItems(items, seen, category, RatingsOf(page.scripts))
  }

  /** `parse_products`: the page's records, the detected and skipped counts; `seen` grows in place. */
  method ParseProducts(page: Page, seen: SkuSet, category: string)
      returns (products: seq<Product>, detected: nat, skipped: nat)
    modifies seen
    ensures var r := ParseSpec(page, old(seen.skus), category);
            products == r.products && detected == r.detected && skipped == r.skipped && seen.skus == r.seen
    ensures page.grid.None? ==> products == [] && detected == 0 && skipped == 0 && seen.skus == old(seen.skus)
  {
    var ratings := ExtractRatings(page.scripts);
    products, detected, skipped := [], 0, 0;
    if page.grid.None? {
      return;
    }
    var items := page.grid.value;
    ghost var seen0 := seen.skus;
    for i := 0 to |items|
      invariant var r := ScanItems(items[..i], seen0, category, ratings);
                products == r.products && detected == r.detected && skipped == r.skipped && seen.skus == r.seen
    {
      assert items[..i + 1][..i] == items[..i];
      var record := ParseCandidate(items[i], seen, category, ratings);
      detected := detected + 1;
      if record.None? {
        skipped := skipped + 1;
        continue;
      }
      products := products + [record.value];
    }
    assert items[..|items|] == items;
  }

  /**
   * The body of the loop for one candidate: skip it without a product link,
   * without a SKU or with a SKU already seen; otherwise add the SKU to `seen`
   * and build its record.
   */
  method ParseCandidate(item: Candidate, seen: SkuSet, category: string, ratings: map<string, Rating>)
      returns (record: Option<Product>)
    modifies seen
    ensures match Classify(item, old(seen.skus))
            case Fresh(link, sku) =>
              record == Some(BuildRecord(item, link, sku, category, ratings)) && seen.skus == old(seen.skus) + {sku}
            case _ => record.None? && seen.skus == old(seen.skus)
  {
    var link := ProductLink(item.anchors);
    if link.None? {
      return None;
    }
    var href := link.value.href;
    var sku := SkuOf(href);
    if sku.None? {
      return None;
    }
    if sku.value in seen.skus {
      return None;
    }
    seen.Add(sku.value);
    var name := CleanName(link.value.text);
    var availability := ExtractAvailability(item);
    var cart := FromOnclick(item.cartButton);
    var rating, reviewCount := "", "";
    if name in ratings {
      rating, reviewCount := ratings[name].rating, ratings[name].reviewCount;
    }
    record := Some(Product(sku.value, name, cart.price, availability, cart.brand, category,
                           ImageUrl(item), ProductUrl(href), rating, reviewCount));
  }

  // ---------------------------------------------------------------- reference definitions

  /** The SKUs of the candidates that carry one, in order. */
  function CandidateSkus(items: seq<Candidate>): seq<string> {
    if items == [] then []
    else
      var init := CandidateSkus(items[..|items| - 1]);
      match CandidateSku(items[|items| - 1])
      case None => init
      case Some(sku) => init + [sku]
  }

  /** The first occurrence of each element of `xs` that is not in `seen`, in order. */
  function FirstNew(xs: seq<string>, seen: set<string>): (r: seq<string>)
    ensures forall i :: 0 <= i < |r| ==> r[i] !in seen && r[i] in xs
    ensures forall i, j :: 0 <= i < j < |r| ==> r[i] != r[j]
  {
    if xs == [] then []
    else
      var init := FirstNew(xs[..|xs| - 1], seen);
      var x := xs[|xs| - 1];
      if x in seen || x in init then init else init + [x]
  }

  /** The SKUs of a list of records, in order. */
  function SkuList(products: seq<Product>): (r: seq<string>)
    ensures |r| == |products| && forall i :: 0 <= i < |r| ==> r[i] == products[i].sku
  {
    if products == [] then [] else SkuList(products[..|products| - 1]) + [products[|products| - 1].sku]
  }

  // ---------------------------------------------------------------- properties of the pass

  /** Every candidate is detected, and each is either skipped or produces exactly one record. */
  lemma {:induction false} ScanCounts(items: seq<Candidate>, seen: set<string>, category: string, ratings: map<string, Rating>)
    ensures var r := ScanItems(items, seen, category, ratings);
            r.detected == |items| && |r.products| + r.skipped == r.detected
  {
    if items != [] {
      ScanCounts(items[..|items| - 1], seen, category, ratings);
    }
  }

  /** Every element of `xs` outside `seen` is kept by `FirstNew`. */
  lemma {:induction false} FirstNewCovers(xs: seq<string>, seen: set<string>)
    ensures forall x :: x in xs && x !in seen ==> x in FirstNew(xs, seen)
  {
    if xs != [] {
      var init := xs[..|xs| - 1];
      FirstNewCovers(init, seen);
      assert xs == init + [xs[|xs| - 1]];
    }
  }

  /** The candidate SKUs after one more candidate. */
  function WithSku(xs: seq<string>, item: Candidate): seq<string> {
    match CandidateSku(item)
    case None => xs
    case Some(sku) => xs + [sku]
  }

  /** One step of the pass keeps the records' SKUs equal to the first new candidate SKUs. */
  lemma StepFirstNew(prev: Scan, item: Candidate, seen: set<string>, xs: seq<string>, category: string, ratings: map<string, Rating>)
    requires SkuList(prev.products) == FirstNew(xs, seen)
    requires forall x :: x in prev.seen <==> x in seen || x in FirstNew(xs, seen)
    ensures var r := Step(prev, item, category, ratings);
            SkuList(r.products) == FirstNew(WithSku(xs, item), seen)
            && forall x :: x in r.seen <==> x in seen || x in FirstNew(WithSku(xs, item), seen)
  {
    var v := Classify(item, prev.seen);
    if v.Fresh? {
      FreshStepFirstNew(prev, item, seen, xs, category, ratings);
    } else {
      StaleStepFirstNew(prev, item, seen, xs, category, ratings);
    }
  }

  /** A candidate with a new SKU appends that SKU on both sides. */
  lemma FreshStepFirstNew(prev: Scan, item: Candidate, seen: set<string>, xs: seq<string>, category: string, ratings: map<string, Rating>)
    requires SkuList(prev.products) == FirstNew(xs, seen)
    requires forall x :: x in prev.seen <==> x in seen || x in FirstNew(xs, seen)
    requires Classify(item, prev.seen).Fresh?
    ensures var r := Step(prev, item, category, ratings);
            SkuList(r.products) == FirstNew(WithSku(xs, item), seen)
            && forall x :: x in r.seen <==> x in seen || x in FirstNew(WithSku(xs, item), seen)
  {
    var v := Classify(item, prev.seen);
    var p := BuildRecord(item, v.link, v.sku, category, ratings);
    assert WithSku(xs, item) == xs + [v.sku];
    assert Step(prev, item, category, ratings) == Scan(prev.products + [p], prev.detected + 1, prev.skipped, prev.seen + {v.sku});
    SkuListAppend(prev.products, p);
    FirstNewAppend(xs, seen, v.sku);
  }

  /** A skipped candidate leaves both sides as they were. */
  lemma StaleStepFirstNew(prev: Scan, item: Candidate, seen: set<string>, xs: seq<string>, category: string, ratings: map<string, Rating>)
    requires SkuList(prev.products) == FirstNew(xs, seen)
    requires forall x :: x in prev.seen <==> x in seen || x in FirstNew(xs, seen)
    requires !Classify(item, prev.seen).Fresh?
    ensures var r := Step(prev, item, category, ratings);
            SkuList(r.products) == FirstNew(WithSku(xs, item), seen)
            && forall x :: x in r.seen <==> x in seen || x in FirstNew(WithSku(xs, item), seen)
  {
    var v := Classify(item, prev.seen);
    assert Step(prev, item, category, ratings) == prev.(detected := prev.detected + 1, skipped := prev.skipped + 1);
    if v.Duplicate? {
      assert WithSku(xs, item) == xs + [v.sku];
      FirstNewAppend(xs, seen, v.sku);
    } else {
      assert WithSku(xs, item) == xs;
    }
  }

  /** One more element joins `FirstNew` exactly when it is neither seen nor already there. */
  lemma FirstNewAppend(xs: seq<string>, seen: set<string>, x: string)
    ensures x in seen || x in FirstNew(xs, seen) ==> FirstNew(xs + [x], seen) == FirstNew(xs, seen)
    ensures !(x in seen || x in FirstNew(xs, seen)) ==> FirstNew(xs + [x], seen) == FirstNew(xs, seen) + [x]
  {
    assert (xs + [x])[..|xs|] == xs;
  }

  lemma SkuListAppend(ps: seq<Product>, p: Product)
    ensures SkuList(ps + [p]) == SkuList(ps) + [p.sku]
  {
    assert (ps + [p])[..|ps|] == ps;
  }

  /** The records' SKUs are the first occurrences of the candidates' SKUs that were not seen before the pass. */
  lemma {:induction false} ScanIsFirstNew(items: seq<Candidate>, seen: set<string>, category: string, ratings: map<string, Rating>)
    ensures var r := ScanItems(items, seen, category, ratings);
            SkuList(r.products) == FirstNew(CandidateSkus(items), seen)
    ensures var r := ScanItems(items, seen, category, ratings);
            forall x :: x in r.seen <==> x in seen || x in FirstNew(CandidateSkus(items), seen)
  {
    if items != [] {
      var init := items[..|items| - 1];
      var item := items[|items| - 1];
      ScanIsFirstNew(init, seen, category, ratings);
      var prev := ScanItems(init, seen, category, ratings);
      assert ScanItems(items, seen, category, ratings) == Step(prev, item, category, ratings);
      assert CandidateSkus(items) == WithSku(CandidateSkus(init), item);
      StepFirstNew(prev, item, seen, CandidateSkus(init), category, ratings);
    }
  }

  /** The seen-set ends as the entry set plus every SKU a candidate carries. */
  lemma ScanSeenIsCandidates(items: seq<Candidate>, seen: set<string>, category: string, ratings: map<string, Rating>)
    ensures var r := ScanItems(items, seen, category, ratings);
            forall x :: x in r.seen <==> x in seen || x in CandidateSkus(items)
  {
    ScanIsFirstNew(items, seen, category, ratings);
    FirstNewCovers(CandidateSkus(items), seen);
  }

  /** Each record's SKU was absent from the seen-set on entry, and no two records share a SKU. */
  lemma ScanSkusFreshAndDistinct(items: seq<Candidate>, seen: set<string>, category: string, ratings: map<string, Rating>)
    ensures var ps := ScanItems(items, seen, category, ratings).products;
            (forall i :: 0 <= i < |ps| ==> ps[i].sku !in seen) &&
            (forall i, j :: 0 <= i < j < |ps| ==> ps[i].sku != ps[j].sku)
  {
    ScanIsFirstNew(items, seen, category, ratings);
    var ps := ScanItems(items, seen, category, ratings).products;
    var skus := SkuList(ps);
    assert forall i :: 0 <= i < |ps| ==> ps[i].sku == skus[i];
  }

  /** On exit the seen-set is the entry set plus the SKUs of the returned records. */
  lemma ScanSeenGrowsByRecords(items: seq<Candidate>, seen: set<string>, category: string, ratings: map<string, Rating>)
    ensures var r := ScanItems(items, seen, category, ratings);
            r.seen == seen + set i | 0 <= i < |r.products| :: r.products[i].sku
  {
    ScanIsFirstNew(items, seen, category, ratings);
    var r := ScanItems(items, seen, category, ratings);
    var skus := SkuList(r.products);
    forall x | x in r.seen
      ensures x in seen + set i | 0 <= i < |r.products| :: r.products[i].sku
    {
      if x !in seen {
        var i :| 0 <= i < |skus| && skus[i] == x;
        assert r.products[i].sku == x;
      }
    }
  }

  /**
   * A candidate is skipped exactly when it has no product link, its link has no
   * SKU, or its SKU is in the entry set or carried by an earlier candidate.
   */
  lemma SkippedExactly(items: seq<Candidate>, item: Candidate, seen: set<string>, category: string, ratings: map<string, Rating>)
    ensures var before := ScanItems(items, seen, category, ratings);
            var after := ScanItems(items + [item], seen, category, ratings);
            var skip := CandidateSku(item).None? || CandidateSku(item).value in seen || CandidateSku(item).value in CandidateSkus(items);
            && (skip ==> after.products == before.products && after.skipped == before.skipped + 1)
            && (!skip ==> after.skipped == before.skipped && |after.products| == |before.products| + 1
                          && after.products[..|before.products|] == before.products
                          && after.products[|before.products|].sku == CandidateSku(item).value)
  {
    ScanSeenIsCandidates(items, seen, category, ratings);
    assert (items + [item])[..|items|] == items;
  }

  /** Every record satisfies the field rules, with the ratings map the pass was given. */
  lemma {:induction false} ScanRecordsWellFormed(items: seq<Candidate>, seen: set<string>, category: string, ratings: map<string, Rating>)
    ensures AllWellFormed(ScanItems(items, seen, category, ratings).products, category, ratings)
  {
    if items != [] {
      var init := items[..|items| - 1];
      ScanRecordsWellFormed(init, seen, category, ratings);
      StepWellFormed(ScanItems(init, seen, category, ratings), items[|items| - 1], category, ratings);
    }
  }

  /** One step of the pass only appends a record built by `BuildRecord`. */
  lemma StepWellFormed(prev: Scan, item: Candidate, category: string, ratings: map<string, Rating>)
    requires AllWellFormed(prev.products, category, ratings)
    ensures AllWellFormed(Step(prev, item, category, ratings).products, category, ratings)
  {
    var v := Classify(item, prev.seen);
    if v.Fresh? {
      var p := BuildRecord(item, v.link, v.sku, category, ratings);
      assert Step(prev, item, category, ratings).products == prev.products + [p];
      AppendWellFormed(prev.products, p, category, ratings);
    }
  }

  lemma AppendWellFormed(ps: seq<Product>, p: Product, category: string, ratings: map<string, Rating>)
    requires AllWellFormed(ps, category, ratings)
    requires WellFormed(p, category, ratings)
    ensures AllWellFormed(ps + [p], category, ratings)
  {
    forall i | 0 <= i < |ps + [p]|
      ensures WellFormed((ps + [p])[i], category, ratings)
    {
      if i < |ps| {
        assert (ps + [p])[i] == ps[i];
      } else {
        assert (ps + [p])[i] == p;
      }
    }
  }

  /** A pass whose seen-set already holds every candidate SKU builds nothing and leaves the set alone. */
  lemma {:induction false} ScanAllSeen(items: seq<Candidate>, seen: set<string>, category: string, ratings: map<string, Rating>)
    requires forall x :: x in CandidateSkus(items) ==> x in seen
    ensures ScanItems(items, seen, category, ratings).products == []
    ensures ScanItems(items, seen, category, ratings).seen == seen
  {
    if items != [] {
      var init := items[..|items| - 1];
      forall x | x in CandidateSkus(init)
        ensures x in seen
      {
        match CandidateSku(items[|items| - 1])
        case None =>
        case Some(sku) =>
          assert CandidateSkus(items) == CandidateSkus(init) + [sku];
      }
      ScanAllSeen(init, seen, category, ratings);
      match CandidateSku(items[|items| - 1])
      case None =>
      case Some(sku) =>
        assert CandidateSkus(items) == CandidateSkus(init) + [sku];
    }
  }

  /** Parsing the same page again with the seen-set the first parse left behind yields no records. */
  lemma ParseTwiceYieldsNothing(page: Page, seen: set<string>, category: string)
    ensures var first := ParseSpec(page, seen, category);
            var second := ParseSpec(page, first.seen, category);
            second.products == [] && second.seen == first.seen
  {
    if page.grid.Some? {
      var items := page.grid.value;
      var ratings := RatingsOf(page.scripts);
      ScanSeenIsCandidates(items, seen, category, ratings);
      ScanAllSeen(items, ScanItems(items, seen, category, ratings).seen, category, ratings);
    }
  }
}
