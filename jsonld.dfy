/**
 * The two readings of the page's JSON-LD blocks: the ratings map built from
 * `AggregateRating` blocks, and the category information taken from the first
 * usable `OfferCatalog` block.
 */
module JsonLd {
  import opened Wrappers
  import opened Document

  // ---------------------------------------------------------------- ratings

  /** The rating fields stored for one product name. */
  datatype Rating = Rating(rating: string, reviewCount: string)

  /** A block that enters the ratings map: an `AggregateRating` whose reviewed item has a non-empty name. */
  predicate RatesProduct(b: LdBlock) {
    b.LdObject? && b.ldType == Some("AggregateRating") && b.reviewedName != ""
  }

  /** The entry a rating block writes. */
  function RatingOf(b: LdBlock): Rating
    requires b.LdObject?
  {
    Rating(b.ratingValue, b.ratingCount)
  }

  /** The ratings map after reading `blocks` in order: a later block for the same name overwrites an earlier one. */
  function RatingsOf(blocks: seq<LdBlock>): map<string, Rating> {
    if blocks == [] then map[]
    else
      var m := RatingsOf(blocks[..|blocks| - 1]);
      var b := blocks[|blocks| - 1];
      if RatesProduct(b) then m[b.reviewedName := RatingOf(b)] else m
  }

  /** `_extract_ratings_from_jsonld`: one pass over the blocks, inserting into the map. */
  method ExtractRatings(blocks: seq<LdBlock>) returns (ratings: map<string, Rating>)
    ensures ratings == RatingsOf(blocks)
  {
    ratings := map[];
    for i := 0 to |blocks|
      invariant ratings == RatingsOf(blocks[..i])
    {
      assert blocks[..i + 1][..i] == blocks[..i];
      var b := blocks[i];
      if b.Unreadable? {
        continue;
      }
      if b.ldType == Some("AggregateRating") && b.reviewedName != "" {
        ratings := ratings[b.reviewedName := RatingOf(b)];
      }
    }
    assert blocks[..|blocks|] == blocks;
  }

  /** A name is a key of the ratings map exactly when some rating block names it. */
  lemma {:induction false} RatingsKeys(blocks: seq<LdBlock>, name: string)
    ensures name in RatingsOf(blocks) <==>
            exists i :: 0 <= i < |blocks| && RatesProduct(blocks[i]) && blocks[i].reviewedName == name
  {
    if blocks != [] {
      var init := blocks[..|blocks| - 1];
      RatingsKeys(init, name);
      if exists i :: 0 <= i < |init| && RatesProduct(init[i]) && init[i].reviewedName == name {
        var i :| 0 <= i < |init| && RatesProduct(init[i]) && init[i].reviewedName == name;
        assert blocks[i] == init[i];
      }
      if exists i :: 0 <= i < |blocks| && RatesProduct(blocks[i]) && blocks[i].reviewedName == name {
        var i :| 0 <= i < |blocks| && RatesProduct(blocks[i]) && blocks[i].reviewedName == name;
        if i < |init| {
          assert init[i] == blocks[i];
        }
      }
    }
  }

  /** The entry for a name is the one written by the last rating block that names it. */
  lemma {:induction false} RatingsLastWriterWins(blocks: seq<LdBlock>, i: nat)
    requires i < |blocks| && RatesProduct(blocks[i])
    requires forall j :: i < j < |blocks| ==> !(RatesProduct(blocks[j]) && blocks[j].reviewedName == blocks[i].reviewedName)
    ensures blocks[i].reviewedName in RatingsOf(blocks)
    ensures RatingsOf(blocks)[blocks[i].reviewedName] == RatingOf(blocks[i])
  {
    var init := blocks[..|blocks| - 1];
    if i < |init| {
      assert init[i] == blocks[i];
      forall j | i < j < |init|
        ensures !(RatesProduct(init[j]) && init[j].reviewedName == init[i].reviewedName)
      {
        assert init[j] == blocks[j];
      }
      RatingsLastWriterWins(init, i);
    }
  }

  // ---------------------------------------------------------------- category information

  /** The category fields of the first catalog block. */
  datatype CategoryInfo = CategoryInfo(name: string, totalProducts: int, url: string)

  /** What a page without a usable catalog block yields. */
  const NoCategory := CategoryInfo("", 0, "")

  /** `int()` raised ValueError on the catalog's `numberOfItems`; the scraper does not catch it. */
  datatype CategoryError = ItemCountNotAnInteger

  /** A block that ends the search: an `OfferCatalog` whose item count `int()` does not reject with TypeError. */
  predicate Settles(b: LdBlock) {
    b.LdObject? && b.ldType == Some("OfferCatalog") && !b.numberOfItems.NotConvertible?
  }

  /** What a settling block yields. */
  function CatalogEntry(b: LdBlock): Result<CategoryInfo, CategoryError>
    requires Settles(b)
  {
    match b.numberOfItems
    case Absent => Success(CategoryInfo(b.name, 0, b.url))
    case Integral(n) => Success(CategoryInfo(b.name, n, b.url))
    case NotAnInteger => Failure(ItemCountNotAnInteger)
  }

  /** The category information read from `blocks`: the first settling block decides. */
  function CategoryInfoOf(blocks: seq<LdBlock>): Result<CategoryInfo, CategoryError> {
    if blocks == [] then Success(NoCategory)
    else if Settles(blocks[0]) then CatalogEntry(blocks[0])
    else CategoryInfoOf(blocks[1..])
  }

  /** `get_category_info`: scan the blocks and return at the first catalog block. */
  method GetCategoryInfo(blocks: seq<LdBlock>) returns (r: Result<CategoryInfo, CategoryError>)
    ensures r == CategoryInfoOf(blocks)
  {
    for i := 0 to |blocks|
      invariant CategoryInfoOf(blocks) == CategoryInfoOf(blocks[i..])
    {
      assert blocks[i..][1..] == blocks[i + 1..];
      var b := blocks[i];
      if b.Unreadable? {
        continue;
      }
      if b.ldType == Some("OfferCatalog") {
        match b.numberOfItems
        case Absent => return Success(CategoryInfo(b.name, 0, b.url));
        case Integral(n) => return Success(CategoryInfo(b.name, n, b.url));
        case NotConvertible => continue;
        case NotAnInteger => return Failure(ItemCountNotAnInteger);
      }
    }
    return Success(NoCategory);
  }

  /** The first settling block decides the category information. */
  lemma {:induction false} FirstCatalogDecides(blocks: seq<LdBlock>, i: nat)
    requires i < |blocks| && Settles(blocks[i])
    requires forall j :: 0 <= j < i ==> !Settles(blocks[j])
    ensures CategoryInfoOf(blocks) == CatalogEntry(blocks[i])
  {
    if i > 0 {
      assert blocks[1..][i - 1] == blocks[i];
      forall j | 0 <= j < i - 1
        ensures !Settles(blocks[1..][j])
      {
        assert blocks[1..][j] == blocks[j + 1];
      }
      FirstCatalogDecides(blocks[1..], i - 1);
    }
  }

  /** Without a settling block the result is the empty default. */
  lemma {:induction false} NoCatalogDefault(blocks: seq<LdBlock>)
    requires forall j :: 0 <= j < |blocks| ==> !Settles(blocks[j])
    ensures CategoryInfoOf(blocks) == Success(NoCategory)
  {
    if blocks != [] {
      assert forall j :: 0 <= j < |blocks| - 1 ==> blocks[1..][j] == blocks[j + 1];
      NoCatalogDefault(blocks[1..]);
    }
  }

  /** The scan fails only on an `OfferCatalog` block whose item count is a non-integer string. */
  lemma {:induction false} CategoryFailureCause(blocks: seq<LdBlock>)
    ensures CategoryInfoOf(blocks).Failure? <==>
            exists i :: 0 <= i < |blocks| && Settles(blocks[i]) && blocks[i].numberOfItems.NotAnInteger?
                        && forall j :: 0 <= j < i ==> !Settles(blocks[j])
  {
    if blocks != [] {
      CategoryFailureCause(blocks[1..]);
      if !Settles(blocks[0]) {
        if CategoryInfoOf(blocks).Failure? {
          var i :| 0 <= i < |blocks[1..]| && Settles(blocks[1..][i]) && blocks[1..][i].numberOfItems.NotAnInteger?
                   && forall j :: 0 <= j < i ==> !Settles(blocks[1..][j]);
          assert blocks[i + 1] == blocks[1..][i];
          forall j | 0 <= j < i + 1
            ensures !Settles(blocks[j])
          {
            if j > 0 {
              assert blocks[j] == blocks[1..][j - 1];
            }
          }
        }
        if exists i :: 0 <= i < |blocks| && Settles(blocks[i]) && blocks[i].numberOfItems.NotAnInteger?
                       && forall j :: 0 <= j < i ==> !Settles(blocks[j]) {
          var i :| 0 <= i < |blocks| && Settles(blocks[i]) && blocks[i].numberOfItems.NotAnInteger?
                   && forall j :: 0 <= j < i ==> !Settles(blocks[j]);
          assert blocks[1..][i - 1] == blocks[i];
          forall j | 0 <= j < i - 1
            ensures !Settles(blocks[1..][j])
          {
            assert blocks[1..][j] == blocks[j + 1];
          }
        }
      }
    }
  }
}
