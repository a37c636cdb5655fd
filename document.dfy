/**
 * The parsed page as the scraper sees it. HTML parsing and JSON decoding are
 * outside the model: a page arrives already split into the JSON-LD script
 * blocks and the direct children of the product grid.
 */
module Document {
  import opened Wrappers

  /** An `<a>` element inside a grid item: its `href` attribute, if any, and its text with every text piece stripped. */
  datatype Anchor = Anchor(href: Option<string>, text: string)

  /** One direct child `div` of the product grid: a candidate listing item. */
  datatype Candidate = Candidate(
    anchors: seq<Anchor>,         // every `<a>` inside the item, in document order
    image: Option<string>,        // the first `<img>` inside the item: its `src`, or "" when it has none
    text: string,                 // the item's whole text
    cartButton: Option<string>)   // the first add-to-cart button: its `onclick`, or "" when it has none

  /** What `int()` makes of a catalog block's `numberOfItems`. */
  datatype ItemCount =
    | Absent          // no such key: the default 0 is used
    | Integral(n: int) // an integer, a float (truncated) or an integer string
    | NotConvertible  // null, a list or an object: `int()` raises TypeError
    | NotAnInteger    // any other string: `int()` raises ValueError

  /**
   * One `application/ld+json` script block. A block whose text is missing or is
   * not valid JSON is `Unreadable`. A readable block is a JSON object, seen
   * through the keys the scraper reads; a key that is absent reads as "".
   */
  datatype LdBlock =
    | Unreadable
    | LdObject(
        ldType: Option<string>,   // `@type`
        reviewedName: string,     // `itemReviewed.name`
        ratingValue: string,      // `ratingValue`
        ratingCount: string,      // `ratingCount`
        name: string,             // `name`
        url: string,              // `url`
        numberOfItems: ItemCount) // `numberOfItems`

  /** A fetched page: its JSON-LD blocks in document order and, when the page has a `product-grid` div, that grid's direct child `div`s. */
  datatype Page = Page(scripts: seq<LdBlock>, grid: Option<seq<Candidate>>)
}
