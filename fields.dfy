/**
 * The per-item field derivations of `BencoScraper.parse_products` and its
 * helpers `_extract_availability` and `_extract_from_onclick`: the product
 * link, the SKU, the product URL, the cleaned name, the availability text,
 * the image, and the price and brand of the add-to-cart call.
 */
module Fields {
  import opened Wrappers
  import opened Text
  import opened Patterns
  import opened Document

  const BaseUrl: string := "https://shop.benco.com"

  // ---------------------------------------------------------------- link

  /** An anchor whose `href` contains `/Product/`. */
  predicate IsProductAnchor(a: Anchor) {
    a.href.Some? && exists i :: 0 <= i <= |a.href.value| && LitAt(a.href.value, i, "/Product/")
  }

  /** The index of the first product anchor at or after `from`. */
  function FirstProductAnchor(anchors: seq<Anchor>, from: nat): (k: Option<nat>)
    requires from <= |anchors|
    decreases |anchors| - from
    ensures k.Some? ==> from <= k.value < |anchors| && IsProductAnchor(anchors[k.value])
    ensures k.Some? ==> forall j :: from <= j < k.value ==> !IsProductAnchor(anchors[j])
    ensures k.None? ==> forall j :: from <= j < |anchors| ==> !IsProductAnchor(anchors[j])
  {
    if from == |anchors| then None
    else if IsProductAnchor(anchors[from]) then Some(from)
    else FirstProductAnchor(anchors, from + 1)
  }

  /** The product link of an item: its `href` and its stripped text. */
  datatype Link = Link(href: string, text: string)

  /** The first anchor of the item whose `href` contains `/Product/`. */
  function ProductLink(anchors: seq<Anchor>): (r: Option<Link>)
    ensures r.None? <==> forall j :: 0 <= j < |anchors| ==> !IsProductAnchor(anchors[j])
    ensures r.Some? ==> exists k :: 0 <= k < |anchors| && IsProductAnchor(anchors[k])
                                   && anchors[k] == Anchor(Some(r.value.href), r.value.text)
                                   && forall j :: 0 <= j < k ==> !IsProductAnchor(anchors[j])
  {
    match FirstProductAnchor(anchors, 0)
    case None => None
    case Some(k) => Some(Link(anchors[k].href.value, anchors[k].text))
  }

  // ---------------------------------------------------------------- SKU

  /** `sku` sits at position `i` of `href`: `/Product/`, then `sku`, which has no slash, then a slash. */
  predicate SkuAt(href: string, i: nat, sku: string) {
    && LitAt(href, i, "/Product/")
    && sku != [] && '/' !in sku
    && i + 9 + |sku| < |href|
    && href[i + 9..i + 9 + |sku|] == sku
    && href[i + 9 + |sku|] == '/'
  }

  /** The SKU of a product link: group 1 of the leftmost match of the SKU pattern in the `href`. */
  function SkuOf(href: string): (r: Option<string>)
    ensures r.Some? ==> r.value != [] && '/' !in r.value
  {
    match Search(SkuPath, href)
    case None => None
    case Some(f) =>
      MatchIsSkuAt(href, f.start);
      Some(Group(href, f))
  }

  /** A match of the SKU pattern is an occurrence of `SkuAt`. */
  lemma MatchIsSkuAt(href: string, i: nat)
    requires i <= |href| && MatchAt(SkuPath, href, i).Some?
    ensures var f := MatchAt(SkuPath, href, i).value; SkuAt(href, i, href[f.groupStart..f.groupEnd])
  {
    var f := MatchAt(SkuPath, href, i).value;
    var sku := href[f.groupStart..f.groupEnd];
    assert forall k :: 0 <= k < |sku| ==> sku[k] == href[i + 9 + k];
  }

  /** Every occurrence of `SkuAt` is a match of the SKU pattern there. */
  lemma SkuAtIsMatch(href: string, i: nat, sku: string)
    requires SkuAt(href, i, sku)
    ensures MatchAt(SkuPath, href, i) == Some(Found(i, i + 10 + |sku|, i + 9, i + 9 + |sku|))
  {
    var e := RunEnd(href, i + 9, NotSlash);
    forall k | i + 9 <= k < i + 9 + |sku|
      ensures href[k] != '/'
    {
      assert href[k] == sku[k - i - 9];
    }
  }

  /** The SKU is the one at the leftmost position where an occurrence of `SkuAt` starts. */
  lemma {:induction false} SkuOfIsLeftmost(href: string, i: nat, sku: string)
    requires SkuAt(href, i, sku)
    requires forall j, t :: 0 <= j < i ==> !SkuAt(href, j, t)
    ensures SkuOf(href) == Some(sku)
  {
    SkuAtIsMatch(href, i, sku);
    var f := Search(SkuPath, href).value;
    if f.start < i {
      MatchIsSkuAt(href, f.start);
    }
  }

  /** No SKU comes out exactly when `href` has no occurrence of `SkuAt`, and a SKU that comes out has one. */
  lemma {:induction false} SkuOfOccurs(href: string)
    ensures SkuOf(href).None? <==> forall i, t :: !SkuAt(href, i, t)
    ensures SkuOf(href).Some? ==> SkuAt(href, Search(SkuPath, href).value.start, SkuOf(href).value)
  {
    var m := Search(SkuPath, href);
    if m.Some? {
      MatchIsSkuAt(href, m.value.start);
    } else {
      forall i, t | SkuAt(href, i, t)
        ensures false
      {
        SkuAtIsMatch(href, i, t);
      }
    }
  }

  // ---------------------------------------------------------------- URL

  /** The product URL: the site's base URL followed by the `href` cut at its first `?`. */
  function ProductUrl(href: string): (r: string)
    ensures |r| >= |BaseUrl| && r[..|BaseUrl|] == BaseUrl
    ensures '?' !in r
    ensures r[|BaseUrl|..] <= href
    ensures |r| - |BaseUrl| < |href| ==> href[|r| - |BaseUrl|] == '?'
  {
    var path := Before(href, '?');
    assert '?' !in BaseUrl;
    var r := BaseUrl + path;
    assert r[..|BaseUrl|] == BaseUrl && r[|BaseUrl|..] == path;
    r
  }

  // ---------------------------------------------------------------- name

  /** The name-cleaning pattern matches at `i`: a marker starts there and the rest of the line runs to the end. */
  predicate CutsAt(raw: string, i: nat) {
    MarkerAt(raw, i) && NoBreakBeforeLast(raw, i)
  }

  lemma CutsAtIsMatch(raw: string, i: nat)
    requires i <= |raw|
    ensures CutsAt(raw, i) <==> MatchAt(NameSuffix, raw, i).Some?
  {
  }

  /**
   * `re.sub` of the name-cleaning pattern with "". The first match runs to the
   * end of the text or to a final line break, so it is the only one.
   */
  function WithoutSuffix(raw: string): string {
    match Search(NameSuffix, raw)
    case None => raw
    case Some(f) => raw[..f.start] + raw[f.end..]
  }

  /** After the first match of the name-cleaning pattern nothing else matches. */
  lemma SuffixMatchIsLast(raw: string)
    requires Search(NameSuffix, raw).Some?
    ensures var f := Search(NameSuffix, raw).value;
            forall j :: f.end <= j <= |raw| ==> MatchAt(NameSuffix, raw, j).None?
  {
    var f := Search(NameSuffix, raw).value;
    forall j | f.end <= j <= |raw|
      ensures !MarkerAt(raw, j)
    {
      MarkerLength(raw, j);
    }
  }

  /** A marker occupies at least eight characters, none of them a line break. */
  lemma MarkerLength(s: string, i: nat)
    ensures MarkerAt(s, i) ==> i + 8 <= |s| && forall k :: i <= k < i + 8 ==> s[k] != '\n'
  {
    if MarkerAt(s, i) && !CodeAt(s, i) {
      var m :| m in NameMarkers && LitAt(s, i, m);
      assert forall k :: 0 <= k < 8 ==> m[k] != '\n';
      assert forall k :: i <= k < i + 8 ==> s[k] == s[i..i + |m|][k - i];
    }
  }

  /** The cleaned product name: the link text with its status suffix removed, then stripped. */
  function CleanName(raw: string): (r: string)
    ensures r != [] ==> !IsSpace(r[0]) && !IsSpace(r[|r| - 1])
    ensures |r| <= |raw|
  {
    Strip(WithoutSuffix(raw))
  }

  /** The cleaned name is the text before the first position where the pattern matches, stripped. */
  lemma {:induction false} CleanNameCutsAtFirstMarker(raw: string, i: nat)
    requires i <= |raw| && CutsAt(raw, i)
    requires forall j :: 0 <= j < i ==> !CutsAt(raw, j)
    ensures CleanName(raw) == Strip(raw[..i])
  {
    CutsAtIsMatch(raw, i);
    var m := Search(NameSuffix, raw);
    assert m.Some?;
    var f := m.value;
    if f.start < i {
      CutsAtIsMatch(raw, f.start);
    }
    assert f.start == i;
    if f.end == |raw| {
      assert WithoutSuffix(raw) == raw[..i];
    } else {
      assert raw[f.end..] == ['\n'];
      StripIgnoresTrailingSpace(raw[..i], '\n');
    }
  }

  /** Without a match the cleaned name is just the stripped text. */
  lemma CleanNameWithoutMarker(raw: string)
    requires forall i :: 0 <= i <= |raw| ==> !CutsAt(raw, i)
    ensures CleanName(raw) == Strip(raw)
  {
    if Search(NameSuffix, raw).Some? {
      CutsAtIsMatch(raw, Search(NameSuffix, raw).value.start);
    }
  }

  /** A marker inside a piece of `s` is a marker of `s`, and it fits inside the piece. */
  lemma MarkerInInfix(s: string, a: nat, len: nat, k: nat)
    requires a + len <= |s| && MarkerAt(s[a..a + len], k)
    ensures MarkerAt(s, a + k) && k + 8 <= len
  {
    var t := s[a..a + len];
    if CodeAt(t, k) {
      assert t[k] == s[a + k] && t[k + 1] == s[a + k + 1] && t[k + 2] == s[a + k + 2] && t[k + 3] == s[a + k + 3];
      assert t[k + 4] == s[a + k + 4] && t[k + 5] == s[a + k + 5] && t[k + 6] == s[a + k + 6] && t[k + 7] == s[a + k + 7];
    } else {
      var m :| m in NameMarkers && LitAt(t, k, m);
      assert |m| >= 8;
      forall d | 0 <= d < |m|
        ensures s[a + k..a + k + |m|][d] == m[d]
      {
        assert t[k..k + |m|][d] == m[d];
      }
      assert s[a + k..a + k + |m|] == m;
    }
  }

  /** The cleaned name is the stripped text before the first place the suffix pattern matches. */
  lemma CleanNameIsStrippedPrefix(raw: string) returns (cut: nat)
    ensures cut <= |raw| && CleanName(raw) == Strip(raw[..cut])
    ensures forall j :: 0 <= j < cut ==> !CutsAt(raw, j)
  {
    var m := Search(NameSuffix, raw);
    cut := if m.Some? then m.value.start else |raw|;
    if m.Some? {
      CutsAtIsMatch(raw, cut);
      forall j | 0 <= j < cut
        ensures !CutsAt(raw, j)
      {
        CutsAtIsMatch(raw, j);
      }
      CleanNameCutsAtFirstMarker(raw, cut);
    } else {
      forall j | 0 <= j <= |raw|
        ensures !CutsAt(raw, j)
      {
        CutsAtIsMatch(raw, j);
      }
      CleanNameWithoutMarker(raw);
      assert raw[..cut] == raw;
    }
  }

  /** A marker inside a piece of a text without line breaks is a place where the pattern matches. */
  lemma MarkerInPieceCuts(raw: string, a: nat, len: nat, k: nat)
    requires a + len <= |raw| && '\n' !in raw && MarkerAt(raw[a..a + len], k)
    ensures k < len && CutsAt(raw, a + k)
  {
    MarkerInInfix(raw, a, len, k);
    forall j | a + k <= j < |raw| - 1
      ensures raw[j] != '\n'
    {
      assert raw[j] in raw;
    }
  }

  /** A marker inside the stripped text before `cut` is a place before `cut` where the pattern matches. */
  lemma MarkerGivesCut(raw: string, cut: nat, a: nat, k: nat)
    requires cut <= |raw| && '\n' !in raw && a == StripStart(raw[..cut])
    ensures MarkerAt(Strip(raw[..cut]), k) ==> a + k < cut && CutsAt(raw, a + k)
  {
    var r := Strip(raw[..cut]);
    assert a + |r| <= cut && r == raw[..cut][a..a + |r|];
    assert r == raw[a..a + |r|];
    if MarkerAt(r, k) {
      MarkerInPieceCuts(raw, a, |r|, k);
    }
  }

  /** So the stripped text before the first place the pattern matches holds no marker. */
  lemma NoMarkerBeforeCut(raw: string, cut: nat, k: nat)
    requires cut <= |raw| && '\n' !in raw
    requires forall j :: 0 <= j < cut ==> !CutsAt(raw, j)
    ensures !MarkerAt(Strip(raw[..cut]), k)
  {
    MarkerGivesCut(raw, cut, StripStart(raw[..cut]), k);
  }

  /** When the link text has no line break, the cleaned name contains no status marker at all. */
  lemma CleanNameHasNoMarker(raw: string)
    requires '\n' !in raw
    ensures forall k :: 0 <= k <= |CleanName(raw)| ==> !MarkerAt(CleanName(raw), k)
  {
    var cut := CleanNameIsStrippedPrefix(raw);
    forall k | 0 <= k <= |CleanName(raw)|
      ensures !MarkerAt(CleanName(raw), k)
    {
      NoMarkerBeforeCut(raw, cut, k);
    }
  }

  // ---------------------------------------------------------------- availability

  /** The availability patterns in priority order. */
  const StockPatterns: seq<Regex> := [ShipDate, InStockIn, InStock, OutOfStock, NoLongerAvailable, ShipsIn]

  /** One of the availability patterns. */
  predicate IsStockPattern(p: Regex) {
    p.ShipDate? || p.InStockIn? || p.InStock? || p.OutOfStock? || p.NoLongerAvailable? || p.ShipsIn?
  }

  /** The stripped match of the first pattern of `patterns` that matches anywhere in `text`, or "". */
  function FirstStatus(patterns: seq<Regex>, text: string): string {
    if patterns == [] then ""
    else
      match Search(patterns[0], text)
      case Some(f) => Strip(Matched(text, f))
      case None => FirstStatus(patterns[1..], text)
  }

  /** The availability of an item with this text. */
  function Availability(text: string): string {
    FirstStatus(StockPatterns, text)
  }

  /** `_extract_availability`: try the patterns in order and return the first match, stripped. */
  method ExtractAvailability(item: Candidate) returns (status: string)
    ensures status == Availability(item.text)
  {
    var text := item.text;
    for k := 0 to |StockPatterns|
      invariant FirstStatus(StockPatterns, text) == FirstStatus(StockPatterns[k..], text)
    {
      FirstStatusFrom(StockPatterns, text, k);
      var m := Search(StockPatterns[k], text);
      if m.Some? {
        return Strip(Matched(text, m.value));
      }
    }
    return "";
  }

  /** Trying the patterns from position `k` on tries the one at `k` first. */
  lemma FirstStatusFrom(patterns: seq<Regex>, text: string, k: nat)
    requires k < |patterns|
    ensures Search(patterns[k], text).Some? ==>
              FirstStatus(patterns[k..], text) == Strip(Matched(text, Search(patterns[k], text).value))
    ensures Search(patterns[k], text).None? ==> FirstStatus(patterns[k..], text) == FirstStatus(patterns[k + 1..], text)
  {
    assert patterns[k..][0] == patterns[k] && patterns[k..][1..] == patterns[k + 1..];
  }

  lemma LowerLetterIsNotSpace(c: char)
    requires 'a' <= Lower(c) <= 'z'
    ensures !IsSpace(c)
  {
  }

  lemma LitIgnoringCaseEnds(s: string, i: nat, lit: string)
    requires LitAtIgnoringCase(s, i, lit) && lit != []
    ensures Lower(s[i]) == Lower(lit[0]) && Lower(s[i + |lit| - 1]) == Lower(lit[|lit| - 1])
  {
    assert s[i..i + |lit|][0] == s[i];
    assert s[i..i + |lit|][|lit| - 1] == s[i + |lit| - 1];
  }

  /** A case-insensitive literal that starts and ends with a letter puts non-whitespace at both ends of its occurrence. */
  lemma LetterEnds(s: string, i: nat, lit: string)
    requires LitAtIgnoringCase(s, i, lit) && lit != []
    requires 'a' <= Lower(lit[0]) <= 'z'
    ensures !IsSpace(s[i])
    ensures 'a' <= Lower(lit[|lit| - 1]) <= 'z' ==> !IsSpace(s[i + |lit| - 1])
  {
    LitIgnoringCaseEnds(s, i, lit);
    LowerLetterIsNotSpace(s[i]);
    if 'a' <= Lower(lit[|lit| - 1]) <= 'z' {
      LowerLetterIsNotSpace(s[i + |lit| - 1]);
    }
  }

  /** A ship-date match starts with a letter and ends with a digit, so stripping leaves it whole. */
  lemma ShipDateTrimmed(s: string, i: nat)
    requires i <= |s| && ShipDateMatch(s, i).Some?
    ensures var f := ShipDateMatch(s, i).value;
            Matched(s, f) != [] && Strip(Matched(s, f)) == Matched(s, f)
  {
    var f := ShipDateMatch(s, i).value;
    LetterEnds(s, i, "Estimated Ship Date ");
    SliceTrimmed(s, f.start, f.end);
  }

  /** An `In Stock in` match starts with a letter and ends with a word character, so stripping leaves it whole. */
  lemma InStockInTrimmed(s: string, i: nat)
    requires i <= |s| && InStockInMatch(s, i).Some?
    ensures var f := InStockInMatch(s, i).value;
            Matched(s, f) != [] && Strip(Matched(s, f)) == Matched(s, f)
  {
    var f := InStockInMatch(s, i).value;
    LetterEnds(s, i, "In Stock in ");
    SliceTrimmed(s, f.start, f.end);
  }

  /** A match of a fixed phrase that starts and ends with a letter is left whole by stripping. */
  lemma PhraseTrimmed(s: string, i: nat, phrase: string)
    requires phrase != [] && 'a' <= Lower(phrase[0]) <= 'z' && 'a' <= Lower(phrase[|phrase| - 1]) <= 'z'
    requires i <= |s| && PhraseMatch(s, i, phrase).Some?
    ensures var f := PhraseMatch(s, i, phrase).value;
            Matched(s, f) != [] && Strip(Matched(s, f)) == Matched(s, f)
  {
    var f := PhraseMatch(s, i, phrase).value;
    assert Matched(s, f) == s[i..i + |phrase|];
    LetterEnds(s, i, phrase);
    SliceTrimmed(s, i, i + |phrase|);
  }

  /** A shipping-time match starts with a letter and ends with a letter of its unit or the plural `s`, so stripping leaves it whole. */
  lemma ShipsInTrimmed(s: string, i: nat)
    requires i <= |s| && ShipsInMatch(s, i).Some?
    ensures var f := ShipsInMatch(s, i).value;
            Matched(s, f) != [] && Strip(Matched(s, f)) == Matched(s, f)
  {
    var f := ShipsInMatch(s, i).value;
    LetterEnds(s, i, "Ships in ");
    LowerLetterIsNotSpace(s[f.end - 1]);
    SliceTrimmed(s, f.start, f.end);
  }

  /** Every availability match is non-empty and left whole by stripping. */
  lemma StatusMatchTrimmed(p: Regex, s: string, i: nat)
    requires IsStockPattern(p) && i <= |s| && MatchAt(p, s, i).Some?
    ensures var f := MatchAt(p, s, i).value;
            Matched(s, f) != [] && Strip(Matched(s, f)) == Matched(s, f)
  {
    match p
    case ShipDate => ShipDateTrimmed(s, i);
    case InStockIn => InStockInTrimmed(s, i);
    case InStock => PhraseTrimmed(s, i, "In Stock");
    case OutOfStock => PhraseTrimmed(s, i, "Out of Stock");
    case NoLongerAvailable => PhraseTrimmed(s, i, "No Longer Available");
    case ShipsIn => ShipsInTrimmed(s, i);
  }

  /** Stripping an availability match leaves it as it is, and the match is never empty. */
  lemma StatusIsWholeMatch(p: Regex, s: string)
    requires IsStockPattern(p) && Search(p, s).Some?
    ensures Matched(s, Search(p, s).value) != []
    ensures Strip(Matched(s, Search(p, s).value)) == Matched(s, Search(p, s).value)
  {
    StatusMatchTrimmed(p, s, Search(p, s).value.start);
  }

  /** Trying `patterns` in order gives "" exactly when none of them matches. */
  lemma {:induction false} FirstStatusEmpty(patterns: seq<Regex>, text: string)
    requires forall k :: 0 <= k < |patterns| ==> IsStockPattern(patterns[k])
    ensures FirstStatus(patterns, text) == "" <==> forall k :: 0 <= k < |patterns| ==> Search(patterns[k], text).None?
  {
    if patterns != [] {
      var m := Search(patterns[0], text);
      if m.Some? {
        StatusIsWholeMatch(patterns[0], text);
        assert FirstStatus(patterns, text) == Matched(text, m.value);
      } else {
        var rest := patterns[1..];
        assert forall k :: 0 <= k < |rest| ==> rest[k] == patterns[k + 1];
        FirstStatusEmpty(rest, text);
        assert FirstStatus(patterns, text) == FirstStatus(rest, text);
      }
    }
  }

  /** When the first pattern matches, its whole match is the status. */
  lemma FirstStatusHead(patterns: seq<Regex>, text: string)
    requires patterns != [] && IsStockPattern(patterns[0]) && Search(patterns[0], text).Some?
    ensures FirstStatus(patterns, text) == Matched(text, Search(patterns[0], text).value)
  {
    StatusIsWholeMatch(patterns[0], text);
  }

  /** Trying `patterns` in order gives the whole match of the first one that matches. */
  lemma {:induction false} FirstStatusIsFirstMatch(patterns: seq<Regex>, text: string, k: nat)
    requires k < |patterns| && forall i :: 0 <= i < |patterns| ==> IsStockPattern(patterns[i])
    requires Search(patterns[k], text).Some?
    requires forall j :: 0 <= j < k ==> Search(patterns[j], text).None?
    ensures FirstStatus(patterns, text) == Matched(text, Search(patterns[k], text).value)
  {
    if k == 0 {
      FirstStatusHead(patterns, text);
    } else {
      assert Search(patterns[0], text).None?;
      var rest := patterns[1..];
      assert rest[k - 1] == patterns[k];
      forall j | 0 <= j < |rest|
        ensures IsStockPattern(rest[j]) && (j < k - 1 ==> Search(rest[j], text).None?)
      {
        assert rest[j] == patterns[j + 1];
      }
      FirstStatusIsFirstMatch(rest, text, k - 1);
      FirstStatusTail(patterns, text);
      assert Search(rest[k - 1], text) == Search(patterns[k], text);
    }
  }

  /** When the first pattern does not match, the status is that of the remaining patterns. */
  lemma FirstStatusTail(patterns: seq<Regex>, text: string)
    requires patterns != [] && Search(patterns[0], text).None?
    ensures FirstStatus(patterns, text) == FirstStatus(patterns[1..], text)
  {
  }

  /**
   * The availability is the match of the first pattern, in priority order, that
   * matches the item text, or "" when none matches.
   */
  lemma AvailabilityIsFirstMatch(text: string)
    ensures Availability(text) == "" <==> forall k :: 0 <= k < |StockPatterns| ==> Search(StockPatterns[k], text).None?
    ensures forall k :: 0 <= k < |StockPatterns| && Search(StockPatterns[k], text).Some?
                        && (forall j :: 0 <= j < k ==> Search(StockPatterns[j], text).None?)
                        ==> Availability(text) == Matched(text, Search(StockPatterns[k], text).value)
  {
    FirstStatusEmpty(StockPatterns, text);
    forall k | 0 <= k < |StockPatterns| && Search(StockPatterns[k], text).Some?
                 && (forall j :: 0 <= j < k ==> Search(StockPatterns[j], text).None?)
      ensures Availability(text) == Matched(text, Search(StockPatterns[k], text).value)
    {
      FirstStatusIsFirstMatch(StockPatterns, text, k);
    }
  }

  // ---------------------------------------------------------------- price and brand

  /** The price and brand read from an add-to-cart button. */
  datatype CartFields = CartFields(price: string, brand: string)

  /**
   * `_extract_from_onclick`: group 1 of the leftmost price match and of the
   * leftmost brand match in the button's `onclick` text (`None`: no button).
   */
  function FromOnclick(onclick: Option<string>): (r: CartFields)
    ensures onclick.None? ==> r == CartFields("", "")
    ensures forall k :: 0 <= k < |r.price| ==> IsDigitOrDot(r.price[k])
    ensures '`' !in r.brand
    ensures onclick.Some? ==> (r.price != [] <==> Search(OnclickPrice, onclick.value).Some?)
    ensures onclick.Some? ==> (r.brand != [] <==> Search(OnclickBrand, onclick.value).Some?)
  {
    match onclick
    case None => CartFields("", "")
    case Some(s) =>
      var price := (match Search(OnclickPrice, s)
                    case None => ""
                    case Some(f) => PriceGroup(s); Group(s, f));
      var brand := (match Search(OnclickBrand, s)
                    case None => ""
                    case Some(f) => BrandGroup(s); Group(s, f));
      CartFields(price, brand)
  }

  /** Group 1 of a price match at `j` is a non-empty run of digits and dots. */
  lemma PriceMatchGroup(s: string, j: nat)
    requires j <= |s| && OnclickPriceMatch(s, j).Some?
    ensures var g := Group(s, OnclickPriceMatch(s, j).value);
            g != [] && forall k :: 0 <= k < |g| ==> IsDigitOrDot(g[k])
  {
    var f := OnclickPriceMatch(s, j).value;
    var w := RunEnd(s, j + 2, IsSpace);
    var e := RunEnd(s, w + 1, IsDigitOrDot);
    assert f.groupStart == w + 1 && f.groupEnd == e;
    var g := Group(s, f);
    forall k | 0 <= k < |g|
      ensures IsDigitOrDot(g[k])
    {
      assert g[k] == s[w + 1 + k];
    }
  }

  /** Group 1 of the price search is a non-empty run of digits and dots. */
  lemma PriceGroup(s: string)
    requires Search(OnclickPrice, s).Some?
    ensures var g := Group(s, Search(OnclickPrice, s).value);
            g != [] && forall k :: 0 <= k < |g| ==> IsDigitOrDot(g[k])
  {
    var f := Search(OnclickPrice, s).value;
    assert OnclickPriceMatch(s, f.start) == MatchAt(OnclickPrice, s, f.start) == Some(f);
    PriceMatchGroup(s, f.start);
  }

  /** Group 1 of a brand match at `j` is non-empty and has no backtick. */
  lemma BrandMatchGroup(s: string, j: nat)
    requires j <= |s| && OnclickBrandMatch(s, j).Some?
    ensures var g := Group(s, OnclickBrandMatch(s, j).value);
            g != [] && '`' !in g
  {
    var f := OnclickBrandMatch(s, j).value;
    var e := RunEnd(s, j + 1, IsDigitOrDot);
    var w := RunEnd(s, e + 2, IsSpace);
    var b := RunEnd(s, w + 1, NotBacktick);
    assert f.groupStart == w + 1 && f.groupEnd == b;
    var g := Group(s, f);
    forall k | 0 <= k < |g|
      ensures g[k] != '`'
    {
      assert g[k] == s[w + 1 + k];
    }
  }

  /** Group 1 of the brand search is non-empty and has no backtick. */
  lemma BrandGroup(s: string)
    requires Search(OnclickBrand, s).Some?
    ensures var g := Group(s, Search(OnclickBrand, s).value);
            g != [] && '`' !in g
  {
    var f := Search(OnclickBrand, s).value;
    assert OnclickBrandMatch(s, f.start) == MatchAt(OnclickBrand, s, f.start) == Some(f);
    BrandMatchGroup(s, f.start);
  }

  /** `x` ends with a quote, a comma and then only whitespace. */
  predicate QuoteCommaEnd(x: string) {
    var b := RunStart(x, |x|, IsSpace);
    b >= 2 && x[b - 1] == ',' && x[b - 2] == '\''
  }

  /** A quote and a comma followed only by whitespace make a quote-comma ending. */
  lemma QuoteCommaEndAt(x: string, q: nat)
    requires 2 <= q <= |x| && x[q - 2] == '\'' && x[q - 1] == ','
    requires forall k :: q <= k < |x| ==> IsSpace(x[k])
    ensures QuoteCommaEnd(x)
  {
    RunStartAt(x, q, |x|, IsSpace);
  }

  /** The text before the backtick that opens a brand match ends with a quote, a comma and spaces. */
  lemma BrandMatchShape(s: string, j: nat)
    requires j <= |s| && OnclickBrandMatch(s, j).Some?
    ensures var w := OnclickBrandMatch(s, j).value.groupStart - 1;
            s[j] == '\'' && j < w < |s| && s[w] == '`' && QuoteCommaEnd(s[..w]) && forall k :: j <= k < w ==> s[k] != '`'
  {
    var f := OnclickBrandMatch(s, j).value;
    var e := RunEnd(s, j + 1, IsDigitOrDot);
    var w := RunEnd(s, e + 2, IsSpace);
    assert s[j] == '\'' && j + 1 < e && e + 1 < |s| && s[e] == '\'' && s[e + 1] == ',';
    assert f.groupStart == w + 1 && s[w] == '`';
    var x := s[..w];
    forall k | e + 2 <= k < w
      ensures IsSpace(x[k])
    {
      assert x[k] == s[k];
    }
    QuoteCommaEndAt(x, e + 2);
  }

  /** A quote-comma ending after the last backtick belongs to the text after that backtick. */
  lemma QuoteCommaAfterBacktick(u: string, v: string)
    requires QuoteCommaEnd(u + "`" + v)
    ensures QuoteCommaEnd(v)
  {
    var x := u + "`" + v;
    var b := RunStart(x, |x|, IsSpace);
    assert x[|u|] == '`';
    assert b > |u| + 1;
    forall k | b - |u| - 1 <= k < |v|
      ensures IsSpace(v[k])
    {
      assert v[k] == x[|u| + 1 + k];
    }
    RunStartAt(v, b - |u| - 1, |v|, IsSpace);
    assert v[b - |u| - 2] == x[b - 1] && v[b - |u| - 3] == x[b - 2];
  }

  /**
   * The price pattern first matches at `c`, where a backtick, a comma, a space
   * and a quoted run of `n` digits and dots start, when the only backtick before
   * `c` is at `h` and is not followed by a comma.
   */
  lemma PriceFound(s: string, h: nat, c: nat, n: nat)
    requires h < c && c + 4 + n < |s| && n > 0
    requires s[h] == '`' && s[h + 1] != ','
    requires forall k :: 0 <= k < c && k != h ==> s[k] != '`'
    requires s[c] == '`' && s[c + 1] == ',' && s[c + 2] == ' ' && s[c + 3] == '\''
    requires forall k :: c + 4 <= k < c + 4 + n ==> IsDigitOrDot(s[k])
    requires s[c + 4 + n] == '\''
    ensures Search(OnclickPrice, s) == Some(Found(c, c + 5 + n, c + 4, c + 4 + n))
  {
    RunEndAt(s, c + 2, c + 3, IsSpace);
    RunEndAt(s, c + 4, c + 4 + n, IsDigitOrDot);
    assert MatchAt(OnclickPrice, s, c) == Some(Found(c, c + 5 + n, c + 4, c + 4 + n));
    SearchIsFirstMatch(OnclickPrice, s, c);
  }

  /** The brand matcher accepts a quoted run of `n` digits and dots, a comma, a space and a backticked brand of length `m` at `p`. */
  lemma BrandMatcherAt(s: string, p: nat, n: nat, m: nat)
    requires p + n + 5 + m < |s| && n > 0 && m > 0
    requires s[p] == '\''
    requires forall k :: p + 1 <= k < p + 1 + n ==> IsDigitOrDot(s[k])
    requires s[p + 1 + n] == '\'' && s[p + 2 + n] == ',' && s[p + 3 + n] == ' ' && s[p + 4 + n] == '`'
    requires forall k :: p + 5 + n <= k < p + 5 + n + m ==> s[k] != '`'
    requires s[p + 5 + n + m] == '`'
    ensures OnclickBrandMatch(s, p) == Some(Found(p, p + 6 + n + m, p + 5 + n, p + 5 + n + m))
  {
    BrandRunsAt(s, p, n, m);
  }

  /** The three runs the brand matcher reads end where the quoted price, the space and the brand end. */
  lemma BrandRunsAt(s: string, p: nat, n: nat, m: nat)
    requires p + n + 5 + m < |s|
    requires forall k :: p + 1 <= k < p + 1 + n ==> IsDigitOrDot(s[k])
    requires s[p + 1 + n] == '\'' && s[p + 3 + n] == ' ' && s[p + 4 + n] == '`'
    requires forall k :: p + 5 + n <= k < p + 5 + n + m ==> s[k] != '`'
    requires s[p + 5 + n + m] == '`'
    ensures RunEnd(s, p + 1, IsDigitOrDot) == p + 1 + n
    ensures RunEnd(s, p + 3 + n, IsSpace) == p + 4 + n
    ensures RunEnd(s, p + 5 + n, NotBacktick) == p + 5 + n + m
  {
    var e := p + 1 + n;
    RunEndAt(s, p + 1, e, IsDigitOrDot);
    RunEndAt(s, e + 2, e + 3, IsSpace);
    RunEndAt(s, e + 4, e + 4 + m, NotBacktick);
  }

  /** A quoted run of `n` digits and dots, a comma, a space and a backticked brand of length `m` match at `p`. */
  lemma BrandMatchAt(s: string, p: nat, n: nat, m: nat)
    requires p + n + 5 + m < |s| && n > 0 && m > 0
    requires s[p] == '\''
    requires forall k :: p + 1 <= k < p + 1 + n ==> IsDigitOrDot(s[k])
    requires s[p + 1 + n] == '\'' && s[p + 2 + n] == ',' && s[p + 3 + n] == ' ' && s[p + 4 + n] == '`'
    requires forall k :: p + 5 + n <= k < p + 5 + n + m ==> s[k] != '`'
    requires s[p + 5 + n + m] == '`'
    ensures MatchAt(OnclickBrand, s, p) == Some(Found(p, p + 6 + n + m, p + 5 + n, p + 5 + n + m))
  {
    BrandMatcherAt(s, p, n, m);
  }

  /**
   * A brand match before `c`, when the backticks up to `c` are at `h` and `c` only,
   * needs the text before `h` or the text between `h` and `c` to end with a quote
   * and a comma.
   */
  lemma BrandMatchNeedsQuoteComma(s: string, h: nat, c: nat, j: nat)
    requires h < c && c + 3 < |s| && j < c + 3
    requires s[h] == '`' && s[c] == '`' && s[c + 1] == ',' && s[c + 2] == ' '
    requires forall k :: 0 <= k < c && k != h ==> s[k] != '`'
    ensures OnclickBrandMatch(s, j).Some? ==> QuoteCommaEnd(s[..h]) || QuoteCommaEnd(s[h + 1..c])
  {
    if OnclickBrandMatch(s, j).Some? {
      BrandMatchShape(s, j);
      QuoteCommaAtBacktick(s, h, c, j, OnclickBrandMatch(s, j).value.groupStart - 1);
    }
  }

  /**
   * A backtick at `w` after a quote at `j < c + 3`, with no backtick in between and a
   * quote-comma ending before it, is the backtick at `h` or the one at `c`; either
   * way the text before `h` or the text between `h` and `c` has that ending.
   */
  lemma QuoteCommaAtBacktick(s: string, h: nat, c: nat, j: nat, w: nat)
    requires h < c && c + 3 < |s| && j < c + 3
    requires s[h] == '`' && s[c] == '`' && s[c + 1] == ',' && s[c + 2] == ' '
    requires forall k :: 0 <= k < c && k != h ==> s[k] != '`'
    requires s[j] == '\'' && j < w < |s| && s[w] == '`' && QuoteCommaEnd(s[..w])
    requires forall k :: j <= k < w ==> s[k] != '`'
    ensures QuoteCommaEnd(s[..h]) || QuoteCommaEnd(s[h + 1..c])
  {
    assert j < c;
    assert w <= c;
    if w == c {
      assert s[..c] == s[..h] + "`" + s[h + 1..c];
      QuoteCommaAfterBacktick(s[..h], s[h + 1..c]);
    } else {
      assert w == h;
    }
  }

  /** No brand match starts before `c` when the backticks up to `c` are at `h` and `c` only. */
  lemma NoBrandBefore(s: string, h: nat, c: nat, j: nat)
    requires h < c && c + 3 < |s| && j < c + 3
    requires s[h] == '`' && s[c] == '`' && s[c + 1] == ',' && s[c + 2] == ' '
    requires forall k :: 0 <= k < c && k != h ==> s[k] != '`'
    requires !QuoteCommaEnd(s[..h]) && !QuoteCommaEnd(s[h + 1..c])
    ensures MatchAt(OnclickBrand, s, j).None?
  {
    BrandMatchNeedsQuoteComma(s, h, c, j);
  }

  /** The head of the documented add-to-cart call, up to the backtick that opens the name. */
  function OnclickHead(sku: string, quantity: string, uuid: string): string {
    "QuantityChangeClick('" + sku + "', " + quantity + ", '" + uuid + "', undefined, "
  }

  /** A button text laid out as the documented call from the backticked name on. */
  function ButtonText(head: string, name: string, price: string, brand: string, tail: string): string {
    head + "`" + name + "`, '" + price + "', `" + brand + "`" + tail
  }

  /** The documented add-to-cart call: SKU, quantity, id, name, price, brand and category. */
  function OnclickText(sku: string, quantity: string, uuid: string, name: string,
                       price: string, brand: string, category: string): string
  {
    ButtonText(OnclickHead(sku, quantity, uuid), name, price, brand, ", '" + category + "')")
  }

  /**
   * From the backtick at `h` that opens the name: the backtick at `c` that closes
   * it, no other backtick before `c`, then `, '`, the price and a quote.
   */
  predicate NameAndPriceAt(s: string, h: nat, c: nat, price: string) {
    && h < c && c + 4 + |price| < |s|
    && s[h] == '`' && s[h + 1] != ',' && s[c] == '`' && s[c + 1] == ',' && s[c + 2] == ' ' && s[c + 3] == '\''
    && (forall k :: 0 <= k < c && k != h ==> s[k] != '`')
    && s[c + 4..c + 4 + |price|] == price && s[c + 4 + |price|] == '\''
  }

  /** At `g`: the brand, preceded by `, `` and closed by a backtick. */
  predicate BrandAt(s: string, g: nat, brand: string) {
    && 3 <= g && g + |brand| < |s|
    && s[g - 3] == ',' && s[g - 2] == ' ' && s[g - 1] == '`'
    && s[g..g + |brand|] == brand && s[g + |brand|] == '`'
  }

  /** Where each piece of a button text in the documented layout sits. */
  lemma OnclickLayout(head: string, name: string, price: string, brand: string, tail: string)
    requires '`' !in head && '`' !in name && '`' !in brand
    requires name == [] || name[0] != ','
    ensures NameAndPriceAt(ButtonText(head, name, price, brand, tail), |head|, |head| + 1 + |name|, price)
    ensures BrandAt(ButtonText(head, name, price, brand, tail), |head| + 1 + |name| + 8 + |price|, brand)
    ensures var s := ButtonText(head, name, price, brand, tail);
            s[..|head|] == head && s[|head| + 1..|head| + 1 + |name|] == name
  {
    var s := ButtonText(head, name, price, brand, tail);
    var h := |head|;
    var c := h + 1 + |name|;
    forall k | 0 <= k < c && k != h
      ensures s[k] != '`'
    {
      if k < h {
        assert s[k] == head[k] && head[k] in head;
      } else {
        assert s[k] == name[k - h - 1] && name[k - h - 1] in name;
      }
    }
    if name != [] {
      assert s[h + 1] == name[0];
    }
  }

  /** The documented head has no backtick of its own and does not end like a price. */
  lemma HeadFacts(sku: string, quantity: string, uuid: string)
    requires '`' !in sku && '`' !in quantity && '`' !in uuid
    ensures '`' !in OnclickHead(sku, quantity, uuid)
    ensures !QuoteCommaEnd(OnclickHead(sku, quantity, uuid))
  {
    var lits := ["QuantityChangeClick('", "', ", ", '", "', undefined, "];
    assert forall k :: 0 <= k < |lits| ==> '`' !in lits[k];
    var h := OnclickHead(sku, quantity, uuid);
    var n := |h|;
    assert h[n - 1] == ' ' && h[n - 2] == ',' && h[n - 3] == 'd';
    RunStartAt(h, n - 1, n, IsSpace);
  }

  /** The price comes out of a button text whose name and price sit where `NameAndPriceAt` says. */
  lemma CartPriceAt(s: string, h: nat, c: nat, price: string)
    requires price != [] && forall k :: 0 <= k < |price| ==> IsDigitOrDot(price[k])
    requires NameAndPriceAt(s, h, c, price)
    ensures Search(OnclickPrice, s).Some? && Group(s, Search(OnclickPrice, s).value) == price
  {
    forall k | c + 4 <= k < c + 4 + |price|
      ensures IsDigitOrDot(s[k])
    {
      assert s[k] == s[c + 4..c + 4 + |price|][k - c - 4];
    }
    PriceFound(s, h, c, |price|);
    var f := Search(OnclickPrice, s).value;
    assert f.groupStart == c + 4 && f.groupEnd == c + 4 + |price|;
    assert Group(s, f) == s[c + 4..c + 4 + |price|];
  }

  /** In the documented layout the brand pattern matches at the price's opening quote. */
  lemma BrandMatchInLayout(s: string, h: nat, c: nat, price: string, brand: string)
    requires price != [] && forall k :: 0 <= k < |price| ==> IsDigitOrDot(price[k])
    requires brand != [] && '`' !in brand
    requires NameAndPriceAt(s, h, c, price) && BrandAt(s, c + 8 + |price|, brand)
    ensures MatchAt(OnclickBrand, s, c + 3)
            == Some(Found(c + 3, c + 9 + |price| + |brand|, c + 8 + |price|, c + 8 + |price| + |brand|))
  {
    var g := c + 8 + |price|;
    forall k | c + 4 <= k < c + 4 + |price|
      ensures IsDigitOrDot(s[k])
    {
      assert s[k] == s[c + 4..c + 4 + |price|][k - c - 4];
    }
    forall k | g <= k < g + |brand|
      ensures s[k] != '`'
    {
      assert s[k] == s[g..g + |brand|][k - g] && brand[k - g] in brand;
    }
    BrandMatchAt(s, c + 3, |price|, |brand|);
  }

  /** In the documented layout no brand match starts inside the head or the name. */
  lemma NoBrandInHeadOrName(s: string, h: nat, c: nat, price: string)
    requires NameAndPriceAt(s, h, c, price)
    requires !QuoteCommaEnd(s[..h]) && !QuoteCommaEnd(s[h + 1..c])
    ensures forall j :: 0 <= j < c + 3 ==> MatchAt(OnclickBrand, s, j).None?
  {
    forall j | 0 <= j < c + 3
      ensures MatchAt(OnclickBrand, s, j).None?
    {
      NoBrandBefore(s, h, c, j);
    }
  }

  /** In a button text of the documented layout the brand search finds the match that starts after the name. */
  lemma BrandSearchInLayout(s: string, h: nat, c: nat, price: string, brand: string)
    requires price != [] && forall k :: 0 <= k < |price| ==> IsDigitOrDot(price[k])
    requires brand != [] && '`' !in brand
    requires NameAndPriceAt(s, h, c, price) && BrandAt(s, c + 8 + |price|, brand)
    requires !QuoteCommaEnd(s[..h]) && !QuoteCommaEnd(s[h + 1..c])
    ensures Search(OnclickBrand, s)
            == Some(Found(c + 3, c + 9 + |price| + |brand|, c + 8 + |price|, c + 8 + |price| + |brand|))
  {
    var f := Found(c + 3, c + 9 + |price| + |brand|, c + 8 + |price|, c + 8 + |price| + |brand|);
    assert MatchAt(OnclickBrand, s, c + 3) == Some(f) by {
      BrandMatchInLayout(s, h, c, price, brand);
    }
    assert forall j :: 0 <= j < c + 3 ==> MatchAt(OnclickBrand, s, j).None? by {
      NoBrandInHeadOrName(s, h, c, price);
    }
    FirstMatchFound(OnclickBrand, s, c + 3, f);
  }

  /** A match whose group spans the backticked brand yields that brand. */
  lemma BrandGroupAt(s: string, g: nat, brand: string, f: Found)
    requires BrandAt(s, g, brand) && f.groupStart == g && f.groupEnd == g + |brand|
    ensures Group(s, f) == brand
  {
  }

  /** The brand comes out of a button text whose backticked brand follows the quoted price. */
  lemma CartBrandAt(s: string, h: nat, c: nat, price: string, brand: string)
    requires price != [] && forall k :: 0 <= k < |price| ==> IsDigitOrDot(price[k])
    requires brand != [] && '`' !in brand
    requires NameAndPriceAt(s, h, c, price) && BrandAt(s, c + 8 + |price|, brand)
    requires !QuoteCommaEnd(s[..h]) && !QuoteCommaEnd(s[h + 1..c])
    ensures Search(OnclickBrand, s).Some? && Group(s, Search(OnclickBrand, s).value) == brand
  {
    BrandSearchInLayout(s, h, c, price, brand);
    BrandGroupAt(s, c + 8 + |price|, brand, Search(OnclickBrand, s).value);
  }

  /** Price and brand come out of a button text whose pieces sit where `OnclickLayout` puts them. */
  lemma CartFieldsAt(s: string, h: nat, c: nat, price: string, brand: string)
    requires '`' !in brand
    requires price != [] && forall k :: 0 <= k < |price| ==> IsDigitOrDot(price[k])
    requires brand != []
    requires NameAndPriceAt(s, h, c, price) && BrandAt(s, c + 8 + |price|, brand)
    requires !QuoteCommaEnd(s[..h]) && !QuoteCommaEnd(s[h + 1..c])
    ensures FromOnclick(Some(s)) == CartFields(price, brand)
  {
    CartPriceAt(s, h, c, price);
    CartBrandAt(s, h, c, price, brand);
    FieldsFromGroups(s, price, brand);
  }

  /** The fields are group 1 of the two leftmost matches. */
  lemma FieldsFromGroups(s: string, price: string, brand: string)
    requires Search(OnclickPrice, s).Some? && Group(s, Search(OnclickPrice, s).value) == price
    requires Search(OnclickBrand, s).Some? && Group(s, Search(OnclickBrand, s).value) == brand
    ensures FromOnclick(Some(s)) == CartFields(price, brand)
  {
  }

  /** The text before the name and the name itself, read back out of the button text, keep their endings. */
  lemma NoQuoteCommaInPieces(s: string, head: string, name: string, h: nat, c: nat)
    requires h < c <= |s| && s[..h] == head && s[h + 1..c] == name
    requires !QuoteCommaEnd(head) && !QuoteCommaEnd(name)
    ensures !QuoteCommaEnd(s[..h]) && !QuoteCommaEnd(s[h + 1..c])
  {
  }

  /** Price and brand come out of any button text laid out as the documented call from the name on. */
  lemma CartFieldsFromLayout(head: string, name: string, price: string, brand: string, tail: string)
    requires '`' !in head && '`' !in name && '`' !in brand
    requires !QuoteCommaEnd(head) && !QuoteCommaEnd(name)
    requires name == [] || name[0] != ','
    requires price != [] && forall k :: 0 <= k < |price| ==> IsDigitOrDot(price[k])
    requires brand != []
    ensures FromOnclick(Some(ButtonText(head, name, price, brand, tail))) == CartFields(price, brand)
  {
    var s := ButtonText(head, name, price, brand, tail);
    var h, c := |head|, |head| + 1 + |name|;
    OnclickLayout(head, name, price, brand, tail);
    NoQuoteCommaInPieces(s, head, name, h, c);
    CartFieldsAt(s, h, c, price, brand);
  }

  /**
   * On a button written in the documented format, the price and the brand come
   * out exactly, whatever the SKU, id and category hold, as long as the name
   * cannot be mistaken for the end of a price.
   */
  lemma OnclickRoundTrip(sku: string, quantity: string, uuid: string, name: string,
                         price: string, brand: string, category: string)
    requires '`' !in sku && '`' !in quantity && '`' !in uuid && '`' !in name && '`' !in brand
    requires name == [] || name[0] != ','
    requires !QuoteCommaEnd(name)
    requires price != [] && forall k :: 0 <= k < |price| ==> IsDigitOrDot(price[k])
    requires brand != []
    ensures FromOnclick(Some(OnclickText(sku, quantity, uuid, name, price, brand, category)))
            == CartFields(price, brand)
  {
    var head := OnclickHead(sku, quantity, uuid);
    HeadFacts(sku, quantity, uuid);
    CartFieldsFromLayout(head, name, price, brand, ", '" + category + "')");
  }

  lemma ExampleDate(text: string)
    requires text == "Estimated Ship Date 05/01/24 In Stock"
    ensures DateEnd(text, 20) == Some(28)
  {
    assert text[20] == '0' && text[21] == '5' && text[22] == '/';
    assert text[23] == '0' && text[24] == '1' && text[25] == '/';
    assert text[26] == '2' && text[27] == '4' && text[28] == ' ';
    assert RunEnd(text, 28, IsDigit) == 28;
    assert RunEnd(text, 27, IsDigit) == 28;
    assert RunEnd(text, 26, IsDigit) == 28;
  }

  lemma ExampleShipDateMatch(text: string)
    requires text == "Estimated Ship Date 05/01/24 In Stock"
    ensures MatchAt(ShipDate, text, 0) == Some(Whole(0, 28))
  {
    assert text[..20] == "Estimated Ship Date ";
    assert LitAtIgnoringCase(text, 0, "Estimated Ship Date ");
    ExampleDate(text);
    assert text[29] == 'I';
    assert !LitAt(text, 28, " - ");
  }

  /** No alternative of the name-cleaning pattern starts at a character that begins none of them. */
  lemma NoMarkerAt(s: string, j: nat)
    requires j < |s| && !IsDigit(s[j]) && s[j] != 'N' && s[j] != 'I' && s[j] != 'O' && s[j] != 'E'
    ensures !MarkerAt(s, j)
  {
  }

  /** In the documented example no alternative starts before the code at 21. */
  lemma ExampleNoCutBeforeCode(text: string)
    requires text == "Acrylic Denture Base 2024-123 In Stock in Ohio"
    ensures forall j :: 0 <= j < 21 ==> !CutsAt(text, j)
  {
    var head := "Acrylic Denture Base ";
    assert text[..21] == head;
    forall j | 0 <= j < 21
      ensures !CutsAt(text, j)
    {
      assert text[j] == head[j];
      NoMarkerAt(text, j);
    }
  }

  /** In the documented example the code at 21 is where the pattern matches. */
  lemma ExampleCutAtCode(text: string)
    requires text == "Acrylic Denture Base 2024-123 In Stock in Ohio"
    ensures CutsAt(text, 21)
  {
    assert CodeAt(text, 21);
    forall k | 21 <= k < |text| - 1
      ensures text[k] != '\n'
    {
      assert text[k] in text;
    }
  }

  /** A trimmed name, a space, and then the first place the pattern matches: the cleaned name is that name. */
  lemma CleanNameBeforeSpacedCut(raw: string, name: string)
    requires name != [] && !IsSpace(name[0]) && !IsSpace(name[|name| - 1])
    requires |name| < |raw| && raw[..|name| + 1] == name + [' ']
    requires CutsAt(raw, |name| + 1) && forall j :: 0 <= j < |name| + 1 ==> !CutsAt(raw, j)
    ensures CleanName(raw) == name
  {
    CleanNameCutsAtFirstMarker(raw, |name| + 1);
    StripIgnoresTrailingSpace(name, ' ');
    StripTrimmed(name);
  }

  /** A product code ends the name: everything from `2024-123` on is cut, and the space before it stripped. */
  lemma CleanNameDropsCodeSuffix(text: string)
    requires text == "Acrylic Denture Base 2024-123 In Stock in Ohio"
    ensures CleanName(text) == "Acrylic Denture Base"
  {
    var name := "Acrylic Denture Base";
    ExampleNoCutBeforeCode(text);
    ExampleCutAtCode(text);
    assert text[..21] == name + [' '];
    CleanNameBeforeSpacedCut(text, name);
  }

  /** A ship date wins over a later "In Stock". */
  lemma ShipDateBeatsInStock(text: string)
    requires text == "Estimated Ship Date 05/01/24 In Stock"
    ensures Availability(text) == "Estimated Ship Date 05/01/24"
  {
    ExampleShipDateMatch(text);
    assert Search(ShipDate, text) == Some(Whole(0, 28));
    StatusIsWholeMatch(ShipDate, text);
    assert text[0..28] == "Estimated Ship Date 05/01/24";
  }
}
