/**
 * The regular expressions of scraper.py, each written out as a matcher that
 * says whether the pattern matches at a given position and where that match
 * ends, following Python's backtracking rules (greedy quantifiers, alternatives
 * tried left to right). `Search` is `re.search`: the match that starts at the
 * leftmost position where the pattern matches at all.
 */
module Patterns {
  import opened Wrappers
  import opened Text

  datatype Regex =
    | SkuPath            // `/Product/`, one or more characters other than `/` (group 1), then `/`
    | NameSuffix         // a status marker or a `dddd-ddd` code, then the rest of the line to the end
    | ShipDate           // `Estimated Ship Date ` and a date, optionally ` - ` and a second date
    | InStockIn          // `In Stock in ` and one or more word characters
    | InStock            // `In Stock`
    | OutOfStock         // `Out of Stock`
    | NoLongerAvailable  // `No Longer Available`
    | ShipsIn            // `Ships in `, digits, a space, `day`, `week` or `business day`, an optional `s`
    | OnclickPrice       // a backtick, a comma, spaces, a quoted run of digits and dots (group 1)
    | OnclickBrand       // a quoted run of digits and dots, a comma, spaces, a backticked name (group 1)

  /** A successful match: `s[start..end]` is group 0, `s[groupStart..groupEnd]` group 1. */
  datatype Found = Found(start: nat, end: nat, groupStart: nat, groupEnd: nat)

  predicate WellPlaced(s: string, i: nat, f: Found) {
    f.start == i <= f.groupStart <= f.groupEnd <= f.end <= |s|
  }

  /** The status markers of the name-cleaning pattern, in the order of its alternatives. */
  const NameMarkers: seq<string> := ["No Longer Available", "In Stock", "Out of Stock", "Estimated Ship Date"]

  /** Four digits, a dash and three digits at position `i`. */
  predicate CodeAt(s: string, i: nat) {
    && i + 8 <= |s|
    && IsDigit(s[i]) && IsDigit(s[i + 1]) && IsDigit(s[i + 2]) && IsDigit(s[i + 3])
    && s[i + 4] == '-'
    && IsDigit(s[i + 5]) && IsDigit(s[i + 6]) && IsDigit(s[i + 7])
  }

  /** One alternative of the name-cleaning pattern starts at `i`. */
  predicate MarkerAt(s: string, i: nat) {
    (exists m :: m in NameMarkers && LitAt(s, i, m)) || CodeAt(s, i)
  }

  /**
   * `.*$` can complete from `i`: `.` never crosses a line break and `$` matches
   * only at the end or before a line break that is the last character.
   */
  predicate NoBreakBeforeLast(s: string, i: nat) {
    forall k :: i <= k < |s| - 1 ==> s[k] != '\n'
  }

  /** One or two digits and then a slash at `p`; the position after the slash. */
  function DayOrMonthEnd(s: string, p: nat): (q: Option<nat>)
    requires p <= |s|
    ensures q.Some? ==> p + 2 <= q.value <= p + 3 && q.value <= |s| && s[q.value - 1] == '/'
  {
    if p + 2 < |s| && IsDigit(s[p]) && IsDigit(s[p + 1]) && s[p + 2] == '/' then Some(p + 3)
    else if p + 1 < |s| && IsDigit(s[p]) && s[p + 1] == '/' then Some(p + 2)
    else None
  }

  /** Two to four digits at `p`, as many as are there (the quantifier is greedy). */
  function YearEnd(s: string, p: nat): (q: Option<nat>)
    requires p <= |s|
    ensures q.Some? ==> p + 2 <= q.value <= p + 4 && q.value <= |s| && IsDigit(s[q.value - 1])
  {
    var e := RunEnd(s, p, IsDigit);
    if e - p >= 4 then Some(p + 4) else if e - p >= 2 then Some(e) else None
  }

  /** A date `d/m/y` at `p` as the ship-date pattern reads it. */
  function DateEnd(s: string, p: nat): (q: Option<nat>)
    requires p <= |s|
    ensures q.Some? ==> p + 6 <= q.value <= |s| && IsDigit(s[q.value - 1])
  {
    match DayOrMonthEnd(s, p)
    case None => None
    case Some(a) =>
      match DayOrMonthEnd(s, a)
      case None => None
      case Some(b) => YearEnd(s, b)
  }

  /** The unit of the shipping-time pattern at `u`, tried as `day`, `week`, `business day`. */
  function UnitEnd(s: string, u: nat): (q: Option<nat>)
    requires u <= |s|
    ensures q.Some? ==> u + 3 <= q.value <= |s| && 'a' <= Lower(s[q.value - 1]) <= 'z'
  {
    if LitAtIgnoringCase(s, u, "day") then Some(u + 3)
    else if LitAtIgnoringCase(s, u, "week") then Some(u + 4)
    else if LitAtIgnoringCase(s, u, "business day") then Some(u + 12)
    else None
  }

  /** A whole match without a capture group. */
  function Whole(i: nat, e: nat): Found {
    Found(i, e, i, e)
  }

  /** `/Product/([^/]+)/` at `i`. */
  function SkuPathMatch(s: string, i: nat): (m: Option<Found>)
    requires i <= |s|
    ensures m.Some? ==> WellPlaced(s, i, m.value)
  {
    if !LitAt(s, i, "/Product/") then None
    else
      var e := RunEnd(s, i + 9, NotSlash);
      if i + 9 < e < |s| then Some(Found(i, e + 1, i + 9, e)) else None
  }

  /** A status marker or a code at `i`, then `.*$`. */
  function NameSuffixMatch(s: string, i: nat): (m: Option<Found>)
    requires i <= |s|
    ensures m.Some? ==> WellPlaced(s, i, m.value)
  {
    if MarkerAt(s, i) && NoBreakBeforeLast(s, i) then
      var e := if i < |s| && s[|s| - 1] == '\n' then |s| - 1 else |s|;
      Some(Whole(i, e))
    else None
  }

  /** `Estimated Ship Date ` and a date, optionally ` - ` and a second date, at `i`. */
  function ShipDateMatch(s: string, i: nat): (m: Option<Found>)
    requires i <= |s|
    ensures m.Some? ==> WellPlaced(s, i, m.value)
  {
    if !LitAtIgnoringCase(s, i, "Estimated Ship Date ") then None
    else
      match DateEnd(s, i + 20)
      case None => None
      case Some(d) =>
        var second := if LitAt(s, d, " - ") then DateEnd(s, d + 3) else None;
        Some(Whole(i, if second.Some? then second.value else d))
  }

  /** `In Stock in \w+` at `i`. */
  function InStockInMatch(s: string, i: nat): (m: Option<Found>)
    requires i <= |s|
    ensures m.Some? ==> WellPlaced(s, i, m.value)
  {
    if !LitAtIgnoringCase(s, i, "In Stock in ") then None
    else
      var w := RunEnd(s, i + 12, IsWordChar);
      if w > i + 12 then Some(Whole(i, w)) else None
  }

  /** A fixed phrase, ignoring case, at `i`. */
  function PhraseMatch(s: string, i: nat, phrase: string): (m: Option<Found>)
    requires i <= |s|
    ensures m.Some? ==> WellPlaced(s, i, m.value)
  {
    if LitAtIgnoringCase(s, i, phrase) then Some(Whole(i, i + |phrase|)) else None
  }

  /** `Ships in \d+ (day|week|business day)s?` at `i`. */
  function ShipsInMatch(s: string, i: nat): (m: Option<Found>)
    requires i <= |s|
    ensures m.Some? ==> WellPlaced(s, i, m.value)
  {
    if !LitAtIgnoringCase(s, i, "Ships in ") then None
    else
      var d := RunEnd(s, i + 9, IsDigit);
      if !(i + 9 < d < |s| && s[d] == ' ') then None
      else
        match UnitEnd(s, d + 1)
        case None => None
        case Some(a) => Some(Whole(i, if a < |s| && Lower(s[a]) == 's' then a + 1 else a))
  }

  /** The price part of the cart button's onclick text at `i`. */
  function OnclickPriceMatch(s: string, i: nat): (m: Option<Found>)
    requires i <= |s|
    ensures m.Some? ==> WellPlaced(s, i, m.value)
  {
    if !(i + 1 < |s| && s[i] == '`' && s[i + 1] == ',') then None
    else
      var w := RunEnd(s, i + 2, IsSpace);
      if !(w < |s| && s[w] == '\'') then None
      else
        var e := RunEnd(s, w + 1, IsDigitOrDot);
        if w + 1 < e < |s| && s[e] == '\'' then Some(Found(i, e + 1, w + 1, e)) else None
  }

  /** The brand part of the cart button's onclick text at `i`. */
  function OnclickBrandMatch(s: string, i: nat): (m: Option<Found>)
    requires i <= |s|
    ensures m.Some? ==> WellPlaced(s, i, m.value)
  {
    if !(i < |s| && s[i] == '\'') then None
    else
      var e := RunEnd(s, i + 1, IsDigitOrDot);
      if !(i + 1 < e && e + 1 < |s| && s[e] == '\'' && s[e + 1] == ',') then None
      else
        var w := RunEnd(s, e + 2, IsSpace);
        if !(w < |s| && s[w] == '`') then None
        else
          var b := RunEnd(s, w + 1, NotBacktick);
          if w + 1 < b < |s| then Some(Found(i, b + 1, w + 1, b)) else None
  }

  /**
   * The match of `r` that starts at `i`, if any. Case-insensitive patterns are
   * the six availability patterns; the others are case-sensitive.
   */
  function MatchAt(r: Regex, s: string, i: nat): (m: Option<Found>)
    requires i <= |s|
    ensures m.Some? ==> WellPlaced(s, i, m.value)
  {
    match r
    case SkuPath => SkuPathMatch(s, i)
    case NameSuffix => NameSuffixMatch(s, i)
    case ShipDate => ShipDateMatch(s, i)
    case InStockIn => InStockInMatch(s, i)
    case InStock => PhraseMatch(s, i, "In Stock")
    case OutOfStock => PhraseMatch(s, i, "Out of Stock")
    case NoLongerAvailable => PhraseMatch(s, i, "No Longer Available")
    case ShipsIn => ShipsInMatch(s, i)
    case OnclickPrice => OnclickPriceMatch(s, i)
    case OnclickBrand => OnclickBrandMatch(s, i)
  }

  /** The leftmost match of `r` in `s` at or after position `i`. */
  function SearchFrom(r: Regex, s: string, i: nat): (m: Option<Found>)
    requires i <= |s|
    decreases |s| - i
    ensures m.Some? ==> i <= m.value.start <= |s| && MatchAt(r, s, m.value.start) == m
    ensures m.Some? ==> forall j :: i <= j < m.value.start ==> MatchAt(r, s, j).None?
    ensures m.None? ==> forall j :: i <= j <= |s| ==> MatchAt(r, s, j).None?
  {
    var here := MatchAt(r, s, i);
    if here.Some? then here
    else if i == |s| then None
    else
      var later := SearchFrom(r, s, i + 1);
      NoMatchBefore(r, s, i, if later.Some? then later.value.start else |s| + 1);
      later
  }

  /** No match at `i` and none strictly between `i` and `e` means none from `i` up to `e`. */
  lemma NoMatchBefore(r: Regex, s: string, i: nat, e: nat)
    requires i < |s| && e <= |s| + 1 && MatchAt(r, s, i).None?
    requires forall j :: i + 1 <= j < e ==> MatchAt(r, s, j).None?
    ensures forall j :: i <= j < e ==> MatchAt(r, s, j).None?
  {
  }

  /** `re.search(r, s)`: the match at the leftmost position where `r` matches. */
  function Search(r: Regex, s: string): (m: Option<Found>)
    ensures m.Some? ==> m.value.start <= |s| && MatchAt(r, s, m.value.start) == m && WellPlaced(s, m.value.start, m.value)
    ensures m.Some? ==> forall j :: 0 <= j < m.value.start ==> MatchAt(r, s, j).None?
    ensures m.None? ==> forall j :: 0 <= j <= |s| ==> MatchAt(r, s, j).None?
  {
    SearchFrom(r, s, 0)
  }

  /** The text of group 0. */
  function Matched(s: string, f: Found): string
    requires f.start <= f.end <= |s|
  {
    s[f.start..f.end]
  }

  /** The text of group 1. */
  function Group(s: string, f: Found): string
    requires f.groupStart <= f.groupEnd <= |s|
  {
    s[f.groupStart..f.groupEnd]
  }

  /** A match with no match before it is the one `Search` finds. */
  lemma FirstMatchFound(r: Regex, s: string, i: nat, f: Found)
    requires i <= |s| && MatchAt(r, s, i) == Some(f)
    requires forall j :: 0 <= j < i ==> MatchAt(r, s, j).None?
    ensures Search(r, s) == Some(f)
  {
    SearchIsFirstMatch(r, s, i);
  }

  /** A match with no match before it is the one `Search` finds. */
  lemma SearchIsFirstMatch(r: Regex, s: string, i: nat)
    requires i <= |s| && MatchAt(r, s, i).Some?
    requires forall j :: 0 <= j < i ==> MatchAt(r, s, j).None?
    ensures Search(r, s) == MatchAt(r, s, i)
  {
  }
}
