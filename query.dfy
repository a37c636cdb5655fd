/**
 * The search descriptor that `BencoScraper.build_query_param` builds before it
 * serialises, compresses and encodes it.
 */
module Query {
  import opened Text

  /** The descriptor object, field for field. */
  datatype QueryDescriptor = QueryDescriptor(
    tab: string,
    tabId: int,
    categoryId: int,
    page: int,
    groupSimilarItems: bool,
    allowAutoCorrectSubstitution: bool,
    source: string,
    showResultsAsGrid: bool,
    includePricing: bool,
    isCompleteCart: bool,
    isGeneralSuggestion: bool,
    selectionCriterionDescription: string)

  /** The category with its spaces removed and then its ampersands removed. */
  function Slug(category: string): string {
    Remove(Remove(category, ' '), '&')
  }

  /** The slug keeps every other character, in order, and nothing else. */
  lemma {:induction false} SlugIsFilter(category: string)
    ensures ' ' !in Slug(category) && '&' !in Slug(category)
    ensures forall c :: c != ' ' && c != '&' ==> (c in Slug(category) <==> c in category)
    ensures |Slug(category)| == |category| - multiset(category)[' '] - multiset(category)['&']
    ensures category == [] ==> Slug(category) == []
    ensures category != [] ==>
      Slug(category) == (if category[0] == ' ' || category[0] == '&' then [] else [category[0]]) + Slug(category[1..])
  {
    if category != [] {
      var c := category[0];
      assert category == [c] + category[1..];
      RemoveAppend([c], category[1..], ' ');
      RemoveAppend(Remove([c], ' '), Remove(category[1..], ' '), '&');
      RemoveCount(category, ' ');
      RemoveCount(Remove(category, ' '), '&');
    }
  }

  /** A slug is its own slug. */
  lemma SlugIdempotent(category: string)
    ensures Slug(Slug(category)) == Slug(category)
  {
    SlugIsFilter(category);
    RemoveAbsent(Slug(category), ' ');
    RemoveAbsent(Slug(category), '&');
  }

  /**
   * The descriptor for a category and a page: the category is the tab and the
   * selection description, `Categories.` and the slug is the source, and the
   * flags are fixed.
   */
  function BuildQuery(category: string, page: int): (q: QueryDescriptor)
    ensures q.tab == category && q.selectionCriterionDescription == category && q.page == page
    ensures |q.source| >= 11 && q.source[..11] == "Categories." && q.source[11..] == Slug(category)
    ensures ' ' !in q.source && '&' !in q.source
    ensures q.tabId == 0 && q.categoryId == 0
    ensures q.groupSimilarItems && q.showResultsAsGrid
    ensures !q.allowAutoCorrectSubstitution && !q.includePricing && !q.isCompleteCart && !q.isGeneralSuggestion
  {
    var slug := Slug(category);
    SlugIsFilter(category);
    var source := "Categories." + slug;
    assert source[..11] == "Categories." && source[11..] == slug;
    assert ' ' !in "Categories." && '&' !in "Categories.";
    QueryDescriptor(
      tab := category,
      tabId := 0,
      categoryId := 0,
      page := page,
      groupSimilarItems := true,
      allowAutoCorrectSubstitution := false,
      source := source,
      showResultsAsGrid := true,
      includePricing := false,
      isCompleteCart := false,
      isGeneralSuggestion := false,
      selectionCriterionDescription := category)
  }

  /** A category written `A & B` gets the slug `AB`. */
  lemma SlugOfAmpersandPair(a: string, b: string)
    requires ' ' !in a && '&' !in a && ' ' !in b && '&' !in b
    ensures Slug(a + " & " + b) == a + b
  {
    SpacesOfPair(a, b);
    AmpersandOfPair(a, b);
  }

  /** Removing the spaces from `A & B` leaves `A&B`. */
  lemma SpacesOfPair(a: string, b: string)
    requires ' ' !in a && ' ' !in b
    ensures Remove(a + " & " + b, ' ') == a + "&" + b
  {
    RemoveSpacedAmpersand();
    RemoveAbsent(a, ' ');
    RemoveAbsent(b, ' ');
    RemoveAppend(a, " & ", ' ');
    RemoveAppend(a + " & ", b, ' ');
  }

  /** Removing the ampersands from `A&B` leaves `AB`. */
  lemma AmpersandOfPair(a: string, b: string)
    requires '&' !in a && '&' !in b
    ensures Remove(a + "&" + b, '&') == a + b
  {
    var amp := "&";
    RemoveSpacedAmpersand();
    RemoveAbsent(a, '&');
    RemoveAbsent(b, '&');
    RemoveAppend(a, amp, '&');
    assert a + [] == a;
    var left := a + amp;
    RemoveAppend(left, b, '&');
  }

  lemma RemoveSpacedAmpersand()
    ensures Remove(" & ", ' ') == "&" && Remove("&", '&') == []
  {
    var s := " & ";
    assert s[0] == ' ' && s[1..] == "& ";
    assert "& "[0] == '&' && "& "[1..] == " ";
    assert " "[0] == ' ' && " "[1..] == [];
    assert "&"[0] == '&' && "&"[1..] == [];
  }

  /** The category of the default configuration is a pair of words joined by ` & `. */
  lemma AcrylicsAndRelinesWords()
    ensures "Acrylics & Relines" == "Acrylics" + " & " + "Relines"
    ensures ' ' !in "Acrylics" && '&' !in "Acrylics" && ' ' !in "Relines" && '&' !in "Relines"
    ensures "Categories." + "Acrylics" + "Relines" == "Categories.AcrylicsRelines"
  {
  }

  /** The category of the default configuration, page 2. */
  lemma AcrylicsAndRelines(category: string)
    requires category == "Acrylics & Relines"
    ensures BuildQuery(category, 2).source == "Categories.AcrylicsRelines"
    ensures BuildQuery(category, 2).tab == "Acrylics & Relines"
    ensures BuildQuery(category, 2).page == 2
  {
    AcrylicsAndRelinesWords();
    SlugOfAmpersandPair("Acrylics", "Relines");
    var source := BuildQuery(category, 2).source;
    assert source == source[..11] + source[11..];
  }
}
