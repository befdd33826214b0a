/** The product list the main view displays (the `filteredProducts` memo) and
    the rule that decides, once the query has settled, whether smart search
    runs. */
module AppFilter {
  import opened Types
  import opened Builtins
  import GeminiService

  /** The substring test of the free-text filter: the lower-cased name or
      brand contains the lower-cased query. */
  function MatchesQuery(p: Product, query: string): (r: bool)
    ensures query == "" ==> r
    ensures r ==> |query| <= |p.name| || |query| <= |p.brand|
  {
    Includes(ToLower(p.name), ToLower(query)) || Includes(ToLower(p.brand), ToLower(query))
  }

  /** `smartResults || PRODUCTS`. An empty smart result is still a result
      (an empty array is truthy), so only its absence selects the catalog. */
  function BaseList(catalog: seq<Product>, smartResults: Option<seq<Product>>): (r: seq<Product>)
    ensures smartResults.None? ==> r == catalog
    ensures (smartResults.Some? ==> forall i :: 0 <= i < |smartResults.value| ==> smartResults.value[i] in catalog) ==>
              forall i :: 0 <= i < |r| ==> r[i] in catalog
  {
    match smartResults
    case Some(results) => results
    case None => catalog
  }

  /** The category step, then the free-text step, which only applies to a
      non-empty query and only when there is no smart result. */
  function FilteredProducts(catalog: seq<Product>, smartResults: Option<seq<Product>>,
                            selectedCategory: Option<Category>, searchQuery: string): (r: seq<Product>)
    ensures forall i :: 0 <= i < |r| ==> r[i] in BaseList(catalog, smartResults)
    ensures selectedCategory.Some? ==> forall i :: 0 <= i < |r| ==> r[i].category == selectedCategory.value
  {
    var base := BaseList(catalog, smartResults);
    var byCategory :=
      if selectedCategory.Some? then Filter(base, (p: Product) => p.category == selectedCategory.value)
      else base;
    if searchQuery != "" && smartResults.None? then
      Filter(byCategory, (p: Product) => MatchesQuery(p, searchQuery))
    else byCategory
  }

  /** Reference definition of "displayed", written with the independent
      definition of substring occurrence. */
  ghost predicate Shown(p: Product, smartResults: Option<seq<Product>>,
                        selectedCategory: Option<Category>, searchQuery: string)
  {
    && (selectedCategory.None? || p.category == selectedCategory.value)
    && (searchQuery == "" || smartResults.Some? ||
        Occurs(ToLower(searchQuery), ToLower(p.name)) || Occurs(ToLower(searchQuery), ToLower(p.brand)))
  }

  lemma MatchesQueryIsOccurs(p: Product, query: string)
    ensures MatchesQuery(p, query) <==>
            Occurs(ToLower(query), ToLower(p.name)) || Occurs(ToLower(query), ToLower(p.brand))
  {
    IncludesIsOccurs(ToLower(p.name), ToLower(query));
    IncludesIsOccurs(ToLower(p.brand), ToLower(query));
  }

  /** The whole pipeline is one order-preserving filter of the base list by
      the reference predicate. */
  lemma FilteredIsOneFilter(catalog: seq<Product>, smartResults: Option<seq<Product>>,
                            selectedCategory: Option<Category>, searchQuery: string)
    ensures FilteredProducts(catalog, smartResults, selectedCategory, searchQuery) ==
            Filter(BaseList(catalog, smartResults),
                   (p: Product) => Shown(p, smartResults, selectedCategory, searchQuery))
  {
    var base := BaseList(catalog, smartResults);
    var shown := (p: Product) => Shown(p, smartResults, selectedCategory, searchQuery);
    var searching := searchQuery != "" && smartResults.None?;
    var byQuery := (p: Product) => MatchesQuery(p, searchQuery);
    forall i | 0 <= i < |base| {
      MatchesQueryIsOccurs(base[i], searchQuery);
    }
    match selectedCategory
    case None =>
      if searching {
        FilterExtensional(base, byQuery, shown);
      } else {
        FilterKeepsAll(base, shown);
      }
    case Some(c) =>
      var byCategory := (p: Product) => p.category == c;
      if searching {
        var both := (p: Product) => byCategory(p) && byQuery(p);
        FilterFusion(base, byCategory, byQuery, both);
        FilterExtensional(base, both, shown);
      } else {
        FilterExtensional(base, byCategory, shown);
      }
  }

  /** The displayed list keeps the base list's order, and holds each base
      product exactly as often as the base does when it passes the filters,
      and not at all otherwise. */
  lemma FilteredSelectsExactly(catalog: seq<Product>, smartResults: Option<seq<Product>>,
                               selectedCategory: Option<Category>, searchQuery: string, x: Product)
    ensures IsSubsequence(FilteredProducts(catalog, smartResults, selectedCategory, searchQuery),
                          BaseList(catalog, smartResults))
    ensures multiset(FilteredProducts(catalog, smartResults, selectedCategory, searchQuery))[x] ==
            if Shown(x, smartResults, selectedCategory, searchQuery)
            then multiset(BaseList(catalog, smartResults))[x] else 0
  {
    var shown := (p: Product) => Shown(p, smartResults, selectedCategory, searchQuery);
    FilteredIsOneFilter(catalog, smartResults, selectedCategory, searchQuery);
    FilterIsSubsequence(BaseList(catalog, smartResults), shown);
    FilterCount(BaseList(catalog, smartResults), shown, x);
  }

  /** With a smart result present, neither the catalog nor the query matters. */
  lemma SmartResultsOverrideQuery(catalog1: seq<Product>, catalog2: seq<Product>, results: seq<Product>,
                                  selectedCategory: Option<Category>, query1: string, query2: string)
    ensures FilteredProducts(catalog1, Some(results), selectedCategory, query1) ==
            FilteredProducts(catalog2, Some(results), selectedCategory, query2)
  {
  }

  /** The query filter compares lower-cased text, so the case of the query
      does not matter. */
  lemma QueryIsCaseInsensitive(catalog: seq<Product>, selectedCategory: Option<Category>, query: string)
    ensures FilteredProducts(catalog, None, selectedCategory, query) ==
            FilteredProducts(catalog, None, selectedCategory, ToLower(query))
  {
    ToLowerIdempotent(query);
    assert (query == "") == (ToLower(query) == "");
    var base := if selectedCategory.Some? then Filter(catalog, (p: Product) => p.category == selectedCategory.value) else catalog;
    FilterExtensional(base, (p: Product) => MatchesQuery(p, query), (p: Product) => MatchesQuery(p, ToLower(query)));
  }

  /** Smart search runs only for a query whose JavaScript `length` (UTF-16
      code units, untrimmed) exceeds 5: a query of six characters or more
      always qualifies, and one of fewer than three never does. */
  function ShouldSmartSearch(searchQuery: string): (r: bool)
    ensures r <==> |searchQuery| + |Filter(searchQuery, Astral)| > 5
    ensures |searchQuery| > 5 ==> r
    ensures r ==> |searchQuery| >= 3
  {
    Utf16LengthCounts(searchQuery);
    Utf16Length(searchQuery) > 5
  }

  /** The new `smartResults` once the debounced query settles, given the
      previous value and what the completion call yields. A short query clears
      them; a long one sets them to the recommendations, except that a failed
      request rejects before anything is set, so the previous value stays. */
  function SettledSmartResults(searchQuery: string, catalog: seq<Product>,
                               previous: Option<seq<Product>>, reply: GeminiService.Reply): (r: Option<seq<Product>>)
    ensures !ShouldSmartSearch(searchQuery) ==> r == None
    ensures ShouldSmartSearch(searchQuery) && reply.Failed? ==> r == previous
    ensures ShouldSmartSearch(searchQuery) && !reply.Failed? ==> r.Some? && r == GeminiService.Recommend(catalog, reply)
    ensures ShouldSmartSearch(searchQuery) && reply.Unusable? ==> r == Some([])
    ensures (previous.Some? ==> forall i :: 0 <= i < |previous.value| ==> previous.value[i] in catalog) ==>
              r.Some? ==> forall i :: 0 <= i < |r.value| ==> r.value[i] in catalog
  {
    if ShouldSmartSearch(searchQuery) then
      match GeminiService.Recommend(catalog, reply)
      case Some(results) => Some(results)
      case None => previous
    else None
  }

  /** A query long enough for smart search, answered by a usable reply, shows
      the recommendations, narrowed to the selected category if there is one;
      the substring filter no longer applies. */
  lemma LongQueryShowsRecommendations(catalog: seq<Product>, selectedCategory: Option<Category>, searchQuery: string,
                                      previous: Option<seq<Product>>, reply: GeminiService.Reply)
    requires ShouldSmartSearch(searchQuery) && !reply.Failed?
    ensures FilteredProducts(catalog, SettledSmartResults(searchQuery, catalog, previous, reply), selectedCategory, searchQuery) ==
            Filter(GeminiService.Recommend(catalog, reply).value,
                   (p: Product) => selectedCategory.None? || p.category == selectedCategory.value)
  {
    var recommended := GeminiService.Recommend(catalog, reply).value;
    var inCategory := (p: Product) => selectedCategory.None? || p.category == selectedCategory.value;
    match selectedCategory
    case None => FilterKeepsAll(recommended, inCategory);
    case Some(c) => FilterExtensional(recommended, (p: Product) => p.category == c, inCategory);
  }

  /** Whatever the service replies and whatever was shown before, a query
      whose JavaScript length (UTF-16 code units) is at most five is shown through the plain category and
      substring filters over the catalog. */
  lemma ShortQueryUsesSubstringFilter(catalog: seq<Product>, selectedCategory: Option<Category>, searchQuery: string,
                                      previous: Option<seq<Product>>, reply: GeminiService.Reply)
    requires Utf16Length(searchQuery) <= 5
    ensures FilteredProducts(catalog, SettledSmartResults(searchQuery, catalog, previous, reply), selectedCategory, searchQuery) ==
            Filter(catalog, (p: Product) => Shown(p, None, selectedCategory, searchQuery))
  {
    FilteredIsOneFilter(catalog, None, selectedCategory, searchQuery);
  }
}
