/**
 * The listing page: the client-side filter over the currently loaded page
 * of records and the choice of what the page renders.
 */
module ListingPage {
  import opened Wrappers
  import opened Seqs
  import opened Records
  import PropertiesHook

  const AllSites: string := "all"

  /** The page's filter state: `searchTerm`, `filterSite` and `priceRange = [low, high]`. */
  datatype Settings = Settings(searchTerm: string, filterSite: string, priceLow: int, priceHigh: int)

  /** The filter state the page starts with. */
  const InitialSettings: Settings := Settings("", AllSites, 0, 1000000)

  /** ASCII `toLowerCase` of one character. */
  function LowerChar(c: char): char {
    if 'A' <= c <= 'Z' then (c as int + 32) as char else c
  }

  /** `toLowerCase`, restricted to ASCII letters. */
  function Lower(s: string): (r: string)
    ensures |r| == |s|
    ensures forall k :: 0 <= k < |s| ==> r[k] == LowerChar(s[k])
  {
    seq(|s|, k requires 0 <= k < |s| => LowerChar(s[k]))
  }

  lemma LowerAppend(s: string, t: string)
    ensures Lower(s + t) == Lower(s) + Lower(t)
  {
  }

  /** The predicate passed to `properties.filter`. */
  predicate Keep(s: Settings, p: Property)
    ensures Keep(s, p) ==> s.priceLow <= s.priceHigh && |s.searchTerm| <= |p.row.title|
  {
    Contains(Lower(p.row.title), Lower(s.searchTerm)) &&
    (s.filterSite == AllSites || p.row.site == s.filterSite) &&
    s.priceLow <= p.row.priceAmount &&
    p.row.priceAmount <= s.priceHigh
  }

  function Keeper(s: Settings): Property -> bool {
    p => Keep(s, p)
  }

  /**
   * `filteredProperties`: the loaded records that pass the filter, in the
   * order they were loaded.
   */
  function FilteredProperties(properties: seq<Property>, s: Settings): (r: seq<Property>)
    ensures IsSubsequence(r, properties)
    ensures forall p :: p in r <==> p in properties && Keep(s, p)
    ensures forall p :: multiset(r)[p] == if Keep(s, p) then multiset(properties)[p] else 0
  {
    FilterIsSubsequence(properties, Keeper(s));
    Filter(properties, Keeper(s))
  }

  /** Filtering the filtered list again with the same settings changes nothing. */
  lemma FilterTwiceSameAsOnce(properties: seq<Property>, s: Settings)
    ensures FilteredProperties(FilteredProperties(properties, s), s) == FilteredProperties(properties, s)
  {
    FilterIdempotent(properties, Keeper(s));
  }

  /**
   * `fine` is at least as strict as `coarse`: a price range inside the
   * other, a search term whose lower-case form contains the other's, and
   * the same site unless `coarse` takes every site.
   */
  predicate Narrows(fine: Settings, coarse: Settings) {
    coarse.priceLow <= fine.priceLow &&
    fine.priceHigh <= coarse.priceHigh &&
    Contains(Lower(fine.searchTerm), Lower(coarse.searchTerm)) &&
    (coarse.filterSite == AllSites || coarse.filterSite == fine.filterSite)
  }

  /** Stricter settings keep a subsequence of what looser settings keep. */
  lemma NarrowingFiltersSubsequence(properties: seq<Property>, fine: Settings, coarse: Settings)
    requires Narrows(fine, coarse)
    ensures IsSubsequence(FilteredProperties(properties, fine), FilteredProperties(properties, coarse))
  {
    forall p ensures Keeper(fine)(p) ==> Keeper(coarse)(p) {
      if Keep(fine, p) {
        ContainsTransitive(Lower(p.row.title), Lower(fine.searchTerm), Lower(coarse.searchTerm));
      }
    }
    FilterMonotone(properties, Keeper(fine), Keeper(coarse));
  }

  lemma SameTermNarrows(t: string)
    ensures Contains(Lower(t), Lower(t))
  {
    ContainsPrefix(Lower(t), []);
    assert Lower(t) + [] == Lower(t);
  }

  /** Narrowing the price range keeps a subsequence. */
  lemma NarrowPriceRange(properties: seq<Property>, s: Settings, low: int, high: int)
    requires s.priceLow <= low && high <= s.priceHigh
    ensures IsSubsequence(
      FilteredProperties(properties, s.(priceLow := low, priceHigh := high)),
      FilteredProperties(properties, s))
  {
    SameTermNarrows(s.searchTerm);
    NarrowingFiltersSubsequence(properties, s.(priceLow := low, priceHigh := high), s);
  }

  /** Typing more of the search term keeps a subsequence. */
  lemma ExtendSearchTerm(properties: seq<Property>, s: Settings, more: string)
    ensures IsSubsequence(
      FilteredProperties(properties, s.(searchTerm := s.searchTerm + more)),
      FilteredProperties(properties, s))
  {
    LowerAppend(s.searchTerm, more);
    ContainsPrefix(Lower(s.searchTerm), Lower(more));
    NarrowingFiltersSubsequence(properties, s.(searchTerm := s.searchTerm + more), s);
  }

  /** Switching from every site to one site keeps a subsequence. */
  lemma ChooseSite(properties: seq<Property>, s: Settings, site: string)
    requires s.filterSite == AllSites
    ensures IsSubsequence(
      FilteredProperties(properties, s.(filterSite := site)),
      FilteredProperties(properties, s))
  {
    SameTermNarrows(s.searchTerm);
    NarrowingFiltersSubsequence(properties, s.(filterSite := site), s);
  }

  /** With the initial settings, exactly the records priced in `[0, 1000000]` are kept. */
  lemma InitialSettingsKeepPriceRange(properties: seq<Property>)
    ensures forall p :: p in FilteredProperties(properties, InitialSettings) <==>
      p in properties && 0 <= p.row.priceAmount <= 1000000
  {
    assert Lower("") == "";
    forall p | p in properties ensures Contains(Lower(p.row.title), Lower("")) {
      ContainsEmpty(Lower(p.row.title));
    }
  }

  /** What the page body shows. */
  datatype View = Skeleton | ErrorMessage(message: string) | NoResults | Cards(shown: seq<Property>)

  /** JavaScript truthiness of the hook's `error`: set and not the empty string. */
  predicate ErrorShown(error: Option<string>)
    ensures ErrorShown(error) ==> error.Some?
  {
    error.Some? && error.value != []
  }

  /**
   * The page body: the skeleton while the first rows load, otherwise the
   * error when there is one, otherwise "No properties found." or one card
   * per filtered record.
   */
  function Render(loading: bool, properties: seq<Property>, error: Option<string>, s: Settings): (v: View)
    ensures v.Skeleton? <==> loading && properties == []
    ensures v.ErrorMessage? <==> !(loading && properties == []) && ErrorShown(error)
    ensures v.ErrorMessage? ==> Some(v.message) == error
    ensures v.NoResults? <==>
      !(loading && properties == []) && !ErrorShown(error) && FilteredProperties(properties, s) == []
    ensures v.Cards? ==> v.shown == FilteredProperties(properties, s) && v.shown != []
    ensures v.Cards? ==> forall p :: p in v.shown ==> p in properties
  {
    if loading && properties == [] then Skeleton
    else if ErrorShown(error) then ErrorMessage(error.value)
    else
      var filtered := FilteredProperties(properties, s);
      if filtered == [] then NoResults else Cards(filtered)
  }

  /**
   * The page's effect fetches the current page and the page renders the
   * new state. Once any fetch has failed, the page shows the error after
   * every later fetch, successful ones included.
   */
  method FetchAndRender(
    state: PropertiesHook.ListingState,
    countReply: PropertiesHook.Outcome<nat>,
    rowsReply: PropertiesHook.Outcome<seq<Row>>,
    s: Settings)
    returns (v: View)
    requires state.Valid()
    modifies state
    ensures state.Valid()
    ensures v == Render(state.loading, state.properties, state.error, s)
    ensures ErrorShown(old(state.error)) || countReply.Failed? || rowsReply.Failed? ==>
      v.ErrorMessage?
    ensures !ErrorShown(old(state.error)) && countReply.Ok? && rowsReply.Ok? ==>
      v != Skeleton && !v.ErrorMessage? &&
      state.properties == WithPhotosAll(rowsReply.value)
  {
    var _ := state.FetchProperties(state.page, countReply, rowsReply);
    v := Render(state.loading, state.properties, state.error, s);
  }
}
