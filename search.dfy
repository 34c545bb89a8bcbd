/**
 * The search screen: the country list filtered by the query, and the two AI
 * lookups (by country, and global free-text) with their in-flight flags. A
 * lookup's recipe, when it arrives, is handed to the session's recipe-click handler.
 */
module Search {
  import opened Types
  import opened Seqs
  import Text
  import Gemini

  /** How many catalog countries are suggested for an empty query. */
  const SuggestedCount: nat := 15
  /** The cap on the number of matches shown for a non-empty query. */
  const ResultLimit: nat := 20

  /**
   * The lower-cased name or the lower-cased region contains the lower-cased query.
   * The empty query matches every country; a query found in the name or the region as
   * typed matches; a match is never longer than both the name and the region.
   */
  function Matches(query: string, c: Country): (b: bool)
    ensures query == "" ==> b
    ensures Text.Includes(c.name, query) || Text.Includes(c.region, query) ==> b
    ensures b ==> |query| <= |c.name| || |query| <= |c.region|
  {
    Text.LowerIncludes(c.name, query);
    Text.LowerIncludes(c.region, query);
    assert query == "" ==> Text.OccursAt(Text.ToLower(c.name), Text.ToLower(query), 0) by {
      if query == "" {
        assert Text.ToLower(query) == "" && Text.ToLower(c.name)[0..0] == "";
      }
    }
    Text.Includes(Text.ToLower(c.name), Text.ToLower(query))
    || Text.Includes(Text.ToLower(c.region), Text.ToLower(query))
  }

  function MatchesQuery(query: string): Country -> bool
  {
    (c: Country) => Matches(query, c)
  }

  /**
   * `filteredCountries`: for an empty query, the first fifteen catalog countries;
   * otherwise the first twenty matches, in catalog order: the matches within some
   * prefix of the catalog, which is the whole catalog when fewer than twenty match.
   * Below the cap every match is there, as often as the catalog lists it.
   */
  function FilteredCountries(catalog: seq<Country>, query: string): (r: seq<Country>)
    ensures query == "" ==>
      |r| == (if |catalog| < SuggestedCount then |catalog| else SuggestedCount)
      && forall i :: 0 <= i < |r| ==> r[i] == catalog[i]
    ensures query != "" ==> |r| <= ResultLimit && IsSubsequence(r, catalog)
    ensures query != "" ==> forall i :: 0 <= i < |r| ==> Matches(query, r[i])
    ensures query != "" ==>
      exists j :: 0 <= j <= |catalog| && r == Filter(catalog[..j], MatchesQuery(query))
                  && (|r| < ResultLimit ==> j == |catalog|)
    ensures query != "" && |r| < ResultLimit ==>
      forall i :: 0 <= i < |catalog| && Matches(query, catalog[i]) ==> catalog[i] in r
    ensures query != "" && |r| < ResultLimit ==>
      forall c :: multiset(r)[c] == if Matches(query, c) then multiset(catalog)[c] else 0
  {
    if query == "" then Take(catalog, SuggestedCount)
    else
      var matches := Filter(catalog, MatchesQuery(query));
      FilterIsSubsequence(catalog, MatchesQuery(query));
      TakeOfSubsequence(matches, catalog, ResultLimit);
      TakeOfFilter(catalog, MatchesQuery(query), ResultLimit);
      forall c ensures multiset(matches)[c] == if Matches(query, c) then multiset(catalog)[c] else 0 {
        FilterCounts(catalog, MatchesQuery(query), c);
      }
      Take(matches, ResultLimit)
  }

  /** Lower-casing twice is lower-casing once. */
  lemma {:induction false} LowerIdempotent(s: string)
    ensures Text.ToLower(Text.ToLower(s)) == Text.ToLower(s)
  {
    var once := Text.ToLower(s);
    forall i | 0 <= i < |s| ensures Text.ToLower(once)[i] == once[i] {
      assert once[i] == Text.LowerChar(s[i]);
    }
  }

  /** Matching ignores ASCII case in the query. */
  lemma MatchIgnoresQueryCase(query: string, c: Country)
    ensures Matches(query, c) <==> Matches(Text.ToLower(query), c)
  {
    LowerIdempotent(query);
  }

  /** The global-search button is rendered only for a query longer than one character. */
  predicate OffersGlobalSearch(query: string)
  {
    |query| > 1
  }

  /** `handleGlobalSearch` goes ahead only for a query with some non-blank character and no search in flight. */
  predicate AcceptsGlobalSearch(query: string, searching: bool)
  {
    !Text.IsBlank(query) && !searching
  }

  /**
   * The button and the handler's guard disagree both ways: two spaces get the button but
   * no search, and a one-letter query gets no button but searches when Enter is pressed.
   */
  lemma ButtonAndGuardDiffer()
    ensures OffersGlobalSearch("  ") && !AcceptsGlobalSearch("  ", false)
    ensures !OffersGlobalSearch("a") && AcceptsGlobalSearch("a", false)
  {
    assert Text.IsJsWhiteSpace("  "[0]) && Text.IsJsWhiteSpace("  "[1]);
    assert !Text.IsJsWhiteSpace("a"[0]);
  }

  /** The search screen's state: the query text and the two in-flight flags. */
  class SearchPanel {
    var query: string
    var isSearchingGlobal: bool
    /** The name of the country whose lookup is in flight, if any. */
    var loadingCountry: Option<string>

    constructor ()
      ensures query == "" && !isSearchingGlobal && loadingCountry == None
    {
      query := "";
      isSearchingGlobal := false;
      loadingCountry := None;
    }

    /** Typing in the search box. */
    method SetQuery(q: string)
      modifies this
      ensures query == q
      ensures isSearchingGlobal == old(isSearchingGlobal) && loadingCountry == old(loadingCountry)
    {
      query := q;
    }

    /** While either lookup is in flight the global button and every country button are disabled. */
    predicate LookupInFlight()
      reads this
    {
      isSearchingGlobal || loadingCountry.Some?
    }

    /** `handleCountrySelect` up to its await: mark the country as loading and issue the request. */
    method BeginCountrySelect(c: Country) returns (request: Gemini.RecipeRequest)
      modifies this
      ensures loadingCountry == Some(c.name) && LookupInFlight()
      ensures query == old(query) && isSearchingGlobal == old(isSearchingGlobal)
      ensures request == Gemini.CountryRequest(c.name, None)
    {
      loadingCountry := Some(c.name);
      request := Gemini.CountryRequest(c.name, None);
    }

    /**
     * `handleCountrySelect` after its await: on success the recipe is picked (handed
     * to the click handler); on failure nothing is; either way the loading flag is cleared.
     */
    method FinishCountrySelect(c: Country, reply: Gemini.Reply, id: string) returns (picked: Option<Recipe>)
      modifies this
      ensures loadingCountry == None
      ensures query == old(query) && isSearchingGlobal == old(isSearchingGlobal)
      ensures picked.Some? <==> reply.Replied?
      ensures picked.Some? ==> picked.value == Gemini.MergeForCountry(reply.payload, c.name, id)
    {
      var outcome := Gemini.GetRecipeFromAI(c.name, reply, id);
      if outcome.Ok? {
        picked := Some(outcome.value);
      } else {
        picked := None;
      }
      loadingCountry := None;
    }

    /** `handleCountrySelect` as one step. */
    method HandleCountrySelect(c: Country, reply: Gemini.Reply, id: string) returns (picked: Option<Recipe>)
      modifies this
      ensures loadingCountry == None
      ensures query == old(query) && isSearchingGlobal == old(isSearchingGlobal)
      ensures picked.Some? <==> reply.Replied?
      ensures picked.Some? ==> picked.value == Gemini.MergeForCountry(reply.payload, c.name, id)
      ensures picked.Some? ==> picked.value.country == c.name && picked.value.id == id
    {
      var _ := BeginCountrySelect(c);
      picked := FinishCountrySelect(c, reply, id);
    }

    /**
     * `handleGlobalSearch` up to its await. A blank query, or a global search already
     * in flight, makes it return at once with nothing changed and no request issued.
     */
    method BeginGlobalSearch() returns (request: Option<Gemini.RecipeRequest>)
      modifies this
      ensures request.Some? <==> AcceptsGlobalSearch(old(query), old(isSearchingGlobal))
      ensures query == old(query) && loadingCountry == old(loadingCountry)
      ensures request.None? ==> isSearchingGlobal == old(isSearchingGlobal)
      ensures request.Some? ==> isSearchingGlobal && request.value == Gemini.GlobalRequest(query)
    {
      if Text.Trim(query) == "" || isSearchingGlobal {
        request := None;
      } else {
        isSearchingGlobal := true;
        request := Some(Gemini.GlobalRequest(query));
      }
    }

    /** `handleGlobalSearch` after its await: pick the recipe on success; clear the flag either way. */
    method FinishGlobalSearch(reply: Gemini.Reply, id: string) returns (picked: Option<Recipe>)
      requires reply.Replied? ==> Gemini.Conforms(reply.payload, Gemini.GlobalRequired)
      modifies this
      ensures !isSearchingGlobal
      ensures query == old(query) && loadingCountry == old(loadingCountry)
      ensures picked.Some? <==> reply.Replied?
      ensures picked.Some? ==> picked.value == Gemini.MergeGlobal(reply.payload, id)
    {
      var outcome := Gemini.SearchRecipeGlobally(reply, id);
      if outcome.Ok? {
        picked := Some(outcome.value);
      } else {
        picked := None;
      }
      isSearchingGlobal := false;
    }

    /** `handleGlobalSearch` as one step. */
    method HandleGlobalSearch(reply: Gemini.Reply, id: string) returns (picked: Option<Recipe>)
      requires reply.Replied? ==> Gemini.Conforms(reply.payload, Gemini.GlobalRequired)
      modifies this
      ensures query == old(query) && loadingCountry == old(loadingCountry)
      ensures Text.IsBlank(old(query)) || old(isSearchingGlobal) ==>
        picked == None && isSearchingGlobal == old(isSearchingGlobal)
      ensures !Text.IsBlank(old(query)) && !old(isSearchingGlobal) ==>
        !isSearchingGlobal && (picked.Some? <==> reply.Replied?)
      ensures !Text.IsBlank(old(query)) && !old(isSearchingGlobal) && picked.Some? ==>
        picked.value == Gemini.MergeGlobal(reply.payload, id)
    {
      var request := BeginGlobalSearch();
      if request.Some? {
        picked := FinishGlobalSearch(reply, id);
      } else {
        picked := None;
      }
    }
  }
}
