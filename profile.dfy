/**
 * The profile screen: the recipe grid chosen by tab, and the three statistics,
 * all derived from the session's recipe collection and id lists.
 */
module Profile {
  import opened Types
  import opened Seqs

  datatype Tab = My | Saved | Likes

  /** The recipes whose id is in `ids`. */
  function WithIdIn(ids: seq<string>): Recipe -> bool
  {
    (r: Recipe) => r.id in ids
  }

  function LikedOrSaved(liked: seq<string>, saved: seq<string>): Recipe -> bool
  {
    (r: Recipe) => r.id in liked || r.id in saved
  }

  function UserCreated(): Recipe -> bool
  {
    (r: Recipe) => IsUserCreated(r)
  }

  /** Which recipes a tab shows. */
  predicate ShownOnTab(tab: Tab, liked: seq<string>, saved: seq<string>, r: Recipe)
  {
    match tab
    case Likes => r.id in liked
    case Saved => r.id in saved
    case My => IsUserCreated(r)
  }

  /** The filter callback the tab selects. */
  function TabFilter(tab: Tab, liked: seq<string>, saved: seq<string>): Recipe -> bool
  {
    match tab
    case Likes => WithIdIn(liked)
    case Saved => WithIdIn(saved)
    case My => UserCreated()
  }

  /**
   * `displayedRecipes`: a filter of the collection chosen by the tab. Its elements are
   * exactly the collection's recipes that the tab shows, in collection order, each as
   * often as it occurs there.
   */
  function DisplayedRecipes(all: seq<Recipe>, liked: seq<string>, saved: seq<string>, tab: Tab): (r: seq<Recipe>)
    ensures IsSubsequence(r, all) && |r| <= |all|
    ensures forall i :: 0 <= i < |r| ==> ShownOnTab(tab, liked, saved, r[i])
    ensures forall i :: 0 <= i < |all| && ShownOnTab(tab, liked, saved, all[i]) ==> all[i] in r
    ensures forall x :: multiset(r)[x] == if ShownOnTab(tab, liked, saved, x) then multiset(all)[x] else 0
  {
    var p := TabFilter(tab, liked, saved);
    FilterIsSubsequence(all, p);
    forall x ensures multiset(Filter(all, p))[x] == if p(x) then multiset(all)[x] else 0 {
      FilterCounts(all, p, x);
    }
    Filter(all, p)
  }

  /** The recipes the "Countries" statistic ranges over: those that are liked or saved. */
  function Favourites(all: seq<Recipe>, liked: seq<string>, saved: seq<string>): seq<Recipe>
  {
    Filter(all, LikedOrSaved(liked, saved))
  }

  /** `new Set(recipes.map(r => r.country))`. */
  function CountriesOf(recipes: seq<Recipe>): set<string>
  {
    set r | r in recipes :: r.country
  }

  /** `uniqueCountriesCount`: how many distinct countries the liked or saved recipes come from. */
  function UniqueCountriesCount(all: seq<Recipe>, liked: seq<string>, saved: seq<string>): (n: nat)
    ensures n <= |Favourites(all, liked, saved)|
  {
    CountriesBound(Favourites(all, liked, saved));
    |CountriesOf(Favourites(all, liked, saved))|
  }

  /** A list of recipes comes from at most as many countries as it has recipes. */
  lemma {:induction false} CountriesBound(recipes: seq<Recipe>)
    ensures |CountriesOf(recipes)| <= |recipes|
    decreases |recipes|
  {
    if recipes != [] {
      CountriesBound(recipes[1..]);
      assert CountriesOf(recipes) == CountriesOf(recipes[1..]) + {recipes[0].country} by {
        forall c | c in CountriesOf(recipes) ensures c in CountriesOf(recipes[1..]) + {recipes[0].country} {
          var r :| r in recipes && r.country == c;
          if r != recipes[0] {
            assert r in recipes[1..];
          }
        }
      }
    }
  }

  /** With nothing liked or saved the count is zero; one liked or saved recipe makes it positive. */
  lemma UniqueCountriesBounds(all: seq<Recipe>, liked: seq<string>, saved: seq<string>)
    ensures liked == [] && saved == [] ==> UniqueCountriesCount(all, liked, saved) == 0
    ensures (exists i :: 0 <= i < |all| && (all[i].id in liked || all[i].id in saved))
            ==> UniqueCountriesCount(all, liked, saved) >= 1
  {
    var favourites := Favourites(all, liked, saved);
    if liked == [] && saved == [] {
      FilterNone(all, LikedOrSaved(liked, saved));
      assert CountriesOf(favourites) == {};
    }
    if i :| 0 <= i < |all| && (all[i].id in liked || all[i].id in saved) {
      assert LikedOrSaved(liked, saved)(all[i]);
      assert all[i] in favourites;
      assert all[i].country in CountriesOf(favourites);
    }
  }

  /** The "My Recipes" statistic. */
  function MyRecipesCount(all: seq<Recipe>): (n: nat)
    ensures n == |DisplayedRecipes(all, [], [], My)|
  {
    |Filter(all, UserCreated())|
  }

  /** The "Likes" statistic counts the liked ids themselves, not the recipes found for them. */
  function LikesCount(liked: seq<string>): nat
  {
    |liked|
  }

  /**
   * The "Likes" statistic exceeds the Likes tab as soon as one liked id has no recipe
   * in the collection (whose ids are distinct, as the controller keeps them).
   */
  lemma LikesCountCanExceedLikesTab(liked: seq<string>, all: seq<Recipe>, missing: string)
    requires missing in liked
    requires forall i :: 0 <= i < |all| ==> all[i].id != missing
    requires forall i, j :: 0 <= i < j < |all| ==> all[i].id != all[j].id
    ensures LikesCount(liked) > |DisplayedRecipes(all, liked, [], Likes)|
  {
    var pool := (set y | y in liked) - {missing};
    LikesTabBound(all, liked, pool);
    ElementsBound(liked);
  }

  /** A collection with distinct ids has at most one recipe on the Likes tab per id of `pool`. */
  lemma {:induction false} LikesTabBound(all: seq<Recipe>, liked: seq<string>, pool: set<string>)
    requires forall i :: 0 <= i < |all| && all[i].id in liked ==> all[i].id in pool
    requires forall i, j :: 0 <= i < j < |all| ==> all[i].id != all[j].id
    ensures |Filter(all, WithIdIn(liked))| <= |pool|
    decreases |all|
  {
    if all != [] {
      var rest := all[1..];
      if all[0].id in liked {
        assert forall i :: 0 <= i < |rest| ==> rest[i] == all[i + 1];
        LikesTabBound(rest, liked, pool - {all[0].id});
      } else {
        LikesTabBound(rest, liked, pool);
      }
    }
  }

  /** The profile view's own state: which tab is active. */
  class ProfileView {
    var activeTab: Tab

    /** The Likes tab is active when the view opens. */
    constructor ()
      ensures activeTab == Likes
    {
      activeTab := Likes;
    }

    /** A click on a tab button activates that tab. */
    method SelectTab(tab: Tab)
      modifies this
      ensures activeTab == tab
    {
      activeTab := tab;
    }
  }
}
