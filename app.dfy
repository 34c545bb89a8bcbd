/**
 * The top-level controller: the current view, the login flag, the selected
 * recipe, the liked and saved id lists and the recipe collection, the handlers
 * that change them, and the choice of what the screen shows.
 */
module App {
  import opened Types
  import opened Seqs

  /** The ids other than `id`. */
  function Other(id: string): string -> bool
  {
    (i: string) => i != id
  }

  /**
   * `prev.includes(id) ? prev.filter(i => i !== id) : [...prev, id]`. A present id loses
   * every occurrence and nothing else moves; an absent id is appended at the end.
   */
  function Toggle(ids: seq<string>, id: string): (r: seq<string>)
    ensures id in r <==> id !in ids
    ensures forall x :: x != id ==> multiset(r)[x] == multiset(ids)[x]
    ensures id in ids ==> IsSubsequence(r, ids) && multiset(r)[id] == 0
    ensures id !in ids ==> r == ids + [id]
  {
    if id in ids then
      FilterIsSubsequence(ids, Other(id));
      forall x ensures multiset(Filter(ids, Other(id)))[x] == if x != id then multiset(ids)[x] else 0 {
        FilterCounts(ids, Other(id), x);
      }
      Filter(ids, Other(id))
    else
      ids + [id]
  }

  /** The other ids keep their relative order through a toggle. */
  lemma ToggleKeepsOthersInOrder(ids: seq<string>, id: string)
    ensures Filter(Toggle(ids, id), Other(id)) == Filter(ids, Other(id))
  {
    if id in ids {
      var r := Filter(ids, Other(id));
      FilterAll(r, Other(id));
    } else {
      FilterAppend(ids, [id], Other(id));
      assert Filter([id], Other(id)) == [] by {
        FilterNone([id], Other(id));
      }
    }
  }

  /** A list without duplicates has none after a toggle. */
  lemma ToggleNoDuplicates(ids: seq<string>, id: string)
    requires NoDuplicates(ids)
    ensures NoDuplicates(Toggle(ids, id))
  {
    if id in ids {
      FilterNoDuplicates(ids, Other(id));
    } else {
      SnocNoDuplicates(ids, id);
    }
  }

  /** Toggling an absent id twice gives back the original list. */
  lemma ToggleTwiceAbsent(ids: seq<string>, id: string)
    requires id !in ids
    ensures Toggle(Toggle(ids, id), id) == ids
  {
    FilterAppend(ids, [id], Other(id));
    FilterNone([id], Other(id));
    FilterAll(ids, Other(id));
    assert ids + [] == ids;
  }

  /** Toggling a present id twice moves it, once, to the end: liking order is not kept. */
  lemma ToggleTwicePresent(ids: seq<string>, id: string)
    requires id in ids
    ensures Toggle(Toggle(ids, id), id) == Filter(ids, Other(id)) + [id]
  {
  }

  /** Some recipe of the collection has this id: `allRecipes.find(r => r.id === id)`. */
  predicate ContainsId(recipes: seq<Recipe>, id: string)
  {
    exists i :: 0 <= i < |recipes| && recipes[i].id == id
  }

  /** No two recipes of the collection share an id. */
  predicate UniqueIds(recipes: seq<Recipe>)
  {
    forall i, j :: 0 <= i < j < |recipes| ==> recipes[i].id != recipes[j].id
  }

  /** `after` is `before` with zero or more recipes put in front. */
  predicate Extends(before: seq<Recipe>, after: seq<Recipe>)
  {
    |before| <= |after| && after[|after| - |before|..] == before
  }

  /** Prepending a recipe with a fresh id keeps the ids unique. */
  lemma PrependFresh(r: Recipe, recipes: seq<Recipe>)
    requires UniqueIds(recipes) && !ContainsId(recipes, r.id)
    ensures UniqueIds([r] + recipes)
  {
    forall i, j | 0 <= i < j < |[r] + recipes| ensures ([r] + recipes)[i].id != ([r] + recipes)[j].id {
      assert ([r] + recipes)[j] == recipes[j - 1];
      if i > 0 {
        assert ([r] + recipes)[i] == recipes[i - 1];
      }
    }
  }

  /** The collection only grows: successive extensions compose. */
  lemma ExtendsTransitive(a: seq<Recipe>, b: seq<Recipe>, c: seq<Recipe>)
    requires Extends(a, b) && Extends(b, c)
    ensures Extends(a, c)
  {
    assert c[|c| - |a|..] == c[|c| - |b|..][|b| - |a|..];
  }

  /** Everything the controller holds. */
  datatype SessionState = SessionState(
    view: AppView,
    isLoggedIn: bool,
    selectedRecipe: Option<Recipe>,
    likedIds: seq<string>,
    savedIds: seq<string>,
    allRecipes: seq<Recipe>)

  /** What the controller renders. */
  datatype Screen =
    | AuthScreen(isWelcome: bool)
    | Detail(recipe: Recipe, isLiked: bool, isSaved: bool)
    | HomeScreen
    | SearchScreen
    | ProfileScreen(allRecipes: seq<Recipe>, likedIds: seq<string>, savedIds: seq<string>)
    | ChatScreen
    | CreateScreen
    | SettingsScreen

  predicate IsAuthView(v: AppView)
  {
    v == Welcome || v == Auth
  }

  /**
   * The welcome and registration views come first, whatever is selected; then a
   * selected recipe's detail, flagged by whether its id is liked or saved; then the
   * view's own screen, with Home as the fallback.
   */
  function Render(s: SessionState): (screen: Screen)
    ensures screen.AuthScreen? <==> IsAuthView(s.view)
    ensures screen.AuthScreen? ==> (screen.isWelcome <==> s.view == Welcome)
    ensures screen.Detail? <==> !IsAuthView(s.view) && s.selectedRecipe.Some?
    ensures screen.Detail? ==>
      Some(screen.recipe) == s.selectedRecipe
      && (screen.isLiked <==> screen.recipe.id in s.likedIds)
      && (screen.isSaved <==> screen.recipe.id in s.savedIds)
    ensures s.selectedRecipe.None? && !IsAuthView(s.view) ==>
      (screen == HomeScreen <==> s.view == Home)
      && (screen.ProfileScreen? <==> s.view == Profile)
      && (screen == SearchScreen <==> s.view == Search)
      && (screen == ChatScreen <==> s.view == Chat)
      && (screen == CreateScreen <==> s.view == Plus)
      && (screen == SettingsScreen <==> s.view == Settings)
    ensures screen.ProfileScreen? ==>
      screen == ProfileScreen(s.allRecipes, s.likedIds, s.savedIds)
  {
    if IsAuthView(s.view) then AuthScreen(s.view == Welcome)
    else if s.selectedRecipe.Some? then
      Detail(s.selectedRecipe.value, s.selectedRecipe.value.id in s.likedIds, s.selectedRecipe.value.id in s.savedIds)
    else
      match s.view
      case Search => SearchScreen
      case Profile => ProfileScreen(s.allRecipes, s.likedIds, s.savedIds)
      case Chat => ChatScreen
      case Plus => CreateScreen
      case Settings => SettingsScreen
      case _ => HomeScreen
  }

  /** The auth views hide any selected recipe, and the login flag plays no part in what is shown. */
  lemma AuthViewsFirst(s: SessionState, r: Recipe, loggedIn: bool)
    requires IsAuthView(s.view)
    ensures Render(s.(selectedRecipe := Some(r))) == Render(s) == AuthScreen(s.view == Welcome)
    ensures Render(s.(isLoggedIn := loggedIn)) == Render(s)
  {
  }

  /** Pressing the like button on a detail screen flips its heart and leaves the bookmark alone. */
  lemma LikeFlipsDetailFlag(s: SessionState, r: Recipe)
    requires !IsAuthView(s.view) && s.selectedRecipe == Some(r)
    ensures Render(s).Detail?
    ensures Render(s.(likedIds := Toggle(s.likedIds, r.id))).isLiked == !Render(s).isLiked
    ensures Render(s.(likedIds := Toggle(s.likedIds, r.id))).isSaved == Render(s).isSaved
  {
  }

  /** Pressing the save button on a detail screen flips its bookmark and leaves the heart alone. */
  lemma SaveFlipsDetailFlag(s: SessionState, r: Recipe)
    requires !IsAuthView(s.view) && s.selectedRecipe == Some(r)
    ensures Render(s).Detail?
    ensures Render(s.(savedIds := Toggle(s.savedIds, r.id))).isSaved == !Render(s).isSaved
    ensures Render(s.(savedIds := Toggle(s.savedIds, r.id))).isLiked == Render(s).isLiked
  {
  }

  /** The controller's state. */
  class Session {
    var view: AppView
    var isLoggedIn: bool
    var selectedRecipe: Option<Recipe>
    var likedIds: seq<string>
    var savedIds: seq<string>
    var allRecipes: seq<Recipe>

    function State(): SessionState
      reads this
    {
      SessionState(view, isLoggedIn, selectedRecipe, likedIds, savedIds, allRecipes)
    }

    function Shown(): Screen
      reads this
    {
      Render(State())
    }

    /** The app opens on the welcome view, logged out, with nothing liked or saved and the featured recipes. */
    constructor (featured: seq<Recipe>)
      ensures State() == SessionState(Welcome, false, None, [], [], featured)
      ensures Shown() == AuthScreen(true)
    {
      view := Welcome;
      isLoggedIn := false;
      selectedRecipe := None;
      likedIds := [];
      savedIds := [];
      allRecipes := featured;
    }

    method HandleLogin()
      modifies this
      ensures State() == old(State()).(isLoggedIn := true, view := Home)
    {
      isLoggedIn := true;
      view := Home;
    }

    /** Logging out returns to the welcome view and drops the selection; the lists are kept. */
    method HandleLogout()
      modifies this
      ensures State() == old(State()).(isLoggedIn := false, view := Welcome, selectedRecipe := None)
      ensures Shown() == AuthScreen(true)
    {
      isLoggedIn := false;
      view := Welcome;
      selectedRecipe := None;
    }

    /**
     * `handleRecipeClick`: a recipe whose id is not yet in the collection is put in
     * front of it; the clicked recipe becomes the selection either way.
     */
    method HandleRecipeClick(r: Recipe)
      modifies this
      ensures ContainsId(old(allRecipes), r.id) ==> allRecipes == old(allRecipes)
      ensures !ContainsId(old(allRecipes), r.id) ==> allRecipes == [r] + old(allRecipes)
      ensures State() == old(State()).(selectedRecipe := Some(r), allRecipes := allRecipes)
      ensures Extends(old(allRecipes), allRecipes) && ContainsId(allRecipes, r.id)
      ensures UniqueIds(old(allRecipes)) ==> UniqueIds(allRecipes)
    {
      if !ContainsId(allRecipes, r.id) {
        if UniqueIds(allRecipes) {
          PrependFresh(r, allRecipes);
        }
        allRecipes := [r] + allRecipes;
        assert allRecipes[0].id == r.id;
      }
      selectedRecipe := Some(r);
    }

    /** `handleAddRecipe`: the new recipe goes in front, unchecked, is selected, and Home is the view. */
    method HandleAddRecipe(r: Recipe)
      modifies this
      ensures State() == old(State()).(allRecipes := [r] + old(allRecipes), selectedRecipe := Some(r), view := Home)
      ensures Extends(old(allRecipes), allRecipes)
      ensures Shown() == Detail(r, r.id in likedIds, r.id in savedIds)
    {
      allRecipes := [r] + allRecipes;
      selectedRecipe := Some(r);
      view := Home;
    }

    /** A tap on a navigation item drops the selection and switches the view. */
    method HandleNavigate(v: AppView)
      modifies this
      ensures State() == old(State()).(selectedRecipe := None, view := v)
      ensures v == Home ==> Shown() == HomeScreen
    {
      selectedRecipe := None;
      view := v;
    }

    /** The detail screen's back button. */
    method CloseDetail()
      modifies this
      ensures State() == old(State()).(selectedRecipe := None)
    {
      selectedRecipe := None;
    }

    method ToggleLike(id: string)
      modifies this
      ensures State() == old(State()).(likedIds := Toggle(old(likedIds), id))
      ensures NoDuplicates(old(likedIds)) ==> NoDuplicates(likedIds)
    {
      if NoDuplicates(likedIds) {
        ToggleNoDuplicates(likedIds, id);
      }
      likedIds := Toggle(likedIds, id);
    }

    method ToggleSave(id: string)
      modifies this
      ensures State() == old(State()).(savedIds := Toggle(old(savedIds), id))
      ensures NoDuplicates(old(savedIds)) ==> NoDuplicates(savedIds)
    {
      if NoDuplicates(savedIds) {
        ToggleNoDuplicates(savedIds, id);
      }
      savedIds := Toggle(savedIds, id);
    }
  }
}
