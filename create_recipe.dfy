/**
 * The recipe-creation form: its field state, the handlers that edit it, and the
 * record it hands to the session when it is submitted.
 */
module CreateRecipe {
  import opened Types
  import opened Seqs
  import Text
  import Profile

  const DefaultCountry := "USA"
  const DefaultImage := "https://picsum.photos/seed/newrecipe/800/600"
  const DefaultPrepTime := "30 mins"

  /** The values the form's fields hold at one moment. */
  datatype FormState = FormState(
    name: string,
    country: string,
    description: string,
    prepTime: string,
    difficulty: Difficulty,
    ingredients: seq<string>,
    instructions: seq<string>,
    image: string)

  /** The state the form opens in: one empty ingredient row and one empty step row. */
  function InitialForm(): FormState
  {
    FormState("", DefaultCountry, "", "", Medium, [""], [""], DefaultImage)
  }

  /** An entry the submit filter keeps: its trimmed text is a non-empty, truthy string. */
  predicate Kept(entry: string)
  {
    Text.Trim(entry) != ""
  }

  function KeepEntry(): string -> bool
  {
    (entry: string) => Kept(entry)
  }

  /** An entry is dropped exactly when it consists of white space only. */
  lemma KeptIffNotBlank(entry: string)
    ensures Kept(entry) <==> !Text.IsBlank(entry)
  {
  }

  /**
   * `entries.filter(i => i.trim())`: the non-blank entries, in order and untrimmed;
   * every non-blank entry survives, as often as it occurs.
   */
  function KeptEntries(entries: seq<string>): (r: seq<string>)
    ensures IsSubsequence(r, entries)
    ensures forall i :: 0 <= i < |r| ==> !Text.IsBlank(r[i])
    ensures forall i :: 0 <= i < |entries| && !Text.IsBlank(entries[i]) ==> entries[i] in r
    ensures forall x :: multiset(r)[x] == if Text.IsBlank(x) then 0 else multiset(entries)[x]
  {
    FilterIsSubsequence(entries, KeepEntry());
    forall e ensures Kept(e) <==> !Text.IsBlank(e) {
      KeptIffNotBlank(e);
    }
    forall x ensures multiset(Filter(entries, KeepEntry()))[x] == if KeepEntry()(x) then multiset(entries)[x] else 0 {
      FilterCounts(entries, KeepEntry(), x);
    }
    Filter(entries, KeepEntry())
  }

  /** Filtering the kept entries again changes nothing. */
  lemma KeptEntriesIdempotent(entries: seq<string>)
    ensures KeptEntries(KeptEntries(entries)) == KeptEntries(entries)
  {
    var r := KeptEntries(entries);
    forall i | 0 <= i < |r| ensures KeepEntry()(r[i]) {
      KeptIffNotBlank(r[i]);
    }
    FilterAll(r, KeepEntry());
  }

  /** A row never filled in (still `""`) never reaches the recipe. */
  lemma EmptyRowDropped(entries: seq<string>)
    ensures KeptEntries(entries + [""]) == KeptEntries(entries)
  {
    var blank: seq<string> := [""];
    assert !Kept(blank[0]) by {
      KeptIffNotBlank(blank[0]);
    }
    FilterNone(blank, KeepEntry());
    FilterAppend(entries, blank, KeepEntry());
    assert Filter(entries, KeepEntry()) + [] == Filter(entries, KeepEntry());
  }

  /**
   * `handleSubmit`: the record handed to `onSave`. The dish-name input is `required`,
   * so the browser refuses to submit while it is empty. Otherwise every field is copied,
   * an empty preparation time becomes the default, blank ingredient and step rows are
   * dropped, and the record is marked as created by the user.
   */
  function Submit(f: FormState, id: string): (r: Option<Recipe>)
    ensures r.None? <==> f.name == ""
    ensures r.Some? ==>
      r.value.id == id && r.value.name == f.name && r.value.country == f.country
      && r.value.description == f.description && r.value.image == f.image
      && r.value.difficulty == DifficultyName(f.difficulty)
    ensures r.Some? ==> r.value.prepTime == if f.prepTime == "" then DefaultPrepTime else f.prepTime
    ensures r.Some? ==> r.value.prepTime != ""
    ensures r.Some? ==> r.value.ingredients == KeptEntries(f.ingredients)
                        && r.value.instructions == KeptEntries(f.instructions)
    ensures r.Some? ==> IsUserCreated(r.value) && IsDifficultyName(r.value.difficulty)
  {
    if f.name == "" then None
    else
      Some(Recipe(id, f.name, f.country, f.image, f.description,
                  KeptEntries(f.ingredients), KeptEntries(f.instructions),
                  if f.prepTime == "" then DefaultPrepTime else f.prepTime,
                  DifficultyName(f.difficulty), Some(true)))
  }

  /** Submitting the untouched form is refused; naming the dish alone gives the defaults and no rows. */
  lemma SubmitInitialForm(name: string, id: string)
    ensures Submit(InitialForm(), id) == None
    ensures name != "" ==>
      Submit(InitialForm().(name := name), id)
      == Some(Recipe(id, name, DefaultCountry, DefaultImage, "", [], [], DefaultPrepTime, "Medium", Some(true)))
  {
    FilterNone([""], KeepEntry());
  }

  /** A submitted recipe, once in the collection, appears on the profile's "My Recipes" tab. */
  lemma SubmittedShownOnMyTab(f: FormState, id: string, liked: seq<string>, saved: seq<string>, others: seq<Recipe>)
    requires f.name != ""
    ensures Submit(f, id).value in Profile.DisplayedRecipes([Submit(f, id).value] + others, liked, saved, Profile.My)
  {
    var all := [Submit(f, id).value] + others;
    assert all[0] == Submit(f, id).value;
  }

  /** The form component's state. */
  class RecipeForm {
    var name: string
    var country: string
    var description: string
    var prepTime: string
    var difficulty: Difficulty
    var ingredients: seq<string>
    var instructions: seq<string>
    var image: string

    function State(): FormState
      reads this
    {
      FormState(name, country, description, prepTime, difficulty, ingredients, instructions, image)
    }

    /**
     * The form renders no control for the preparation time or the photo, so both keep
     * their initial values for as long as the form lives.
     */
    predicate Valid()
      reads this
    {
      prepTime == "" && image == DefaultImage
    }

    constructor ()
      ensures State() == InitialForm() && Valid()
    {
      name := "";
      country := DefaultCountry;
      description := "";
      prepTime := "";
      difficulty := Medium;
      ingredients := [""];
      instructions := [""];
      image := DefaultImage;
    }

    method SetName(v: string)
      requires Valid()
      modifies this
      ensures Valid()
      ensures State() == old(State()).(name := v)
    {
      name := v;
    }

    /** The country select offers the catalog's names; the chosen name is stored as is. */
    method SetCountry(v: string)
      requires Valid()
      modifies this
      ensures Valid()
      ensures State() == old(State()).(country := v)
    {
      country := v;
    }

    method SetDescription(v: string)
      requires Valid()
      modifies this
      ensures Valid()
      ensures State() == old(State()).(description := v)
    {
      description := v;
    }

    method SetDifficulty(d: Difficulty)
      requires Valid()
      modifies this
      ensures Valid()
      ensures State() == old(State()).(difficulty := d)
    {
      difficulty := d;
    }

    /** `handleAddIngredient`: one more empty row at the end. */
    method AddIngredient()
      requires Valid()
      modifies this
      ensures Valid()
      ensures State() == old(State()).(ingredients := old(ingredients) + [""])
      ensures KeptEntries(ingredients) == KeptEntries(old(ingredients))
    {
      EmptyRowDropped(ingredients);
      ingredients := ingredients + [""];
    }

    /** `handleIngredientChange`: replace the text of one existing row. */
    method ChangeIngredient(index: nat, v: string)
      requires Valid() && index < |ingredients|
      modifies this
      ensures Valid()
      ensures State() == old(State()).(ingredients := old(ingredients)[index := v])
      ensures |ingredients| == |old(ingredients)| && ingredients[index] == v
      ensures forall j :: 0 <= j < |ingredients| && j != index ==> ingredients[j] == old(ingredients)[j]
    {
      ingredients := ingredients[index := v];
    }

    /** `handleAddInstruction`: one more empty step at the end. */
    method AddInstruction()
      requires Valid()
      modifies this
      ensures Valid()
      ensures State() == old(State()).(instructions := old(instructions) + [""])
      ensures KeptEntries(instructions) == KeptEntries(old(instructions))
    {
      EmptyRowDropped(instructions);
      instructions := instructions + [""];
    }

    /** `handleInstructionChange`: replace the text of one existing step. */
    method ChangeInstruction(index: nat, v: string)
      requires Valid() && index < |instructions|
      modifies this
      ensures Valid()
      ensures State() == old(State()).(instructions := old(instructions)[index := v])
      ensures |instructions| == |old(instructions)| && instructions[index] == v
      ensures forall j :: 0 <= j < |instructions| && j != index ==> instructions[j] == old(instructions)[j]
    {
      instructions := instructions[index := v];
    }

    /** `handleSubmit`: the record passed to `onSave`, if the browser lets the form submit. */
    function Submission(id: string): (r: Option<Recipe>)
      requires Valid()
      reads this
      ensures r.Some? ==> r.value.prepTime == DefaultPrepTime && r.value.image == DefaultImage
    {
      Submit(State(), id)
    }
  }
}
