/**
 * The pure part of the AI service client: the prompts and response schemas it
 * sends, and how a parsed reply is merged into a recipe. The provider call is a
 * parameter: `Reply` is either the parsed JSON payload or the error the call
 * (or `JSON.parse`) threw.
 */
module Gemini {
  import opened Types
  import Text
  import Seqs

  const ModelName := "gemini-3-flash-preview"

  /** One structured-completion request: model, prompt text and the schema's required fields. */
  datatype RecipeRequest = RecipeRequest(model: string, prompt: string, required: seq<string>)

  /** One chat request: model, the session's system instruction and the user's message. */
  datatype ChatRequest = ChatRequest(model: string, systemInstruction: string, message: string)

  /**
   * The parsed reply object. The six schema fields are always present; `country`,
   * `id`, `image` and `isUserCreated` are the recipe fields a reply may also carry,
   * which the spread copies unless a later field overrides them.
   */
  datatype Payload = Payload(
    name: string,
    description: string,
    ingredients: seq<string>,
    instructions: seq<string>,
    prepTime: string,
    difficulty: string,
    country: Option<string>,
    id: Option<string>,
    image: Option<string>,
    isUserCreated: Option<bool>)

  datatype Reply = Replied(payload: Payload) | Threw(error: Failure)

  /** The reply to a chat message: its text, or the error the call threw. */
  datatype ChatReply = Answered(text: string) | ChatThrew(error: Failure)

  const CountryRequired: seq<string> := ["name", "description", "ingredients", "instructions", "prepTime", "difficulty"]
  const GlobalRequired: seq<string> := ["name", "country", "description", "ingredients", "instructions", "prepTime", "difficulty"]

  /** A payload that has every field a schema lists as required. */
  predicate Conforms(p: Payload, required: seq<string>)
  {
    "country" in required ==> p.country.Some?
  }

  /** The open-search schema asks for exactly the country-scoped fields plus `country`. */
  lemma GlobalSchemaAddsCountry()
    ensures GlobalRequired == CountryRequired[..1] + ["country"] + CountryRequired[1..]
    ensures "country" !in CountryRequired
    ensures forall p :: Conforms(p, CountryRequired)
  {
  }

  /** A JavaScript string in a boolean position: only the empty string is falsy. */
  predicate Truthy(s: Option<string>)
  {
    s.Some? && s.value != ""
  }

  const CountryPromptPrefix := "Generate an authentic recipe from "
  const CountryPromptSuffix := ". Return in JSON format."

  /** The country-scoped prompt; the dish clause appears only for a truthy dish name. */
  function CountryPrompt(country: string, dishName: Option<string>): (p: string)
    ensures Text.StartsWith(p, CountryPromptPrefix + country)
  {
    CountryPromptPrefix + country + (if Truthy(dishName) then " for " + dishName.value else "") + CountryPromptSuffix
  }

  /** An empty dish name is falsy, so it yields the same prompt as no dish name at all. */
  lemma EmptyDishNameIgnored(country: string)
    ensures CountryPrompt(country, Some("")) == CountryPrompt(country, None)
    ensures CountryPrompt(country, None) == CountryPromptPrefix + country + CountryPromptSuffix
  {
  }

  /** A truthy dish name is named in the prompt, right after the country. */
  lemma DishNameInPrompt(country: string, dish: string)
    requires dish != ""
    ensures CountryPrompt(country, Some(dish)) == CountryPromptPrefix + country + " for " + dish + CountryPromptSuffix
    ensures Text.Includes(CountryPrompt(country, Some(dish)), country + " for " + dish)
  {
    var needle := country + " for " + dish;
    assert CountryPrompt(country, Some(dish)) == CountryPromptPrefix + needle + CountryPromptSuffix;
    Text.IncludesMiddle(CountryPromptPrefix, needle, CountryPromptSuffix);
  }

  /**
   * The country-scoped request: the fixed model, a prompt naming the country and, when
   * truthy, the dish, and a schema that does not ask for the country.
   */
  function CountryRequest(country: string, dishName: Option<string>): (q: RecipeRequest)
    ensures q.model == ModelName && q.required == CountryRequired && "country" !in q.required
    ensures Text.StartsWith(q.prompt, CountryPromptPrefix + country)
    ensures Truthy(dishName) ==> Text.Includes(q.prompt, country + " for " + dishName.value)
    ensures !Truthy(dishName) ==> q.prompt == CountryPromptPrefix + country + CountryPromptSuffix
  {
    if Truthy(dishName) then
      DishNameInPrompt(country, dishName.value);
      RecipeRequest(ModelName, CountryPrompt(country, dishName), CountryRequired)
    else
      RecipeRequest(ModelName, CountryPrompt(country, dishName), CountryRequired)
  }

  const GlobalPromptPrefix := "Find an authentic recipe for "
  const GlobalPromptSuffix := ". Identify the country of origin and return the full recipe details in JSON format."

  /** The open-search prompt quotes the query verbatim. */
  function GlobalPrompt(query: string): (p: string)
    ensures Text.Includes(p, "\"" + query + "\"")
  {
    Text.IncludesMiddle(GlobalPromptPrefix, "\"" + query + "\"", GlobalPromptSuffix);
    GlobalPromptPrefix + ("\"" + query + "\"") + GlobalPromptSuffix
  }

  /** The open-search request: the fixed model, a prompt quoting the query, and a schema that asks for the country. */
  function GlobalRequest(query: string): (q: RecipeRequest)
    ensures q.model == ModelName && q.required == GlobalRequired && "country" in q.required
    ensures Text.Includes(q.prompt, "\"" + query + "\"")
  {
    RecipeRequest(ModelName, GlobalPrompt(query), GlobalRequired)
  }

  const ImageUrlPrefix := "https://picsum.photos/seed/"
  const ImageUrlSuffix := "/800/600"

  /** The placeholder image keyed by the URL-encoded recipe name. */
  function ImageUrl(name: string): (url: string)
    ensures Text.StartsWith(url, ImageUrlPrefix)
    ensures |url| == |ImageUrlPrefix| + |Text.EncodeURIComponent(name)| + |ImageUrlSuffix|
    ensures url[|ImageUrlPrefix|..|url| - |ImageUrlSuffix|] == Text.EncodeURIComponent(name)
    ensures url[|url| - |ImageUrlSuffix|..] == ImageUrlSuffix
  {
    var url := ImageUrlPrefix + Text.EncodeURIComponent(name) + ImageUrlSuffix;
    assert url[|ImageUrlPrefix|..|url| - |ImageUrlSuffix|] == Text.EncodeURIComponent(name);
    url
  }

  /** Recipes with different names never share a placeholder image. */
  lemma ImageUrlInjective(a: string, b: string)
    requires ImageUrl(a) == ImageUrl(b)
    ensures a == b
  {
    Text.EncodeInjective(a, b);
  }

  /**
   * A name of two unreserved words separated by one space ("Miso Ramen") is keyed
   * by the words joined with "%20" ("Miso%20Ramen").
   */
  lemma TwoWordImage(first: string, second: string)
    requires forall i :: 0 <= i < |first| ==> Text.IsUnreserved(first[i])
    requires forall i :: 0 <= i < |second| ==> Text.IsUnreserved(second[i])
    ensures ImageUrl(first + " " + second) == ImageUrlPrefix + first + "%20" + second + ImageUrlSuffix
  {
    Text.EncodeUnreservedWords(first, second);
    var url := ImageUrl(first + " " + second);
    assert url == ImageUrlPrefix + (first + "%20" + second) + ImageUrlSuffix;
  }

  /**
   * `{...result, id, country, image}`: the payload fields pass through; `id`,
   * `country` and `image` are written after the spread and win.
   */
  function MergeForCountry(p: Payload, country: string, id: string): (r: Recipe)
    ensures r.country == country && r.id == id && r.image == ImageUrl(p.name)
    ensures r.name == p.name && r.description == p.description && r.prepTime == p.prepTime
    ensures r.ingredients == p.ingredients && r.instructions == p.instructions
    ensures r.difficulty == p.difficulty && r.isUserCreated == p.isUserCreated
  {
    Recipe(id, p.name, country, ImageUrl(p.name), p.description, p.ingredients, p.instructions,
           p.prepTime, p.difficulty, p.isUserCreated)
  }

  /** `{...result, id, image}`: as above, but `country` comes from the payload. */
  function MergeGlobal(p: Payload, id: string): (r: Recipe)
    requires Conforms(p, GlobalRequired)
    ensures r.country == p.country.value && r.id == id && r.image == ImageUrl(p.name)
    ensures r.name == p.name && r.description == p.description && r.prepTime == p.prepTime
    ensures r.ingredients == p.ingredients && r.instructions == p.instructions
    ensures r.difficulty == p.difficulty && r.isUserCreated == p.isUserCreated
  {
    Recipe(id, p.name, p.country.value, ImageUrl(p.name), p.description, p.ingredients, p.instructions,
           p.prepTime, p.difficulty, p.isUserCreated)
  }

  /** The two payloads agree on every field except the three the country merge overrides. */
  predicate SameContent(p: Payload, q: Payload)
  {
    p.(country := None, id := None, image := None) == q.(country := None, id := None, image := None)
  }

  /** The country-scoped result does not depend on any `country`, `id` or `image` the reply carried. */
  lemma MergeForCountryIgnoresOverridden(p: Payload, q: Payload, country: string, id: string)
    requires SameContent(p, q)
    ensures MergeForCountry(p, country, id) == MergeForCountry(q, country, id)
  {
    assert p.name == q.name && p.description == q.description && p.prepTime == q.prepTime;
    assert p.ingredients == q.ingredients && p.instructions == q.instructions;
    assert p.difficulty == q.difficulty && p.isUserCreated == q.isUserCreated;
  }

  /** An open search that names a country gives the same record as a country-scoped fetch for it. */
  lemma GlobalMatchesCountryScoped(p: Payload, id: string)
    requires Conforms(p, GlobalRequired)
    ensures MergeGlobal(p, id) == MergeForCountry(p, p.country.value, id)
  {
  }

  /**
   * Neither merge checks `difficulty`: whatever the reply says is what the recipe says,
   * so a reply saying "Impossible" yields a recipe whose difficulty is none of the three.
   */
  lemma DifficultyUnchecked(p: Payload, country: string, id: string)
    ensures MergeForCountry(p, country, id).difficulty == p.difficulty
    ensures p.country.Some? ==> MergeGlobal(p, id).difficulty == p.difficulty
    ensures !IsDifficultyName(p.difficulty) ==> !IsDifficultyName(MergeForCountry(p, country, id).difficulty)
  {
  }

  /** `getRecipeFromAI(country)`: the merged recipe, or the provider's error rethrown unchanged. */
  function GetRecipeFromAI(country: string, reply: Reply, id: string): (r: Result<Recipe>)
    ensures r.Err? <==> reply.Threw?
    ensures r.Err? ==> r.error == reply.error
    ensures r.Ok? ==> r.value == MergeForCountry(reply.payload, country, id) && r.value.country == country
  {
    match reply
    case Replied(p) => Ok(MergeForCountry(p, country, id))
    case Threw(e) => Err(e)
  }

  /** `searchRecipeGlobally(query)`: the merged recipe, or the provider's error rethrown unchanged. */
  function SearchRecipeGlobally(reply: Reply, id: string): (r: Result<Recipe>)
    requires reply.Replied? ==> Conforms(reply.payload, GlobalRequired)
    ensures r.Err? <==> reply.Threw?
    ensures r.Err? ==> r.error == reply.error
    ensures r.Ok? ==> r.value == MergeGlobal(reply.payload, id) && r.value.country == reply.payload.country.value
  {
    match reply
    case Replied(p) => Ok(MergeGlobal(p, id))
    case Threw(e) => Err(e)
  }

  const ChatInstructionPrefix := "You are a world-class chef and culinary historian for Shamaki's Recipe app. You help users find and cook recipes from all 195 countries. Be helpful, concise, and passionate about global flavors. Context: "
  const DefaultContext := "General cooking help"

  /** The system instruction: a fixed prefix, then the context or, when it is falsy, a default. */
  function ChatSystemInstruction(context: Option<string>): (s: string)
    ensures Text.StartsWith(s, ChatInstructionPrefix)
    ensures s[|ChatInstructionPrefix|..] == if Truthy(context) then context.value else DefaultContext
  {
    var s := ChatInstructionPrefix + (if Truthy(context) then context.value else DefaultContext);
    assert s[|ChatInstructionPrefix|..] == if Truthy(context) then context.value else DefaultContext;
    s
  }

  /** An absent and an empty context make the same system instruction. */
  lemma EmptyContextIsDefault()
    ensures ChatSystemInstruction(Some("")) == ChatSystemInstruction(None)
  {
  }

  /** The chat request: the fixed model, the message exactly as given, and the system instruction ending in the context or the default. */
  function ChatRequestFor(message: string, context: Option<string>): (q: ChatRequest)
    ensures q.model == ModelName && q.message == message
    ensures Text.StartsWith(q.systemInstruction, ChatInstructionPrefix)
    ensures q.systemInstruction[|ChatInstructionPrefix|..] == if Truthy(context) then context.value else DefaultContext
  {
    ChatRequest(ModelName, ChatSystemInstruction(context), message)
  }

  /** `chatWithAI(message)`: the reply text; a provider error is not caught here. */
  function ChatWithAI(reply: ChatReply): (r: Result<string>)
    ensures r.Ok? <==> reply.Answered?
    ensures r.Ok? ==> r.value == reply.text
    ensures r.Err? ==> r.error == reply.error
  {
    match reply
    case Answered(t) => Ok(t)
    case ChatThrew(e) => Err(e)
  }
}
