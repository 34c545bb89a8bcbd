# Shamaki's Recipe — state and list logic in Dafny

The application is a single-page recipe app. A top-level controller holds the current view,
the login flag, the selected recipe, the liked and saved recipe ids, and the recipe collection.
The profile screen shows filtered views of that collection. The search screen filters a country
catalog and asks an AI service for recipes. A form lets the user author a recipe. A chat screen
keeps a transcript with the AI service. A settings screen flips four boolean preferences.

The model has one module per source file, plus two helper modules for the JavaScript built-ins:

- `Types` holds the records of `types.ts`.
- `Seqs` holds the order-preserving list operations (`filter`, `slice`).
- `Text` holds the JavaScript string operations the views use: `trim`, `toLowerCase`,
  `includes` and `encodeURIComponent`. For `encodeURIComponent` there is a reference decoder,
  and the round trip is proved.
- `Gemini`, `Profile`, `Search`, `CreateRecipe`, `ChatAI`, `Settings` and `App` follow the
  source files of the same names.

Code that updates component state is modelled as a class with those fields. Each handler is a
method whose postcondition gives the whole new state. Derived values are functions with lemmas.
An awaited call is split in two methods, around the `await`, plus one method that runs both.
The provider's answer is a parameter: a parsed payload, or the error the call threw.
Random ids are also parameters.

The model records three facts about the source:

- The recipe form renders no input for the preparation time and no handler for the photo.
  Every submitted recipe therefore has prep time "30 mins" and the placeholder image
  (`CreateRecipe.RecipeForm.Valid`, `CreateRecipe.RecipeForm.Submission`).
- On the search screen, the global-search button and the handler's guard disagree
  (`Search.ButtonAndGuardDiffer`).
  - A query of two spaces shows the button, but the handler refuses it.
  - A query of one letter shows no button, but pressing Enter searches for it.
- The settings screen has no row for `autoSave` (`Settings.AutoSaveUnreachable`).

## Model

| member | source | states |
|---|---|---|
| Seqs.Filter | App.tsx:56 | `filter` keeps only elements that satisfy the predicate. It keeps every element of the input that satisfies it. The result is never longer than the input. |
| Seqs.FilterCounts | components/Profile.tsx:34 | A filter keeps each satisfying element exactly as often as it occurs in the input, and drops every other element. |
| Seqs.FilterIsSubsequence | components/Profile.tsx:32-43 | A filter's result is a subsequence of its input, so order is kept. |
| Seqs.FilterNoDuplicates | App.tsx:56 | Filtering a list with no duplicates gives a list with no duplicates. |
| Seqs.Take | components/Search.tsx:18 | `slice(0, k)` gives the first `min(k, length)` elements, unchanged. |
| Text.TrimStart | components/Search.tsx:39 | Removes exactly the leading white space. The result is a suffix of the input. Its first character, if any, is not white space. |
| Text.TrimEnd | components/ChatAI.tsx:21 | Removes exactly the trailing white space. The result is a prefix of the input. Its last character, if any, is not white space. |
| Text.Trim | components/ChatAI.tsx:21 | `s.trim()` is the empty (falsy) string if and only if every character of `s` is white space. Otherwise it starts and ends with a character that is not white space. |
| Text.TrimIsBlock | components/Search.tsx:39 | `s.trim()` occurs in `s` at some position, with only white space before it and only white space after it. |
| Text.ToLower | components/Search.tsx:20-21 | `toLowerCase` keeps the length. No upper-case ASCII letter is left. Each upper-case letter becomes the lower-case letter 32 code points above it. Every other character stays where it was, unchanged. |
| Text.Includes | components/Search.tsx:20-21 | `s.includes(needle)` holds if and only if `needle` occurs at some position of `s`. It never holds for a needle longer than `s`. |
| Text.LowerIncludes | components/Search.tsx:20-21 | A needle found in `s` is also found, at the same place, once both are lower-cased. |
| Text.IncludesMiddle | services/gemini.ts:47 | A string contains every block that occurs in it between two others. |
| Text.EncodeURIComponent | services/gemini.ts:35 | Every character is kept or replaced by the escapes of its one to four UTF-8 bytes, so the encoding is between one and twelve times as long as the input. |
| Text.EncodeIsUriSafe | services/gemini.ts:35 | The output of `encodeURIComponent` holds only unreserved characters and `%`. In particular it holds no `/`, so the image path has exactly one segment for the name. |
| Text.UnreservedEncoding | services/gemini.ts:35 | A string made only of unreserved characters is its own encoding. |
| Text.EncodeConcat | services/gemini.ts:35 | The encoding of `a + b` is the encoding of `a` followed by the encoding of `b`. |
| Text.DecodeEncode | services/gemini.ts:35 | The reference decoder recovers every string from its `encodeURIComponent` encoding (UTF-8 bytes written as `%XY`). |
| Text.EncodeInjective | services/gemini.ts:35 | Different strings have different encodings. |
| Gemini.GlobalSchemaAddsCountry | services/gemini.ts:61 | The open-search schema's required list is the country-scoped list with `country` inserted after `name`. The country-scoped list does not require `country`. |
| Gemini.CountryPrompt | services/gemini.ts:12 | The country prompt starts with the fixed sentence opening followed by the country. |
| Gemini.EmptyDishNameIgnored | services/gemini.ts:12 | An empty dish name is falsy, so it gives the same prompt as no dish name. That prompt is opening + country + closing. |
| Gemini.DishNameInPrompt | services/gemini.ts:12 | With a non-empty dish name the prompt is exactly opening + country + " for " + dish + closing. So the dish appears as `country + " for " + dish`. |
| Gemini.CountryRequest | services/gemini.ts:10-27 | The country-scoped request uses the fixed model and the six-field schema, which does not require `country`. The prompt starts with the opening and the country. It names a truthy dish after the country. Without one it is exactly opening + country + closing. |
| Gemini.GlobalPrompt | services/gemini.ts:47 | The open-search prompt contains the query verbatim, between double quotes. |
| Gemini.GlobalRequest | services/gemini.ts:45-63 | The open-search request uses the fixed model and the seven-field schema, which requires `country`. Its prompt quotes the query verbatim. |
| Gemini.ImageUrl | services/gemini.ts:35 | The image URL is the picsum seed prefix, then the encoded name, then `/800/600`: it starts with the prefix, the middle slice is exactly the encoded name, and it ends with the suffix. |
| Gemini.ImageUrlInjective | services/gemini.ts:70 | Recipes with different names never get the same image URL. |
| Gemini.TwoWordImage | services/gemini.ts:35 | Two unreserved words separated by a space ("Miso Ramen") give the seed `first%20second`. |
| Gemini.MergeForCountry | services/gemini.ts:31-36 | In the country-scoped merge, `country` is the requested country and `id` is the given id. `image` is the URL for the payload's name. Every other field passes through from the payload. |
| Gemini.MergeGlobal | services/gemini.ts:67-71 | In the open-search merge, `country` comes from the payload. `id` and `image` are overridden. Every other field passes through. |
| Gemini.MergeForCountryIgnoresOverridden | services/gemini.ts:31-36 | The country-scoped result does not depend on any `country`, `id` or `image` that the payload carried. |
| Gemini.GlobalMatchesCountryScoped | services/gemini.ts:66-71 | An open-search result is the country-scoped result for the payload's own country. |
| Gemini.DifficultyUnchecked | services/gemini.ts:32 | Neither merge checks `difficulty`. The recipe's difficulty is the payload's, whatever it is, so a payload whose difficulty is not Easy, Medium or Hard makes a recipe whose difficulty is not one of them either. |
| Gemini.GetRecipeFromAI | services/gemini.ts:8-41 | The result is an error exactly when the provider threw, and it is that same error. Otherwise it is the merged recipe, with the requested country. |
| Gemini.SearchRecipeGlobally | services/gemini.ts:43-76 | The result is an error exactly when the provider threw, and it is that same error. Otherwise it is the merged recipe, with the payload's country. |
| Gemini.ChatSystemInstruction | services/gemini.ts:82 | The system instruction is the fixed prefix followed by the context. When the context is absent or empty, "General cooking help" is used instead. |
| Gemini.ChatRequestFor | services/gemini.ts:79-84 | The chat request uses the fixed model and sends the message exactly as given. Its system instruction is the fixed prefix followed by the context, or by "General cooking help" when the context is falsy. |
| Gemini.EmptyContextIsDefault | services/gemini.ts:82 | An empty context and no context give the same system instruction. |
| Gemini.ChatWithAI | services/gemini.ts:78-88 | The result is the reply text on success. A provider error is passed on unchanged. |
| Profile.DisplayedRecipes | components/Profile.tsx:32-43 | The tab's list is a subsequence of the collection. Every element is shown on the tab (liked id, saved id, or user-created). Every collection recipe the tab shows is in the list, with its multiplicity. |
| Profile.UniqueCountriesCount | components/Profile.tsx:45-48 | The distinct-country count is at most the number of liked or saved recipes. |
| Profile.CountriesBound | components/Profile.tsx:46 | A list of recipes comes from at most as many distinct countries as it has recipes. |
| Profile.UniqueCountriesBounds | components/Profile.tsx:45-48 | The count is 0 when nothing is liked or saved. It is at least 1 when some collection recipe is liked or saved. |
| Profile.MyRecipesCount | components/Profile.tsx:68 | The "My Recipes" statistic is the length of the My tab's list. |
| Profile.LikesCountCanExceedLikesTab | components/Profile.tsx:72 | The "Likes" statistic counts liked ids, including ids with no recipe in the collection. With distinct collection ids, one liked id that no recipe has makes the statistic exceed the Likes tab's length. |
| Profile.ProfileView.constructor | components/Profile.tsx:20 | The profile opens on the Likes tab. |
| Profile.ProfileView.SelectTab | components/Profile.tsx:83-95 | A tab button makes its tab the active one. |
| Search.Matches | components/Search.tsx:19-21 | The empty query matches every country. A query that occurs in the name or the region as typed also matches once both are lower-cased. A match is never longer than both the name and the region. |
| Search.FilteredCountries | components/Search.tsx:17-23 | An empty query gives the first `min(15, n)` catalog countries. A non-empty query gives the first 20 matches in catalog order. That is, it gives exactly the matches within some prefix of the catalog, and that prefix is the whole catalog when fewer than 20 countries match. Every result matches the query case-insensitively by name or region. With fewer than 20 results, every matching country is present as often as the catalog lists it. |
| Search.LowerIdempotent | components/Search.tsx:20-21 | Lower-casing twice is the same as lower-casing once. |
| Search.MatchIgnoresQueryCase | components/Search.tsx:20-21 | A query and its lower-cased form match the same countries. |
| Search.ButtonAndGuardDiffer | components/Search.tsx:69 | The button shows for `query.length > 1`, but the handler proceeds only for a non-blank query. "  " gets the button and no search. "a" gets no button but searches on Enter. |
| Search.SearchPanel.constructor | components/Search.tsx:13-15 | The screen starts with an empty query and no lookup in flight. |
| Search.SearchPanel.SetQuery | components/Search.tsx:62 | Typing changes only the query. |
| Search.SearchPanel.BeginCountrySelect | components/Search.tsx:25-28 | Selecting a country marks it as loading, so a lookup is in flight. It issues the country-scoped request for that country, with no dish name. |
| Search.SearchPanel.FinishCountrySelect | components/Search.tsx:28-35 | After the call, success or failure, `loadingCountry` is cleared. A recipe is handed on exactly when the call succeeded, and it is the country-scoped merge. |
| Search.SearchPanel.HandleCountrySelect | components/Search.tsx:25-36 | The whole handler clears the loading flag. It yields a recipe of the chosen country exactly when the call succeeded. |
| Search.SearchPanel.BeginGlobalSearch | components/Search.tsx:38-42 | A request is made exactly when the query is not blank and no global search is in flight. Otherwise nothing changes. |
| Search.SearchPanel.FinishGlobalSearch | components/Search.tsx:42-49 | After the call, success or failure, `isSearchingGlobal` is false. A recipe is handed on exactly when the call succeeded. |
| Search.SearchPanel.HandleGlobalSearch | components/Search.tsx:38-50 | A refused search changes nothing and yields nothing. An accepted search ends with the flag cleared and yields a recipe exactly on success. |
| CreateRecipe.KeptIffNotBlank | components/CreateRecipe.tsx:44 | An entry survives the `trim()` filter if and only if it is not all white space. |
| CreateRecipe.KeptEntries | components/CreateRecipe.tsx:44-45 | The submitted rows are a subsequence of the form's rows. None of them is blank. Every non-blank row is among them, untrimmed, as often as it occurs in the form. |
| CreateRecipe.KeptEntriesIdempotent | components/CreateRecipe.tsx:44-45 | Filtering the submitted rows again changes nothing. |
| CreateRecipe.EmptyRowDropped | components/CreateRecipe.tsx:21 | An added row that was never filled in does not change what is submitted. |
| CreateRecipe.Submit | components/CreateRecipe.tsx:35-50 | The form cannot be submitted while the required name is empty. Otherwise the recipe copies the id, name, country, description, image and difficulty. Prep time is "30 mins" exactly when the form's is empty, and blank rows are dropped. The recipe is user-created and has a valid difficulty. |
| CreateRecipe.SubmitInitialForm | components/CreateRecipe.tsx:12-19 | The untouched form cannot be submitted. When only the name is filled in, the recipe has country USA, Medium difficulty, prep time "30 mins", the placeholder image and no rows. |
| CreateRecipe.SubmittedShownOnMyTab | components/CreateRecipe.tsx:47 | A submitted recipe, once in the collection, is on the profile's My tab. |
| CreateRecipe.RecipeForm.constructor | components/CreateRecipe.tsx:12-19 | The form starts empty, with country USA, Medium difficulty, one empty ingredient row, one empty step row and the placeholder image. |
| CreateRecipe.RecipeForm.SetName | components/CreateRecipe.tsx:76 | Typing the name changes only the name. |
| CreateRecipe.RecipeForm.SetCountry | components/CreateRecipe.tsx:87 | Choosing a country changes only the country. |
| CreateRecipe.RecipeForm.SetDifficulty | components/CreateRecipe.tsx:97 | Choosing a difficulty changes only the difficulty. |
| CreateRecipe.RecipeForm.SetDescription | components/CreateRecipe.tsx:113 | Typing the description changes only the description. |
| CreateRecipe.RecipeForm.AddIngredient | components/CreateRecipe.tsx:21 | Appends one empty ingredient row and changes nothing else. |
| CreateRecipe.RecipeForm.ChangeIngredient | components/CreateRecipe.tsx:22-26 | Replaces ingredient row `i` only. The length and all other rows are unchanged. |
| CreateRecipe.RecipeForm.AddInstruction | components/CreateRecipe.tsx:28 | Appends one empty step and changes nothing else. |
| CreateRecipe.RecipeForm.ChangeInstruction | components/CreateRecipe.tsx:29-33 | Replaces step `i` only. The length and all other steps are unchanged. |
| CreateRecipe.RecipeForm.Submission | components/CreateRecipe.tsx:42 | Since prep time and photo cannot be edited, every submitted recipe has "30 mins" and the placeholder image. |
| ChatAI.EveryQuestionAnswered | components/ChatAI.tsx:20-36 | When nothing is loading, every user message in the transcript is followed by an assistant message. |
| ChatAI.AskKeepsShape | components/ChatAI.tsx:25-26 | Appending a non-blank user turn keeps the transcript's shape: greeting first, then turns alternating. The transcript is then waiting for an answer. |
| ChatAI.AnswerKeepsShape | components/ChatAI.tsx:30-34 | Appending the assistant's turn keeps the shape and ends the wait. |
| ChatAI.AnswerText | components/ChatAI.tsx:29-32 | The assistant's turn is the reply text on success, or the fixed apology when the call threw. |
| ChatAI.FallbackIndistinguishable | components/ChatAI.tsx:32 | In the transcript, a failed call looks the same as a reply whose text is the apology. |
| ChatAI.ChatPanel.constructor | components/ChatAI.tsx:7-11 | The transcript starts as the single assistant greeting, with empty input and nothing loading. |
| ChatAI.ChatPanel.SetInput | components/ChatAI.tsx:76 | Typing changes only the input. |
| ChatAI.ChatPanel.BeginSend | components/ChatAI.tsx:20-29 | Blank input, or a send while loading, changes nothing. Otherwise the untrimmed input is appended as a user turn and the input is cleared. Loading starts, and that text is sent with no context. |
| ChatAI.ChatPanel.FinishSend | components/ChatAI.tsx:29-35 | Exactly one assistant turn is appended: the reply or the apology. Loading then stops. |
| ChatAI.ChatPanel.HandleSend | components/ChatAI.tsx:20-36 | A blank input or a reply still loading leaves the transcript, the input and the loading flag unchanged. Otherwise exactly a user turn followed by its answer is appended, the input is cleared, and loading ends as it began. |
| Settings.Flip | components/Settings.tsx:17-19 | `toggleSwitch(k)` negates the value at `k` and leaves every other key unchanged. |
| Settings.FlipTwice | components/Settings.tsx:18 | Toggling the same key twice restores the original record. |
| Settings.FlipCommutes | components/Settings.tsx:18 | Toggles of two keys give the same record in either order. |
| Settings.RowsLayout | components/Settings.tsx:63-102 | The screen has seven rows. Rows 2, 3 and 5 are the switches for notifications, dark mode and privacy, and each shows its preference's current value. Every other row is a chevron row with no value and no toggle. |
| Settings.LayoutKeys | components/Settings.tsx:71-95 | No two rows toggle the same preference, and no row toggles auto-save. |
| Settings.Fired | components/Settings.tsx:21-50 | One click runs at most one toggle. A chevron row runs none. A switch row runs its own toggle, whether the click lands on the row or on the switch, since the switch stops propagation. |
| Settings.BubblingWouldCancel | components/Settings.tsx:37 | Without `stopPropagation`, a click on the switch would toggle twice and change nothing. |
| Settings.RowsShowValues | components/Settings.tsx:33-47 | A row has a chevron exactly when it has no toggle. Every switch row shows the current value of its key. |
| Settings.ClickSwitchRow | components/Settings.tsx:24 | A click on a switch row is one `toggleSwitch` of that row's key. |
| Settings.ClickNegatesShownValue | components/Settings.tsx:21-50 | A click on a chevron row changes nothing. A click on a switch row negates the value it shows and leaves every other row as it was. |
| Settings.AutoSaveUnreachable | components/Settings.tsx:63-102 | No click on any row changes auto-save. |
| Settings.SettingsPanel.constructor | components/Settings.tsx:10-15 | The initial toggles are notifications on, dark mode off, privacy off and auto-save on. |
| Settings.SettingsPanel.ToggleSwitch | components/Settings.tsx:17-19 | The stored record becomes the flip of the old one at that key. |
| Settings.SettingsPanel.ClickRow | components/Settings.tsx:21-50 | A click changes the record as `Fired` says and never changes auto-save. |
| App.Toggle | App.tsx:55-57 | Membership of the id flips. A present id loses every occurrence, the rest is kept as a subsequence, and every other id keeps its count. An absent id is appended at the end. |
| App.ToggleKeepsOthersInOrder | App.tsx:56 | With the toggled id ignored, the list is the same before and after, so other ids keep their relative order. |
| App.ToggleNoDuplicates | App.tsx:55-61 | A toggle keeps a duplicate-free id list duplicate-free. |
| App.ToggleTwiceAbsent | App.tsx:56 | Toggling an absent id twice gives back exactly the original list. |
| App.ToggleTwicePresent | App.tsx:56 | Toggling a present id twice moves it, once, to the end. |
| App.PrependFresh | App.tsx:38-40 | Prepending a recipe whose id is not yet in the collection keeps ids unique. |
| App.ExtendsTransitive | App.tsx:23 | "Grows by prepending" composes across successive handlers. |
| App.Render | App.tsx:63-106 | The auth screen is shown exactly on the welcome and auth views, and its welcome flag is set exactly on the welcome view. Otherwise a detail screen is shown exactly when a recipe is selected. Its heart and bookmark are set exactly when the recipe's id is liked or saved. With nothing selected, Home is shown exactly for the Home view, and the profile exactly for the Profile view, with the session's collection and id lists. The search, chat, create and settings screens are shown exactly for the Search, Chat, Plus and Settings views. |
| App.AuthViewsFirst | App.tsx:64-66 | On the welcome and auth views, the auth screen is shown even when a recipe is selected. The login flag does not affect what is shown. |
| App.LikeFlipsDetailFlag | App.tsx:75-77 | On a detail screen, the like button flips the heart shown and leaves the bookmark alone. |
| App.SaveFlipsDetailFlag | App.tsx:76-78 | On a detail screen, the save button flips the bookmark shown and leaves the heart alone. |
| App.Session.constructor | App.tsx:16-23 | The app starts on the welcome view, logged out, with nothing selected, liked or saved, and the featured recipes. |
| App.Session.HandleLogin | App.tsx:25-28 | Login sets the flag and the Home view and changes nothing else. |
| App.Session.HandleLogout | App.tsx:30-34 | Logout clears the flag and the selection and goes to the welcome view. It keeps the liked, saved and recipe lists. |
| App.Session.HandleRecipeClick | App.tsx:36-42 | The recipe is prepended exactly when no recipe with its id is in the collection. Either way it becomes the selection. The collection only grows and keeps unique ids. |
| App.Session.HandleAddRecipe | App.tsx:44-48 | The recipe is always prepended, with no check. It is selected, the view becomes Home, and its detail is shown. |
| App.Session.HandleNavigate | App.tsx:50-53 | Navigation clears the selection, sets the view and changes nothing else. |
| App.Session.CloseDetail | App.tsx:74 | The back button clears only the selection. |
| App.Session.ToggleLike | App.tsx:55-57 | Only `likedIds` changes, and it becomes its toggle. Saved ids and everything else stay the same. |
| App.Session.ToggleSave | App.tsx:59-61 | Only `savedIds` changes, and it becomes its toggle. Liked ids and everything else stay the same. |

## Left out

- The AI provider client, its network round trip and `JSON.parse` (services/gemini.ts:10-30, 45-66, 79-87). The parsed payload, or the error thrown, is an input. A chat reply always carries a text: the SDK's `response.text` can be `undefined`, which components/ChatAI.tsx:30 would store as the message text. The request the code would send is returned as a value.
- Missing or extra fields in a payload. The six schema fields are always present, and only the recipe fields a payload might also carry are modelled. The open-search merge requires the `country` field that its schema makes required.
- `Math.random().toString(36)` ids. They are random and floating-point based, so ids are parameters.
- `toLowerCase` is modelled for ASCII letters only. Full Unicode case mapping is not modelled.
- Strings are sequences of Unicode scalar values. JavaScript's UTF-16 code units, and lone surrogates (which make `encodeURIComponent` throw), are not modelled.
- Async interleaving and React's batching. Each handler is a sequence of atomic steps. The stale `allRecipes` read in `handleRecipeClick` is therefore not modelled.
- `alert`, `console.error`, auto-scroll, the avatar `FileReader` upload, and all markup and styling.
- The `ALL_COUNTRIES` and `FEATURED_RECIPES` constants. They are not part of this model and are parameters instead.
- The Home, Layout, RecipeDetail and Auth components. Only their callbacks into the controller are modelled: `HandleNavigate`, `CloseDetail`, `ToggleLike`, `ToggleSave`, `HandleLogin` and Home's `onRecipeClick`, which is `HandleRecipeClick`.
- The profile's sign-out button (components/Profile.tsx:126). It has no handler, so it does nothing. The settings screen's sign-out button calls `App.Session.HandleLogout`.
- The `User` record of `types.ts`. No core code uses it.
- Search.SearchPanel.FinishCountrySelect: does not model the `alert` shown on failure.
- The `disabled` attribute of the lookup buttons (components/Search.tsx:72, 108). The handlers can be called in any state. `Search.SearchPanel.LookupInFlight` only names the condition under which the source disables the buttons.
- CreateRecipe.RecipeForm.ChangeIngredient: requires an existing row index. The form only calls it for rendered rows. JavaScript would extend the array with holes for a larger index.
- Unmounting on navigation (App.tsx:84-105). `renderContent` mounts only the current view's component, so leaving a view resets its local state: the chat transcript, the settings toggles, the profile's active tab and the recipe form. Each panel here is a separate object that keeps its state across `App.Session.HandleNavigate`.
