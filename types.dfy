/** The shared records of the application: recipes, views and countries. */
module Types {

  /** A value that may be absent (a TypeScript optional field, or `null`). */
  datatype Option<T> = None | Some(value: T)

  /** The outcome of a call that may throw: the value, or the error it threw. */
  datatype Result<T> = Ok(value: T) | Err(error: Failure)

  /** An error thrown by the AI provider or by parsing its reply; its content is opaque. */
  datatype Failure = Failure(message: string)

  /** The three difficulties the recipe type declares. */
  datatype Difficulty = Easy | Medium | Hard

  function DifficultyName(d: Difficulty): string
  {
    match d
    case Easy => "Easy"
    case Medium => "Medium"
    case Hard => "Hard"
  }

  predicate IsDifficultyName(s: string)
  {
    s == "Easy" || s == "Medium" || s == "Hard"
  }

  /**
   * A recipe. `difficulty` is kept as the string the record actually carries:
   * the declared type allows only the three names above, but records built from an
   * AI reply are cast without any check, so any string can end up here.
   * `isUserCreated` is an optional flag; only `Some(true)` is truthy.
   */
  datatype Recipe = Recipe(
    id: string,
    name: string,
    country: string,
    image: string,
    description: string,
    ingredients: seq<string>,
    instructions: seq<string>,
    prepTime: string,
    difficulty: string,
    isUserCreated: Option<bool>)

  predicate IsUserCreated(r: Recipe)
  {
    r.isUserCreated == Some(true)
  }

  /** The views of the single-page application. */
  datatype AppView = Welcome | Auth | Home | Search | Plus | Profile | Chat | Settings

  /** A catalog country: display name, short code and region. */
  datatype Country = Country(name: string, code: string, region: string)
}
