/**
  Shared data model of the quiz feed: the option/result wrappers used for
  absent values and thrown errors, the category and view-mode enumerations,
  and the quiz post record (types.ts).
 */
module Types {

  /** A value that may be absent (`null` / `undefined` in the source). */
  datatype Option<+T> = None | Some(value: T)

  /** Either a value or a thrown error. */
  datatype Result<+T, +E> = Ok(value: T) | Err(error: E)

  /** The feed categories; `All` exists in the enumeration but is never offered by the sidebar. */
  datatype Category =
    | LogicMath
    | ScienceTech
    | GeneralKnowledge
    | LanguageLit
    | PopCulture
    | TheArts
    | NatureAnimals
    | Psychology
    | All

  /** The string value each enumeration member carries. */
  function CategoryName(c: Category): string {
    match c
    case LogicMath => "Logic & Math"
    case ScienceTech => "Science & Tech"
    case GeneralKnowledge => "General Knowledge"
    case LanguageLit => "Language & Literature"
    case PopCulture => "Pop Culture"
    case TheArts => "The Arts"
    case NatureAnimals => "Nature & Animals"
    case Psychology => "Psychology"
    case All => "All"
  }

  /** The enumeration member carrying a given string value, if any. */
  function CategoryFromName(name: string): (r: Option<Category>)
    ensures r.Some? ==> CategoryName(r.value) == name
  {
    if name == "Logic & Math" then Some(LogicMath)
    else if name == "Science & Tech" then Some(ScienceTech)
    else if name == "General Knowledge" then Some(GeneralKnowledge)
    else if name == "Language & Literature" then Some(LanguageLit)
    else if name == "Pop Culture" then Some(PopCulture)
    else if name == "The Arts" then Some(TheArts)
    else if name == "Nature & Animals" then Some(NatureAnimals)
    else if name == "Psychology" then Some(Psychology)
    else if name == "All" then Some(All)
    else None
  }

  /** Every category's string value names that category and no other. */
  lemma CategoryNameRoundTrip(c: Category)
    ensures CategoryFromName(CategoryName(c)) == Some(c)
  {
    match c
    case LogicMath =>
    case ScienceTech =>
    case GeneralKnowledge =>
    case LanguageLit =>
    case PopCulture =>
    case TheArts =>
    case NatureAnimals =>
    case Psychology =>
    case All =>
  }

  lemma CategoryNameInjective(c: Category, d: Category)
    requires CategoryName(c) == CategoryName(d)
    ensures c == d
  {
    CategoryNameRoundTrip(c);
    CategoryNameRoundTrip(d);
  }

  datatype ViewMode = Today | Browse | Generate

  /** The five fields the generation model is asked to produce for one post. */
  datatype Content = Content(
    visualText: string,
    readMoreContent: string,
    answer: string,
    category: string,
    styleHint: string)

  /**
    A post as the feed holds it. `timestamp` is the extra field the service
    adds on top of the declared interface; it is absent on posts that never
    received one.
   */
  datatype QuizPost = QuizPost(
    id: string,
    content: Content,
    imageUrl: Option<string>,
    timestamp: Option<nat>)

  /** One element of the parsed model output, before the service assigns an id. */
  datatype RawPost = RawPost(
    id: Option<string>,
    content: Content,
    imageUrl: Option<string>,
    timestamp: Option<nat>)
}
