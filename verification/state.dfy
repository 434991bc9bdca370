/**
 * The workflow's state record and the way a node's partial update is merged
 * into it. Every key a node returns overwrites the field of that name, except
 * `jokes`, whose reducer is list concatenation: the returned list is appended
 * to the current one.
 */
module State {
  import opened Wrappers
  import opened Persistence

  /** A joke kept in the session history. */
  datatype Joke = Joke(text: string, category: string)

  /** The session state; every field is always present. */
  datatype JokeState = JokeState(
    jokes: seq<Joke>,
    jokesChoice: string,
    jokeEmbeddings: seq<Vector>,
    category: string,
    language: string,
    latestJokes: string,
    approvedStatus: bool,
    retryCount: int,
    quit: bool)

  /** The state the graph is invoked with: every field at its declared default. */
  const Initial: JokeState := JokeState([], "n", [], "general", "en", "", false, 0, false)

  /** The fields of the state, used to say which of them an operation may touch. */
  datatype Field =
    | Jokes | JokesChoice | JokeEmbeddings | Category | Language
    | LatestJokes | ApprovedStatus | RetryCount | Quit

  /** `s` and `t` hold the same value in field `f`. */
  predicate Agree(s: JokeState, t: JokeState, f: Field) {
    match f
    case Jokes => s.jokes == t.jokes
    case JokesChoice => s.jokesChoice == t.jokesChoice
    case JokeEmbeddings => s.jokeEmbeddings == t.jokeEmbeddings
    case Category => s.category == t.category
    case Language => s.language == t.language
    case LatestJokes => s.latestJokes == t.latestJokes
    case ApprovedStatus => s.approvedStatus == t.approvedStatus
    case RetryCount => s.retryCount == t.retryCount
    case Quit => s.quit == t.quit
  }

  /** `t` differs from `s` at most in the fields `fs`. */
  predicate OnlyChanges(s: JokeState, t: JokeState, fs: set<Field>) {
    forall f :: f !in fs ==> Agree(s, t, f)
  }

  /** A partial update as a node returns it: `None` for a key the node does not return. */
  datatype Update = Update(
    jokes: Option<seq<Joke>>,
    jokesChoice: Option<string>,
    jokeEmbeddings: Option<seq<Vector>>,
    category: Option<string>,
    language: Option<string>,
    latestJokes: Option<string>,
    approvedStatus: Option<bool>,
    retryCount: Option<int>,
    quit: Option<bool>)

  /** The empty update `{}`. */
  const NoChange: Update := Update(None, None, None, None, None, None, None, None, None)

  /** Whether update `u` returns the key of field `f`. */
  predicate Returns(u: Update, f: Field) {
    match f
    case Jokes => u.jokes.Some?
    case JokesChoice => u.jokesChoice.Some?
    case JokeEmbeddings => u.jokeEmbeddings.Some?
    case Category => u.category.Some?
    case Language => u.language.Some?
    case LatestJokes => u.latestJokes.Some?
    case ApprovedStatus => u.approvedStatus.Some?
    case RetryCount => u.retryCount.Some?
    case Quit => u.quit.Some?
  }

  /** The value `o` holds, or `default` when it holds nothing. */
  function Or<T>(o: Option<T>, default: T): T {
    match o
    case None => default
    case Some(v) => v
  }

  /**
   * The state after merging update `u` into `s`: fields whose key `u` does
   * not return keep their value, `jokes` only ever grows by the returned list,
   * and every other returned key replaces its field.
   */
  function Merge(s: JokeState, u: Update): (t: JokeState)
    ensures forall f :: !Returns(u, f) ==> Agree(s, t, f)
    ensures t.jokes == s.jokes + Or(u.jokes, [])
    ensures u.jokesChoice.Some? ==> t.jokesChoice == u.jokesChoice.value
    ensures u.jokeEmbeddings.Some? ==> t.jokeEmbeddings == u.jokeEmbeddings.value
    ensures u.category.Some? ==> t.category == u.category.value
    ensures u.language.Some? ==> t.language == u.language.value
    ensures u.latestJokes.Some? ==> t.latestJokes == u.latestJokes.value
    ensures u.approvedStatus.Some? ==> t.approvedStatus == u.approvedStatus.value
    ensures u.retryCount.Some? ==> t.retryCount == u.retryCount.value
    ensures u.quit.Some? ==> t.quit == u.quit.value
  {
    JokeState(
      s.jokes + Or(u.jokes, []),
      Or(u.jokesChoice, s.jokesChoice),
      Or(u.jokeEmbeddings, s.jokeEmbeddings),
      Or(u.category, s.category),
      Or(u.language, s.language),
      Or(u.latestJokes, s.latestJokes),
      Or(u.approvedStatus, s.approvedStatus),
      Or(u.retryCount, s.retryCount),
      Or(u.quit, s.quit))
  }

  /** Merging the empty update leaves the state as it was. */
  lemma MergeNoChange(s: JokeState)
    ensures Merge(s, NoChange) == s
  {
  }

  /** The session history is append-only: every merge keeps the old history as a prefix. */
  lemma MergeKeepsHistory(s: JokeState, u: Update)
    ensures s.jokes <= Merge(s, u).jokes
    ensures |Merge(s, u).jokes| == |s.jokes| + |Or(u.jokes, [])|
  {
  }

  /** The update that has the effect of `u` followed by `v`. */
  function Then(u: Update, v: Update): Update {
    Update(
      if u.jokes.None? && v.jokes.None? then None else Some(Or(u.jokes, []) + Or(v.jokes, [])),
      if v.jokesChoice.Some? then v.jokesChoice else u.jokesChoice,
      if v.jokeEmbeddings.Some? then v.jokeEmbeddings else u.jokeEmbeddings,
      if v.category.Some? then v.category else u.category,
      if v.language.Some? then v.language else u.language,
      if v.latestJokes.Some? then v.latestJokes else u.latestJokes,
      if v.approvedStatus.Some? then v.approvedStatus else u.approvedStatus,
      if v.retryCount.Some? then v.retryCount else u.retryCount,
      if v.quit.Some? then v.quit else u.quit)
  }

  /** Two merges in a row are one merge of the combined update: later keys win, histories concatenate. */
  lemma MergeThen(s: JokeState, u: Update, v: Update)
    ensures Merge(Merge(s, u), v) == Merge(s, Then(u, v))
  {
    assert (s.jokes + Or(u.jokes, [])) + Or(v.jokes, []) == s.jokes + (Or(u.jokes, []) + Or(v.jokes, []));
  }
}
