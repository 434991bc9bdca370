/**
 * The nodes of the joke graph. Each takes the current state (plus whatever
 * the outside world supplies to it: a line typed by the user, the language
 * model's reply, an embedding function, the result of an index query, a fresh
 * id and timestamp) and returns a partial update. Contracts are stated about
 * the state after the update has been merged.
 */
module Nodes {
  import opened Wrappers
  import opened Persistence
  import opened State

  /** Rejections tolerated before the session gives up. */
  const MaxRetries: int := 5

  /** The selectable categories, in the order the selection prompt numbers them. */
  const Categories: seq<string> := ["dad developer", "chuck norris developer", "general"]

  /** The selectable language codes, in the order the selection prompt numbers them. */
  const Languages: seq<string> := ["cs", "de", "en", "es", "eu", "fr", "gl", "hu", "it", "lt", "pl", "ru", "sv"]

  /**
   * How a step can fail: `int()` on a non-numeric line, a list index out of
   * range, or a state whose `jokes_choice` is not one of the six menu letters
   * when the framework rebuilds the state record.
   */
  datatype Failure = ValueError | IndexError | ValidationError

  /** Python's `xs[i]`: negative positions count from the end; anything else out of range raises. */
  function PyIndex<T>(xs: seq<T>, i: int): (r: Option<T>)
    ensures r.Some? <==> -|xs| <= i < |xs|
    ensures 0 <= i < |xs| ==> r == Some(xs[i])
    ensures -|xs| <= i < 0 ==> r == Some(xs[|xs| + i])
  {
    if 0 <= i < |xs| then Some(xs[i])
    else if -|xs| <= i < 0 then Some(xs[|xs| + i])
    else None
  }

  /** Every valid Python index denotes the element at its Euclidean residue modulo the length. */
  lemma PyIndexResidue<T>(xs: seq<T>, i: int)
    requires -|xs| <= i < |xs|
    ensures PyIndex(xs, i) == Some(xs[i % |xs|])
  {
    if i < 0 {
      assert i % |xs| == |xs| + i;
    }
  }

  /** show_menu: records the user's (trimmed, lower-cased) menu line as the choice. */
  function ShowMenu(s: JokeState, line: string): (u: Update)
    ensures var t := Merge(s, u);
            t.jokesChoice == line && OnlyChanges(s, t, {JokesChoice})
  {
    NoChange.(jokesChoice := Some(line))
  }

  /**
   * Picks the element of `options` at a selection typed by the user: `None`
   * stands for a line `int()` rejects.
   */
  function Select(options: seq<string>, selection: Option<int>): (r: Result<string, Failure>)
    ensures selection.None? ==> r == Failure(ValueError)
    ensures selection.Some? ==> (r.Success? <==> -|options| <= selection.value < |options|)
    ensures selection.Some? && r.Failure? ==> r.error == IndexError
    ensures r.Success? ==> r.value == options[selection.value % |options|]
  {
    match selection
    case None => Failure(ValueError)
    case Some(i) =>
      match PyIndex(options, i)
      case None => Failure(IndexError)
      case Some(v) =>
        PyIndexResidue(options, i);
        Success(v)
  }

  /** update_category: sets the category to the selected entry; selections -3..2 succeed. */
  function UpdateCategory(s: JokeState, selection: Option<int>): (r: Result<Update, Failure>)
    ensures selection.None? ==> r == Failure(ValueError)
    ensures selection.Some? ==> (r.Success? <==> -3 <= selection.value <= 2)
    ensures selection.Some? && r.Failure? ==> r.error == IndexError
    ensures r.Success? ==>
              var t := Merge(s, r.value);
              && t.category == Categories[selection.value % 3]
              && OnlyChanges(s, t, {Category})
  {
    match Select(Categories, selection)
    case Failure(e) => Failure(e)
    case Success(c) => Success(NoChange.(category := Some(c)))
  }

  /** update_language: sets the language to the selected code; selections -13..12 succeed. */
  function UpdateLanguage(s: JokeState, selection: Option<int>): (r: Result<Update, Failure>)
    ensures selection.None? ==> r == Failure(ValueError)
    ensures selection.Some? ==> (r.Success? <==> -13 <= selection.value <= 12)
    ensures selection.Some? && r.Failure? ==> r.error == IndexError
    ensures r.Success? ==>
              var t := Merge(s, r.value);
              && t.language == Languages[selection.value % 13]
              && OnlyChanges(s, t, {Language})
  {
    match Select(Languages, selection)
    case Failure(e) => Failure(e)
    case Success(c) => Success(NoChange.(language := Some(c)))
  }

  /**
   * reset_jokes: returns an empty list for `jokes`. Because `jokes` merges by
   * concatenation, the merged state is the state it started from: the history
   * is not cleared.
   */
  function ResetJokes(s: JokeState): (u: Update)
    ensures Returns(u, Jokes)
    ensures forall f :: f != Jokes ==> !Returns(u, f)
    ensures Merge(s, u) == s
  {
    NoChange.(jokes := Some([]))
  }

  /** The language model's reply: its text, and the string the reply object prints as. */
  datatype LlmResponse = LlmResponse(content: string, rendered: string)

  /**
   * writer: stores the reply text as the pending joke and the embedding of the
   * reply's printed form as the only pending embedding.
   */
  function Writer(s: JokeState, response: LlmResponse, embed: string -> Vector): (u: Update)
    ensures var t := Merge(s, u);
            && t.latestJokes == response.content
            && t.jokeEmbeddings == [embed(response.rendered)]
            && OnlyChanges(s, t, {LatestJokes, JokeEmbeddings})
  {
    NoChange.(latestJokes := Some(response.content), jokeEmbeddings := Some([embed(response.rendered)]))
  }

  /** An answer the critic prompt reads as approval. */
  predicate IsYes(decision: string) {
    decision == "yes" || decision == "y"
  }

  /**
   * The human critic: with the (trimmed, lower-cased) answer `decision` and the
   * result `matches` of querying the index with the pending joke's embedding.
   * A "yes" that is not a duplicate approves, keeps the retry count and records
   * the new embedding; anything else ("no", an unrecognised answer, or a
   * duplicate) rejects and counts one more retry.
   */
  function HumanCritic(s: JokeState, decision: string, embed: string -> Vector, matches: seq<Match>): (u: Update)
    ensures var t := Merge(s, u);
            && OnlyChanges(s, t, {ApprovedStatus, RetryCount, JokeEmbeddings})
            && (t.approvedStatus <==> IsYes(decision) && !IsDuplicateJoke(matches, DefaultThreshold).Truthy())
            && (t.approvedStatus ==> t.retryCount == s.retryCount && t.jokeEmbeddings == [embed(s.latestJokes)])
            && (!t.approvedStatus ==> t.retryCount == s.retryCount + 1 && t.jokeEmbeddings == s.jokeEmbeddings)
  {
    if IsYes(decision) && !IsDuplicateJoke(matches, DefaultThreshold).Truthy() then
      NoChange.(approvedStatus := Some(true), retryCount := Some(s.retryCount),
                latestJokes := Some(s.latestJokes), jokeEmbeddings := Some([embed(s.latestJokes)]))
    else
      NoChange.(approvedStatus := Some(false), retryCount := Some(s.retryCount + 1),
                latestJokes := Some(s.latestJokes))
  }

  /** The vector a commit persists: the last pending embedding, or the zero vector when there is none. */
  function CommitVector(s: JokeState): (v: Vector)
    ensures |s.jokeEmbeddings| > 0 ==> v == s.jokeEmbeddings[|s.jokeEmbeddings| - 1]
    ensures |s.jokeEmbeddings| == 0 ==> |v| == Dimension && forall i :: 0 <= i < |v| ==> v[i] == 0.0
  {
    if |s.jokeEmbeddings| > 0 then s.jokeEmbeddings[|s.jokeEmbeddings| - 1] else ZeroVector()
  }

  /** Whether a commit writes to the store: the joke is approved and the re-check finds no duplicate. */
  predicate Persists(s: JokeState, matches: seq<Match>) {
    s.approvedStatus && !IsDuplicateJoke(matches, DefaultThreshold).Truthy()
  }

  /**
   * show_final_joke: appends the pending joke to the history and clears the
   * approval, the retry count and the pending text, whatever the outcome. The
   * store gains one catalog entry and one index record (under `jokeId`,
   * stamped `timestamp`) only when the joke was approved and the re-check
   * (`matches`, the index query for the commit vector) is not a duplicate.
   */
  function ShowFinalJoke(s: JokeState, store: Store, matches: seq<Match>, jokeId: string, timestamp: string): (r: (Update, Store))
    ensures var t := Merge(s, r.0);
            && t.jokes == s.jokes + [Joke(s.latestJokes, s.category)]
            && t.retryCount == 0 && !t.approvedStatus && t.latestJokes == ""
            && OnlyChanges(s, t, {Jokes, RetryCount, ApprovedStatus, LatestJokes})
    ensures !Persists(s, matches) ==> r.1 == store
    ensures Persists(s, matches) ==>
              && CatalogOrEmpty(r.1.catalog) == CatalogOrEmpty(store.catalog) + [CatalogEntry(jokeId, s.latestJokes, s.category, timestamp)]
              && r.1.index == store.index[jokeId := IndexRecord(CommitVector(s), Metadata(s.latestJokes, s.category, timestamp))]
  {
    var joke := Joke(s.latestJokes, s.category);
    var store' := if Persists(s, matches) then SaveJoke(store, joke.text, s.category, CommitVector(s), jokeId, timestamp) else store;
    (NoChange.(jokes := Some([joke]), retryCount := Some(0), approvedStatus := Some(false), latestJokes := Some("")), store')
  }

  /** What browsing shows: a notice that nothing is saved, or the listed entries. */
  datatype BrowseView = NothingSaved | Listing(entries: seq<CatalogEntry>)

  /** Python's `xs[-n:]` for n > 0: the last n elements, or all of them when there are fewer. */
  function LastN<T>(xs: seq<T>, n: nat): (r: seq<T>)
    requires n > 0
    ensures |r| == if |xs| < n then |xs| else n
    ensures xs == xs[..|xs| - |r|] + r
  {
    var r := if |xs| < n then xs else xs[|xs| - n..];
    assert xs == xs[..|xs| - |r|] + r;
    r
  }

  /**
   * browse_jokes: reads the catalog (`None` when the file is absent) and shows
   * its five most recent entries in catalog order; the state is not changed.
   */
  function BrowseJokes(s: JokeState, catalog: Option<seq<CatalogEntry>>): (r: (Update, BrowseView))
    ensures r.0 == NoChange && Merge(s, r.0) == s
    ensures r.1 == NothingSaved <==> |CatalogOrEmpty(catalog)| == 0
    ensures r.1.Listing? ==>
              var c := CatalogOrEmpty(catalog);
              && |r.1.entries| == (if |c| < 5 then |c| else 5)
              && c == c[..|c| - |r.1.entries|] + r.1.entries
  {
    match catalog
    case None => (NoChange, NothingSaved)
    case Some(entries) =>
      if |entries| == 0 then (NoChange, NothingSaved)
      else (NoChange, Listing(LastN(entries, 5)))
  }

  /** exit_bot: raises the quit flag and nothing else. */
  function ExitBot(s: JokeState): (u: Update)
    ensures var t := Merge(s, u);
            t.quit && OnlyChanges(s, t, {Quit})
  {
    NoChange.(quit := Some(true))
  }
}
