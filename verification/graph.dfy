/**
 * The joke graph: its nodes, the two routing functions, the edge table, and
 * one step of execution (run the current node, merge its update, follow the
 * outgoing edge chosen on the merged state).
 */
module Graph {
  import opened Wrappers
  import opened Persistence
  import opened State
  import Nodes

  /** The graph's nodes, plus the terminal END. */
  datatype Node =
    | ShowMenu | Writer | Critic | ShowFinalJoke
    | UpdateCategory | UpdateLanguage | ResetJokes | BrowseJokes | ExitBot
    | End

  /** The menu letters and the node each one leads to. */
  const MenuTable: map<string, Node> :=
    map["n" := Writer, "c" := UpdateCategory, "l" := UpdateLanguage,
        "r" := ResetJokes, "b" := BrowseJokes, "q" := ExitBot]

  /** route_choice: the node the menu choice selects; anything unrecognised quits. */
  function RouteChoice(choice: string): (n: Node)
    ensures n == Writer <==> choice == "n"
    ensures n == UpdateCategory <==> choice == "c"
    ensures n == UpdateLanguage <==> choice == "l"
    ensures n == ResetJokes <==> choice == "r"
    ensures n == BrowseJokes <==> choice == "b"
    ensures n == ExitBot <==> choice !in {"n", "c", "l", "r", "b"}
    ensures n in ConditionalTargets(ShowMenu)
  {
    if choice == "n" then Writer
    else if choice == "c" then UpdateCategory
    else if choice == "l" then UpdateLanguage
    else if choice == "r" then ResetJokes
    else if choice == "b" then BrowseJokes
    else if choice == "q" then ExitBot
    else ExitBot
  }

  /** Routing agrees with the menu table, and falls back to quitting off the table. */
  lemma RouteChoiceFollowsTable(choice: string)
    ensures choice in MenuTable ==> RouteChoice(choice) == MenuTable[choice]
    ensures choice !in MenuTable ==> RouteChoice(choice) == MenuTable["q"]
  {
  }

  /**
   * writer_critic_loop: approval leads to the final joke whatever the retry
   * count; otherwise the session ends once `MaxRetries` rejections are
   * counted and goes back to the menu before that. It never picks the writer.
   */
  function WriterCriticLoop(s: JokeState): (n: Node)
    ensures n == ShowFinalJoke <==> s.approvedStatus
    ensures n == ExitBot <==> !s.approvedStatus && s.retryCount >= Nodes.MaxRetries
    ensures n == ShowMenu <==> !s.approvedStatus && s.retryCount < Nodes.MaxRetries
    ensures n != Writer && n in ConditionalTargets(Critic)
  {
    if s.approvedStatus then ShowFinalJoke
    else if s.retryCount >= Nodes.MaxRetries then ExitBot
    else ShowMenu
  }

  /** The targets the conditional edges of a node are mapped to. */
  function ConditionalTargets(n: Node): set<Node> {
    match n
    case ShowMenu => {Writer, UpdateCategory, UpdateLanguage, ResetJokes, BrowseJokes, ExitBot}
    case Critic => {Writer, ShowFinalJoke, ShowMenu, ExitBot}
    case _ => {}
  }

  /** The unconditional edge leaving a node, if it has one. */
  function FixedEdge(n: Node): Option<Node> {
    match n
    case Writer => Some(Critic)
    case ShowFinalJoke => Some(ShowMenu)
    case UpdateCategory => Some(ShowMenu)
    case UpdateLanguage => Some(ShowMenu)
    case ResetJokes => Some(ShowMenu)
    case BrowseJokes => Some(ShowMenu)
    case ExitBot => Some(End)
    case _ => None
  }

  /** The node that follows `n` when the merged state is `s`. */
  function Successor(n: Node, s: JokeState): (m: Node)
    requires n != End
    ensures n == ShowMenu || n == Critic ==> m in ConditionalTargets(n)
    ensures n != ShowMenu && n != Critic ==> FixedEdge(n) == Some(m)
  {
    match n
    case ShowMenu => RouteChoice(s.jokesChoice)
    case Critic => WriterCriticLoop(s)
    case Writer => FixedEdge(n).value
    case ShowFinalJoke => FixedEdge(n).value
    case UpdateCategory => FixedEdge(n).value
    case UpdateLanguage => FixedEdge(n).value
    case ResetJokes => FixedEdge(n).value
    case BrowseJokes => FixedEdge(n).value
    case ExitBot => FixedEdge(n).value
  }

  /** A running session: the node about to run, the state, and the durable store. */
  datatype Config = Config(node: Node, state: JokeState, store: Store)

  /** The session as it starts: at the menu with the default state. */
  function Start(store: Store): Config {
    Config(ShowMenu, Initial, store)
  }

  /**
   * What the outside world supplies during one step; each node reads only its
   * part. `menuLine` and `decision` are the user's lines after trimming and
   * lower-casing, `selection` the result of `int()` on the selection line
   * (`None` when it raises), `response` the language model's reply, `matches`
   * the result of the top-1 index query the step makes, and `jokeId` and
   * `timestamp` the fresh id and time a save would use.
   */
  datatype Oracle = Oracle(
    menuLine: string,
    selection: Option<int>,
    response: Nodes.LlmResponse,
    decision: string,
    matches: seq<Match>,
    jokeId: string,
    timestamp: string)

  /** Runs node `c.node`: its partial update and the store afterwards, or the error it raises. */
  function Execute(c: Config, o: Oracle, embed: string -> Vector): (r: Result<(Update, Store), Nodes.Failure>)
    requires c.node != End
    ensures r.Failure? ==> c.node == UpdateCategory || c.node == UpdateLanguage
    ensures r.Success? && c.node != ShowFinalJoke ==> r.value.1 == c.store
  {
    var s := c.state;
    match c.node
    case ShowMenu => Success((Nodes.ShowMenu(s, o.menuLine), c.store))
    case Writer => Success((Nodes.Writer(s, o.response, embed), c.store))
    case Critic => Success((Nodes.HumanCritic(s, o.decision, embed, o.matches), c.store))
    case ShowFinalJoke => Success(Nodes.ShowFinalJoke(s, c.store, o.matches, o.jokeId, o.timestamp))
    case UpdateCategory =>
      (match Nodes.UpdateCategory(s, o.selection)
       case Failure(e) => Failure(e)
       case Success(u) => Success((u, c.store)))
    case UpdateLanguage =>
      (match Nodes.UpdateLanguage(s, o.selection)
       case Failure(e) => Failure(e)
       case Success(u) => Success((u, c.store)))
    case ResetJokes => Success((Nodes.ResetJokes(s), c.store))
    case BrowseJokes => Success((Nodes.BrowseJokes(s, c.store.catalog).0, c.store))
    case ExitBot => Success((Nodes.ExitBot(s), c.store))
  }

  /** The menu choice the state holds once the current node has run. */
  function ChoiceAfter(c: Config, o: Oracle): string {
    if c.node == ShowMenu then o.menuLine else c.state.jokesChoice
  }

  /**
   * One step of the session: run the current node, merge its update into the
   * state, rebuild the state record (which rejects a `jokes_choice` outside
   * the six menu letters), and move along the edge chosen on the merged
   * state. A step fails exactly when a selection node raises or the choice
   * is rejected; only a commit can write to the store, the catalog only ever
   * grows, and the history never shrinks.
   */
  function Step(c: Config, o: Oracle, embed: string -> Vector): (r: Result<Config, Nodes.Failure>)
    requires c.node != End
    ensures r.Failure? <==>
              || (c.node == UpdateCategory && Nodes.UpdateCategory(c.state, o.selection).Failure?)
              || (c.node == UpdateLanguage && Nodes.UpdateLanguage(c.state, o.selection).Failure?)
              || ChoiceAfter(c, o) !in MenuTable
    ensures c.node == ShowMenu && o.menuLine !in MenuTable ==> r == Failure(Nodes.ValidationError)
    ensures r.Success? ==> r.value.node == Successor(c.node, r.value.state)
    ensures r.Success? && c.node != ShowFinalJoke ==> r.value.store == c.store
    ensures r.Success? ==> CatalogOrEmpty(c.store.catalog) <= CatalogOrEmpty(r.value.store.catalog)
    ensures r.Success? ==> c.state.jokes <= r.value.state.jokes
  {
    match Execute(c, o, embed)
    case Failure(e) => Failure(e)
    case Success(res) =>
      var s' := Merge(c.state, res.0);
      if s'.jokesChoice !in MenuTable then Failure(Nodes.ValidationError)
      else Success(Config(Successor(c.node, s'), s', res.1))
  }
}
