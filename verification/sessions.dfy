/**
 * Running a session to completion on a given list of inputs, and a concrete
 * session: a user who keeps asking for a joke and keeps rejecting it.
 */
module Sessions {
  import opened Wrappers
  import opened Persistence
  import opened State
  import Nodes
  import opened Graph

  /**
   * Consumes `inputs` one step at a time, stopping at END or at the first
   * error. Over a whole run the session history and the catalog only grow,
   * and a run that starts at END stays there.
   */
  function Run(c: Config, inputs: seq<Oracle>, embed: string -> Vector): (r: Result<Config, Nodes.Failure>)
    decreases |inputs|
    ensures c.node == End || |inputs| == 0 ==> r == Success(c)
    ensures r.Failure? ==> |inputs| > 0 && c.node != End
    ensures r.Success? ==> c.state.jokes <= r.value.state.jokes
    ensures r.Success? ==> CatalogOrEmpty(c.store.catalog) <= CatalogOrEmpty(r.value.store.catalog)
  {
    if |inputs| == 0 || c.node == End then Success(c)
    else
      match Step(c, inputs[0], embed)
      case Failure(e) => Failure(e)
      case Success(c') => Run(c', inputs[1..], embed)
  }

  /** Running on `a + b` is running on `a` and then on `b` from where `a` left off. */
  lemma {:induction false} RunAppend(c: Config, a: seq<Oracle>, b: seq<Oracle>, embed: string -> Vector)
    decreases |a|
    ensures Run(c, a + b, embed) ==
              match Run(c, a, embed)
              case Failure(e) => Failure(e)
              case Success(c') => Run(c', b, embed)
  {
    if |a| == 0 {
      assert a + b == b;
    } else if c.node == End {
      if |b| > 0 {
        assert |a + b| > 0;
      }
    } else {
      assert (a + b)[0] == a[0];
      assert (a + b)[1..] == a[1..] + b;
      match Step(c, a[0], embed)
      case Failure(e) =>
      case Success(c') => RunAppend(c', a[1..], b, embed);
    }
  }

  /** `n` copies of the same input. */
  function Repeat(o: Oracle, n: nat): (r: seq<Oracle>)
    ensures |r| == n && forall i :: 0 <= i < n ==> r[i] == o
  {
    seq(n, _ => o)
  }

  /** The user asks for a joke ("n") and turns it down ("no"). */
  predicate AsksAndRejects(o: Oracle) {
    o.menuLine == "n" && o.decision == "no"
  }

  /** A step that succeeds hands the remaining inputs to the configuration it reaches. */
  lemma RunStep(c: Config, o: Oracle, rest: seq<Oracle>, embed: string -> Vector)
    requires c.node != End && Step(c, o, embed).Success?
    ensures Run(c, [o] + rest, embed) == Run(Step(c, o, embed).value, rest, embed)
  {
    assert ([o] + rest)[0] == o && ([o] + rest)[1..] == rest;
  }

  /** At the menu, "n" leads to the writer, recording the choice. */
  lemma AskStep(c: Config, o: Oracle, embed: string -> Vector)
    requires c.node == ShowMenu && o.menuLine == "n"
    ensures Step(c, o, embed) == Success(Config(Writer, c.state.(jokesChoice := "n"), c.store))
  {
    assert c.state.jokes + [] == c.state.jokes;
  }

  /** The writer stores the reply and its embedding, then hands over to the critic. */
  lemma WriteStep(c: Config, o: Oracle, embed: string -> Vector)
    requires c.node == Writer && c.state.jokesChoice in MenuTable
    ensures Step(c, o, embed) ==
              Success(Config(Critic, c.state.(latestJokes := o.response.content,
                                               jokeEmbeddings := [embed(o.response.rendered)]), c.store))
  {
    assert c.state.jokes + [] == c.state.jokes;
  }

  /** A "no" from the critic counts one retry and routes on the new count. */
  lemma RejectStep(c: Config, o: Oracle, embed: string -> Vector)
    requires c.node == Critic && o.decision == "no" && c.state.jokesChoice in MenuTable
    ensures Step(c, o, embed) ==
              Success(Config(if c.state.retryCount + 1 < Nodes.MaxRetries then ShowMenu else ExitBot,
                             c.state.(approvedStatus := false, retryCount := c.state.retryCount + 1), c.store))
  {
    assert c.state.jokes + [] == c.state.jokes;
  }

  /** exit_bot raises the quit flag and leads to END. */
  lemma ExitStep(c: Config, o: Oracle, embed: string -> Vector)
    requires c.node == ExitBot && c.state.jokesChoice in MenuTable
    ensures Step(c, o, embed) == Success(Config(End, c.state.(quit := true), c.store))
  {
    assert c.state.jokes + [] == c.state.jokes;
  }

  /**
   * One round at the menu — ask, write, reject — takes three steps, counts
   * one more retry and returns to the menu, or goes to exit_bot when that
   * retry is the fifth.
   */
  lemma RejectionRound(c: Config, o: Oracle, embed: string -> Vector)
    requires c.node == ShowMenu && !c.state.approvedStatus
    requires AsksAndRejects(o)
    ensures Run(c, Repeat(o, 3), embed).Success?
    ensures var c' := Run(c, Repeat(o, 3), embed).value;
            && c'.node == (if c.state.retryCount + 1 < Nodes.MaxRetries then ShowMenu else ExitBot)
            && c'.state == c.state.(jokesChoice := "n", latestJokes := o.response.content,
                                    jokeEmbeddings := [embed(o.response.rendered)],
                                    retryCount := c.state.retryCount + 1)
            && c'.store == c.store
  {
    AskStep(c, o, embed);
    var c1 := Config(Writer, c.state.(jokesChoice := "n"), c.store);
    WriteStep(c1, o, embed);
    var c2 := Config(Critic, c1.state.(latestJokes := o.response.content,
                                        jokeEmbeddings := [embed(o.response.rendered)]), c.store);
    RejectStep(c2, o, embed);
    var c3 := Config(if c.state.retryCount + 1 < Nodes.MaxRetries then ShowMenu else ExitBot,
                     c2.state.(approvedStatus := false, retryCount := c.state.retryCount + 1), c.store);
    assert Repeat(o, 3) == [o] + ([o] + ([o] + []));
    RunStep(c, o, [o] + ([o] + []), embed);
    RunStep(c1, o, [o] + [], embed);
    RunStep(c2, o, [], embed);
  }

  /**
   * Starting from the menu with `retries` rejections counted, `k` more rounds
   * of asking and rejecting (3k steps) add `k` retries; the session stays at
   * the menu until the count reaches five and is at exit_bot once it does.
   */
  lemma {:induction false} RejectionRounds(c: Config, o: Oracle, embed: string -> Vector, k: nat)
    requires c.node == ShowMenu && !c.state.approvedStatus
    requires 0 <= c.state.retryCount < Nodes.MaxRetries && c.state.retryCount + k <= Nodes.MaxRetries
    requires AsksAndRejects(o)
    decreases k
    ensures Run(c, Repeat(o, 3 * k), embed).Success?
    ensures var c' := Run(c, Repeat(o, 3 * k), embed).value;
            && c'.node == (if c.state.retryCount + k < Nodes.MaxRetries then ShowMenu else ExitBot)
            && c'.state.retryCount == c.state.retryCount + k
            && c'.state.jokesChoice == (if k == 0 then c.state.jokesChoice else "n")
            && !c'.state.approvedStatus
            && c'.state.jokes == c.state.jokes
            && c'.store == c.store
  {
    if k == 0 {
      assert Repeat(o, 0) == [];
    } else {
      RejectionRound(c, o, embed);
      var c' := Run(c, Repeat(o, 3), embed).value;
      var rest := Repeat(o, 3 * (k - 1));
      assert Repeat(o, 3 * k) == Repeat(o, 3) + rest;
      RunAppend(c, Repeat(o, 3), rest, embed);
      assert Run(c, Repeat(o, 3 * k), embed) == Run(c', rest, embed);
      if k == 1 {
        assert rest == [];
      } else {
        RejectionRounds(c', o, embed, k - 1);
      }
    }
  }

  /**
   * A fresh session in which the user asks for a joke and rejects it five
   * times in a row ends after sixteen steps at END, with the quit flag raised,
   * five retries counted, no joke kept and nothing saved.
   */
  lemma FiveRejectionsEndSession(store: Store, o: Oracle, embed: string -> Vector)
    requires AsksAndRejects(o)
    ensures Run(Start(store), Repeat(o, 16), embed).Success?
    ensures var c := Run(Start(store), Repeat(o, 16), embed).value;
            && c.node == End
            && c.state.quit
            && c.state.retryCount == Nodes.MaxRetries
            && c.state.jokes == []
            && c.store == store
  {
    RejectionRounds(Start(store), o, embed, 5);
    var c5 := Run(Start(store), Repeat(o, 15), embed).value;
    assert Repeat(o, 16) == Repeat(o, 15) + [o];
    RunAppend(Start(store), Repeat(o, 15), [o], embed);
    ExitStep(c5, o, embed);
    RunStep(c5, o, [], embed);
  }
}
