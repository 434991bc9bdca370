/**
 * Whole sessions: sequences of configurations linked by steps. Proves that
 * the retry count stays within 0..MaxRetries and counts exactly the critic's
 * rejections since the last commit, that approval holds only on the way to
 * the final joke, and that the rejection reaching the bound ends the session.
 */
module Execution {
  import opened Wrappers
  import opened Persistence
  import opened State
  import Nodes
  import opened Graph

  /** `t` lists the configurations visited when the steps consume `inputs` in order. */
  predicate IsExecution(t: seq<Config>, inputs: seq<Oracle>, embed: string -> Vector) {
    && |t| == |inputs| + 1
    && forall i :: 0 <= i < |inputs| ==> t[i].node != End && Step(t[i], inputs[i], embed) == Success(t[i + 1])
  }

  /** The last configuration of a non-empty execution. */
  function Last(t: seq<Config>): Config
    requires |t| > 0
  {
    t[|t| - 1]
  }

  /** A prefix of an execution is an execution. */
  lemma ExecutionPrefix(t: seq<Config>, inputs: seq<Oracle>, embed: string -> Vector, k: nat)
    requires IsExecution(t, inputs, embed)
    requires 1 <= k <= |t|
    ensures IsExecution(t[..k], inputs[..k - 1], embed)
  {
    forall i | 0 <= i < k - 1
      ensures t[..k][i].node != End && Step(t[..k][i], inputs[..k - 1][i], embed) == Success(t[..k][i + 1])
    {
      assert t[..k][i] == t[i] && t[..k][i + 1] == t[i + 1] && inputs[..k - 1][i] == inputs[i];
    }
  }

  /**
   * What holds of every configuration a session reaches: the retry count is
   * below the bound except on the way out, approval holds exactly when the
   * final joke is about to be shown, the quit flag is up exactly at END, and
   * the menu choice is one of the six letters.
   */
  predicate Inv(c: Config) {
    && c.state.jokesChoice in MenuTable
    && 0 <= c.state.retryCount
    && (c.node == ExitBot || c.node == End ==> c.state.retryCount <= Nodes.MaxRetries)
    && (c.node != ExitBot && c.node != End ==> c.state.retryCount < Nodes.MaxRetries)
    && (c.state.approvedStatus <==> c.node == ShowFinalJoke)
    && (c.state.quit <==> c.node == End)
  }

  /** The starting configuration satisfies the invariant. */
  lemma StartInv(store: Store)
    ensures Inv(Start(store))
  {
  }

  /** One step keeps the invariant. */
  lemma StepKeepsInv(c: Config, o: Oracle, embed: string -> Vector)
    requires Inv(c) && c.node != End
    requires Step(c, o, embed).Success?
    ensures Inv(Step(c, o, embed).value)
  {
  }

  /** Every configuration of an execution that starts in the invariant satisfies it. */
  lemma {:induction false} ExecutionKeepsInv(t: seq<Config>, inputs: seq<Oracle>, embed: string -> Vector)
    requires IsExecution(t, inputs, embed)
    requires Inv(t[0])
    ensures forall i :: 0 <= i < |t| ==> Inv(t[i])
  {
    if |inputs| > 0 {
      var k := |t| - 1;
      ExecutionPrefix(t, inputs, embed, k);
      ExecutionKeepsInv(t[..k], inputs[..k - 1], embed);
      assert forall i :: 0 <= i < k ==> t[..k][i] == t[i];
      assert Step(t[k - 1], inputs[k - 1], embed) == Success(t[k]);
      StepKeepsInv(t[k - 1], inputs[k - 1], embed);
    }
  }

  /** Only the critic and the commit change the retry count: a rejection adds one, a commit resets it. */
  lemma StepRetryCount(c: Config, o: Oracle, embed: string -> Vector)
    requires c.node != End
    requires Step(c, o, embed).Success?
    ensures var c' := Step(c, o, embed).value;
            c'.state.retryCount ==
              if c.node == ShowFinalJoke then 0
              else if c.node == Critic && !c'.state.approvedStatus then c.state.retryCount + 1
              else c.state.retryCount
  {
  }

  /**
   * The number of steps of `t` taken from the critic that ended unapproved,
   * counted since the last step taken from the final-joke node.
   */
  function RejectionsSinceCommit(t: seq<Config>): nat
    requires |t| > 0
    decreases |t|
  {
    if |t| == 1 then 0
    else
      var before := t[|t| - 2];
      if before.node == ShowFinalJoke then 0
      else if before.node == Critic && !Last(t).state.approvedStatus then RejectionsSinceCommit(t[..|t| - 1]) + 1
      else RejectionsSinceCommit(t[..|t| - 1])
  }

  /** In an execution that starts with no retries counted, the retry count is the number of rejections since the last commit. */
  lemma {:induction false} RetryCountsRejections(t: seq<Config>, inputs: seq<Oracle>, embed: string -> Vector)
    requires IsExecution(t, inputs, embed)
    requires t[0].state.retryCount == 0
    ensures Last(t).state.retryCount == RejectionsSinceCommit(t)
  {
    if |inputs| > 0 {
      var k := |t| - 1;
      ExecutionPrefix(t, inputs, embed, k);
      assert t[..k][0] == t[0];
      RetryCountsRejections(t[..k], inputs[..k - 1], embed);
      assert Last(t[..k]) == t[k - 1];
      assert t[k - 1].node != End && Step(t[k - 1], inputs[k - 1], embed) == Success(t[k]);
      StepRetryCount(t[k - 1], inputs[k - 1], embed);
      assert t[..|t| - 1] == t[..k];
    }
  }

  /**
   * Every session started from the default state keeps its retry count within
   * 0..MaxRetries, and that count is the number of rejections since the last
   * commit, at every configuration it reaches.
   */
  lemma SessionRetryBound(t: seq<Config>, inputs: seq<Oracle>, embed: string -> Vector, store: Store, i: nat)
    requires IsExecution(t, inputs, embed)
    requires t[0] == Start(store)
    requires i < |t|
    ensures 0 <= t[i].state.retryCount <= Nodes.MaxRetries
    ensures t[i].state.retryCount == RejectionsSinceCommit(t[..i + 1])
  {
    StartInv(store);
    ExecutionKeepsInv(t, inputs, embed);
    ExecutionPrefix(t, inputs, embed, i + 1);
    assert t[..i + 1][0] == t[0];
    RetryCountsRejections(t[..i + 1], inputs[..i], embed);
    assert Last(t[..i + 1]) == t[i];
  }

  /**
   * After a rejection the session goes back to the menu while fewer than
   * MaxRetries rejections have been counted since the last commit; the
   * rejection that reaches the bound leads to exit_bot, whose only step goes
   * to END with the quit flag raised, and nothing follows END.
   */
  lemma RejectionRouting(t: seq<Config>, inputs: seq<Oracle>, embed: string -> Vector, store: Store, i: nat)
    requires IsExecution(t, inputs, embed)
    requires t[0] == Start(store)
    requires i + 1 < |t| && t[i].node == Critic && !t[i + 1].state.approvedStatus
    ensures RejectionsSinceCommit(t[..i + 2]) < Nodes.MaxRetries ==> t[i + 1].node == ShowMenu
    ensures RejectionsSinceCommit(t[..i + 2]) == Nodes.MaxRetries ==>
              && t[i + 1].node == ExitBot
              && (i + 2 < |t| ==> t[i + 2].node == End && t[i + 2].state.quit)
              && |t| <= i + 3
  {
    SessionRetryBound(t, inputs, embed, store, i + 1);
    assert t[..i + 2] == t[..(i + 1) + 1];
    assert Step(t[i], inputs[i], embed) == Success(t[i + 1]);
    if i + 2 < |t| && t[i + 1].node == ExitBot {
      assert Step(t[i + 1], inputs[i + 1], embed) == Success(t[i + 2]);
    }
  }

  /**
   * With an empty index, an approved joke is always saved: the critic's query
   * and the commit's re-check both come back empty, so the catalog gains the
   * joke as its one new, last entry.
   */
  lemma EmptyIndexApprovalIsSaved(c: Config, o1: Oracle, o2: Oracle, embed: string -> Vector)
    requires Inv(c) && c.node == Critic
    requires |c.store.index| == 0
    requires Nodes.IsYes(o1.decision)
    requires QueryAgainst(c.store.index, o1.matches)
    requires QueryAgainst(c.store.index, o2.matches)
    ensures Step(c, o1, embed).Success?
    ensures var c1 := Step(c, o1, embed).value;
            && c1.node == ShowFinalJoke
            && Step(c1, o2, embed).Success?
            && CatalogOrEmpty(Step(c1, o2, embed).value.store.catalog)
               == CatalogOrEmpty(c.store.catalog) + [CatalogEntry(o2.jokeId, c.state.latestJokes, c.state.category, o2.timestamp)]
  {
    EmptyIndexNeverDuplicate(c.store.index, o1.matches, DefaultThreshold);
    EmptyIndexNeverDuplicate(c.store.index, o2.matches, DefaultThreshold);
  }
}
