# Joke bot workflow — a Dafny model

This project models the core of an interactive joke bot: a LangGraph state
machine in which a user picks an action from a menu, a language model writes
a joke, a human critic approves or rejects it, rejections are counted up to a
bound of five, and approved jokes are saved to a vector index and a JSON
catalog unless a near-duplicate is already stored.

The model is purely functional:

- `State` — the `JokeState` record, partial updates (`Update`, one optional
  value per key) and the merge of an update into the state. Every returned key
  overwrites its field except `jokes`, whose reducer is list concatenation.
- `Nodes` — one function per graph node (`show_menu`, `update_category`,
  `update_language`, `reset_jokes`, `writer`, the human critic,
  `show_final_joke`, `browse_jokes`, `exit_bot`), each returning an `Update`.
- `Graph` — the node names, `route_choice`, `writer_critic_loop`, the edge
  table and `Step`, which runs one node, merges its update and follows the
  edge chosen on the merged state.
- `Execution` — sessions as sequences of configurations linked by `Step`,
  with the reachable-state invariant, the retry-count characterisation and
  the exhaustion path to END.
- `Sessions` — running a session on a list of inputs until END or an error,
  and a worked session in which every joke is turned down.
- `Persistence` — the duplicate threshold rule, the catalog append together
  with the index upsert, and the choice of index by name prefix. The catalog
  file and the vector index are values (`Store`).

Everything the program gets from outside is a parameter: the user's lines,
the language model's reply, the embedding function (`embed: string -> Vector`),
the result of each top-1 index query (`matches`), and the fresh id and
timestamp of a save. Embeddings are opaque `seq<real>` values and similarity
scores are abstract reals.

Where the code does something other than its own messages suggest, the model follows the code:

- `reset_jokes` returns `{"jokes": []}`. Under the concatenation reducer this
  appends nothing, so the session history is *not* cleared, whatever the
  printed message says (`Nodes.ResetJokes` proves `Merge(s, u) == s`).
- The retry count is reset only by `show_final_joke`, never by `reset_jokes`.
- A category or language selection outside the list is a fatal `IndexError`
  and a non-numeric one a fatal `ValueError`; Python's negative indexing makes
  -3..2 and -13..12 the valid ranges.
- `jokes_choice` is declared as a `Literal` of the six menu letters, and the
  state record is rebuilt (and so validated) before `route_choice` reads it;
  a menu line outside n/c/l/r/b/q therefore ends the session with a
  validation error rather than reaching `route_choice`'s quit fallback.
- `is_duplicate_joke` returns `None` when the query finds nothing; this is
  modelled as a third value (`PyNone`) that is falsy.

## Model

| member | source | states |
|---|---|---|
| `Persistence.FirstWithPrefix` | persistence.py:23-27 | the position found holds a name starting with the prefix and no earlier name does; no position means no name starts with it |
| `Persistence.ChooseIndex` | persistence.py:23-43 | an existing index is used iff some existing name starts with the configured name, and then it is the first such name; otherwise the configured name is created with dimension 1024 and the cosine metric |
| `Persistence.ChooseIndexPrefersFirstMatch` | persistence.py:24-27 | the first matching name in listing order is exactly the index used |
| `Persistence.IsDuplicateJoke` | persistence.py:90-99 | truthy iff a top match exists and its score is at least the threshold (inclusive); `None` iff there is no match; `False` iff the match scores below |
| `Persistence.DuplicateMonotone` | persistence.py:96 | a duplicate at a threshold stays a duplicate at every lower threshold |
| `Persistence.EmptyIndexNeverDuplicate` | persistence.py:92-99 | a query against an empty index yields the falsy `None`, so nothing is a duplicate of an empty index |
| `Persistence.SaveJoke` | persistence.py:50-87 | the new catalog is the old one (or `[]` when the file is absent) with exactly one entry added at the end; the index gains the record under the fresh id and keeps every other record |
| `Persistence.SavedEntryAgreesWithIndex` | persistence.py:52-74 | the appended catalog entry and the upserted index metadata share id, text, category and timestamp |
| `Persistence.SaveKeepsEarlierEntries` | persistence.py:76-85 | every earlier catalog entry keeps its position and value |
| `State.Merge` | main.py:36-45 | keys an update does not return leave their field unchanged; returned keys overwrite, except `jokes`, which is extended by the returned list |
| `State.MergeNoChange` | main.py:36-45 | merging `{}` leaves the state unchanged |
| `State.MergeKeepsHistory` | main.py:37 | the history is append-only: the old list is a prefix of the merged one, longer by exactly the returned list |
| `State.MergeThen` | main.py:37 | two merges equal one merge of the combined update: later keys win, returned joke lists concatenate |
| `Nodes.PyIndex` | main.py:58 | Python indexing: defined exactly for -len..len-1, with negative positions counted from the end |
| `Nodes.PyIndexResidue` | main.py:56-58 | every valid index selects the element at its residue modulo the list length |
| `Nodes.Select` | main.py:57-58 | a non-numeric line raises `ValueError`, an out-of-range number `IndexError`, any other selection yields the element at that (possibly negative) position, i.e. at its residue modulo the list length |
| `Nodes.ShowMenu` | main.py:51-53 | the menu changes only `jokes_choice`, to the line typed |
| `Nodes.UpdateCategory` | main.py:55-58 | succeeds iff the selection is numeric and in -3..2, then sets the category to the selected entry and changes nothing else |
| `Nodes.UpdateLanguage` | main.py:60-65 | succeeds iff the selection is numeric and in -13..12, then sets the language to the selected code and changes nothing else |
| `Nodes.ResetJokes` | main.py:67-69 | returns only the `jokes` key, and the merged state equals the state before: nothing is cleared |
| `Nodes.Writer` | main.py:71-83 | the pending joke becomes the reply text and the pending embeddings become the single embedding of the reply's printed form; nothing else changes |
| `Nodes.HumanCritic` | main.py:86-125 | approval iff the answer is "yes"/"y" and the top match is not a duplicate; approval keeps the retry count and records `[embedding]`; every rejection (no, invalid, duplicate) adds exactly one retry and keeps the embeddings |
| `Nodes.CommitVector` | main.py:133-137 | the vector persisted is the last pending embedding, or a 1024-long zero vector when there is none |
| `Nodes.ShowFinalJoke` | main.py:129-141 | appends exactly one `Joke(latest, category)` and resets retry count, approval and pending text whatever the outcome; the store changes only when approved and the re-check is no duplicate, and then by one catalog entry and one index record |
| `Nodes.LastN` | main.py:162 | `xs[-n:]` is the suffix of length min(n, len(xs)) |
| `Nodes.BrowseJokes` | main.py:144-166 | no state change; "nothing saved" iff the catalog is absent or empty; otherwise the last min(5, len) entries in catalog order |
| `Nodes.ExitBot` | main.py:170-171 | raises the quit flag and changes nothing else |
| `Graph.RouteChoice` | main.py:185-200 | n/c/l/r/b lead to writer/update_category/update_language/reset_jokes/browse_jokes, each iff that letter was chosen; every other choice, "q" included, leads to exit_bot |
| `Graph.RouteChoiceFollowsTable` | main.py:227-238 | routing agrees with the menu's edge map and falls back to the target of "q" |
| `Graph.WriterCriticLoop` | main.py:175-183 | final joke iff approved (whatever the retry count); exit iff unapproved with at least 5 retries; menu iff unapproved with fewer; never the writer |
| `Graph.Successor` | main.py:227-259 | the next node is in the node's conditional edge map, or is its fixed edge target |
| `Graph.Execute` | main.py:214-223 | only the two selection nodes can fail, and only the final-joke node can change the store |
| `Graph.Step` | main.py:212-259 | a step fails exactly when a selection node raises or the merged `jokes_choice` is not one of n/c/l/r/b/q (a menu line outside them fails with a validation error); otherwise the next node is the edge chosen on the merged state, the store changes only at a commit, the catalog only grows and the history never shrinks |
| `Execution.StartInv` | main.py:36-45 | the default state at the menu satisfies the session invariant |
| `Execution.StepKeepsInv` | main.py:121-141 | one step keeps: a valid menu choice, retry count in 0..4 away from the exit path and at most 5 on it, approval exactly at the final-joke node, quit exactly at END |
| `Execution.ExecutionKeepsInv` | main.py:175-183 | every configuration of a session that starts in the invariant satisfies it |
| `Execution.StepRetryCount` | main.py:121-125 | a critic rejection adds one retry, a commit resets the count to 0, every other step leaves it alone |
| `Execution.RetryCountsRejections` | main.py:115-141 | the retry count equals the number of critic rejections since the last commit |
| `Execution.SessionRetryBound` | main.py:29-45 | from `JokeState()`, every reached configuration has retry count in 0..5, equal to the rejections since the last commit |
| `Execution.RejectionRouting` | main.py:175-183 | a rejection below the bound returns to the menu; the fifth rejection since a commit goes to exit_bot, then END with quit set, and nothing follows END |
| `Sessions.Run` | main.py:270 | running the graph on a list of inputs: a run from END or on no inputs returns its configuration, a failure needs a step to have been taken, and over a successful run the history and the catalog only grow |
| `Sessions.RunAppend` | main.py:270 | running on two input lists in a row is running on their concatenation, END and errors included |
| `Sessions.RejectionRound` | main.py:51-183 | ask ("n"), write, reject ("no") is three steps that count one more retry, keep the new reply as pending joke and return to the menu, or go to exit_bot on the fifth retry |
| `Sessions.RejectionRounds` | main.py:175-183 | k such rounds from the menu add exactly k retries and leave history and store alone; the session is at the menu below five and at exit_bot at five |
| `Sessions.FiveRejectionsEndSession` | main.py:240-259 | a fresh session with five rejected jokes ends at END after sixteen steps, quit set, five retries, no joke kept, nothing saved |
| `Execution.EmptyIndexApprovalIsSaved` | main.py:97-139 | with an empty index, a "yes" is approved, goes to the final joke, and the commit appends the joke to the catalog |

## Left out

- Console and file I/O: `input()` and `print` are not modelled; the menu line and the critic's answer are taken after `.strip().lower()`, which is not modelled.
- `int()` parsing of the selection line is an input (`Option<int>`, `None` when it raises); which strings Python accepts is not modelled.
- The JSON catalog file is a `seq` (`None` when absent); malformed JSON or a non-list document is not modelled.
- The language model (`get_llm`, Groq), the embedding service (VoyageAI) and the Pinecone client are external; their replies are inputs, and a service error that would abort the session is not modelled.
- Prompt building (`build_prompt_from_config`, `load_config`, the paths module) is outside the model; the writer's reply is an input, so its dependence on category and language is not stated.
- The ranking of the top-1 query is an input; `QueryAgainst` only states that it returns at most one stored record.
- The store holds the single index that `get_pinecone_index` opens; index readiness polling with `time.sleep`, and a missing `PINECONE_INDEX_NAME` (where `startswith(None)` would raise), are not modelled.
- The index-name listing is taken as a sequence; building a dict from it drops repeated names but does not change which name matches first.
- uuid and timestamp generation are inputs of each step.
- LangGraph's `compile` and the `recursion_limit` of 100 steps: executions here have any length.
- The framework's check of `jokes_choice` against its `Literal` type when it rebuilds the state record is taken from LangGraph's documented behaviour (not part of this model's source): `Step` fails with a validation error for a menu line outside n/c/l/r/b/q, so inside a session the fallback `return "exit_bot"` of `route_choice` is never reached; `Graph.RouteChoice` still models that fallback for the function on its own.
