/**
 * The persistence policies the joke workflow relies on: which vector index
 * is opened, when a candidate joke counts as a duplicate of a stored one, and
 * how an accepted joke is recorded in both the vector index and the JSON
 * catalog. The vector database and the catalog file are modelled as values;
 * embeddings are opaque vectors and similarity scores are abstract reals.
 */
module Persistence {
  import opened Wrappers

  /** An embedding. The policies never look at its components. */
  type Vector = seq<real>

  /** Dimension a newly created index gets, and length of the fallback zero vector. */
  const Dimension: nat := 1024

  /** Similarity metric a newly created index gets. */
  const Metric: string := "cosine"

  /** Default similarity score from which a match counts as a duplicate. */
  const DefaultThreshold: real := 0.85

  /** The all-zero vector of the index dimension. */
  function ZeroVector(): (v: Vector)
    ensures |v| == Dimension
    ensures forall i :: 0 <= i < |v| ==> v[i] == 0.0
  {
    seq(Dimension, _ => 0.0)
  }

  // ---------------------------------------------------------------------------
  // Choosing the index
  // ---------------------------------------------------------------------------

  /** Which index the service ends up using. */
  datatype IndexChoice =
    | UseExisting(name: string)
    | CreateNew(name: string, dimension: nat, metric: string)

  /** Python's `name.startswith(prefix)`. */
  predicate StartsWith(name: string, prefix: string) {
    prefix <= name
  }

  /** Position of the first name in `names` that starts with `prefix`, if any. */
  function FirstWithPrefix(names: seq<string>, prefix: string): (r: Option<nat>)
    ensures r.Some? ==> r.value < |names| && StartsWith(names[r.value], prefix)
    ensures r.Some? ==> forall j :: 0 <= j < r.value ==> !StartsWith(names[j], prefix)
    ensures r.None? ==> forall j :: 0 <= j < |names| ==> !StartsWith(names[j], prefix)
  {
    if |names| == 0 then None
    else if StartsWith(names[0], prefix) then Some(0)
    else
      match FirstWithPrefix(names[1..], prefix)
      case None => None
      case Some(k) => Some(k + 1)
  }

  /**
   * The index chosen for the configured name `configured`, given the names of
   * the indexes that already exist in listing order: the first existing name
   * that starts with `configured`, otherwise a fresh index called `configured`
   * created with dimension 1024 and the cosine metric.
   */
  function ChooseIndex(existing: seq<string>, configured: string): (c: IndexChoice)
    ensures c.UseExisting? <==> exists j :: 0 <= j < |existing| && StartsWith(existing[j], configured)
    ensures c.UseExisting? ==>
              exists j :: 0 <= j < |existing| && existing[j] == c.name && StartsWith(c.name, configured)
                          && forall k :: 0 <= k < j ==> !StartsWith(existing[k], configured)
    ensures c.CreateNew? ==> c == CreateNew(configured, Dimension, Metric)
  {
    match FirstWithPrefix(existing, configured)
    case Some(j) => UseExisting(existing[j])
    case None => CreateNew(configured, Dimension, Metric)
  }

  /** The first existing name that starts with the configured name is used, even when the configured name itself comes later. */
  lemma ChooseIndexPrefersFirstMatch(existing: seq<string>, configured: string, j: nat)
    requires j < |existing| && StartsWith(existing[j], configured)
    requires forall k :: 0 <= k < j ==> !StartsWith(existing[k], configured)
    ensures ChooseIndex(existing, configured) == UseExisting(existing[j])
  {
  }

  // ---------------------------------------------------------------------------
  // Duplicate detection
  // ---------------------------------------------------------------------------

  /** Metadata stored next to each vector in the index. */
  datatype Metadata = Metadata(text: string, category: string, timestamp: string)

  /** One result of a nearest-neighbour query. */
  datatype Match = Match(id: string, score: real, metadata: Metadata)

  /** A Python value returned where a boolean is expected: `True`, `False` or `None`. */
  datatype PyBool = PyTrue | PyFalse | PyNone {
    /** Whether an `if` on the value takes its then-branch. */
    predicate Truthy() {
      PyTrue?
    }
  }

  /**
   * The duplicate verdict for the result `matches` of a top-1 query: true when
   * the best match scores at least `threshold` (inclusive), false when it
   * scores below, and `None` (falsy) when the query found nothing.
   */
  function IsDuplicateJoke(matches: seq<Match>, threshold: real): (r: PyBool)
    ensures r.Truthy() <==> |matches| > 0 && matches[0].score >= threshold
    ensures r == PyNone <==> |matches| == 0
    ensures r == PyFalse <==> |matches| > 0 && matches[0].score < threshold
  {
    if |matches| > 0 then
      if matches[0].score >= threshold then PyTrue else PyFalse
    else
      PyNone
  }

  /** A duplicate at some threshold is a duplicate at every lower threshold. */
  lemma DuplicateMonotone(matches: seq<Match>, lower: real, higher: real)
    requires lower <= higher
    requires IsDuplicateJoke(matches, higher).Truthy()
    ensures IsDuplicateJoke(matches, lower).Truthy()
  {
  }

  /**
   * What a top-1 query may return against `index`: at most one match, and
   * only for a vector that is stored.
   */
  predicate QueryAgainst(index: map<string, IndexRecord>, matches: seq<Match>) {
    && |matches| <= 1
    && forall i :: 0 <= i < |matches| ==> matches[i].id in index
  }

  /** An empty index never reports a duplicate, whatever the threshold. */
  lemma EmptyIndexNeverDuplicate(index: map<string, IndexRecord>, matches: seq<Match>, threshold: real)
    requires |index| == 0
    requires QueryAgainst(index, matches)
    ensures IsDuplicateJoke(matches, threshold) == PyNone
  {
    assert index.Keys == {};
  }

  // ---------------------------------------------------------------------------
  // Saving
  // ---------------------------------------------------------------------------

  /** One entry of the JSON catalog. */
  datatype CatalogEntry = CatalogEntry(id: string, text: string, category: string, timestamp: string)

  /** A stored vector with its metadata. */
  datatype IndexRecord = IndexRecord(vector: Vector, metadata: Metadata)

  /**
   * The durable state: the catalog file (`None` when the file does not exist)
   * and the vector index, keyed by id (an upsert replaces the record for an id).
   */
  datatype Store = Store(catalog: Option<seq<CatalogEntry>>, index: map<string, IndexRecord>)

  /** The catalog as read from disk: its entries, or `[]` when the file is absent. */
  function CatalogOrEmpty(catalog: Option<seq<CatalogEntry>>): seq<CatalogEntry> {
    match catalog
    case None => []
    case Some(entries) => entries
  }

  /**
   * Saves an accepted joke under the fresh id `id` at time `timestamp`: the
   * vector is upserted with its metadata, and one entry is appended to the
   * catalog (which is created if it did not exist).
   */
  function SaveJoke(st: Store, text: string, category: string, embedding: Vector, id: string, timestamp: string): (r: Store)
    ensures r.catalog.Some?
    ensures |r.catalog.value| == |CatalogOrEmpty(st.catalog)| + 1
    ensures r.catalog.value[..|r.catalog.value| - 1] == CatalogOrEmpty(st.catalog)
    ensures r.catalog.value[|r.catalog.value| - 1] == CatalogEntry(id, text, category, timestamp)
    ensures r.index.Keys == st.index.Keys + {id}
    ensures r.index[id] == IndexRecord(embedding, Metadata(text, category, timestamp))
    ensures forall k :: k in st.index && k != id ==> r.index[k] == st.index[k]
  {
    var metadata := Metadata(text, category, timestamp);
    var entry := CatalogEntry(id, text, category, timestamp);
    var catalog := CatalogOrEmpty(st.catalog) + [entry];
    assert catalog[..|catalog| - 1] == CatalogOrEmpty(st.catalog);
    Store(Some(catalog), st.index[id := IndexRecord(embedding, metadata)])
  }

  /** The catalog entry just written and the index record just upserted describe the same joke. */
  lemma SavedEntryAgreesWithIndex(st: Store, text: string, category: string, embedding: Vector, id: string, timestamp: string)
    ensures var r := SaveJoke(st, text, category, embedding, id, timestamp);
            var e := r.catalog.value[|r.catalog.value| - 1];
            && e.id in r.index
            && r.index[e.id].metadata == Metadata(e.text, e.category, e.timestamp)
  {
  }

  /** Every catalog entry present before a save is still there, at the same position, afterwards. */
  lemma SaveKeepsEarlierEntries(st: Store, text: string, category: string, embedding: Vector, id: string, timestamp: string, i: nat)
    requires i < |CatalogOrEmpty(st.catalog)|
    ensures SaveJoke(st, text, category, embedding, id, timestamp).catalog.value[i] == CatalogOrEmpty(st.catalog)[i]
  {
    var r := SaveJoke(st, text, category, embedding, id, timestamp);
    assert r.catalog.value[..|r.catalog.value| - 1][i] == r.catalog.value[i];
  }
}
