/**
 * The four lifecycle states of a document proxy and the queries on them,
 * as a FireObject answers them from its `_state` and `_dirty` attributes.
 */
module DocumentState {
  import opened Outcomes

  /** DETACHED: no reference yet; ATTACHED: a reference, data not loaded;
      LOADED: data loaded; DELETED: removed from the database. */
  datatype State = Detached | Attached | Loaded | Deleted

  /** `is_detached()`. */
  predicate IsDetached(s: State) { s == Detached }

  /** `is_attached()`: the object has a reference and is not deleted. */
  predicate IsAttached(s: State) { s == Attached || s == Loaded }

  /** `is_loaded()`. */
  predicate IsLoaded(s: State) { s == Loaded }

  /** `is_deleted()`. */
  predicate IsDeleted(s: State) { s == Deleted }

  /** `is_dirty()`: a DETACHED object always counts as dirty; otherwise the flag decides. */
  function IsDirty(s: State, dirtyFlag: bool): (r: bool)
    ensures IsDetached(s) ==> r
    ensures !IsDetached(s) ==> (r <==> dirtyFlag)
  {
    s == Detached || dirtyFlag
  }

  /**
   * The state `__init__` chooses: an explicit initial state wins; otherwise
   * DETACHED without a reference and ATTACHED with one.
   */
  function InitialState(hasRef: bool, initial: Option<State>): (s: State)
    ensures initial.Some? ==> s == initial.value
    ensures initial.None? ==> (s == Detached <==> !hasRef) && (s == Attached <==> hasRef)
  {
    match initial
    case Some(given) => given
    case None => if hasRef then Attached else Detached
  }

  /**
   * The queries partition the states: detached, attached and deleted are
   * mutually exclusive and cover every state, and `is_loaded()` implies
   * `is_attached()`.
   */
  lemma QueriesPartitionStates(s: State)
    ensures IsDetached(s) || IsAttached(s) || IsDeleted(s)
    ensures !(IsDetached(s) && IsAttached(s)) && !(IsDetached(s) && IsDeleted(s)) && !(IsAttached(s) && IsDeleted(s))
    ensures IsLoaded(s) ==> IsAttached(s)
  {
  }
}
