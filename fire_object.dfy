/**
 * `FireObject`: a document proxy with a lifecycle state, a dirty flag and a
 * field cache, writing through a transport whose effects are kept as a log.
 * The shared base-class logic and the synchronous subclass are one class
 * here.
 */
module FireObjects {
  import opened Outcomes
  import opened Wrapping
  import opened DocumentState

  /** A collection reference, by path. */
  datatype CollectionRef = CollectionRef(path: string)

  /** A document reference: its collection's path and its own id. */
  datatype DocRef = DocRef(collection: string, id: string)

  /** A document's fields. */
  type Data = map<string, Value>

  /** What a DocumentSnapshot tells about a document read. */
  datatype Snapshot = Snapshot(present: bool, reference: DocRef, fields: Option<Data>)

  /** The exceptions a FireObject operation can raise. */
  datatype FireError = AttributeError | RuntimeError | ValueError | WriteFailed

  /** Where a write goes: into a transaction, into a batch, or straight to the database. */
  datatype Route = InTransaction(transaction: nat) | InBatch(batch: nat) | Direct

  datatype WriteKind = SetWrite | UpdateWrite | DeleteWrite

  /** One write handed to the database client. */
  datatype Write = Write(kind: WriteKind, route: Route, target: DocRef, payload: Data)

  /**
   * The route `_write_set` and `_write_update` choose: the transaction when
   * one is given, else the batch when one is given, else a direct call.
   */
  function SetRoute(transaction: Option<nat>, batch: Option<nat>): (r: Route)
    ensures transaction.Some? ==> r == InTransaction(transaction.value)
    ensures transaction.None? && batch.Some? ==> r == InBatch(batch.value)
    ensures r == Direct <==> transaction.None? && batch.None?
  {
    if transaction.Some? then InTransaction(transaction.value)
    else if batch.Some? then InBatch(batch.value)
    else Direct
  }

  /** The route `_write_delete` chooses: the batch when one is given, else a direct call. */
  function DeleteRoute(batch: Option<nat>): (r: Route)
    ensures r == Direct <==> batch.None?
    ensures batch.Some? ==> r == InBatch(batch.value)
  {
    if batch.Some? then InBatch(batch.value) else Direct
  }

  /**
   * The database client. Each write either is recorded in `writes` or, when
   * the client is `failing`, raises and records nothing.
   */
  class Transport {
    var writes: seq<Write>
    var failing: bool

    constructor (failing: bool)
      ensures writes == [] && this.failing == failing
    {
      writes := [];
      this.failing := failing;
    }

    method Perform(w: Write) returns (r: Outcome<FireError>)
      modifies this
      ensures failing == old(failing)
      ensures r.Pass? <==> !failing
      ensures r.Fail? ==> r.error == WriteFailed && writes == old(writes)
      ensures r.Pass? ==> writes == old(writes) + [w]
    {
      if failing {
        return Fail(WriteFailed);
      }
      writes := writes + [w];
      r := Pass;
    }
  }

  /** `_create_from_snapshot_base`: a missing document is rejected; otherwise its fields, `{}` when it has none. */
  function SnapshotData(snapshot: Snapshot): (r: Result<Data, FireError>)
    ensures r.Err? <==> !snapshot.present
    ensures r.Err? ==> r.error == ValueError
    ensures r.Ok? && snapshot.fields.Some? ==> r.value == snapshot.fields.value
    ensures r.Ok? && snapshot.fields.None? ==> r.value == map[]
  {
    if !snapshot.present then Err(ValueError)
    else if snapshot.fields.Some? then Ok(snapshot.fields.value)
    else Ok(map[])
  }

  /**
   * Whether `delete(batch, recursive, batch_size)` gets past its argument
   * checks and the recursive listing of subcollections, from state `s`,
   * with or without a reference (`hasRef`): the listing checks the state,
   * then asks the reference for its subcollections.
   */
  predicate DeletePassesGuards(recursive: bool, batch: Option<nat>, batchSize: int, s: State, hasRef: bool)
  {
    !recursive || (batch.None? && batchSize > 0 && s != Detached && s != Deleted && hasRef)
  }

  class FireObject {
    var docRef: Option<DocRef>
    var data: Data
    var state: State
    var dirty: bool
    var parentCollection: Option<CollectionRef>

    /**
     * `__init__`: empty data; the state from `initialState`, or from whether
     * there is a reference; dirty exactly when the state is DETACHED.
     */
    constructor (docRef: Option<DocRef>, initialState: Option<State>, parentCollection: Option<CollectionRef>)
      ensures this.docRef == docRef && this.parentCollection == parentCollection
      ensures data == map[]
      ensures state == InitialState(docRef.Some?, initialState)
      ensures dirty <==> state == Detached
    {
      this.docRef := docRef;
      data := map[];
      this.parentCollection := parentCollection;
      var initial := InitialState(docRef.Some?, initialState);
      state := initial;
      dirty := initial == Detached;
    }

    /** `from_snapshot`: a LOADED, clean object holding the snapshot's fields. */
    static method FromSnapshot(snapshot: Snapshot, parentCollection: Option<CollectionRef>)
      returns (r: Result<FireObject, FireError>)
      ensures r.Err? <==> !snapshot.present
      ensures r.Err? ==> r.error == ValueError
      ensures r.Ok? ==> fresh(r.value) && r.value.state == Loaded && !r.value.dirty
                        && r.value.docRef == Some(snapshot.reference)
                        && r.value.parentCollection == parentCollection
                        && Ok(r.value.data) == SnapshotData(snapshot)
    {
      var params := SnapshotData(snapshot);
      if params.Err? {
        return Err(params.error);
      }
      var obj := new FireObject(Some(snapshot.reference), Some(Loaded), parentCollection);
      obj.data := params.value;
      r := Ok(obj);
    }

    /**
     * `obj.name = v` for a field name: raises on a DELETED object and
     * changes nothing; otherwise stores `v` and sets the dirty flag.
     * Internal attribute names leave the fields cache and flags alone.
     */
    method SetAttr(name: string, v: Value, internal: bool) returns (r: Outcome<FireError>)
      modifies this
      ensures state == old(state) && docRef == old(docRef) && parentCollection == old(parentCollection)
      ensures internal ==> r.Pass? && data == old(data) && dirty == old(dirty)
      ensures !internal ==> (r.Fail? <==> old(state) == Deleted)
      ensures r.Fail? ==> r.error == AttributeError && data == old(data) && dirty == old(dirty)
      ensures !internal && r.Pass? ==> data == old(data)[name := v] && dirty
    {
      if internal {
        return Pass;
      }
      if state == Deleted {
        return Fail(AttributeError);
      }
      data := data[name := v];
      dirty := true;
      r := Pass;
    }

    /**
     * `del obj.name`: raises on a DELETED object or an absent field and
     * changes nothing; otherwise removes only that field and sets the dirty flag.
     */
    method DelAttr(name: string) returns (r: Outcome<FireError>)
      modifies this
      ensures state == old(state) && docRef == old(docRef) && parentCollection == old(parentCollection)
      ensures r.Pass? <==> old(state) != Deleted && name in old(data)
      ensures r.Fail? ==> r.error == AttributeError && data == old(data) && dirty == old(dirty)
      ensures r.Pass? ==> data == old(data) - {name} && dirty
    {
      if state == Deleted {
        return Fail(AttributeError);
      }
      if name !in data {
        return Fail(AttributeError);
      }
      data := data - {name};
      dirty := true;
      r := Pass;
    }

    /** `to_dict()`: RuntimeError in ATTACHED (nothing loaded); otherwise a copy of the fields. */
    function ToDict(): (r: Result<Data, FireError>)
      reads this
      ensures r.Err? <==> state == Attached
      ensures r.Err? ==> r.error == RuntimeError
      ensures r.Ok? ==> r.value == data
    {
      if state == Attached then Err(RuntimeError) else Ok(data)
    }

    /** `_validate_not_deleted`: RuntimeError exactly in DELETED. */
    function ValidateNotDeleted(): (r: Outcome<FireError>)
      reads this
      ensures r.Fail? <==> state == Deleted
      ensures r.Fail? ==> r.error == RuntimeError
    {
      if state == Deleted then Fail(RuntimeError) else Pass
    }

    /** `_validate_not_detached`: ValueError exactly in DETACHED. */
    function ValidateNotDetached(): (r: Outcome<FireError>)
      reads this
      ensures r.Fail? <==> state == Detached
      ensures r.Fail? ==> r.error == ValueError
    {
      if state == Detached then Fail(ValueError) else Pass
    }

    /** `_mark_clean`. */
    method MarkClean()
      modifies this
      ensures !dirty
      ensures data == old(data) && state == old(state) && docRef == old(docRef)
      ensures parentCollection == old(parentCollection)
    {
      dirty := false;
    }

    /** `_mark_dirty`. */
    method MarkDirty()
      modifies this
      ensures dirty
      ensures data == old(data) && state == old(state) && docRef == old(docRef)
      ensures parentCollection == old(parentCollection)
    {
      dirty := true;
    }

    /** `_transition_to_loaded`: replaces the fields, becomes LOADED and clean. */
    method TransitionToLoaded(newData: Data)
      modifies this
      ensures data == newData && state == Loaded && !dirty
      ensures docRef == old(docRef) && parentCollection == old(parentCollection)
    {
      data := newData;
      state := Loaded;
      dirty := false;
    }

    /** `_transition_to_deleted`: only the state changes; fields and reference are kept. */
    method TransitionToDeleted()
      modifies this
      ensures state == Deleted
      ensures data == old(data) && dirty == old(dirty) && docRef == old(docRef)
      ensures parentCollection == old(parentCollection)
    {
      state := Deleted;
    }

    /**
     * `_create_document`: ValueError without a parent collection; otherwise a
     * reference in that collection named `docId` when it is a non-empty
     * string and `autoId` (the generated id) otherwise, which is stored.
     */
    method CreateDocument(docId: Option<string>, autoId: string) returns (r: Result<DocRef, FireError>)
      modifies this
      ensures r.Err? <==> old(parentCollection).None?
      ensures r.Err? ==> r.error == ValueError && docRef == old(docRef)
      ensures r.Ok? ==> r.value.collection == old(parentCollection).value.path
                        && (docId.Some? && docId.value != [] ==> r.value.id == docId.value)
                        && (docId.None? || docId.value == [] ==> r.value.id == autoId)
                        && docRef == Some(r.value)
      ensures data == old(data) && state == old(state) && dirty == old(dirty)
      ensures parentCollection == old(parentCollection)
    {
      if parentCollection.None? {
        return Err(ValueError);
      }
      var collectionPath := parentCollection.value.path;
      var ref := if docId.Some? && docId.value != [] then DocRef(collectionPath, docId.value)
                 else DocRef(collectionPath, autoId);
      docRef := Some(ref);
      r := Ok(ref);
    }

    /**
     * `_write_set`: a set of `payload` on `target`, or on this document's
     * reference when `target` is None, routed. With neither reference the
     * client is handed None and raises AttributeError before any write.
     */
    method WriteSet(transport: Transport, payload: Data, target: Option<DocRef>,
                    transaction: Option<nat>, batch: Option<nat>) returns (r: Outcome<FireError>)
      modifies transport
      ensures transport.failing == old(transport.failing)
      ensures r.Pass? <==> (target.Some? || docRef.Some?) && !transport.failing
      ensures target.None? && docRef.None? ==> r == Fail(AttributeError)
      ensures (target.Some? || docRef.Some?) && r.Fail? ==> r.error == WriteFailed
      ensures r.Fail? ==> transport.writes == old(transport.writes)
      ensures r.Pass? ==> transport.writes == old(transport.writes)
                            + [Write(SetWrite, SetRoute(transaction, batch), if target.Some? then target.value else docRef.value, payload)]
    {
      var targetRef := if target.Some? then target else docRef;
      if targetRef.None? {
        return Fail(AttributeError);
      }
      r := transport.Perform(Write(SetWrite, SetRoute(transaction, batch), targetRef.value, payload));
    }

    /**
     * `_write_update`: an update of this document's reference with `updates`,
     * routed; AttributeError before any write when there is no reference.
     */
    method WriteUpdate(transport: Transport, updates: Data, transaction: Option<nat>, batch: Option<nat>)
      returns (r: Outcome<FireError>)
      modifies transport
      ensures transport.failing == old(transport.failing)
      ensures r.Pass? <==> docRef.Some? && !transport.failing
      ensures docRef.None? ==> r == Fail(AttributeError)
      ensures docRef.Some? && r.Fail? ==> r.error == WriteFailed
      ensures r.Fail? ==> transport.writes == old(transport.writes)
      ensures r.Pass? ==> transport.writes == old(transport.writes)
                            + [Write(UpdateWrite, SetRoute(transaction, batch), docRef.value, updates)]
    {
      if docRef.None? {
        return Fail(AttributeError);
      }
      r := transport.Perform(Write(UpdateWrite, SetRoute(transaction, batch), docRef.value, updates));
    }

    /**
     * `_write_delete`: a delete of this document's reference, in the batch or
     * direct; AttributeError before any write when there is no reference.
     */
    method WriteDelete(transport: Transport, batch: Option<nat>) returns (r: Outcome<FireError>)
      modifies transport
      ensures transport.failing == old(transport.failing)
      ensures r.Pass? <==> docRef.Some? && !transport.failing
      ensures docRef.None? ==> r == Fail(AttributeError)
      ensures docRef.Some? && r.Fail? ==> r.error == WriteFailed
      ensures r.Fail? ==> transport.writes == old(transport.writes)
      ensures r.Pass? ==> transport.writes == old(transport.writes)
                            + [Write(DeleteWrite, DeleteRoute(batch), docRef.value, map[])]
    {
      if docRef.None? {
        return Fail(AttributeError);
      }
      r := transport.Perform(Write(DeleteWrite, DeleteRoute(batch), docRef.value, map[]));
    }

    /**
     * `save()`, dispatched on the state:
     *  - DELETED raises RuntimeError before any write;
     *  - DETACHED runs `_prepare_detached_save` (its outcome is `detachedPlan`:
     *    the new reference and the data to store, or its error), which binds
     *    the object to that reference, then one direct set on it, then
     *    becomes LOADED and clean;
     *  - LOADED and clean does nothing;
     *  - LOADED and dirty performs one routed update of `_build_update_dict()`
     *    (`updates`), then becomes clean;
     *  - ATTACHED performs one routed set of `_prepare_data_for_storage()`
     *    (`stored`), then becomes LOADED and clean.
     * State and flag change only after the write returns: a failed write
     * leaves both as they were.
     */
    method Save(transport: Transport, transaction: Option<nat>, batch: Option<nat>,
                detachedPlan: Result<(DocRef, Data), FireError>, updates: Data, stored: Data)
      returns (r: Outcome<FireError>)
      modifies this, transport
      ensures data == old(data) && parentCollection == old(parentCollection)
      ensures old(state) == Detached && detachedPlan.Ok? ==> docRef == Some(detachedPlan.value.0)
      ensures !(old(state) == Detached && detachedPlan.Ok?) ==> docRef == old(docRef)
      ensures transport.failing == old(transport.failing)
      ensures old(state) == Deleted ==> r == Fail(RuntimeError)
      ensures old(state) == Loaded && !old(dirty) ==> r.Pass?
      ensures r.Fail? ==> state == old(state) && dirty == old(dirty) && transport.writes == old(transport.writes)
      ensures r.Pass? ==> state == Loaded && !dirty
      ensures old(state) == Detached ==>
                (r.Pass? <==> detachedPlan.Ok? && !transport.failing)
                && (detachedPlan.Err? ==> r == Fail(detachedPlan.error))
                && (r.Pass? ==> transport.writes == old(transport.writes)
                                  + [Write(SetWrite, Direct, detachedPlan.value.0, detachedPlan.value.1)])
      ensures old(state) == Loaded && !old(dirty) ==> transport.writes == old(transport.writes)
      ensures old(state) == Loaded && old(dirty) ==>
                (r.Pass? <==> old(docRef).Some? && !transport.failing)
                && (old(docRef).None? ==> r == Fail(AttributeError))
                && (r.Pass? ==> transport.writes == old(transport.writes)
                                  + [Write(UpdateWrite, SetRoute(transaction, batch), docRef.value, updates)])
      ensures old(state) == Attached ==>
                (r.Pass? <==> old(docRef).Some? && !transport.failing)
                && (old(docRef).None? ==> r == Fail(AttributeError))
                && (r.Pass? ==> transport.writes == old(transport.writes)
                                  + [Write(SetWrite, SetRoute(transaction, batch), docRef.value, stored)])
    {
      var guard := ValidateNotDeleted();
      if guard.Fail? {
        return guard;
      }
      if state == Detached {
        if detachedPlan.Err? {
          return Fail(detachedPlan.error);
        }
        var (ref, storageData) := detachedPlan.value;
        docRef := Some(ref);
        r := WriteSet(transport, storageData, Some(ref), None, None);
        if r.Fail? {
          return;
        }
        state := Loaded;
        MarkClean();
        return;
      }
      if state == Loaded {
        if !IsDirty(state, dirty) {
          return Pass;
        }
        r := WriteUpdate(transport, updates, transaction, batch);
        if r.Fail? {
          return;
        }
        MarkClean();
        return;
      }
      // ATTACHED: the only state left.
      r := WriteSet(transport, stored, None, transaction, batch);
      if r.Fail? {
        return;
      }
      state := Loaded;
      MarkClean();
    }

    /**
     * `delete(batch, recursive, batch_size)`:
     *  - recursive with a batch, or with `batchSize <= 0`, raises ValueError
     *    before anything else;
     *  - recursive deletion first lists the subcollections, which raises
     *    ValueError on a DETACHED and RuntimeError on a DELETED object, and
     *    AttributeError on any other object without a reference;
     *  - then `_prepare_delete()`, whose outcome is `prepared`: its error, or
     *    the cached fields and dirty flag it leaves, which are stored;
     *  - then one delete write, in the batch or direct;
     *  - only then the state becomes DELETED.
     */
    method Delete(transport: Transport, batch: Option<nat>, recursive: bool, batchSize: int,
                  prepared: Result<(Data, bool), FireError>) returns (r: Outcome<FireError>)
      modifies this, transport
      ensures docRef == old(docRef) && parentCollection == old(parentCollection)
      ensures transport.failing == old(transport.failing)
      ensures DeletePassesGuards(recursive, batch, batchSize, old(state), old(docRef).Some?) && prepared.Ok? ==>
                data == prepared.value.0 && dirty == prepared.value.1
      ensures !(DeletePassesGuards(recursive, batch, batchSize, old(state), old(docRef).Some?) && prepared.Ok?) ==>
                data == old(data) && dirty == old(dirty)
      ensures recursive && (batch.Some? || batchSize <= 0) ==> r == Fail(ValueError)
      ensures recursive && batch.None? && batchSize > 0 && old(state) == Detached ==> r == Fail(ValueError)
      ensures recursive && batch.None? && batchSize > 0 && old(state) == Deleted ==> r == Fail(RuntimeError)
      ensures recursive && batch.None? && batchSize > 0 && (old(state) == Attached || old(state) == Loaded) && old(docRef).None? ==>
                r == Fail(AttributeError) && data == old(data) && dirty == old(dirty)
      ensures DeletePassesGuards(recursive, batch, batchSize, old(state), old(docRef).Some?) && prepared.Ok? && old(docRef).None? ==>
                r == Fail(AttributeError)
      ensures r.Pass? <==> DeletePassesGuards(recursive, batch, batchSize, old(state), old(docRef).Some?)
                           && prepared.Ok? && old(docRef).Some? && !transport.failing
      ensures r.Fail? ==> state == old(state) && transport.writes == old(transport.writes)
      ensures r.Pass? ==> state == Deleted
                          && transport.writes == old(transport.writes) + [Write(DeleteWrite, DeleteRoute(batch), docRef.value, map[])]
    {
      if recursive {
        if batch.Some? {
          return Fail(ValueError);
        }
        if batchSize <= 0 {
          return Fail(ValueError);
        }
        // `_delete_descendant_collections` -> `collections()` guards.
        var notDetached := ValidateNotDetached();
        if notDetached.Fail? {
          return notDetached;
        }
        var notDeleted := ValidateNotDeleted();
        if notDeleted.Fail? {
          return notDeleted;
        }
        // `self._doc_ref.collections()` on a missing reference.
        if docRef.None? {
          return Fail(AttributeError);
        }
      }
      if prepared.Err? {
        return Fail(prepared.error);
      }
      data, dirty := prepared.value.0, prepared.value.1;
      r := WriteDelete(transport, batch);
      if r.Fail? {
        return;
      }
      TransitionToDeleted();
    }
  }

  /**
   * The lifecycle across saves: a new DETACHED object saved once is LOADED
   * and clean after exactly one direct set, and a second save right after
   * writes nothing.
   */
  method SaveTwiceWritesOnce(transport: Transport, parent: CollectionRef, ref: DocRef, fields: Data)
    returns (obj: FireObject)
    requires !transport.failing
    modifies transport
    ensures fresh(obj) && obj.state == Loaded && !obj.dirty && obj.docRef == Some(ref)
    ensures transport.writes == old(transport.writes) + [Write(SetWrite, Direct, ref, fields)]
  {
    obj := new FireObject(None, None, Some(parent));
    assert obj.state == Detached;
    var first := obj.Save(transport, None, None, Ok((ref, fields)), map[], map[]);
    assert first.Pass?;
    var second := obj.Save(transport, None, None, Ok((ref, fields)), map[], map[]);
  }

  /**
   * A new DETACHED object has no reference: a non-recursive delete, which
   * skips the subcollection guards, still raises AttributeError before any
   * write, and the object stays DETACHED.
   */
  method DeleteWithoutReferenceFails(transport: Transport, parent: CollectionRef, batch: Option<nat>,
                                     cleared: Data, clearedDirty: bool)
    returns (obj: FireObject, r: Outcome<FireError>)
    modifies transport
    ensures fresh(obj) && obj.state == Detached && obj.docRef.None?
    ensures r == Fail(AttributeError)
    ensures transport.writes == old(transport.writes)
  {
    obj := new FireObject(None, None, Some(parent));
    r := obj.Delete(transport, batch, false, 50, Ok((cleared, clearedDirty)));
  }

  /**
   * An ATTACHED object built without a reference: a recursive delete fails
   * listing the subcollections, before `_prepare_delete()`, so the cache
   * and the log are untouched.
   */
  method RecursiveDeleteWithoutReferenceFails(transport: Transport, cleared: Data, clearedDirty: bool)
    returns (obj: FireObject, r: Outcome<FireError>)
    modifies transport
    ensures fresh(obj) && obj.state == Attached && obj.data == map[] && !obj.dirty
    ensures r == Fail(AttributeError)
    ensures transport.writes == old(transport.writes)
  {
    obj := new FireObject(None, Some(Attached), None);
    r := obj.Delete(transport, None, true, 50, Ok((cleared, clearedDirty)));
  }
}
