# fire-prox document-proxy engine in Dafny

fire-prox wraps Firestore documents in proxy objects. This project models the
core of that library and proves properties of the model:

- **Structural validators** (`firestore_constraints.dfy`). Field names must be
  non-empty, must not have the `__x__` form, must have no surrounding
  whitespace and must fit in 1500 UTF-8 bytes. Map nesting must stay below
  depth 20.
- **Wrapping** (`wrapping.dfy`). `_wrap_value` turns a plain value tree into a
  proxy tree, checking every depth and every map key. `_unwrap_value` turns it
  back. Equality between stored proxies and plain values is modelled too.
- **Mutation-tracking containers** (`proxied_map.dfy`, `proxied_list.dfy`,
  `sorting.dfy`). `ProxiedMap` and `ProxiedList` are classes holding a `map`
  or `seq` of wrapped values. After every mutation that goes through, they
  report their top-level field path to a parent. The parent (`dirty_recorder.dfy`)
  keeps a log of the paths reported.
- **Document lifecycle** (`document_state.dfy`, `fire_object.dfy`). A
  `FireObject` is in one of four states (DETACHED, ATTACHED, LOADED, DELETED)
  and holds a dirty flag and a field cache. `save()` and `delete()` dispatch
  on the state. Writes go to a `Transport` whose effects are a write log, so
  "exactly one write" and "no write" can be stated.
- **Path validation** (`paths.dfy`): `_validate_path` checks emptiness, empty
  segments and segment parity.
- **Version bump** (`bump_version.dfy`): `_format_bump` parses `M.m.p`,
  bumps it and formats it. `main` chooses the target version.
- **Support** (`strings.dfy`, `outcomes.dfy`): Python's `str.split` with a
  one-character separator, `int()`/`str()` on decimal integers, and
  `Option`/`Result`/`Outcome` values standing for raised exceptions.

Every Python exception becomes an error value. A container or object method
that raises returns `Fail`/`Err`, and its contract states what the state is
then. Most leave the state as it was, as the source does, with three
exceptions: `update()` keeps the assignments made before the rejected pair,
`sort()` raising TypeError promises only the multiset of items, and a
`delete()` whose write fails keeps what `_prepare_delete()` left.

## Model

| member | source | states |
|---|---|---|
| FirestoreConstraints.ValidateNestingDepth | src/fire_prox/firestore_constraints.py:45-51 | passes exactly when depth < 20; otherwise fails with the depth |
| FirestoreConstraints.NestingDepthBoundary | tests/test_phase3_proxies.py:68-81 | depth 19 passes; depths 20 and 25 fail |
| FirestoreConstraints.LStrip | src/fire_prox/firestore_constraints.py:85 | the result is a suffix of the input that starts with no whitespace, every dropped character is whitespace, and it is shorter when the input starts with whitespace |
| FirestoreConstraints.RStrip | src/fire_prox/firestore_constraints.py:85 | the result is a prefix of the input that ends with no whitespace, every dropped character is whitespace, and it is shorter when the input ends with whitespace |
| FirestoreConstraints.StripUnchangedIff | src/fire_prox/firestore_constraints.py:85 | `name == name.strip()` exactly when the name neither starts nor ends with whitespace |
| FirestoreConstraints.Utf8LengthBounds | src/fire_prox/firestore_constraints.py:91-92 | the UTF-8 length lies between the number of code points and four times that number |
| FirestoreConstraints.AsciiUtf8Length | src/fire_prox/firestore_constraints.py:91-92 | an ASCII name takes one byte per character |
| FirestoreConstraints.ValidateFieldName | src/fire_prox/firestore_constraints.py:71-96 | passes exactly for valid names. Each error kind is reported exactly when its check is the first to fail, in the order empty, `__x__`, whitespace, length. Every error carries the depth |
| FirestoreConstraints.AsciiNameAccepted | src/fire_prox/firestore_constraints.py:71-96 | every ASCII name of 2 to 1500 characters passes if it has no whitespace at either end and its second character is not `_` |
| FirestoreConstraints.OrdinaryNamesAccepted | tests/test_phase3_proxies.py:29-35 | "email" and "user_name" pass |
| FirestoreConstraints.UnderscoreAndDigitNamesAccepted | tests/test_phase3_proxies.py:29-35 | "_private" and "field123" pass |
| FirestoreConstraints.MalformedNamesRejected | tests/test_phase3_proxies.py:37-59 | "" fails as empty; "__private__" and "__" fail as reserved; " email", "email " and " email " fail for whitespace |
| FirestoreConstraints.NameLengthBoundary | src/fire_prox/firestore_constraints.py:91-96 | a name of 1500 one-byte characters passes; one of 1501 fails as too long |
| Wrapping.WrapValue | src/fire_prox/proxied_map.py:45-56 | succeeds exactly when the tree is wrappable, and then returns its wrapped form. On failure the error is one the tree can raise. At depth >= 20 even a scalar fails with the depth error |
| Wrapping.WrapMapData | src/fire_prox/proxied_map.py:129-137 | the constructor loop succeeds exactly when every key is valid and every value wraps at depth + 1, and then stores all of them wrapped; otherwise the error comes from some entry |
| Wrapping.WrapListData | src/fire_prox/proxied_list.py:72-83 | the constructor loop succeeds exactly when every item wraps at depth + 1, and then stores them wrapped in order; otherwise the error comes from some item |
| Wrapping.UnwrapWrap | src/fire_prox/proxied_map.py:59-77 | unwrapping a wrapped tree gives the original tree back |
| Wrapping.WrapWellFormed | src/fire_prox/proxied_map.py:135-137 | every node of a wrapped tree carries the top-level field path and its own depth (children one deeper), below 20, with valid keys |
| Wrapping.WrapUnwrap | src/fire_prox/proxied_map.py:59-77 | every well-formed proxy tree is wrappable after unwrapping, and wrapping it again gives the same proxy tree |
| Wrapping.WrappableAtShallowerDepth | src/fire_prox/proxied_map.py:45-46 | a tree that wraps at some depth also wraps at any smaller depth |
| Wrapping.NestedWrappableIff | src/fire_prox/proxied_map.py:45-56 | n nested dicts around a scalar wrap at `depth` exactly when depth + n < 20 |
| Wrapping.OneLevelDictDepthBoundary | tests/test_phase3_proxies.py:432-444 | `{'nested': 'value'}` wraps at depth 18 but not at depth 19 |
| Wrapping.UnwrapWrappedEntries | src/fire_prox/proxied_map.py:134-137 | the plain view of a newly built map's storage is the dict it was built from |
| Wrapping.UnwrapWrappedItems | src/fire_prox/proxied_list.py:80-83 | the plain view of a newly built list's storage is the list it was built from |
| Wrapping.UnwrapEntriesAssign | src/fire_prox/proxied_map.py:73 | storing a wrapped value under a key stores its unwrapped form under that key in the plain view |
| Wrapping.WrappedEntriesWellFormed | src/fire_prox/proxied_map.py:134-137 | a map constructor's storage satisfies the container invariant |
| Wrapping.WrappedItemsWellFormed | src/fire_prox/proxied_list.py:80-83 | a list constructor's storage satisfies the container invariant |
| Wrapping.ProxyMatchesIff | src/fire_prox/proxied_map.py:259-262 | a stored value compares equal to a plain value exactly when it unwraps to it |
| Wrapping.ProxyEqIff | src/fire_prox/proxied_map.py:259-260 | two stored values compare equal exactly when they unwrap to the same tree, whatever their field paths and depths |
| ProxiedMaps.ProxiedMap.constructor | src/fire_prox/proxied_map.py:129-132 | sets the parent, field path, depth and storage |
| ProxiedMaps.ProxiedMap.New | src/fire_prox/proxied_map.py:110-137 | succeeds exactly when every key is valid and every value wraps one level deeper. The new map is well formed, its plain view is the given dict, and nothing is reported |
| ProxiedMaps.ProxiedMap.GetItem | src/fire_prox/proxied_map.py:139-141 | returns the stored value, which unwraps to the plain entry; KeyError when absent |
| ProxiedMaps.ProxiedMap.Len | src/fire_prox/proxied_map.py:175-177 | the number of entries in the plain view |
| ProxiedMaps.ValidateAndWrap | src/fire_prox/proxied_map.py:156-157 | the key check comes first, so an invalid key reports its name error. Otherwise the value is wrapped one level deeper. The call succeeds exactly when the pair is assignable |
| ProxiedMaps.ProxiedMap.SetItem | src/fire_prox/proxied_map.py:156-159 | succeeds exactly when the key is valid and the value wraps. On success only that key changes, the plain view gets `[key := v]`, and the field is reported once. On failure nothing changes and nothing is reported |
| ProxiedMaps.ProxiedMap.DelItem | src/fire_prox/proxied_map.py:168-169 | KeyError with no report when absent; otherwise removes only that key and reports |
| ProxiedMaps.ProxiedMap.Clear | src/fire_prox/proxied_map.py:187-188 | always empties the map and reports |
| ProxiedMaps.ProxiedMap.Pop | src/fire_prox/proxied_map.py:192-194 | KeyError with no report when absent; otherwise removes the key, reports, and returns the unwrapped value |
| ProxiedMaps.ProxiedMap.PopDefault | src/fire_prox/proxied_map.py:192-194 | returns the unwrapped value (removing it), or the default when absent; reports in both cases |
| ProxiedMaps.ProxiedMap.PopItem | src/fire_prox/proxied_map.py:198-200 | KeyError with no report when empty; otherwise removes one entry, reports, and returns its key and unwrapped value |
| ProxiedMaps.ProxiedMap.SetDefault | src/fire_prox/proxied_map.py:216-222 | a present key returns the stored value with no change and no report. An absent key is assigned as by `m[key] = default`, and the wrapped default is returned |
| ProxiedMaps.ProxiedMap.Update | src/fire_prox/proxied_map.py:236-247 | acts as one `m[k] = v` per pair, positional pairs first. On success the plain view is the old one with every pair assigned in order, with one report per pair. On failure the run stops at the first rejected pair and keeps the assignments and reports made before it |
| ProxiedMaps.ProxiedMap.Equals | src/fire_prox/proxied_map.py:261-262 | true exactly for the dict the proxy stands for |
| ProxiedMaps.ProxiedMap.EqualsMap | src/fire_prox/proxied_map.py:259-260 | true exactly when both plain views are equal |
| Sorting.InsertItem | src/fire_prox/proxied_list.py:236 | inserting into a sorted run of one kind gives a sorted run of that kind, with the same items plus the new one |
| Sorting.SortItems | src/fire_prox/proxied_list.py:236 | the result is a sorted permutation of its input |
| ProxiedLists.Reversed | src/fire_prox/proxied_list.py:225 | same length, with item i taken from position n-1-i |
| ProxiedLists.ReversedTwice | src/fire_prox/proxied_list.py:225 | reversing twice gives the list back |
| ProxiedLists.ReversedPermutation | src/fire_prox/proxied_list.py:225 | reversing keeps every item the same number of times |
| ProxiedLists.FirstIndexOf | src/fire_prox/proxied_list.py:215 | none exactly when the value is absent; otherwise the first position holding it |
| ProxiedLists.ProxiedList.constructor | src/fire_prox/proxied_list.py:72-75 | sets the parent, field path, depth and storage |
| ProxiedLists.ProxiedList.New | src/fire_prox/proxied_list.py:72-83 | succeeds exactly when every item wraps one level deeper. The storage keeps length and order, the plain view is the given list, and nothing is reported |
| ProxiedLists.ProxiedList.GetItem | src/fire_prox/proxied_list.py:85-87 | returns the stored item, which unwraps to the plain item; IndexError when out of range |
| ProxiedLists.ProxiedList.Len | src/fire_prox/proxied_list.py:125-127 | the number of items in the plain view |
| ProxiedLists.ProxiedList.SetItem | src/fire_prox/proxied_list.py:108-113 | wraps first, so a wrapping error wins over a bad index. On success it replaces only item i and reports. On failure nothing changes and nothing is reported |
| ProxiedLists.ProxiedList.SetSlice | src/fire_prox/proxied_list.py:103-107 | succeeds exactly when every new value wraps. On success the clamped slice is replaced by the new values, the length may change, and the field is reported |
| ProxiedLists.ProxiedList.DelItem | src/fire_prox/proxied_list.py:122-123 | IndexError with no report when out of range; otherwise removes only item i and reports |
| ProxiedLists.ProxiedList.DelSlice | src/fire_prox/proxied_list.py:122-123 | removes the clamped slice and always reports |
| ProxiedLists.ProxiedList.Insert | src/fire_prox/proxied_list.py:143-145 | wraps first. On success the new item is at the clamped index, the other items keep their order, and the field is reported |
| ProxiedLists.ProxiedList.Append | src/fire_prox/proxied_list.py:166-168 | wraps first. On success the new item is at the end and the field is reported. On failure nothing changes |
| ProxiedLists.ProxiedList.Extend | src/fire_prox/proxied_list.py:183-186 | wraps every value before touching the list. A rejected value leaves the list unchanged. On success the plain view is the old list followed by the values, with one report |
| ProxiedLists.ProxiedList.Pop | src/fire_prox/proxied_list.py:201-203 | IndexError with no report on an empty list; otherwise removes the last item and returns it unwrapped |
| ProxiedLists.ProxiedList.PopAt | src/fire_prox/proxied_list.py:201-203 | IndexError with no report when out of range; otherwise removes item i and returns it unwrapped |
| ProxiedLists.ProxiedList.Remove | src/fire_prox/proxied_list.py:215-216 | ValueError with no report when the value is absent; otherwise removes only its first occurrence and reports |
| ProxiedLists.ProxiedList.Clear | src/fire_prox/proxied_list.py:220-221 | always empties the list and reports |
| ProxiedLists.ProxiedList.Reverse | src/fire_prox/proxied_list.py:225-226 | the items become the reversed list, and the field is reported |
| ProxiedLists.ProxiedList.Sort | src/fire_prox/proxied_list.py:236-237 | TypeError with no report exactly when two items cannot be compared. Otherwise the items become a sorted permutation and the field is reported |
| ProxiedLists.ProxiedList.Equals | src/fire_prox/proxied_list.py:251-252 | true exactly for the list the proxy stands for |
| ProxiedLists.ProxiedList.EqualsList | src/fire_prox/proxied_list.py:249-250 | true exactly when both plain views are equal |
| DocumentState.InitialState | src/fire_prox/base_fire_object.py:59-65 | an explicit initial state wins; otherwise DETACHED without a reference and ATTACHED with one |
| DocumentState.IsDirty | src/fire_prox/base_fire_object.py:98-102 | a DETACHED object is dirty whatever its flag; in every other state the flag alone decides |
| DocumentState.QueriesPartitionStates | src/fire_prox/base_fire_object.py:82-96 | detached, attached and deleted are exclusive and cover every state, and loaded implies attached |
| FireObjects.SetRoute | src/fire_prox/fire_object.py:84-89 | the transaction if given, else the batch if given, else direct |
| FireObjects.DeleteRoute | src/fire_prox/fire_object.py:107-110 | the batch if given, else direct |
| FireObjects.SnapshotData | src/fire_prox/base_fire_object.py:263-271 | a missing document raises ValueError; otherwise its fields, or `{}` when it has none |
| FireObjects.FireObject.constructor | src/fire_prox/base_fire_object.py:54-71 | empty fields; state from `InitialState`; dirty exactly when DETACHED |
| FireObjects.FireObject.FromSnapshot | src/fire_prox/fire_object.py:440-453 | rejects a missing document; otherwise a LOADED, clean object with the snapshot's reference and fields |
| FireObjects.FireObject.SetAttr | src/fire_prox/base_fire_object.py:122-143 | an internal name bypasses the fields. A DELETED object raises and nothing changes. Otherwise the field is stored and the object becomes dirty |
| FireObjects.FireObject.DelAttr | src/fire_prox/base_fire_object.py:145-156 | raises on a DELETED object or an absent field, and nothing changes. Otherwise only that field is removed and the object becomes dirty |
| FireObjects.FireObject.ToDict | src/fire_prox/base_fire_object.py:172-175 | RuntimeError exactly in ATTACHED; otherwise the fields |
| FireObjects.FireObject.ValidateNotDeleted | src/fire_prox/base_fire_object.py:203-204 | RuntimeError exactly in DELETED |
| FireObjects.FireObject.ValidateNotDetached | src/fire_prox/base_fire_object.py:216-217 | ValueError exactly in DETACHED |
| FireObjects.FireObject.MarkClean | src/fire_prox/base_fire_object.py:219-221 | clears the dirty flag and nothing else |
| FireObjects.FireObject.MarkDirty | src/fire_prox/base_fire_object.py:223-225 | sets the dirty flag and nothing else |
| FireObjects.FireObject.TransitionToLoaded | src/fire_prox/base_fire_object.py:227-236 | replaces the fields, becomes LOADED and clean |
| FireObjects.FireObject.TransitionToDeleted | src/fire_prox/base_fire_object.py:238-240 | only the state changes, to DELETED |
| FireObjects.FireObject.CreateDocument | src/fire_prox/fire_object.py:60-72 | ValueError without a parent collection. Otherwise it uses the explicit id exactly when that id is non-empty, else the generated one, and stores the new reference |
| FireObjects.FireObject.WriteSet | src/fire_prox/fire_object.py:74-89 | one set write of the data, on the given reference or else the object's own, routed by `SetRoute`. With neither reference, AttributeError and no write |
| FireObjects.FireObject.WriteUpdate | src/fire_prox/fire_object.py:91-103 | one update write on the object's reference, routed by `SetRoute`. Without a reference, AttributeError and no write |
| FireObjects.FireObject.WriteDelete | src/fire_prox/fire_object.py:105-110 | one delete write on the object's reference, routed by `DeleteRoute`. Without a reference, AttributeError and no write |
| FireObjects.FireObject.Save | src/fire_prox/fire_object.py:263-288 | DELETED raises before any write. DETACHED binds the object to the prepared reference and does one direct set on it. LOADED and clean writes nothing. LOADED and dirty does one routed update. ATTACHED does one routed set. LOADED-and-dirty and ATTACHED objects without a reference raise AttributeError before any write. Each successful save ends LOADED and clean. A failed write leaves the state and flag unchanged |
| FireObjects.FireObject.Delete | src/fire_prox/fire_object.py:350-359 | recursive with a batch, or recursive with batch_size <= 0, raises ValueError before any write. Recursive deletion of a DETACHED or DELETED object raises before any write, and so does recursive deletion of any other object without a reference (AttributeError from listing its subcollections), before `_prepare_delete()` and with the fields and flag unchanged. Otherwise, once `_prepare_delete()` succeeds, the fields and flag become what it leaves. An object without a reference then raises AttributeError with no write. One with a reference gets exactly one routed delete write, and only then the state becomes DELETED. The reference is kept |
| FireObjects.SaveTwiceWritesOnce | src/fire_prox/test_fire_object_phase1.py:77-92 | a new DETACHED object saved once ends LOADED, clean and bound to the prepared reference after exactly one direct set, as the test expects. A second save writes nothing, by the clean LOADED branch at src/fire_prox/fire_object.py:273-274 |
| FireObjects.RecursiveDeleteWithoutReferenceFails | src/fire_prox/fire_object.py:300-303 | an ATTACHED object built without a reference fails a recursive delete with AttributeError while listing its subcollections: its fields and flag stay as they were and nothing is written |
| FireObjects.DeleteWithoutReferenceFails | src/fire_prox/fire_object.py:105-110 | a new DETACHED object has no reference, so even a non-recursive delete raises AttributeError, writes nothing and leaves the object DETACHED |
| FirestorePaths.ValidatePath | src/fire_prox/base_fireprox.py:85-106 | EmptyPath exactly for "". EmptySegment exactly when some segment of the split is empty. Otherwise it passes exactly when a document path has an even number of segments and a collection path an odd number; other path types skip the parity check |
| FirestorePaths.ValidateBySegments | src/fire_prox/base_fireprox.py:89-106 | for a path joined from non-empty segments, the outcome depends only on the segment count |
| FirestorePaths.DocumentPathExample | src/fire_prox/fireprox.py:111-113 | "users/alovelace" is a valid document path |
| FirestorePaths.NestedDocumentPathExample | src/fire_prox/fireprox.py:111-113 | "users/uid/posts/post123" is a valid document path |
| FirestorePaths.CollectionPathExamples | src/fire_prox/fireprox.py:173 | "users" and "users/uid/posts" are valid collection paths |
| FirestorePaths.CollectionPathIsNoDocument | src/fire_prox/base_fireprox.py:97-101 | "users" is rejected as a document path with 1 segment |
| FirestorePaths.DocumentPathIsNoCollection | src/fire_prox/base_fireprox.py:102-106 | "users/alovelace" is rejected as a collection path with 2 segments |
| FirestorePaths.EmptySegmentExamples | src/fire_prox/base_fireprox.py:85-93 | "/users", "users/" and "users//posts" have an empty segment for every path type; "" is empty |
| Strings.Split | src/fire_prox/base_fireprox.py:89 | the number of pieces is one more than the number of separators |
| Strings.JoinSplit | src/fire_prox/base_fireprox.py:89 | joining the pieces with the separator gives the string back |
| Strings.SplitJoin | scripts/bump_version.py:49 | splitting the join of separator-free pieces gives the pieces back |
| Strings.EmptyPieceIff | src/fire_prox/base_fireprox.py:92 | some piece is empty exactly when the string is empty, starts or ends with the separator, or holds two separators in a row |
| Strings.FormatNat | scripts/bump_version.py:62 | the decimal form of a natural number is a non-empty run of digits |
| Strings.FormatInt | scripts/bump_version.py:62 | the decimal form of an integer holds neither '.' nor '/' |
| Strings.FormatIntRoundTrip | scripts/bump_version.py:49-62 | `int(str(n)) == n` |
| BumpVersion.ParseVersion | scripts/bump_version.py:48-51 | succeeds exactly when the version splits into three parts that each parse as integers, and then returns them |
| BumpVersion.Bumped | scripts/bump_version.py:53-61 | major gives (M+1).0.0, minor gives M.(m+1).0, anything else gives M.m.(p+1). The result is always strictly later |
| BumpVersion.FormatBump | scripts/bump_version.py:47-62 | ValueError exactly when the version does not parse |
| BumpVersion.FormatVersion | scripts/bump_version.py:62 | the result splits on '.' into exactly the three formatted numbers |
| BumpVersion.ParseFormatRoundTrip | scripts/bump_version.py:62 | the formatted version parses back to itself |
| BumpVersion.FormatBumpAdvances | scripts/bump_version.py:53-62 | a successful bump yields a version that parses and is strictly later than the input |
| BumpVersion.FormatBumpKinds | scripts/bump_version.py:53-62 | the three kinds of bump, on any formatted version |
| BumpVersion.TooFewPartsRejected | scripts/bump_version.py:48-51 | "1.2" is rejected |
| BumpVersion.TooManyPartsRejected | scripts/bump_version.py:48-51 | "1.2.3.4" is rejected |
| BumpVersion.NonNumericPartRejected | scripts/bump_version.py:48-51 | "1.x.3" is rejected |
| BumpVersion.ChooseTarget | scripts/bump_version.py:84 | a non-empty `--version` wins. Otherwise the current version is bumped by a non-empty `--bump`, or by "patch" when it is absent or empty, and this fails with the current version exactly when that is not `M.m.p` |

## Left out

- Asynchronous variants (`async_fire_object.py` and friends), the network calls (`fetch`, lazy `__getattr__`, `collections()` listing, subcollection deletion), queries, collections, listeners and the client factories are not part of this model.
- Helpers of `save()` and `delete()` whose bodies are not modelled are parameters. `_build_update_dict` and `_prepare_data_for_storage` are the payloads `updates` and `stored`.
- `FireObjects.FireObject.Save`: `_prepare_detached_save` is not part of this model. Its outcome is the parameter `detachedPlan`, a reference and the data to store. The model binds the object to that reference before the write, but does not model how the reference or the data are derived (`doc_id`, auto ids, the transaction and batch arguments it receives). `_prepare_detached_save`, `_build_update_dict` and `_prepare_data_for_storage` are taken to leave the cached fields alone: `Save` promises `data == old(data)`.
- `_should_skip_fetch`, `_process_snapshot` and `_materialize_field` are used only by code left out.
- `FireObjects.FireObject.WriteSet`, `FireObjects.FireObject.WriteUpdate`, `FireObjects.FireObject.WriteDelete`: with no reference, the direct route calls a method on None and raises AttributeError. On the transaction and batch routes the None reaches the database client, which is not part of this model. The model takes it to raise AttributeError there too, before anything is queued.
- `FireObjects.FireObject.Delete`: `_prepare_delete` is not part of this model. Its outcome is the parameter `prepared`, the cached fields and dirty flag it leaves. So the model does not promise the empty cache and clean flag that `src/fire_prox/test_fire_object_phase1.py:110-131` expects after a delete.
- `FireObjects.FireObject.Delete`: `src/fire_prox/test_fire_object_phase1.py:122-131` expects `delete()` on a DETACHED object to become DELETED without a write. The code raises ValueError instead, as its docstring says (`src/fire_prox/fire_object.py:330`): the default `recursive=True` reaches `collections()` (`src/fire_prox/fire_object.py:350-363`), which rejects a DETACHED object (`src/fire_prox/fire_object.py:300`). The model follows the code. With `recursive` false the delete write itself raises AttributeError, because a DETACHED object has no reference (`src/fire_prox/fire_object.py:105-110`). So a DETACHED object is never deleted.
- `FireObjects.FireObject.Delete`: `_delete_descendant_collections` is modelled only by the checks of `collections()`: not DETACHED, not DELETED, and a reference to list from. The subcollections it deletes are not part of the write log.
- Per-field dirty sets, deleted-field sets and atomic operations are not in the modelled files and are not modelled. `_mark_field_dirty` is a parent that only logs the reported path.
- `Wrapping.WrapValue`, `Wrapping.WrapMapData`, `Wrapping.WrapListData` and the container mutators that call them (`ProxiedMaps.ProxiedMap.SetItem`, `ProxiedMaps.ProxiedMap.Update`, `ProxiedMaps.ProxiedMap.SetDefault`, `ProxiedLists.ProxiedList.SetItem`, `ProxiedLists.ProxiedList.SetSlice`, `ProxiedLists.ProxiedList.Insert`, `ProxiedLists.ProxiedList.Append`, `ProxiedLists.ProxiedList.Extend`): inputs are plain values. An existing `ProxiedMap` or `ProxiedList` passed in is stored unchanged by `_wrap_value` (`src/fire_prox/proxied_map.py:48-56`), keeping its own parent, path and depth, with no depth check below it. That case is not captured, so `Valid()` and the depth guarantees hold for plain-value inputs only.
- `ProxiedMaps.ProxiedMap.Update`: the positional argument is a dict or a sequence of pairs. A non-dict mapping, such as a `ProxiedMap`, is iterated as its keys and unpacked (`src/fire_prox/proxied_map.py:238-243`); that case is not modelled.
- Map keys are strings. Python lets a non-string key reach `validate_field_name`, and a string with a lone surrogate makes the UTF-8 length check raise; Dafny's `string` excludes both.
- Nested proxies are value snapshots. A `ProxiedMap` nested inside another is a `Proxy` value in its parent's storage, not a live object shared with the caller, so aliasing between a nested proxy and its container is not captured.
- Python dict insertion order is not modelled. `ProxiedMaps.ProxiedMap.PopItem` removes some entry rather than the most recent one, and `Wrapping.WrapMapData` visits keys in an arbitrary order, so when several entries are invalid the error reported is one of theirs.
- List indices are non-negative; negative indices, slice steps, and `pop()`'s `-1` default other than as "the last item" are left out. Slice bounds are clamped as Python clamps them.
- `ProxiedLists.ProxiedList.Sort`: the `key` and `reverse` arguments and stability are left out. The comparable items are numbers (bool as 0/1) against numbers and strings against strings. When the sort raises TypeError, only the multiset of items is promised, because CPython may leave the list partly reordered.
- Python's `1 == True` and `1 == 1.0` equalities are not modelled: scalars compare structurally, and floats are absent.
- `FireObjects.FireObject.SetAttr`: membership in `_INTERNAL_ATTRS` is the parameter `internal`. The write of an internal attribute itself is not modelled. The branch taken before `_data` exists during construction is left out, because the constructor sets the attributes directly.
- `int()` is restricted to an optional sign followed by ASCII digits. Surrounding whitespace, underscores and non-ASCII digits are not accepted.
- `str.strip()` whitespace is the fixed set of code points `str.isspace()` accepts, and UTF-8 length is computed per code point.
- Error messages are not modelled; each error carries only the data the check saw.
- `src/fire_prox/testing/test_fire_object.py:15` expects a new DETACHED object not to be dirty. The code makes it dirty, and the model follows the code.
- File I/O and argument parsing in `scripts/bump_version.py` (`_read_versions`, `_update_file`, `bump_version`) are left out.
