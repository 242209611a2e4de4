# storage_data in Dafny

A model of the `storage_data` crate: a typed glue (`StorageData`) between one key of the
browser's Web Storage (local or session) and a value, which loads the value lazily, caches it,
tracks whether it was changed through a mutable reference, and writes it back on `save`, on
`drop` and on `take`; the struct that `define_storage!` generates around several such glues;
and the attribute handling of the `WebStorage` macro that produces the `define_storage!` call.

Files:

- `wrappers.dfy` — `Option` and `Result`.
- `web_store.dfy` (module `WebStore`) — the Web Storage as a value `Store`: two namespaces of
  string items, plus a fault oracle (unreachable namespaces, rejected calls) that decides which
  `get_item`, `set_item` and `remove_item` calls fail, as a fixed function of the operation, the
  namespace and the key. The class `Browser` holds the current store
  and keeps a ghost log of every call made to it.
- `cell_spec.dfy` (module `CellSpec`) — one cell as pure state transitions. `Config` is the part
  fixed at construction. `Cell` is the cache slot and the `mutated` flag. Each operation is a
  `...Step` function giving its result, the new cell, the new store and the browser calls, in
  order. `panic!` is the outcome `Panicked`.
- `storage_data.dfy` (module `StorageCell`) — the class `StorageData<V>`, whose methods update
  `value` and `mutated` in place and call the `Browser`. Each method is proved to perform exactly
  its step.
- `cell_properties.dfy` (module `CellProperties`) — properties that relate several operations:
  caching, fallback to the default, write-then-read, the save gate, removal, save on drop, the
  counter scenario, and which call sequences can raise the dirty flag.
- `aggregate.dfy` (module `Aggregate`) — the generated struct, as the class `GeneratedStorage<V>`
  over a sequence of glues and their web names.
- `tokens.dfy` (module `Tokens`) — token trees, `separate_token_stream_by_commas`,
  `ident_and_group` and `group_interior`.
- `derive.dfy` (module `Derive`) — attributes and doc comments, the option-name aliases, the
  struct-level option loop, per-field resolution, and the `WebStorage` entry point.

Foreign code appears as function parameters:
- the codec is a pair `serialize`/`deserialize`, each of which may fail;
- the derive model takes `camel` (camel-casing), `render` (printing a token stream),
  `parseVisibility` (parsing a visibility) and `isKeyword` (whether a word is a Rust keyword,
  which makes a parse as an identifier fail).

The model follows the code in these behaviours a reader may not expect:
- `get_mut` does not raise the dirty flag; only `deref_mut` does (src/lib.rs:422-425, 528-531).
- `set` on a filled cache empties the cache instead of overwriting it (src/lib.rs:435-439).
- `is_set`, and the skip test of `save`, ask whether reading the key fails, not whether the key is
  present (src/lib.rs:445, 475). So after a successful `remove`, `is_set` is still true
  (`CellProperties.RemoveForgets`). And `save` on an untouched cell over a missing key writes
  nothing (`CellProperties.CleanSaveWritesNothing`).
- `take` saves the cell, then drops the emptied cell, and that drop saves again. When the key cannot be read but can be written, the second save writes the default over the value the first one stored (src/lib.rs:461-465, 473-489, 543-545; `CellProperties.TakeOfUnreadableKeyOverwritesChange`).
- `remove` returns the store error early and leaves the cache and the flag untouched
  (src/lib.rs:453).
- The macro and the generated struct are modelled because their logic (option dispatch,
  per-field resolution, non-short-circuiting `clear`/`save`) is part of what the crate does.

## Model

| member | source | states |
|---|---|---|
| WebStore.Store.Read | src/lib.rs:150-154 | A read succeeds iff the namespace is reachable and the call is not rejected. On success it gives `Some` of the stored string exactly when the key is present. |
| WebStore.Store.WriteResult | src/lib.rs:156-170 | A write succeeds iff the namespace is reachable, the lazy serialization succeeds and the call is not rejected. An unreachable namespace is reported before a serialization error. |
| WebStore.Store.Write | src/lib.rs:156-170 | After a successful write the namespace maps the key to the encoded string. A failed write changes nothing, and the other namespace and the fault oracle never change. |
| WebStore.Store.RemoveResult | src/lib.rs:172-176 | A removal succeeds iff the namespace is reachable and the call is not rejected. |
| WebStore.Store.Remove | src/lib.rs:172-176 | After a successful removal the key is gone. A failed removal changes nothing. |
| WebStore.ReadOkIgnoresItems | src/lib.rs:150-154 | Whether a read fails depends only on the fault oracle, never on the stored items. |
| WebStore.ReadAfterWrite | src/lib.rs:150-170 | A successful write is read back unchanged when the key's read does not fail. |
| WebStore.ReadAfterRemove | src/lib.rs:150-176 | After a successful removal, a read that does not fail finds the key missing. |
| WebStore.Browser.GetItem | src/lib.rs:150-154 | Returns the store's read and logs one get call; the store is untouched. |
| WebStore.Browser.SetItem | src/lib.rs:156-170 | Returns the write's result, moves to the written store and logs one set call. |
| WebStore.Browser.RemoveItem | src/lib.rs:172-176 | Returns the removal's result, moves to the store without the key and logs one remove call. |
| CellSpec.NewConfig | src/lib.rs:266-276 | A new cell targets the default namespace with the given key, default and codec, and has `panic_on_cannot_deserialize` and `save_on_drop` both on. |
| CellSpec.SaveOnDrop | src/lib.rs:313-316 | Sets `save_on_drop` and changes nothing else. |
| CellSpec.WithStorage | src/lib.rs:319-322 | Sets the namespace and changes nothing else. |
| CellSpec.WithLocalStorage | src/lib.rs:325-327 | Sets the namespace to Local and changes nothing else. |
| CellSpec.WithSessionStorage | src/lib.rs:330-332 | Sets the namespace to Session and changes nothing else. |
| CellSpec.SerializeWith | src/lib.rs:335-341 | Replaces the serializer and changes nothing else. |
| CellSpec.DeserializeWith | src/lib.rs:344-350 | Replaces the deserializer and changes nothing else. |
| CellSpec.SerdeWith | src/lib.rs:354-360 | Replaces both halves of the codec and changes nothing else. |
| CellSpec.DataFrom | src/lib.rs:184-205 | A stored string gives the deserializer's result. A missing key or a failing read gives `Ok(default())`. |
| CellSpec.Load | src/lib.rs:394-408 | Missing or unreadable key: the default. Decodable entry: the decoded value. Undecodable entry: a panic with the decode error when the cell panics on it, otherwise the default. |
| CellSpec.ResolveStep | src/lib.rs:394-408 | With a filled cache, returns it with no browser call. With an empty cache, reads the key once and returns `Load` of it. A returned value is then the cache, a panic leaves the cache empty, and the flag and the store never change. |
| CellSpec.GetMutStep | src/lib.rs:422-425 | Gives what `resolve` gives, with the same calls. The cache then holds the caller's update of the value, and the dirty flag is unchanged. |
| CellSpec.DerefMutStep | src/lib.rs:528-531 | Always leaves the cell dirty. Returns what `resolve` returns, and the cache holds the updated value. |
| CellSpec.SetStep | src/lib.rs:433-441 | Returns the encode-and-write result, with exactly one set call. An empty cache takes the value and a filled cache is emptied. The flag is unchanged. |
| CellSpec.IsSetStep | src/lib.rs:444-446 | True iff the cache is filled or the key's read does not fail. Reads only when the cache is empty, and changes neither the cell nor the store. |
| CellSpec.SaveStep | src/lib.rs:473-489 | If the cell is not (dirty and filled) and the probe read does not fail: `Ok`, one get call, nothing else. Otherwise `resolve` cannot panic: an empty cache resolves to the default, because the read inside `resolve` fails as the probe did (see "## Left out"). The resolved value is then written, and the flag is cleared only when the write succeeded. `save` never raises the flag. |
| CellSpec.FinalizeStep | src/lib.rs:491-499 | Always ends clean. Empties the cache iff `clear`. Performs `save` iff `save` and `save_on_drop`, with its store and calls; otherwise it touches nothing. |
| CellSpec.RemoveStep | src/lib.rs:452-456 | Returns the removal's result with one remove call. On failure the cell and the store are untouched. On success the cache is empty, the cell is clean and the key is gone. |
| CellSpec.RemoveFinalizes | src/lib.rs:452-456 | A successful `remove` is the removal followed by `finalize_use(true, false)`. |
| CellSpec.TakeStep | src/lib.rs:461-465 | `take` returns exactly what `resolve` on the original cell returns, whatever the saves on the way do. A taken cell ends empty and clean. A cell that does not save on drop leaves the store unchanged. |
| StorageCell.GetDataWith | src/lib.rs:184-205 | Returns `DataFrom` of the browser's read, with one get call. |
| StorageCell.SetData | src/lib.rs:210-227 | Returns the write's result with the serialized value, and the browser moves to the written store. |
| StorageCell.StorageData.constructor | src/lib.rs:266-298 | The new cell has the given configuration, an empty cache and a clean flag; it takes no browser, so the store is not touched. |
| StorageCell.StorageData.Resolve | src/lib.rs:394-408 | Performs `ResolveStep`: same result, cell state, store and browser calls. |
| StorageCell.StorageData.Get | src/lib.rs:414-416 | Performs `ResolveStep`. |
| StorageCell.StorageData.GetMut | src/lib.rs:422-425 | Performs `GetMutStep`. |
| StorageCell.StorageData.DerefMut | src/lib.rs:528-531 | Performs `DerefMutStep`. |
| StorageCell.StorageData.Set | src/lib.rs:433-441 | Performs `SetStep`. |
| StorageCell.StorageData.IsSet | src/lib.rs:444-446 | Performs `IsSetStep`; the cell is unchanged. |
| StorageCell.StorageData.Remove | src/lib.rs:452-456 | Performs `RemoveStep`. |
| StorageCell.StorageData.Save | src/lib.rs:473-489 | Performs `SaveStep`. |
| StorageCell.StorageData.FinalizeUse | src/lib.rs:491-499 | Performs `FinalizeStep`. |
| StorageCell.StorageData.Drop | src/lib.rs:543-545 | Performs `finalize_use(true, true)`, after which the cell is no longer usable. |
| StorageCell.StorageData.Take | src/lib.rs:461-465 | Performs `TakeStep`; a cell that returned its value is consumed. |
| CellProperties.ResolveIsCached | src/lib.rs:394-416 | Once `resolve` has returned, the next `resolve` returns the same value with no browser call, whatever the store has become. |
| CellProperties.MissingKeyGivesDefault | src/lib.rs:196-204 | A fresh cell over a missing or unreadable key reads `default()`. |
| CellProperties.UndecodableEntry | src/lib.rs:402-406 | A fresh cell over an undecodable entry panics with the decode error when `panic_on_cannot_deserialize` holds, and reads `default()` otherwise. |
| CellProperties.SetThenFreshGet | src/lib.rs:433-441 | With a codec that reads back what it writes, a successful `set(v)` makes a fresh cell over the same key read `v`. |
| CellProperties.CleanSaveWritesNothing | src/lib.rs:473-478 | `save` on an untouched cell whose key can be read (present or not) returns `Ok` after one get call and writes nothing. |
| CellProperties.CleanSaveOnUnreadableKeyWritesDefault | src/lib.rs:473-489 | `save` on an untouched cell whose key cannot be read writes the default and returns that write's result. |
| CellProperties.RemoveForgets | src/lib.rs:444-456 | After a successful `remove`, the next read gives the default, yet `is_set` is true. |
| CellProperties.DirtyEmptyCellIsNotSaved | src/lib.rs:433-441 | `set` on a cell changed through `deref_mut` leaves an empty, dirty cache. A `save` after it skips with `Ok` when the key can be read, and the cell stays dirty. |
| CellProperties.DirtyDropPersists | src/lib.rs:528-545 | A value changed through `deref_mut` is in the store after the drop, when the cell saves on drop and the write succeeds. |
| CellProperties.TakeSavesChangedValue | src/lib.rs:461-465 | `take` of a cell changed through `deref_mut`, over a readable and writable key, returns the changed value and leaves it stored. |
| CellProperties.TakeOfUnreadableKeyOverwritesChange | src/lib.rs:461-465 | Over a key that cannot be read but can be written, `take` of a changed cell returns the changed value, but the implicit drop overwrites the stored value with the default. |
| CellProperties.TakeOfUnreadableKeyStoresDefault | src/lib.rs:461-465 | `take` of a fresh cell over an unreadable but writable key returns the default and leaves it stored. |
| CellProperties.CounterScenario | src/lib.rs:394-545 | Key "count", default 0, nothing stored: a read gives 0; an increment through `deref_mut` and a drop store the encoded 1; a fresh cell then reads 1. |
| CellProperties.Apply | src/lib.rs:394-531 | A call that aborts leaves the store untouched. |
| CellProperties.OnlyDerefMutDirties | src/lib.rs:528-531 | No sequence of `get`, `get_mut`, `set`, `is_set`, `save` and `remove` makes a clean cell dirty. |
| CellProperties.CachedReadsStayOffTheStore | src/lib.rs:414-425 | On a filled cache, any sequence of `get` and `get_mut`: never aborts, never calls the browser, keeps the cache filled and keeps the flag. |
| Aggregate.Collected | src/macros.rs:96-112 | `Ok` iff no glue failed. Otherwise the failed web names in field order when they are asked for, and the empty list when not. |
| Aggregate.FailedNamesMembers | src/macros.rs:99-105 | A web name is listed iff some glue with that name failed. |
| Aggregate.FailedNamesAppend | src/macros.rs:99-105 | The failures are listed in field order: those of a prefix of the fields come first. |
| Aggregate.FailedNamesLength | src/macros.rs:99-105 | Exactly one name is listed per failed glue. |
| Aggregate.CountSet | src/macros.rs:85-93 | The number of glues that report `is_set` is at most the number of glues. |
| Aggregate.ReachableStoreCountsEveryGlue | src/macros.rs:85-93 | When every glue's key can be read, every glue counts as initialized, stored or not. |
| Aggregate.GlueConfig | src/macros.rs:69-79 | A glue is built with its web name and default, both flags on, and the given namespace, or the default namespace when none was given. |
| Aggregate.RemoveSweep | src/macros.rs:96-112 | One outcome and one new cell per glue. Keys are only ever removed from the store. |
| Aggregate.RemoveSweepSplit | src/macros.rs:96-112 | The sweep from a field is the sweep up to any later field, followed by the rest of the sweep on the store and log that first part leaves. |
| Aggregate.RemoveSweepGlue | src/macros.rs:99-105 | Glue `j`'s outcome and new cell are those of `RemoveStep` on the store the glues before it leave. |
| Aggregate.RemovedGluesAreGone | src/macros.rs:96-112 | Every glue whose removal succeeded ends with an empty, clean cache, and its key is not stored when the sweep is over. |
| Aggregate.SaveSweep | src/macros.rs:119-135 | One outcome and one new cell per glue. |
| Aggregate.SaveSweepSplit | src/macros.rs:119-135 | The sweep from a field is the sweep up to any later field, followed by the rest of the sweep on the store and log that first part leaves. |
| Aggregate.SaveSweepGlue | src/macros.rs:122-128 | Glue `j`'s outcome and new cell are those of `SaveStep` on the store the glues before it leave. |
| Aggregate.ChangedGluesAreSaved | src/macros.rs:119-135 | After the sweep, a glue that is dirty and holds a value is one whose save failed. |
| Aggregate.GeneratedStorage.constructor | src/macros.rs:69-79 | One distinct, live glue per field, built by `GlueConfig` with an empty cache and a clean flag. |
| Aggregate.GeneratedStorage.Len | src/macros.rs:81-83 | The declared field count, which is the number of glues. |
| Aggregate.GeneratedStorage.LenInitialized | src/macros.rs:85-93 | The number of glues whose `is_set` holds against the current store, so at most `len()`; the browser calls are exactly those `is_set` calls. |
| Aggregate.GeneratedStorage.CountFrom | src/macros.rs:87-91 | Counts the `is_set` glues from a field on. |
| Aggregate.GeneratedStorage.Clear | src/macros.rs:96-112 | Runs `remove` on every glue in field order without stopping at a failure. Returns `Collected` of the failures, and leaves every glue and the store as that sweep does. |
| Aggregate.GeneratedStorage.ClearField | src/macros.rs:99-105 | The statement for one field: that glue performs `RemoveStep`, and the other glues are untouched. |
| Aggregate.GeneratedStorage.ClearFrom | src/macros.rs:99-105 | The statements from a field on: the error flag is set iff one of them failed, and the list holds their failed names when asked. |
| Aggregate.GeneratedStorage.Save | src/macros.rs:119-135 | Runs `save` on every glue in field order without stopping at a failure. Returns `Collected` of the failures, and leaves every glue and the store as that sweep does. |
| Aggregate.GeneratedStorage.SaveField | src/macros.rs:122-128 | The statement for one field: that glue performs `SaveStep`, and the other glues are untouched. |
| Aggregate.GeneratedStorage.SaveFrom | src/macros.rs:122-128 | The statements from a field on: the error flag is set iff one of them failed, and the list holds their failed names when asked. |
| Tokens.Pieces | derive_web_storage/src/lib.rs:280-301 | The split yields no piece exactly for empty input. |
| Tokens.SeparateByCommas | derive_web_storage/src/lib.rs:280-301 | The loop with its buffer yields exactly `Pieces` of the input. |
| Tokens.PiecesAreCommaFree | derive_web_storage/src/lib.rs:283-293 | No piece contains a comma. |
| Tokens.PiecesConcatenate | derive_web_storage/src/lib.rs:283-296 | Concatenating the pieces in order gives the input with its commas removed. |
| Tokens.PiecesCount | derive_web_storage/src/lib.rs:288-296 | One piece per comma (empty for adjacent or leading commas), plus a final piece only when tokens follow the last comma. |
| Tokens.JoinPieces | derive_web_storage/src/lib.rs:280-301 | Joining the pieces with commas, plus a trailing comma when the input ended with one, gives the input back. |
| Tokens.IdentAndGroup | derive_web_storage/src/lib.rs:303-332 | `Some((name, group))` iff the stream is one identifier followed by one group and nothing else, and the name is not a keyword. For a keyword in that place, the `unwrap` panics. `None` in every other case. |
| Tokens.GroupInterior | derive_web_storage/src/lib.rs:334-343 | The stream inside a leading group. The input unchanged when it is empty or starts with another token. |
| Tokens.InteriorOfWrapped | derive_web_storage/src/lib.rs:334-343 | Wrapping tokens in a group of any delimiter and unwrapping them gives them back. |
| Derive.ExtractDocComment | derive_web_storage/src/lib.rs:345-358 | `Some(s)` iff the attribute is `doc = "s"` with a string literal, and then `s` is its value. |
| Derive.DocLines | derive_web_storage/src/lib.rs:184-191 | At most one doc line per attribute; no lines iff no attribute is a doc comment. |
| Derive.DocLinesOne | derive_web_storage/src/lib.rs:184-191 | One attribute gives its extracted doc comment, or nothing when it is not a doc comment. |
| Derive.DocLinesConcat | derive_web_storage/src/lib.rs:184-191 | The lines of two attribute lists in a row are the lines of the first followed by those of the second. |
| Derive.UndocumentedField | derive_web_storage/src/lib.rs:184-191 | A field with no `doc` attribute gets the empty documentation string. |
| Derive.ClassifyIgnoresCase | derive_web_storage/src/lib.rs:141 | Option names that differ only in letter case select the same option. |
| Derive.RemoveSpaces | derive_web_storage/src/lib.rs:144 | The result holds no space, is no longer than the input, and equals a space-free input. |
| Derive.RemoveSpacesOne | derive_web_storage/src/lib.rs:144 | One character is dropped iff it is a space. |
| Derive.RemoveSpacesConcat | derive_web_storage/src/lib.rs:144 | Removing spaces from a concatenation is concatenating the two space-free parts, so every other character is kept, in order. |
| Derive.Classified | derive_web_storage/src/lib.rs:140-141 | Each recognized option paired with the option its name selects, in order. |
| Derive.ApplyOption | derive_web_storage/src/lib.rs:141-174 | One turn of the option loop aborts iff it is a visibility option whose contents do not parse as a visibility. |
| Derive.ResolveOptions | derive_web_storage/src/lib.rs:131-176 | The loop that reassigns `prepend`, the constructor visibility and the storage kind yields `Configure` of the classified options, starting from no prepend, the struct's visibility and no storage kind. |
| Derive.ConfigureFails | derive_web_storage/src/lib.rs:154-163 | The options abort iff some visibility option does not parse, and the error is the first such option's contents. |
| Derive.LastPrependWins | derive_web_storage/src/lib.rs:142-145 | The prepend string is that of the last prepend option, or the starting one if there is none. |
| Derive.LastVisibilityWins | derive_web_storage/src/lib.rs:146-165 | The constructor visibility is the parse of the last visibility option, or the starting one if there is none. |
| Derive.LastStorageKindWins | derive_web_storage/src/lib.rs:166-172 | The storage kind is the interior of the last storage-kind option, or the starting one if there is none. |
| Derive.KnownOptions | derive_web_storage/src/lib.rs:140-175 | Filters out the options whose names match no alias. |
| Derive.UnknownOptionsIgnored | derive_web_storage/src/lib.rs:173 | Dropping the options with unknown names does not change the outcome. |
| Derive.PrependHasNoSpaces | derive_web_storage/src/lib.rs:144 | The resulting prepend string never contains a space. |
| Derive.Recognize | derive_web_storage/src/lib.rs:124-129 | Aborts iff some piece has a keyword in the identifier place. Otherwise it keeps at most one option per piece, each of them recognized by `ident_and_group` in some piece. |
| Derive.RecognizeOne | derive_web_storage/src/lib.rs:124-129 | One piece aborts on a keyword, gives nothing when `ident_and_group` finds no option, and otherwise gives exactly the option it finds. |
| Derive.RecognizeConcat | derive_web_storage/src/lib.rs:124-129 | Two lists of pieces in a row: the first one's abort wins; otherwise the second one's abort, or else the first list's options followed by the second's. |
| Derive.AttributeName | derive_web_storage/src/lib.rs:205-206 | An attribute has a name iff its path is one segment that is not a keyword. |
| Derive.SeparatedAttributes | derive_web_storage/src/lib.rs:193-211 | Panics iff the field has a bare-path attribute. Otherwise it gives at most one named pair per attribute. |
| Derive.SeparatedAttributesOne | derive_web_storage/src/lib.rs:193-211 | One attribute: a bare path panics, an unnamed one gives nothing, and a named one gives its name paired with the interior of its meta tokens. |
| Derive.SeparatedAttributesConcat | derive_web_storage/src/lib.rs:193-211 | Two attribute lists in a row succeed iff both do, and then give the first one's pairs followed by the second one's. |
| Derive.FieldOptions | derive_web_storage/src/lib.rs:215-216 | Each field attribute paired with the option its name selects, in order. |
| Derive.LastStorageKind | derive_web_storage/src/lib.rs:213-227 | The contents of the last storage-kind attribute, or none iff no attribute selects the storage kind. |
| Derive.LastStorageKindAppend | derive_web_storage/src/lib.rs:213-227 | A storage-kind pair at the end of the field's pairs is the one chosen. |
| Derive.LastStorageAttributeWins | derive_web_storage/src/lib.rs:193-229 | Appending a storage-kind attribute to a field without bare-path attributes makes the field's glue succeed with that attribute's interior as its storage kind. |
| Derive.FieldStorageKind | derive_web_storage/src/lib.rs:213-227 | The field-level loop ends with the last storage-kind attribute's contents. |
| Derive.DefaultTokens | derive_web_storage/src/lib.rs:237-253 | The tokens of the first `default` attribute, or `Default::default()` when there is none. |
| Derive.FieldGlue | derive_web_storage/src/lib.rs:181-265 | Fails iff the field has a bare-path attribute. Otherwise: the web name is the prepend followed by the camel-cased field name; the storage kind is the field's own, else the struct-level one; the default comes from `DefaultTokens` and the documentation is the joined doc lines. |
| Derive.ResolveField | derive_web_storage/src/lib.rs:181-265 | The per-field code yields exactly `FieldGlue`. |
| Derive.ResolveFields | derive_web_storage/src/lib.rs:181-266 | Fails iff some field has a bare-path attribute. Otherwise there is one glue per field, in order, each its `FieldGlue`. |
| Derive.WebStorage | derive_web_storage/src/lib.rs:91-278 | Rejects a non-struct and a struct of unnamed fields, and passes on an option error. Otherwise it fails iff a field has a bare-path attribute. On success: the struct's visibility and name, the resolved constructor visibility, `len` equal to the field count, and one `FieldGlue` per field in order. |

## Left out

- `StorageKind::web_sys_storage` and the `web_sys` calls behind `get_item`, `set_item` and `remove_item` (src/lib.rs:136-176): browser bindings. They are replaced by the abstract `Store` with its fault oracle. Logging of errors (src/log_error.rs) is not modelled; an error is kept as a value.
- The serde codecs of src/serdes.rs and the `serde_json`/`serde_bincode`/`serde_yaml`/`serde_ron`/`serde_cbor` builders (src/lib.rs:364-392): foreign libraries. The codec is a pair of parameters. Reading back what was written (`RoundTrips`) is only a hypothesis of the lemmas that need it.
- The `Display` and `Debug` impls (src/lib.rs:549-570): formatting only.
- `OnceCell` is an `Option` field. Nothing here is concurrent.
- `panic!` is the outcome `Panicked`, and nothing after it is modelled. A panic inside `drop` during unwinding is not modelled.
- The `panic_on_cannot_deserialize` flag has no builder in the source, so it is always on there. The model keeps it as a configuration field so that both branches of `resolve` are stated.
- WebStore.Store / CellSpec.SaveStep: whether a browser call fails is a fixed function of the operation, the namespace and the key (the store's fault oracle). So two reads of one key in a row, such as the probe of `save` (src/lib.rs:475) and the read inside `resolve` (src/lib.rs:396, reached from 482), always agree. The statements that `save` never aborts, and hence that the saves in `FinalizeStep` (which also models `drop`) and in `TakeStep` never abort, rely on that. A browser whose second read succeeds after the first one failed, finding an undecodable entry, would make `save` panic in the source; the model does not capture that.
- CellSpec.SaveOnDrop, CellSpec.WithStorage, CellSpec.WithLocalStorage, CellSpec.WithSessionStorage, CellSpec.SerializeWith, CellSpec.DeserializeWith, CellSpec.SerdeWith / StorageCell.StorageData.constructor: the builders (src/lib.rs:313-360) take the cell by value and can be applied to a cell that is already in use, for example after `get` or `deref_mut`. The cell then keeps its cached value and its dirty flag, and only the namespace, the codec or `save_on_drop` changes. The model applies the builders to a `Config` before construction, and a `StorageData`'s configuration is constant, so it does not capture a cache or a dirty flag carried over into a new configuration.
- WebStore.DefaultStorageKind: fixed to `Local`, whereas src/lib.rs:249-254 picks it by a crate feature (`default_storage_local` or `default_storage_session`). No contract depends on which one it is.
- Aggregate.GeneratedStorage: every glue holds the same value type `V`, whereas the generated struct's fields have their own types. The unrolled per-field statements of `len_initialized`, `clear` and `save` are modelled as recursion over the field index.
- The doc comments the macro generates, and `storage_kind_for_doc` (derive_web_storage/src/lib.rs:135-138, 168-169, 214-231): text used only for documentation.
- The `quote!` code emission is reduced to the values it carries (`Expansion`, `Glue`). The `define_storage!` parsing of that output is not modelled.
- `convert_case` camel-casing, token printing (`to_string`), `syn`'s visibility parser and its keyword test are parameters of the derive model.
- Derive.ToLower and Derive.Trim: cover ASCII letters and ASCII whitespace only, not Unicode case folding or Unicode whitespace.
- Derive.DefaultTokens: selects the `default` attribute by `Path::is_ident`, a one-segment path with no leading `::`. The source compares the printed path with `"default"`; the two agree except for paths with unusual spacing.
- Error diagnostics (derive_web_storage/src/error_messages.rs) are reduced to the `Rejection` values `ExpectedStruct`, `FieldsMustBeNamed` and `ExpectedVisibility`. A panic of the macro is `KeywordOptionPanic` or `PathAttributePanic`. The `unreachable!()` at derive_web_storage/src/lib.rs:247 cannot be reached, because bare-path attributes stop the macro earlier.
- Field attributes that `syn` parses as other expressions keep only their tokens (`OtherExpr`). The model does not parse Rust expressions.
