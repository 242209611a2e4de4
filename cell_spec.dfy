/**
 * The behaviour of one `StorageData` cell as pure state transitions.
 *
 * A cell is configured once (`Config`: namespace, key, default supplier, the two flags and the
 * codec) and carries a small mutable state (`Cell`: the lazily filled cache slot and the
 * `mutated` dirty flag). Every operation is a function from the cell state and the store to a
 * `Step`: what the operation returns, the new cell state, the new store, and the calls it made
 * to the browser, in order. The class in storage_data.dfy is proved to perform exactly these
 * steps; the properties of `StorageData` are proved here, on the steps.
 */
module CellSpec {
  import opened Wrappers
  import opened WebStore

  /** What an operation that may `panic!` produces: its value, or an abort with the error. */
  datatype Outcome<+T> = Returned(value: T) | Panicked(error: Error)

  /** The fixed part of a cell: everything but the cache and the dirty flag. */
  datatype Config<!V> = Config(
    kind: StorageKind,
    key: string,
    default: () -> V,
    panicOnCannotDeserialize: bool,
    saveOnDrop: bool,
    serialize: V -> Result<string, Error>,
    deserialize: string -> Result<V, Error>)

  /** The mutable part of a cell: the cache slot (a `OnceCell`) and the dirty flag. */
  datatype Cell<V> = Cell(value: Option<V>, mutated: bool)

  /** The effect of one operation. */
  datatype Step<V, T> = Step(result: T, cell: Cell<V>, store: Store, accesses: seq<Access>)

  /** The codec reads back what it wrote; assumed of the abstract codec only where stated. */
  ghost predicate RoundTrips<V(!new)>(serialize: V -> Result<string, Error>, deserialize: string -> Result<V, Error>) {
    forall v :: serialize(v).Ok? ==> deserialize(serialize(v).value) == Ok(v)
  }

  /** The configuration `StorageData::new` builds: default namespace, both flags on. */
  function NewConfig<V>(key: string, default: () -> V, serialize: V -> Result<string, Error>,
                        deserialize: string -> Result<V, Error>): (c: Config<V>)
    ensures c.kind == DefaultStorageKind && c.key == key && c.default == default
    ensures c.panicOnCannotDeserialize && c.saveOnDrop
    ensures c.serialize == serialize && c.deserialize == deserialize
  {
    Config(DefaultStorageKind, key, default, true, true, serialize, deserialize)
  }

  /*
   * The builders consume the cell and return it with one option changed. The model applies them
   * to the configuration before the cell is constructed, so a modelled cell keeps one
   * configuration for its whole life.
   */

  /** `save_on_drop`. */
  function SaveOnDrop<V>(c: Config<V>, updateOnDrop: bool): (r: Config<V>)
    ensures r.saveOnDrop == updateOnDrop && r.(saveOnDrop := c.saveOnDrop) == c
  {
    c.(saveOnDrop := updateOnDrop)
  }

  /** `with_storage`. */
  function WithStorage<V>(c: Config<V>, storageKind: StorageKind): (r: Config<V>)
    ensures r.kind == storageKind && r.(kind := c.kind) == c
  {
    c.(kind := storageKind)
  }

  /** `with_local_storage`. */
  function WithLocalStorage<V>(c: Config<V>): (r: Config<V>)
    ensures r.kind == Local && r.(kind := c.kind) == c
  {
    WithStorage(c, Local)
  }

  /** `with_session_storage`. */
  function WithSessionStorage<V>(c: Config<V>): (r: Config<V>)
    ensures r.kind == Session && r.(kind := c.kind) == c
  {
    WithStorage(c, Session)
  }

  /** `serialize_with`. */
  function SerializeWith<V>(c: Config<V>, f: V -> Result<string, Error>): (r: Config<V>)
    ensures r.serialize == f && r.(serialize := c.serialize) == c
  {
    c.(serialize := f)
  }

  /** `deserialize_with`. */
  function DeserializeWith<V>(c: Config<V>, f: string -> Result<V, Error>): (r: Config<V>)
    ensures r.deserialize == f && r.(deserialize := c.deserialize) == c
  {
    c.(deserialize := f)
  }

  /** `serde_with`: `serialize_with` then `deserialize_with`. */
  function SerdeWith<V>(c: Config<V>, ser: V -> Result<string, Error>, de: string -> Result<V, Error>): (r: Config<V>)
    ensures r.serialize == ser && r.deserialize == de
    ensures r.(serialize := c.serialize, deserialize := c.deserialize) == c
  {
    DeserializeWith(SerializeWith(c, ser), de)
  }

  /** The state of a cell that has not been used: empty cache, not dirty. */
  function Fresh<V>(): Cell<V> {
    Cell(None, false)
  }

  /**
   * `get_data_with` after the store read: a failing read and a missing key both give the
   * default (`.ok().flatten()`), a stored string gives whatever the deserializer makes of it.
   */
  function DataFrom<V>(item: Result<Option<string>, Error>, default: () -> V,
                       deserialize: string -> Result<V, Error>): (r: Result<V, Error>)
    ensures item.Ok? && item.value.Some? ==> r == deserialize(item.value.value)
    ensures item.Err? || item.value.None? ==> r == Ok(default())
  {
    var stored := match item.ToOption() case Some(inner) => inner case None => None;
    match stored
    case None => Ok(default())
    case Some(s) => deserialize(s)
  }

  /** The value `resolve` caches after reading `item`: a deserialize error aborts or falls back. */
  function Load<V>(c: Config<V>, item: Result<Option<string>, Error>): (r: Outcome<V>)
    ensures item.Err? || item.value.None? ==> r == Returned(c.default())
    ensures item.Ok? && item.value.Some? && c.deserialize(item.value.value).Ok? ==>
              r == Returned(c.deserialize(item.value.value).value)
    ensures item.Ok? && item.value.Some? && c.deserialize(item.value.value).Err? ==>
              r == if c.panicOnCannotDeserialize then Panicked(c.deserialize(item.value.value).error)
                   else Returned(c.default())
  {
    match DataFrom(item, c.default, c.deserialize)
    case Ok(v) => Returned(v)
    case Err(e) => if c.panicOnCannotDeserialize then Panicked(e) else Returned(c.default())
  }

  /** `resolve`: the cached value, or a single store read that fills the cache. */
  function ResolveStep<V>(c: Config<V>, cell: Cell<V>, s: Store): (r: Step<V, Outcome<V>>)
    ensures r.store == s && r.cell.mutated == cell.mutated
    ensures cell.value.Some? ==> r.result == Returned(cell.value.value) && r.cell == cell && r.accesses == []
    ensures cell.value.None? ==>
              r.result == Load(c, s.Read(c.kind, c.key)) && r.accesses == [Access(GetOp, c.kind, c.key)]
    ensures r.result.Returned? ==> r.cell.value == Some(r.result.value)
    ensures r.result.Panicked? ==> r.cell.value.None?
  {
    match cell.value
    case Some(v) => Step(Returned(v), cell, s, [])
    case None =>
      var loaded := Load(c, s.Read(c.kind, c.key));
      var value := match loaded case Returned(v) => Some(v) case Panicked(_) => None;
      Step(loaded, Cell(value, cell.mutated), s, [Access(GetOp, c.kind, c.key)])
  }

  /**
   * `get_mut` followed by the caller writing `update` of the value through the reference: the
   * cache takes the new value, and the dirty flag is NOT raised.
   */
  function GetMutStep<V>(c: Config<V>, cell: Cell<V>, s: Store, update: V -> V): (r: Step<V, Outcome<V>>)
    ensures r.result == ResolveStep(c, cell, s).result
    ensures r.store == s && r.accesses == ResolveStep(c, cell, s).accesses
    ensures r.cell.mutated == cell.mutated
    ensures r.result.Returned? ==> r.cell.value == Some(update(r.result.value))
  {
    var rs := ResolveStep(c, cell, s);
    match rs.result
    case Returned(v) => Step(rs.result, Cell(Some(update(v)), rs.cell.mutated), s, rs.accesses)
    case Panicked(_) => rs
  }

  /** `deref_mut`: raises the dirty flag, then behaves as `get_mut`. */
  function DerefMutStep<V>(c: Config<V>, cell: Cell<V>, s: Store, update: V -> V): (r: Step<V, Outcome<V>>)
    ensures r.cell.mutated
    ensures r.result == ResolveStep(c, cell, s).result && r.store == s
    ensures r.result.Returned? ==> r.cell.value == Some(update(r.result.value))
  {
    GetMutStep(c, cell.(mutated := true), s, update)
  }

  /**
   * `set`: always writes the encoded value through; the cache takes the value only if it was
   * empty, and is emptied if it was filled. The write's outcome is returned.
   */
  function SetStep<V>(c: Config<V>, cell: Cell<V>, s: Store, v: V): (r: Step<V, Result<(), Error>>)
    ensures r.result == s.WriteResult(c.kind, c.key, c.serialize(v))
    ensures r.store == s.Write(c.kind, c.key, c.serialize(v))
    ensures r.accesses == [Access(SetOp, c.kind, c.key)]
    ensures cell.value.None? ==> r.cell.value == Some(v)
    ensures cell.value.Some? ==> r.cell.value.None?
    ensures r.cell.mutated == cell.mutated
  {
    var res := s.WriteResult(c.kind, c.key, c.serialize(v));
    var couldntSetAndItWasInitialized := cell.value.Some?;
    var value := if couldntSetAndItWasInitialized then None else Some(v);
    Step(res, Cell(value, cell.mutated), s.Write(c.kind, c.key, c.serialize(v)), [Access(SetOp, c.kind, c.key)])
  }

  /**
   * `is_set`: a filled cache, or else a store read that does not fail (a missing key counts).
   * It never fills the cache and never writes.
   */
  function IsSetStep<V>(c: Config<V>, cell: Cell<V>, s: Store): (r: Step<V, bool>)
    ensures r.cell == cell && r.store == s
    ensures r.result <==> cell.value.Some? || s.Read(c.kind, c.key).Ok?
    ensures r.accesses == if cell.value.Some? then [] else [Access(GetOp, c.kind, c.key)]
  {
    if cell.value.Some? then Step(true, cell, s, [])
    else Step(s.Read(c.kind, c.key).Ok?, cell, s, [Access(GetOp, c.kind, c.key)])
  }

  /** When `save` returns without writing: the cell is clean or empty, and the key reads without error. */
  predicate SaveSkips<V>(c: Config<V>, cell: Cell<V>, s: Store) {
    var wasChanged := cell.mutated && cell.value.Some?;
    !wasChanged && s.Read(c.kind, c.key).Ok?
  }

  /**
   * `save`: either skips with `Ok`, or resolves the value and writes it, clearing the dirty
   * flag only when the write succeeded. In this model it never aborts: with an empty cache it
   * only gets past the skip when the key's read fails, and since a read's failure is fixed by the
   * store's fault oracle, the read inside `resolve` fails too and falls back to the default.
   */
  function SaveStep<V>(c: Config<V>, cell: Cell<V>, s: Store): (r: Step<V, Result<(), Error>>)
    ensures SaveSkips(c, cell, s) ==> r == Step(Ok(()), cell, s, [Access(GetOp, c.kind, c.key)])
    ensures !SaveSkips(c, cell, s) ==> ResolveStep(c, cell, s).result.Returned?
    ensures !SaveSkips(c, cell, s) && cell.value.None? ==> ResolveStep(c, cell, s).result == Returned(c.default())
    ensures !SaveSkips(c, cell, s) ==>
              var v := ResolveStep(c, cell, s).result.value;
              r.result == s.WriteResult(c.kind, c.key, c.serialize(v)) &&
              r.store == s.Write(c.kind, c.key, c.serialize(v)) &&
              r.cell.value == Some(v) &&
              r.cell.mutated == (if r.result.Ok? then false else cell.mutated) &&
              r.accesses == [Access(GetOp, c.kind, c.key)] + ResolveStep(c, cell, s).accesses + [Access(SetOp, c.kind, c.key)]
    ensures r.cell.mutated ==> cell.mutated
  {
    var probe := [Access(GetOp, c.kind, c.key)];
    if SaveSkips(c, cell, s) then Step(Ok(()), cell, s, probe)
    else
      var rs := ResolveStep(c, cell, s);
      assert rs.result.Returned?;
      var v := rs.result.value;
      var res := s.WriteResult(c.kind, c.key, c.serialize(v));
      var mutated := if res.Ok? then false else rs.cell.mutated;
      Step(res, Cell(rs.cell.value, mutated), s.Write(c.kind, c.key, c.serialize(v)),
           probe + rs.accesses + [Access(SetOp, c.kind, c.key)])
  }

  /**
   * `finalize_use(clear, save)`: saves (ignoring the result) iff `save` and the cell saves on
   * drop, empties the cache iff `clear`, and always ends clean.
   */
  function FinalizeStep<V>(c: Config<V>, cell: Cell<V>, s: Store, clear: bool, save: bool): (r: Step<V, ()>)
    ensures !r.cell.mutated
    ensures clear ==> r.cell.value.None?
    ensures !(save && c.saveOnDrop) ==>
              r.store == s && r.accesses == [] && r.cell == Cell(if clear then None else cell.value, false)
    ensures save && c.saveOnDrop ==>
              r.store == SaveStep(c, cell, s).store && r.accesses == SaveStep(c, cell, s).accesses &&
              (!clear ==> r.cell.value == SaveStep(c, cell, s).cell.value)
  {
    if save && c.saveOnDrop then
      var sv := SaveStep(c, cell, s);
      Step((), Cell(if clear then None else sv.cell.value, false), sv.store, sv.accesses)
    else
      Step((), Cell(if clear then None else cell.value, false), s, [])
  }

  /**
   * `remove`: a failing removal is returned with the cell untouched; a successful one empties
   * the cache and clears the dirty flag, without saving.
   */
  function RemoveStep<V>(c: Config<V>, cell: Cell<V>, s: Store): (r: Step<V, Result<(), Error>>)
    ensures r.result == s.RemoveResult(c.kind, c.key)
    ensures r.result.Err? ==> r.cell == cell && r.store == s
    ensures r.result.Ok? ==> r.cell == Cell(None, false) && r.store == s.Remove(c.kind, c.key)
    ensures r.accesses == [Access(RemoveOp, c.kind, c.key)]
  {
    var acc := [Access(RemoveOp, c.kind, c.key)];
    var removed := s.RemoveResult(c.kind, c.key);
    if removed.Err? then Step(removed, cell, s, acc)
    else Step(Ok(()), Cell(None, false), s.Remove(c.kind, c.key), acc)
  }

  /** After a successful removal, `remove` is `finalize_use(true, false)` on the emptied store. */
  lemma RemoveFinalizes<V>(c: Config<V>, cell: Cell<V>, s: Store)
    requires s.RemoveResult(c.kind, c.key).Ok?
    ensures var f := FinalizeStep(c, cell, s.Remove(c.kind, c.key), true, false);
            RemoveStep(c, cell, s) == Step(Ok(()), f.cell, f.store, [Access(RemoveOp, c.kind, c.key)] + f.accesses)
  {
  }

  /**
   * `take`: `finalize_use(false, true)`, `resolve`, moving the value out of the cache, and then
   * the implicit `drop` (`finalize_use(true, true)`) of the consumed cell. Whatever saving
   * happens on the way, the caller gets exactly what `resolve` would have given.
   */
  function TakeStep<V>(c: Config<V>, cell: Cell<V>, s: Store): (r: Step<V, Outcome<V>>)
    ensures r.result == ResolveStep(c, cell, s).result
    ensures r.result.Returned? ==> r.cell == Cell(None, false)
    ensures !c.saveOnDrop ==> r.store == s
  {
    var f := FinalizeStep(c, cell, s, false, true);
    var rs := ResolveStep(c, f.cell, f.store);
    match rs.result
    case Panicked(e) => Step(Panicked(e), rs.cell, rs.store, f.accesses + rs.accesses)
    case Returned(v) =>
      var taken := Cell(None, rs.cell.mutated);
      var d := FinalizeStep(c, taken, rs.store, true, true);
      Step(Returned(v), d.cell, d.store, f.accesses + rs.accesses + d.accesses)
  }
}
