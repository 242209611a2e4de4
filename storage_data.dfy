/**
 * `StorageData`: the glue between one Web Storage key and a typed value, as an object whose
 * methods update its cache slot and dirty flag in place and call the browser. Every method is
 * proved to perform exactly the step of the same name in module CellSpec.
 */
module StorageCell {
  import opened Wrappers
  import opened WebStore
  import opened CellSpec

  /**
   * `get_data_with`: reads the key; a stored string is deserialized, a missing key or a failing
   * read gives the default.
   */
  method GetDataWith<V>(b: Browser, kind: StorageKind, key: string, default: () -> V,
                        deserialize: string -> Result<V, Error>) returns (r: Result<V, Error>)
    modifies b`log
    ensures r == DataFrom(b.store.Read(kind, key), default, deserialize)
    ensures b.log == old(b.log) + [Access(GetOp, kind, key)]
  {
    var item := b.GetItem(kind, key);
    match item.ToOption() {
      case Some(Some(asString)) => r := deserialize(asString);
      case _ => r := Ok(default());
    }
  }

  /** `set_data`: serializes the value and writes it under the key. */
  method SetData<V>(b: Browser, kind: StorageKind, key: string, value: V,
                    serialize: V -> Result<string, Error>) returns (r: Result<(), Error>)
    modifies b
    ensures r == old(b.store).WriteResult(kind, key, serialize(value))
    ensures b.store == old(b.store).Write(kind, key, serialize(value))
    ensures b.log == old(b.log) + [Access(SetOp, kind, key)]
  {
    r := b.SetItem(kind, key, serialize(value));
  }

  class StorageData<V> {
    const kind: StorageKind
    const key: string
    var value: Option<V>
    const default: () -> V
    const panicOnCannotDeserialize: bool
    const saveOnDrop: bool
    const deserialize: string -> Result<V, Error>
    const serialize: V -> Result<string, Error>
    var mutated: bool
    /** False once the cell has been dropped or consumed by `take`. */
    ghost var live: bool

    /** The configuration, fixed when the cell is constructed. */
    function Config(): Config<V> {
      CellSpec.Config(kind, key, default, panicOnCannotDeserialize, saveOnDrop, serialize, deserialize)
    }

    function State(): Cell<V>
      reads this`value, this`mutated
    {
      Cell(value, mutated)
    }

    /** The cell state, the store and the browser log are those the step `st` produces. */
    twostate predicate Performed<T>(b: Browser, st: Step<V, T>)
      reads this, b
    {
      State() == st.cell && b.store == st.store && b.log == old(b.log) + st.accesses
    }

    /**
     * The cell `StorageData::new` and its builder chain produce: the configuration `config`
     * (`NewConfig` with builders applied), an empty cache and a clean flag. It takes no browser,
     * so it cannot touch the store.
     */
    constructor (config: Config<V>)
      ensures Config() == config
      ensures State() == Fresh() && live
    {
      kind := config.kind;
      key := config.key;
      value := None;
      default := config.default;
      panicOnCannotDeserialize := config.panicOnCannotDeserialize;
      saveOnDrop := config.saveOnDrop;
      mutated := false;
      serialize := config.serialize;
      deserialize := config.deserialize;
      live := true;
    }

    /** `resolve`: the `get_or_init` of the cache slot. */
    method Resolve(b: Browser) returns (r: Outcome<V>)
      requires live
      modifies this`value, b`log
      ensures var st := ResolveStep(Config(), old(State()), old(b.store)); r == st.result && Performed(b, st)
    {
      if value.None? {
        var loaded := GetDataWith(b, kind, key, default, deserialize);
        var v: V;
        match loaded {
          case Ok(x) => v := x;
          case Err(e) =>
            if panicOnCannotDeserialize {
              return Panicked(e);
            }
            v := default();
        }
        value := Some(v);
      }
      r := Returned(value.value);
    }

    /** `get` (and `Deref::deref`, which calls it). */
    method Get(b: Browser) returns (r: Outcome<V>)
      requires live
      modifies this`value, b`log
      ensures var st := ResolveStep(Config(), old(State()), old(b.store)); r == st.result && Performed(b, st)
    {
      r := Resolve(b);
    }

    /** `get_mut`, with the caller then writing `update` of the value through the reference. */
    method GetMut(b: Browser, update: V -> V) returns (r: Outcome<V>)
      requires live
      modifies this`value, b`log
      ensures var st := GetMutStep(Config(), old(State()), old(b.store), update); r == st.result && Performed(b, st)
    {
      r := Resolve(b);
      if r.Returned? {
        value := Some(update(value.value));
      }
    }

    /** `DerefMut::deref_mut`: marks the cell dirty before handing out the reference. */
    method DerefMut(b: Browser, update: V -> V) returns (r: Outcome<V>)
      requires live
      modifies this`value, this`mutated, b`log
      ensures var st := DerefMutStep(Config(), old(State()), old(b.store), update); r == st.result && Performed(b, st)
    {
      mutated := true;
      r := GetMut(b, update);
    }

    /** `set`. */
    method Set(b: Browser, v: V) returns (r: Result<(), Error>)
      requires live
      modifies this`value, b
      ensures var st := SetStep(Config(), old(State()), old(b.store), v); r == st.result && Performed(b, st)
    {
      var res := SetData(b, kind, key, v, serialize);
      var couldntSetAndItWasInitialized := value.Some?;
      if couldntSetAndItWasInitialized {
        value := None;
      } else {
        value := Some(v);
      }
      r := res;
    }

    /** `is_set`. */
    method IsSet(b: Browser) returns (r: bool)
      requires live
      modifies b`log
      ensures var st := IsSetStep(Config(), State(), old(b.store)); r == st.result && Performed(b, st)
    {
      if value.Some? {
        r := true;
      } else {
        var item := b.GetItem(kind, key);
        r := item.Ok?;
      }
    }

    /** `remove`. */
    method Remove(b: Browser) returns (r: Result<(), Error>)
      requires live
      modifies this`value, this`mutated, b
      ensures var st := RemoveStep(Config(), old(State()), old(b.store)); r == st.result && Performed(b, st)
    {
      var removed := b.RemoveItem(kind, key);
      if removed.Err? {
        return removed;
      }
      FinalizeUse(b, true, false);
      r := Ok(());
    }

    /** `save`. */
    method Save(b: Browser) returns (r: Result<(), Error>)
      requires live
      modifies this`value, this`mutated, b
      ensures var st := SaveStep(Config(), old(State()), old(b.store)); r == st.result && Performed(b, st)
    {
      var wasChanged := mutated && value.Some?;
      var item := b.GetItem(kind, key);
      var storageContainsThisKey := item.Ok?;
      if !wasChanged && storageContainsThisKey {
        return Ok(());
      }
      var v := Resolve(b);
      var res := SetData(b, kind, key, v.value, serialize);
      if res.Ok? {
        mutated := false;
      }
      r := res;
    }

    /** `finalize_use(clear, save)`. */
    method FinalizeUse(b: Browser, clear: bool, save: bool)
      requires live
      modifies this`value, this`mutated, b
      ensures Performed(b, FinalizeStep(Config(), old(State()), old(b.store), clear, save))
    {
      if save && saveOnDrop {
        var _ := Save(b);
      }
      if clear {
        value := None;
      }
      mutated := false;
    }

    /** `Drop::drop`: `finalize_use(true, true)`; the cell cannot be used afterwards. */
    method Drop(b: Browser)
      requires live
      modifies this`value, this`mutated, this`live, b
      ensures Performed(b, FinalizeStep(Config(), old(State()), old(b.store), true, true))
      ensures !live
    {
      FinalizeUse(b, true, true);
      live := false;
    }

    /** `take`: consumes the cell, which is then dropped. */
    method Take(b: Browser) returns (r: Outcome<V>)
      requires live
      modifies this`value, this`mutated, this`live, b
      ensures var st := TakeStep(Config(), old(State()), old(b.store)); r == st.result && Performed(b, st)
      ensures r.Returned? ==> !live
    {
      FinalizeUse(b, false, true);
      var resolved := Resolve(b);
      if resolved.Panicked? {
        return Panicked(resolved.error);
      }
      var taken := value.UnwrapOr(default());
      value := None;
      Drop(b);
      r := Returned(taken);
    }
  }
}
