/**
 * Properties of `StorageData` that relate several operations: caching, the
 * default fallback, the write-then-read round trip, the save gate, removal, saving on drop, and
 * what sequences of operations can and cannot do to the dirty flag and the store.
 */
module CellProperties {
  import opened Wrappers
  import opened WebStore
  import opened CellSpec

  /** Once `resolve` has filled the cache, the next one returns the same value and calls nothing. */
  lemma ResolveIsCached<V>(c: Config<V>, cell: Cell<V>, s: Store, later: Store)
    requires ResolveStep(c, cell, s).result.Returned?
    ensures var first := ResolveStep(c, cell, s);
            ResolveStep(c, first.cell, later) == Step(first.result, first.cell, later, [])
  {
  }

  /** A fresh cell over a missing or unreadable key reads the default. */
  lemma MissingKeyGivesDefault<V>(c: Config<V>, s: Store)
    requires s.Read(c.kind, c.key).Err? || s.Read(c.kind, c.key) == Ok(None)
    ensures ResolveStep(c, Fresh(), s).result == Returned(c.default())
  {
  }

  /** An undecodable entry aborts a read when the cell panics on it, and reads the default otherwise. */
  lemma UndecodableEntry<V>(c: Config<V>, s: Store, stored: string)
    requires s.Read(c.kind, c.key) == Ok(Some(stored)) && c.deserialize(stored).Err?
    ensures ResolveStep(c, Fresh(), s).result ==
              if c.panicOnCannotDeserialize then Panicked(c.deserialize(stored).error) else Returned(c.default())
  {
  }

  /**
   * With a codec that reads back what it writes, a successful `set` is what a fresh cell over
   * the same key then reads (as long as the key itself can be read).
   */
  lemma SetThenFreshGet<V(!new)>(c: Config<V>, cell: Cell<V>, s: Store, v: V)
    requires RoundTrips(c.serialize, c.deserialize)
    requires SetStep(c, cell, s, v).result.Ok?
    requires s.Read(c.kind, c.key).Ok?
    ensures ResolveStep(c, Fresh(), SetStep(c, cell, s, v).store).result == Returned(v)
  {
    ReadAfterWrite(s, c.kind, c.key, c.serialize(v));
  }

  /**
   * `save` on an untouched cell writes nothing whenever the key can be read, whether or not it
   * is present: the check is that the read does not fail.
   */
  lemma CleanSaveWritesNothing<V>(c: Config<V>, s: Store)
    requires s.Read(c.kind, c.key).Ok?
    ensures SaveStep(c, Fresh(), s) == Step(Ok(()), Fresh(), s, [Access(GetOp, c.kind, c.key)])
  {
  }

  /** `save` on an untouched cell whose key cannot be read writes the default. */
  lemma CleanSaveOnUnreadableKeyWritesDefault<V>(c: Config<V>, s: Store)
    requires s.Read(c.kind, c.key).Err?
    ensures SaveStep(c, Fresh(), s).result == s.WriteResult(c.kind, c.key, c.serialize(c.default()))
    ensures SaveStep(c, Fresh(), s).store == s.Write(c.kind, c.key, c.serialize(c.default()))
  {
  }

  /**
   * After a successful `remove`, the next read reloads and finds the key gone, so it gives the
   * default; `is_set` nevertheless answers true, because the store read does not fail.
   */
  lemma RemoveForgets<V>(c: Config<V>, cell: Cell<V>, s: Store)
    requires RemoveStep(c, cell, s).result.Ok?
    requires s.Read(c.kind, c.key).Ok?
    ensures var after := RemoveStep(c, cell, s);
            ResolveStep(c, after.cell, after.store).result == Returned(c.default()) &&
            IsSetStep(c, after.cell, after.store).result
  {
    ReadAfterRemove(s, c.kind, c.key);
  }

  /**
   * `set` on a cell changed through `deref_mut` empties the cache but keeps it dirty; a `save`
   * after that skips with `Ok` whenever the key can be read, and the cell stays dirty. A dirty
   * flag alone therefore does not mean that a later `save` writes.
   */
  lemma DirtyEmptyCellIsNotSaved<V>(c: Config<V>, cell: Cell<V>, s: Store, v: V)
    requires cell.value.Some? && cell.mutated
    requires s.Read(c.kind, c.key).Ok?
    ensures var st := SetStep(c, cell, s, v);
            var sv := SaveStep(c, st.cell, st.store);
            st.cell == Cell(None, true) &&
            sv == Step(Ok(()), st.cell, st.store, [Access(GetOp, c.kind, c.key)])
  {
  }

  /** A value changed through `deref_mut` is written to the store when the cell is dropped. */
  lemma DirtyDropPersists<V>(c: Config<V>, cell: Cell<V>, s: Store, update: V -> V)
    requires c.saveOnDrop
    requires DerefMutStep(c, cell, s, update).result.Returned?
    requires s.WriteResult(c.kind, c.key, c.serialize(update(DerefMutStep(c, cell, s, update).result.value))).Ok?
    ensures var m := DerefMutStep(c, cell, s, update);
            var v := update(m.result.value);
            var d := FinalizeStep(c, m.cell, m.store, true, true);
            c.key in d.store.Items(c.kind) && d.store.Items(c.kind)[c.key] == c.serialize(v).value
  {
  }

  /**
   * `take` of a fresh cell whose key cannot be read, but can be written, stores the default:
   * both the `finalize_use` inside `take` and the drop that follows it save.
   */
  lemma TakeOfUnreadableKeyStoresDefault<V>(c: Config<V>, s: Store)
    requires c.saveOnDrop
    requires s.Read(c.kind, c.key).Err?
    requires s.WriteResult(c.kind, c.key, c.serialize(c.default())).Ok?
    ensures var t := TakeStep(c, Fresh(), s);
            t.result == Returned(c.default()) &&
            t.store.Items(c.kind) == s.Items(c.kind)[c.key := c.serialize(c.default()).value]
  {
  }

  /**
   * `take` of a cell changed through `deref_mut` stores the changed value before moving it out,
   * when the key can be read and written; the drop that follows finds nothing to save.
   */
  lemma TakeSavesChangedValue<V>(c: Config<V>, s: Store, v: V)
    requires c.saveOnDrop
    requires s.Read(c.kind, c.key).Ok?
    requires s.WriteResult(c.kind, c.key, c.serialize(v)).Ok?
    ensures var t := TakeStep(c, Cell(Some(v), true), s);
            t.result == Returned(v) &&
            t.store.Items(c.kind) == s.Items(c.kind)[c.key := c.serialize(v).value]
  {
  }

  /**
   * With a key that cannot be read but can be written, `take` of a changed cell first stores the
   * changed value; the drop that follows then sees an empty, clean cell, fails the read, resolves
   * to the default and overwrites the key with it. The caller still gets the changed value.
   */
  lemma TakeOfUnreadableKeyOverwritesChange<V>(c: Config<V>, s: Store, v: V)
    requires c.saveOnDrop
    requires s.Read(c.kind, c.key).Err?
    requires s.WriteResult(c.kind, c.key, c.serialize(v)).Ok?
    requires s.WriteResult(c.kind, c.key, c.serialize(c.default())).Ok?
    ensures var t := TakeStep(c, Cell(Some(v), true), s);
            t.result == Returned(v) &&
            t.store.Items(c.kind) == s.Items(c.kind)[c.key := c.serialize(c.default()).value]
  {
  }

  /**
   * The worked example: key "count", default 0, nothing stored. A read gives 0, an increment
   * through `deref_mut` and a drop store the encoded 1, and a new cell then reads 1.
   */
  lemma CounterScenario(ser: int -> Result<string, Error>, de: string -> Result<int, Error>, s: Store)
    requires RoundTrips(ser, de) && ser(1).Ok?
    requires s.unavailable == {} && s.faults == {} && "count" !in s.Items(Local)
    ensures var c := NewConfig("count", () => 0, ser, de);
            var g := ResolveStep(c, Fresh(), s);
            var m := DerefMutStep(c, g.cell, g.store, x => x + 1);
            var d := FinalizeStep(c, m.cell, m.store, true, true);
            g.result == Returned(0) &&
            d.store.Items(Local) == s.Items(Local)["count" := ser(1).value] &&
            ResolveStep(c, Fresh(), d.store).result == Returned(1)
  {
    var c := NewConfig("count", () => 0, ser, de);
    var g := ResolveStep(c, Fresh(), s);
    var m := DerefMutStep(c, g.cell, g.store, x => x + 1);
    var d := FinalizeStep(c, m.cell, m.store, true, true);
    assert m.cell == Cell(Some(1), true);
    assert d.store == s.Write(Local, "count", ser(1));
    ReadAfterWrite(s, Local, "count", ser(1));
  }

  /** One public operation of a cell, as a caller issues it. */
  datatype Call<!V> =
    | Get
    | GetMut(update: V -> V)
    | DerefMut(update: V -> V)
    | Set(v: V)
    | IsSet
    | Save
    | Remove

  /** The effect of one call; the result says whether the program aborted. */
  function Apply<V>(c: Config<V>, cell: Cell<V>, s: Store, call: Call<V>): (r: Step<V, bool>)
    ensures r.result ==> r.store == s
  {
    match call
    case Get =>
      var st := ResolveStep(c, cell, s);
      Step(st.result.Panicked?, st.cell, st.store, st.accesses)
    case GetMut(f) =>
      var st := GetMutStep(c, cell, s, f);
      Step(st.result.Panicked?, st.cell, st.store, st.accesses)
    case DerefMut(f) =>
      var st := DerefMutStep(c, cell, s, f);
      Step(st.result.Panicked?, st.cell, st.store, st.accesses)
    case Set(v) =>
      var st := SetStep(c, cell, s, v);
      Step(false, st.cell, st.store, st.accesses)
    case IsSet =>
      var st := IsSetStep(c, cell, s);
      Step(false, st.cell, st.store, st.accesses)
    case Save =>
      var st := SaveStep(c, cell, s);
      Step(false, st.cell, st.store, st.accesses)
    case Remove =>
      var st := RemoveStep(c, cell, s);
      Step(false, st.cell, st.store, st.accesses)
  }

  /** A sequence of calls on one cell, stopping at the first abort. */
  function Run<V>(c: Config<V>, cell: Cell<V>, s: Store, calls: seq<Call<V>>): (r: Step<V, bool>)
    decreases |calls|
  {
    if calls == [] then Step(false, cell, s, [])
    else
      var first := Apply(c, cell, s, calls[0]);
      if first.result then first
      else
        var rest := Run(c, first.cell, first.store, calls[1..]);
        Step(rest.result, rest.cell, rest.store, first.accesses + rest.accesses)
  }

  /** Without `deref_mut`, no sequence of calls makes a clean cell dirty. */
  lemma {:induction false} OnlyDerefMutDirties<V>(c: Config<V>, cell: Cell<V>, s: Store, calls: seq<Call<V>>)
    requires forall i :: 0 <= i < |calls| ==> !calls[i].DerefMut?
    ensures Run(c, cell, s, calls).cell.mutated ==> cell.mutated
    decreases |calls|
  {
    if calls != [] {
      var first := Apply(c, cell, s, calls[0]);
      if !first.result {
        OnlyDerefMutDirties(c, first.cell, first.store, calls[1..]);
      }
    }
  }

  /** Reads of a filled cache (`get`, `get_mut`) never abort and never call the browser. */
  lemma {:induction false} CachedReadsStayOffTheStore<V>(c: Config<V>, cell: Cell<V>, s: Store, calls: seq<Call<V>>)
    requires cell.value.Some?
    requires forall i :: 0 <= i < |calls| ==> calls[i].Get? || calls[i].GetMut?
    ensures var r := Run(c, cell, s, calls);
            !r.result && r.store == s && r.accesses == [] && r.cell.value.Some? && r.cell.mutated == cell.mutated
    decreases |calls|
  {
    if calls != [] {
      var first := Apply(c, cell, s, calls[0]);
      CachedReadsStayOffTheStore(c, first.cell, first.store, calls[1..]);
    }
  }
}
