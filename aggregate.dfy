/**
 * The struct `define_storage!` generates: one `StorageData` glue per declared field, each
 * keyed by its web name, with `new`, `len`, `len_initialized`, `clear` and `save`. `clear` and
 * `save` run over every glue in field order without stopping at a failure, and report the web
 * names of the glues that failed when asked to.
 */
module Aggregate {
  import opened Wrappers
  import opened WebStore
  import opened CellSpec
  import opened StorageCell

  /** The web names of the failed glues, in field order. */
  function FailedNames(names: seq<string>, failed: seq<bool>): seq<string>
    requires |names| == |failed|
  {
    if names == [] then []
    else (if failed[0] then [names[0]] else []) + FailedNames(names[1..], failed[1..])
  }

  /** What `clear` and `save` return once every glue has been tried. */
  function Collected(names: seq<string>, failed: seq<bool>, listFailedStorages: bool): (r: Result<(), seq<string>>)
    requires |names| == |failed|
    ensures r.Ok? <==> forall i :: 0 <= i < |failed| ==> !failed[i]
    ensures r.Err? && listFailedStorages ==> r.error == FailedNames(names, failed)
    ensures r.Err? && !listFailedStorages ==> r.error == []
  {
    if true in failed then Err(if listFailedStorages then FailedNames(names, failed) else []) else Ok(())
  }

  /** A name is listed exactly when some glue with that name failed. */
  lemma {:induction false} FailedNamesMembers(names: seq<string>, failed: seq<bool>, name: string)
    requires |names| == |failed|
    ensures name in FailedNames(names, failed) <==> exists i :: 0 <= i < |names| && failed[i] && names[i] == name
  {
    if names != [] {
      FailedNamesMembers(names[1..], failed[1..], name);
      if name in FailedNames(names[1..], failed[1..]) {
        var i :| 0 <= i < |names| - 1 && failed[1..][i] && names[1..][i] == name;
        assert failed[i + 1] && names[i + 1] == name;
      }
      if exists i :: 0 <= i < |names| && failed[i] && names[i] == name {
        var i :| 0 <= i < |names| && failed[i] && names[i] == name;
        if i > 0 {
          assert failed[1..][i - 1] && names[1..][i - 1] == name;
        }
      }
    }
  }

  /** Listing respects field order: the failures of a longer declaration follow those of a prefix. */
  lemma {:induction false} FailedNamesAppend(n1: seq<string>, f1: seq<bool>, n2: seq<string>, f2: seq<bool>)
    requires |n1| == |f1| && |n2| == |f2|
    ensures FailedNames(n1 + n2, f1 + f2) == FailedNames(n1, f1) + FailedNames(n2, f2)
  {
    if n1 == [] {
      assert n1 + n2 == n2 && f1 + f2 == f2;
    } else {
      assert (n1 + n2)[1..] == n1[1..] + n2 && (f1 + f2)[1..] == f1[1..] + f2;
      FailedNamesAppend(n1[1..], f1[1..], n2, f2);
    }
  }

  /** Listing the failures from field `i` on: the name of field `i` if it failed, then the rest. */
  lemma FailedNamesFrom(names: seq<string>, i: nat, failedHere: bool, failedAfter: seq<bool>)
    requires i < |names| && |failedAfter| == |names| - i - 1
    ensures FailedNames(names[i..], [failedHere] + failedAfter) ==
            (if failedHere then [names[i]] else []) + FailedNames(names[i + 1..], failedAfter)
  {
    assert names[i..][1..] == names[i + 1..];
    assert ([failedHere] + failedAfter)[1..] == failedAfter;
  }

  /** One name is listed per failed glue. */
  lemma {:induction false} FailedNamesLength(names: seq<string>, failed: seq<bool>)
    requires |names| == |failed|
    ensures |FailedNames(names, failed)| == multiset(failed)[true]
  {
    if names != [] {
      FailedNamesLength(names[1..], failed[1..]);
      assert failed == [failed[0]] + failed[1..];
    }
  }

  /** The effect of running one operation over the glues: per glue, whether it failed and its new state. */
  datatype Sweep<V> = Sweep(failed: seq<bool>, cells: seq<Cell<V>>, store: Store, log: seq<Access>)

  /** `remove` on the glues from field `i` on, in field order, each on the store the previous ones left. */
  function RemoveSweep<V>(cfgs: seq<Config<V>>, cells: seq<Cell<V>>, s: Store, log: seq<Access>, i: nat): (r: Sweep<V>)
    requires |cfgs| == |cells| && i <= |cfgs|
    ensures |r.failed| == |r.cells| == |cfgs| - i
    ensures forall kind, key :: key in r.store.Items(kind) ==> key in s.Items(kind)
    decreases |cfgs| - i
  {
    if i == |cfgs| then Sweep([], [], s, log)
    else
      var st := RemoveStep(cfgs[i], cells[i], s);
      var rest := RemoveSweep(cfgs, cells, st.store, log + st.accesses, i + 1);
      Sweep([st.result.Err?] + rest.failed, [st.cell] + rest.cells, rest.store, rest.log)
  }

  /** `save` on the glues from field `i` on, in field order, each on the store the previous ones left. */
  function SaveSweep<V>(cfgs: seq<Config<V>>, cells: seq<Cell<V>>, s: Store, log: seq<Access>, i: nat): (r: Sweep<V>)
    requires |cfgs| == |cells| && i <= |cfgs|
    ensures |r.failed| == |r.cells| == |cfgs| - i
    decreases |cfgs| - i
  {
    if i == |cfgs| then Sweep([], [], s, log)
    else
      var st := SaveStep(cfgs[i], cells[i], s);
      var rest := SaveSweep(cfgs, cells, st.store, log + st.accesses, i + 1);
      Sweep([st.result.Err?] + rest.failed, [st.cell] + rest.cells, rest.store, rest.log)
  }

  /** Prepending to a concatenation. */
  lemma ConsAppend<T>(x: T, p: seq<T>, q: seq<T>)
    ensures [x] + (p + q) == ([x] + p) + q
  {
  }

  /**
   * The sweep from field `i` is the sweep up to field `m` followed by the sweep from `m` on the
   * store and log the first part leaves.
   */
  lemma {:induction false} RemoveSweepSplit<V>(cfgs: seq<Config<V>>, cells: seq<Cell<V>>, s: Store, log: seq<Access>, i: nat, m: nat)
    requires |cfgs| == |cells| && i <= m <= |cfgs|
    ensures var a := RemoveSweep(cfgs[..m], cells[..m], s, log, i);
            var b := RemoveSweep(cfgs, cells, a.store, a.log, m);
            RemoveSweep(cfgs, cells, s, log, i) == Sweep(a.failed + b.failed, a.cells + b.cells, b.store, b.log)
    decreases m - i
  {
    if i == m {
      var b := RemoveSweep(cfgs, cells, s, log, m);
      assert [] + b.failed == b.failed && [] + b.cells == b.cells;
    } else {
      var st := RemoveStep(cfgs[i], cells[i], s);
      assert cfgs[..m][i] == cfgs[i] && cells[..m][i] == cells[i];
      RemoveSweepSplit(cfgs, cells, st.store, log + st.accesses, i + 1, m);
      var a' := RemoveSweep(cfgs[..m], cells[..m], st.store, log + st.accesses, i + 1);
      var b := RemoveSweep(cfgs, cells, a'.store, a'.log, m);
      ConsAppend(st.result.Err?, a'.failed, b.failed);
      ConsAppend(st.cell, a'.cells, b.cells);
    }
  }

  /**
   * Field `j`'s outcome and new state are those of its own `remove`, run on the store the glues
   * before it have left.
   */
  lemma RemoveSweepGlue<V>(cfgs: seq<Config<V>>, cells: seq<Cell<V>>, s: Store, log: seq<Access>, i: nat, j: nat)
    requires |cfgs| == |cells| && i <= j < |cfgs|
    ensures var r := RemoveSweep(cfgs, cells, s, log, i);
            var before := RemoveSweep(cfgs[..j], cells[..j], s, log, i);
            var st := RemoveStep(cfgs[j], cells[j], before.store);
            r.failed[j - i] == st.result.Err? && r.cells[j - i] == st.cell
  {
    RemoveSweepSplit(cfgs, cells, s, log, i, j);
  }

  /**
   * Every glue of a sweep over the fields from `i` on whose call succeeded has an empty, clean
   * cache, and its key is not stored in the sweep's final store.
   */
  predicate SucceededGluesAreGone<V>(cfgs: seq<Config<V>>, i: nat, r: Sweep<V>)
    requires i <= |cfgs| && |r.failed| == |r.cells| == |cfgs| - i
  {
    forall k :: 0 <= k < |r.cells| && !r.failed[k] ==>
      r.cells[k] == Cell(None, false) && cfgs[i + k].key !in r.store.Items(cfgs[i + k].kind)
  }

  /**
   * `clear` destroys the value of every glue whose removal succeeded: its cache ends empty and
   * clean, and its key is no longer stored once the whole sweep is over.
   */
  lemma {:induction false} RemovedGluesAreGone<V>(cfgs: seq<Config<V>>, cells: seq<Cell<V>>, s: Store, log: seq<Access>, i: nat)
    requires |cfgs| == |cells| && i <= |cfgs|
    ensures SucceededGluesAreGone(cfgs, i, RemoveSweep(cfgs, cells, s, log, i))
    decreases |cfgs| - i
  {
    if i < |cfgs| {
      var st := RemoveStep(cfgs[i], cells[i], s);
      var rest := RemoveSweep(cfgs, cells, st.store, log + st.accesses, i + 1);
      RemovedGluesAreGone(cfgs, cells, st.store, log + st.accesses, i + 1);
      assert st.result.Ok? ==> cfgs[i].key !in st.store.Items(cfgs[i].kind);
      GoneCons(cfgs, i, st.result.Err?, st.cell, rest);
    }
  }

  /** A glue in front of a sweep whose succeeded glues are gone, if gone itself when it succeeded. */
  lemma GoneCons<V>(cfgs: seq<Config<V>>, i: nat, failed: bool, cell: Cell<V>, rest: Sweep<V>)
    requires i < |cfgs| && |rest.failed| == |rest.cells| == |cfgs| - i - 1
    requires SucceededGluesAreGone(cfgs, i + 1, rest)
    requires !failed ==> cell == Cell(None, false) && cfgs[i].key !in rest.store.Items(cfgs[i].kind)
    ensures SucceededGluesAreGone(cfgs, i, Sweep([failed] + rest.failed, [cell] + rest.cells, rest.store, rest.log))
  {
    var r := Sweep([failed] + rest.failed, [cell] + rest.cells, rest.store, rest.log);
    forall k | 0 <= k < |r.cells| && !r.failed[k]
      ensures r.cells[k] == Cell(None, false) && cfgs[i + k].key !in r.store.Items(cfgs[i + k].kind)
    {
      if k > 0 {
        assert r.failed[k] == rest.failed[k - 1] && r.cells[k] == rest.cells[k - 1];
        assert cfgs[i + k] == cfgs[(i + 1) + (k - 1)];
      }
    }
  }

  /** The sweep of `save` from field `i` splits at field `m` as the sweep of `remove` does. */
  lemma {:induction false} SaveSweepSplit<V>(cfgs: seq<Config<V>>, cells: seq<Cell<V>>, s: Store, log: seq<Access>, i: nat, m: nat)
    requires |cfgs| == |cells| && i <= m <= |cfgs|
    ensures var a := SaveSweep(cfgs[..m], cells[..m], s, log, i);
            var b := SaveSweep(cfgs, cells, a.store, a.log, m);
            SaveSweep(cfgs, cells, s, log, i) == Sweep(a.failed + b.failed, a.cells + b.cells, b.store, b.log)
    decreases m - i
  {
    if i == m {
      var b := SaveSweep(cfgs, cells, s, log, m);
      assert [] + b.failed == b.failed && [] + b.cells == b.cells;
    } else {
      var st := SaveStep(cfgs[i], cells[i], s);
      assert cfgs[..m][i] == cfgs[i] && cells[..m][i] == cells[i];
      SaveSweepSplit(cfgs, cells, st.store, log + st.accesses, i + 1, m);
      var a' := SaveSweep(cfgs[..m], cells[..m], st.store, log + st.accesses, i + 1);
      var b := SaveSweep(cfgs, cells, a'.store, a'.log, m);
      ConsAppend(st.result.Err?, a'.failed, b.failed);
      ConsAppend(st.cell, a'.cells, b.cells);
    }
  }

  /**
   * Field `j`'s outcome and new state are those of its own `save`, run on the store the glues
   * before it have left.
   */
  lemma SaveSweepGlue<V>(cfgs: seq<Config<V>>, cells: seq<Cell<V>>, s: Store, log: seq<Access>, i: nat, j: nat)
    requires |cfgs| == |cells| && i <= j < |cfgs|
    ensures var r := SaveSweep(cfgs, cells, s, log, i);
            var before := SaveSweep(cfgs[..j], cells[..j], s, log, i);
            var st := SaveStep(cfgs[j], cells[j], before.store);
            r.failed[j - i] == st.result.Err? && r.cells[j - i] == st.cell
  {
    SaveSweepSplit(cfgs, cells, s, log, i, j);
  }

  /** Every glue of the sweep that still holds a changed value is one whose call failed. */
  predicate ChangedOnlyIfFailed<V>(r: Sweep<V>)
    requires |r.failed| == |r.cells|
  {
    forall k :: 0 <= k < |r.cells| && r.cells[k].mutated && r.cells[k].value.Some? ==> r.failed[k]
  }

  /**
   * After `save`, a glue that still holds a changed value is one whose save failed. (A dirty
   * glue with an empty cache, which `set` leaves behind, is skipped by `save`.)
   */
  lemma {:induction false} ChangedGluesAreSaved<V>(cfgs: seq<Config<V>>, cells: seq<Cell<V>>, s: Store, log: seq<Access>, i: nat)
    requires |cfgs| == |cells| && i <= |cfgs|
    ensures ChangedOnlyIfFailed(SaveSweep(cfgs, cells, s, log, i))
    decreases |cfgs| - i
  {
    if i < |cfgs| {
      var st := SaveStep(cfgs[i], cells[i], s);
      var rest := SaveSweep(cfgs, cells, st.store, log + st.accesses, i + 1);
      var r := SaveSweep(cfgs, cells, s, log, i);
      ChangedGluesAreSaved(cfgs, cells, st.store, log + st.accesses, i + 1);
      forall k | 0 <= k < |r.cells| && r.cells[k].mutated && r.cells[k].value.Some?
        ensures r.failed[k]
      {
        if k > 0 {
          assert r.failed[k] == rest.failed[k - 1] && r.cells[k] == rest.cells[k - 1];
        } else {
          assert r.failed[0] == st.result.Err? && r.cells[0] == st.cell;
          if !SaveSkips(cfgs[i], cells[i], s) {
            assert st.cell.mutated == (if st.result.Ok? then false else cells[i].mutated);
          }
        }
      }
    }
  }

  /** How many of the glues from field `i` on report `is_set`, all queried against the same store. */
  function CountSet<V>(cfgs: seq<Config<V>>, cells: seq<Cell<V>>, s: Store, i: nat): (n: nat)
    requires |cfgs| == |cells| && i <= |cfgs|
    ensures n <= |cfgs| - i
    decreases |cfgs| - i
  {
    if i == |cfgs| then 0
    else (if IsSetStep(cfgs[i], cells[i], s).result then 1 else 0) + CountSet(cfgs, cells, s, i + 1)
  }

  /** The queries those `is_set` calls make: one per glue whose cache is empty. */
  function IsSetAccesses<V>(cfgs: seq<Config<V>>, cells: seq<Cell<V>>, s: Store, i: nat): seq<Access>
    requires |cfgs| == |cells| && i <= |cfgs|
    decreases |cfgs| - i
  {
    if i == |cfgs| then []
    else IsSetStep(cfgs[i], cells[i], s).accesses + IsSetAccesses(cfgs, cells, s, i + 1)
  }

  /**
   * When every glue's namespace is reachable and no read is rejected, every glue counts as
   * initialized, whether or not its key is stored.
   */
  lemma {:induction false} ReachableStoreCountsEveryGlue<V>(cfgs: seq<Config<V>>, cells: seq<Cell<V>>, s: Store, i: nat)
    requires |cfgs| == |cells| && i <= |cfgs|
    requires forall j :: i <= j < |cfgs| ==> s.Read(cfgs[j].kind, cfgs[j].key).Ok?
    ensures CountSet(cfgs, cells, s, i) == |cfgs| - i
    decreases |cfgs| - i
  {
    if i < |cfgs| {
      ReachableStoreCountsEveryGlue(cfgs, cells, s, i + 1);
    }
  }

  /** The configuration `new` gives a glue: its web name, its default, and its namespace if one was given. */
  function GlueConfig<V>(name: string, default: () -> V, kind: Option<StorageKind>,
                         serialize: V -> Result<string, Error>, deserialize: string -> Result<V, Error>): (c: Config<V>)
    ensures c.key == name && c.default == default
    ensures c.kind == (if kind.Some? then kind.value else DefaultStorageKind)
    ensures c.panicOnCannotDeserialize && c.saveOnDrop
  {
    var c := NewConfig(name, default, serialize, deserialize);
    if kind.Some? then WithStorage(c, kind.value) else c
  }

  /** The generated struct: its glues in field order and their web names. */
  class GeneratedStorage<V> {
    const glues: seq<StorageData<V>>
    const names: seq<string>
    /** The field count the derive macro passes as `len`. */
    const count: nat
    ghost const Repr: set<object>
    /** The field each glue belongs to; it makes the glues pairwise distinct objects. */
    ghost const fieldOf: map<StorageData<V>, nat>

    ghost predicate Distinct() {
      forall i :: 0 <= i < |glues| ==> glues[i] in fieldOf && fieldOf[glues[i]] == i
    }

    /** The layout fixed by `new`: one distinct glue per field, keyed by the field's web name. */
    ghost predicate Layout() {
      Repr == (set i | 0 <= i < |glues| :: glues[i]) &&
      |glues| == |names| == count && Distinct() &&
      forall i :: 0 <= i < |glues| ==> glues[i].key == names[i]
    }

    ghost predicate Valid()
      reads this, Repr
    {
      Layout() && forall i :: 0 <= i < |glues| ==> glues[i].live
    }

    /** The configuration of every glue, in field order. */
    function Configs(): (cs: seq<Config<V>>)
      ensures |cs| == |glues|
    {
      ConfigsFrom(0)
    }

    /** The state of every glue, in field order. */
    function States(): (cs: seq<Cell<V>>)
      reads this, glues
      ensures |cs| == |glues|
    {
      StatesFrom(0)
    }

    /** The configurations of the glues from field `i` on. */
    function ConfigsFrom(i: nat): (cs: seq<Config<V>>)
      requires i <= |glues|
      ensures |cs| == |glues| - i
      decreases |glues| - i
    {
      if i == |glues| then [] else [glues[i].Config()] + ConfigsFrom(i + 1)
    }

    /** The states of the glues from field `i` on. */
    function StatesFrom(i: nat): (cs: seq<Cell<V>>)
      reads this, glues
      requires i <= |glues|
      ensures |cs| == |glues| - i
      decreases |glues| - i
    {
      if i == |glues| then [] else [glues[i].State()] + StatesFrom(i + 1)
    }

    /** `ConfigsFrom(i)` lists the configuration of each glue from field `i` on. */
    lemma {:induction false} ConfigsFromIndex(i: nat)
      requires i <= |glues|
      ensures forall j :: i <= j < |glues| ==> ConfigsFrom(i)[j - i] == glues[j].Config()
      decreases |glues| - i
    {
      if i < |glues| {
        ConfigsFromIndex(i + 1);
      }
    }

    /** `StatesFrom(i)` lists the state of each glue from field `i` on. */
    lemma {:induction false} StatesFromIndex(i: nat)
      requires i <= |glues|
      ensures forall j :: i <= j < |glues| ==> StatesFrom(i)[j - i] == glues[j].State()
      decreases |glues| - i
    {
      if i < |glues| {
        StatesFromIndex(i + 1);
      }
    }

    /**
     * The glues from field `i` on are live and have the configurations `cfgs` and the states
     * `cells`: what the statements `len_initialized`, `clear` and `save` run for those fields need.
     */
    ghost predicate Ready(i: nat, cfgs: seq<Config<V>>, cells: seq<Cell<V>>)
      reads glues
    {
      i <= |glues| == |names| == |cfgs| == |cells| && Distinct() &&
      (forall j :: i <= j < |glues| ==> glues[j].live) &&
      (forall j :: i <= j < |glues| ==> glues[j].Config() == cfgs[j]) &&
      (forall j :: i <= j < |glues| ==> glues[j].State() == cells[j])
    }

    /** A valid struct is ready from its first field on, with its own configurations and states. */
    lemma ValidReady()
      requires Valid()
      ensures Ready(0, Configs(), States())
    {
      ConfigsFromIndex(0);
      StatesFromIndex(0);
    }

    /** `new`: every glue starts with an empty cache, keyed by its web name. */
    constructor (names: seq<string>, defaults: seq<() -> V>, kinds: seq<Option<StorageKind>>,
                 serialize: V -> Result<string, Error>, deserialize: string -> Result<V, Error>)
      requires |names| == |defaults| == |kinds|
      ensures Valid() && fresh(Repr)
      ensures this.names == names && count == |names|
      ensures forall i :: 0 <= i < |names| ==>
                glues[i].Config() == GlueConfig(names[i], defaults[i], kinds[i], serialize, deserialize) &&
                glues[i].State() == Fresh()
    {
      var gs: seq<StorageData<V>> := [];
      ghost var m: map<StorageData<V>, nat> := map[];
      var i := 0;
      while i < |names|
        invariant 0 <= i <= |names| && |gs| == i
        invariant forall j :: 0 <= j < i ==> fresh(gs[j])
        invariant forall j :: 0 <= j < i ==> gs[j] in m && m[gs[j]] == j
        invariant forall j :: 0 <= j < i ==>
                    gs[j].Config() == GlueConfig(names[j], defaults[j], kinds[j], serialize, deserialize) &&
                    gs[j].State() == Fresh() && gs[j].live
      {
        var g := new StorageData(GlueConfig(names[i], defaults[i], kinds[i], serialize, deserialize));
        gs := gs + [g];
        m := m[g := i];
        i := i + 1;
      }
      glues := gs;
      fieldOf := m;
      this.names := names;
      count := |names|;
      Repr := set j | 0 <= j < |gs| :: gs[j];
    }

    /** `len`: the number of declared fields. */
    function Len(): (n: nat)
      reads this, Repr
      requires Valid()
      ensures n == |glues| == |names|
    {
      count
    }

    /** `len_initialized`: how many glues report `is_set`. */
    method LenInitialized(b: Browser) returns (n: nat)
      requires Valid()
      modifies b`log
      ensures n == CountSet(Configs(), States(), b.store, 0) && n <= Len()
      ensures b.log == old(b.log) + IsSetAccesses(Configs(), States(), b.store, 0)
    {
      ValidReady();
      n := CountFrom(b, 0, Configs(), States());
    }

    /** The `is_set` queries of `len_initialized` from field `i` on. */
    method CountFrom(b: Browser, i: nat, ghost cfgs: seq<Config<V>>, ghost cells: seq<Cell<V>>) returns (n: nat)
      requires Ready(i, cfgs, cells)
      modifies b`log
      ensures n == CountSet(cfgs, cells, b.store, i)
      ensures b.log == old(b.log) + IsSetAccesses(cfgs, cells, b.store, i)
      decreases |glues| - i
    {
      if i == |glues| {
        return 0;
      }
      var isSet := glues[i].IsSet(b);
      n := CountFrom(b, i + 1, cfgs, cells);
      if isSet {
        n := n + 1;
      }
    }

    /**
     * `clear`: `remove` on every glue in field order, never stopping early; `Ok` iff every
     * removal succeeded, otherwise the web names of the failed glues if asked for them.
     */
    method Clear(b: Browser, listFailedStorages: bool) returns (r: Result<(), seq<string>>)
      requires Valid()
      modifies glues`value, glues`mutated, b
      ensures Valid()
      ensures var sw := RemoveSweep(Configs(), old(States()), old(b.store), old(b.log), 0);
              r == Collected(names, sw.failed, listFailedStorages) &&
              States() == sw.cells && b.store == sw.store && b.log == sw.log
    {
      ValidReady();
      assert names[0..] == names;
      var error, failedStorages := ClearFrom(b, 0, listFailedStorages, Configs(), States());
      if error {
        r := Err(failedStorages);
      } else {
        r := Ok(());
      }
    }

    /** The statement `clear` runs for field `i`: whether that glue's `remove` failed. */
    method ClearField(b: Browser, i: nat, ghost cfgs: seq<Config<V>>, ghost cells: seq<Cell<V>>) returns (failed: bool)
      requires Ready(i, cfgs, cells) && i < |glues|
      modifies {glues[i]}`value, {glues[i]}`mutated, b
      ensures var st := RemoveStep(cfgs[i], cells[i], old(b.store));
              failed == st.result.Err? && glues[i].State() == st.cell &&
              b.store == st.store && b.log == old(b.log) + st.accesses
      ensures Ready(i + 1, cfgs, cells)
      ensures forall j :: 0 <= j < |glues| && j != i ==> glues[j].State() == old(glues[j].State())
    {
      var removed := glues[i].Remove(b);
      failed := removed.Err?;
    }

    /** The statements `clear` runs from field `i` on: whether one failed, and the failed names if asked for. */
    method ClearFrom(b: Browser, i: nat, listFailedStorages: bool, ghost cfgs: seq<Config<V>>, ghost cells: seq<Cell<V>>)
      returns (error: bool, failedStorages: seq<string>)
      requires Ready(i, cfgs, cells)
      modifies glues`value, glues`mutated, b
      ensures var sw := RemoveSweep(cfgs, cells, old(b.store), old(b.log), i);
              error == (true in sw.failed) &&
              failedStorages == (if listFailedStorages then FailedNames(names[i..], sw.failed) else []) &&
              b.store == sw.store && b.log == sw.log && StatesFrom(i) == sw.cells
      ensures forall j :: 0 <= j < i ==> glues[j].State() == old(glues[j].State())
      decreases |glues| - i
    {
      if i == |glues| {
        return false, [];
      }
      ghost var st := RemoveStep(cfgs[i], cells[i], b.store);
      ghost var rest := RemoveSweep(cfgs, cells, st.store, b.log + st.accesses, i + 1);
      var failed := ClearField(b, i, cfgs, cells);
      error, failedStorages := ClearFrom(b, i + 1, listFailedStorages, cfgs, cells);
      FailedNamesFrom(names, i, failed, rest.failed);
      if failed {
        error := true;
        if listFailedStorages {
          failedStorages := [names[i]] + failedStorages;
        }
      }
    }

    /**
     * `save`: `save` on every glue in field order, never stopping early; `Ok` iff every save
     * succeeded, otherwise the web names of the failed glues if asked for them.
     */
    method Save(b: Browser, listFailedStorages: bool) returns (r: Result<(), seq<string>>)
      requires Valid()
      modifies glues`value, glues`mutated, b
      ensures Valid()
      ensures var sw := SaveSweep(Configs(), old(States()), old(b.store), old(b.log), 0);
              r == Collected(names, sw.failed, listFailedStorages) &&
              States() == sw.cells && b.store == sw.store && b.log == sw.log
    {
      ValidReady();
      assert names[0..] == names;
      var error, failedStorages := SaveFrom(b, 0, listFailedStorages, Configs(), States());
      if error {
        r := Err(failedStorages);
      } else {
        r := Ok(());
      }
    }

    /** The statement `save` runs for field `i`: whether that glue's `save` failed. */
    method SaveField(b: Browser, i: nat, ghost cfgs: seq<Config<V>>, ghost cells: seq<Cell<V>>) returns (failed: bool)
      requires Ready(i, cfgs, cells) && i < |glues|
      modifies {glues[i]}`value, {glues[i]}`mutated, b
      ensures var st := SaveStep(cfgs[i], cells[i], old(b.store));
              failed == st.result.Err? && glues[i].State() == st.cell &&
              b.store == st.store && b.log == old(b.log) + st.accesses
      ensures Ready(i + 1, cfgs, cells)
      ensures forall j :: 0 <= j < |glues| && j != i ==> glues[j].State() == old(glues[j].State())
    {
      var saved := glues[i].Save(b);
      failed := saved.Err?;
    }

    /** The statements `save` runs from field `i` on: whether one failed, and the failed names if asked for. */
    method SaveFrom(b: Browser, i: nat, listFailedStorages: bool, ghost cfgs: seq<Config<V>>, ghost cells: seq<Cell<V>>)
      returns (error: bool, failedStorages: seq<string>)
      requires Ready(i, cfgs, cells)
      modifies glues`value, glues`mutated, b
      ensures var sw := SaveSweep(cfgs, cells, old(b.store), old(b.log), i);
              error == (true in sw.failed) &&
              failedStorages == (if listFailedStorages then FailedNames(names[i..], sw.failed) else []) &&
              b.store == sw.store && b.log == sw.log && StatesFrom(i) == sw.cells
      ensures forall j :: 0 <= j < i ==> glues[j].State() == old(glues[j].State())
      decreases |glues| - i
    {
      if i == |glues| {
        return false, [];
      }
      ghost var st := SaveStep(cfgs[i], cells[i], b.store);
      ghost var rest := SaveSweep(cfgs, cells, st.store, b.log + st.accesses, i + 1);
      var failed := SaveField(b, i, cfgs, cells);
      error, failedStorages := SaveFrom(b, i + 1, listFailedStorages, cfgs, cells);
      FailedNamesFrom(names, i, failed, rest.failed);
      if failed {
        error := true;
        if listFailedStorages {
          failedStorages := [names[i]] + failedStorages;
        }
      }
    }
  }
}
