/**
 * The browser's Web Storage as the cell sees it: two namespaces (Local and Session) of string
 * items, each reachable or not, with a fault oracle that decides which calls the browser rejects.
 * The store is a value (`Store`); the browser that holds it is an object (`Browser`) whose
 * `GetItem`, `SetItem` and `RemoveItem` are the only ways the rest of the model touches it, and
 * which keeps a ghost log of every call made to it.
 */
module WebStore {
  import opened Wrappers

  /** Which of the two Web Storage namespaces a cell targets. */
  datatype StorageKind = Local | Session

  /** The storage a new cell targets when none is given (the `default_storage_local` feature). */
  const DefaultStorageKind: StorageKind := Local

  datatype Op = GetOp | SetOp | RemoveOp

  /** A call the browser rejects: operation `op` on `key` in namespace `kind`. */
  datatype Fault = Fault(op: Op, kind: StorageKind, key: string)

  /** The error a store or codec call reports (a `Box<dyn Error>` in the source). */
  datatype Error =
    | StorageUnavailable(kind: StorageKind)
    | Rejected(op: Op, kind: StorageKind, key: string)
    | CodecError(message: string)

  /** One call into the browser, as recorded in the ghost log. */
  datatype Access = Access(op: Op, kind: StorageKind, key: string)

  datatype Store = Store(
    local: map<string, string>,
    session: map<string, string>,
    unavailable: set<StorageKind>,
    faults: set<Fault>)
  {
    function Items(kind: StorageKind): map<string, string> {
      if kind == Local then local else session
    }

    /** Replaces the items of one namespace. */
    function WithItems(kind: StorageKind, items: map<string, string>): (s: Store)
      ensures s.Items(kind) == items
      ensures forall k :: k != kind ==> s.Items(k) == Items(k)
      ensures s.unavailable == unavailable && s.faults == faults
    {
      if kind == Local then this.(local := items) else this.(session := items)
    }

    /** `get_item`: the stored string, `None` for a missing key, or the error. */
    function Read(kind: StorageKind, key: string): (r: Result<Option<string>, Error>)
      ensures r.Ok? <==> kind !in unavailable && Fault(GetOp, kind, key) !in faults
      ensures r.Ok? ==> (r.value.Some? <==> key in Items(kind))
      ensures r.Ok? && r.value.Some? ==> r.value.value == Items(kind)[key]
    {
      if kind in unavailable then Err(StorageUnavailable(kind))
      else if Fault(GetOp, kind, key) in faults then Err(Rejected(GetOp, kind, key))
      else if key in Items(kind) then Ok(Some(Items(kind)[key]))
      else Ok(None)
    }

    /**
     * `set_item` with a lazily serialized value: the namespace is reached first, then the
     * serialization runs, then the browser may reject the write.
     */
    function WriteResult(kind: StorageKind, key: string, encoded: Result<string, Error>): (r: Result<(), Error>)
      ensures r.Ok? <==> kind !in unavailable && encoded.Ok? && Fault(SetOp, kind, key) !in faults
      ensures kind in unavailable ==> r == Err(StorageUnavailable(kind))
      ensures kind !in unavailable && encoded.Err? ==> r == Err(encoded.error)
    {
      if kind in unavailable then Err(StorageUnavailable(kind))
      else if encoded.Err? then Err(encoded.error)
      else if Fault(SetOp, kind, key) in faults then Err(Rejected(SetOp, kind, key))
      else Ok(())
    }

    /** The store after `set_item`: the key holds the encoded string exactly when the write succeeded. */
    function Write(kind: StorageKind, key: string, encoded: Result<string, Error>): (s: Store)
      ensures WriteResult(kind, key, encoded).Ok? ==> s.Items(kind) == Items(kind)[key := encoded.value]
      ensures WriteResult(kind, key, encoded).Err? ==> s == this
      ensures forall k :: k != kind ==> s.Items(k) == Items(k)
      ensures s.unavailable == unavailable && s.faults == faults
    {
      if WriteResult(kind, key, encoded).Ok? then WithItems(kind, Items(kind)[key := encoded.value])
      else this
    }

    /** `remove_item`: succeeds unless the namespace is unreachable or the browser rejects it. */
    function RemoveResult(kind: StorageKind, key: string): (r: Result<(), Error>)
      ensures r.Ok? <==> kind !in unavailable && Fault(RemoveOp, kind, key) !in faults
    {
      if kind in unavailable then Err(StorageUnavailable(kind))
      else if Fault(RemoveOp, kind, key) in faults then Err(Rejected(RemoveOp, kind, key))
      else Ok(())
    }

    /** The store after `remove_item`: the key is gone exactly when the removal succeeded. */
    function Remove(kind: StorageKind, key: string): (s: Store)
      ensures RemoveResult(kind, key).Ok? ==> s.Items(kind) == Items(kind) - {key}
      ensures RemoveResult(kind, key).Err? ==> s == this
      ensures forall k :: k != kind ==> s.Items(k) == Items(k)
      ensures s.unavailable == unavailable && s.faults == faults
    {
      if RemoveResult(kind, key).Ok? then WithItems(kind, Items(kind) - {key}) else this
    }
  }

  /** Whether a read of `key` succeeds depends only on the fault oracle, never on the items. */
  lemma ReadOkIgnoresItems(s: Store, t: Store, kind: StorageKind, key: string)
    requires s.unavailable == t.unavailable && s.faults == t.faults
    ensures s.Read(kind, key).Ok? == t.Read(kind, key).Ok?
  {
  }

  /** A successful write is read back unchanged, unless reading the key itself fails. */
  lemma ReadAfterWrite(s: Store, kind: StorageKind, key: string, encoded: Result<string, Error>)
    requires s.WriteResult(kind, key, encoded).Ok?
    requires s.Read(kind, key).Ok?
    ensures s.Write(kind, key, encoded).Read(kind, key) == Ok(Some(encoded.value))
  {
  }

  /** A successful removal leaves the key missing. */
  lemma ReadAfterRemove(s: Store, kind: StorageKind, key: string)
    requires s.RemoveResult(kind, key).Ok?
    requires s.Read(kind, key).Ok?
    ensures s.Remove(kind, key).Read(kind, key) == Ok(None)
  {
  }

  /** The browser: the current store and a ghost log of the calls made to it. */
  class Browser {
    var store: Store
    ghost var log: seq<Access>

    constructor (initial: Store)
      ensures store == initial && log == []
    {
      store := initial;
      log := [];
    }

    /** `StorageKind::get_item`. */
    method GetItem(kind: StorageKind, key: string) returns (r: Result<Option<string>, Error>)
      modifies this`log
      ensures r == store.Read(kind, key)
      ensures log == old(log) + [Access(GetOp, kind, key)]
    {
      log := log + [Access(GetOp, kind, key)];
      if kind in store.unavailable {
        r := Err(StorageUnavailable(kind));
      } else if Fault(GetOp, kind, key) in store.faults {
        r := Err(Rejected(GetOp, kind, key));
      } else if key in store.Items(kind) {
        r := Ok(Some(store.Items(kind)[key]));
      } else {
        r := Ok(None);
      }
    }

    /** `StorageKind::set_item`, given the result of the serialization it would run. */
    method SetItem(kind: StorageKind, key: string, encoded: Result<string, Error>) returns (r: Result<(), Error>)
      modifies this
      ensures r == old(store).WriteResult(kind, key, encoded)
      ensures store == old(store).Write(kind, key, encoded)
      ensures log == old(log) + [Access(SetOp, kind, key)]
    {
      log := log + [Access(SetOp, kind, key)];
      if kind in store.unavailable {
        r := Err(StorageUnavailable(kind));
      } else if encoded.Err? {
        r := Err(encoded.error);
      } else if Fault(SetOp, kind, key) in store.faults {
        r := Err(Rejected(SetOp, kind, key));
      } else {
        store := store.WithItems(kind, store.Items(kind)[key := encoded.value]);
        r := Ok(());
      }
    }

    /** `StorageKind::remove_item`. */
    method RemoveItem(kind: StorageKind, key: string) returns (r: Result<(), Error>)
      modifies this
      ensures r == old(store).RemoveResult(kind, key)
      ensures store == old(store).Remove(kind, key)
      ensures log == old(log) + [Access(RemoveOp, kind, key)]
    {
      log := log + [Access(RemoveOp, kind, key)];
      if kind in store.unavailable {
        r := Err(StorageUnavailable(kind));
      } else if Fault(RemoveOp, kind, key) in store.faults {
        r := Err(Rejected(RemoveOp, kind, key));
      } else {
        store := store.WithItems(kind, store.Items(kind) - {key});
        r := Ok(());
      }
    }
  }
}
