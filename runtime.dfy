/**
 * The cache layer as the program runs it: the store and the logger are
 * objects whose state the operations change, and a `Cache` instance holds its
 * key suffix. The descriptor operations and `Cache.refresh` are tied by their
 * postconditions to the corresponding function of `Protocol` on the state they
 * started from; `set_key_suffix` is tied to `Keys.Suffix`; the store and logger
 * methods and `get_new_value` state their effect on their own fields directly.
 */
module Runtime {
  import opened Wrappers
  import opened Fields
  import opened Registry
  import opened Protocol
  import Keys

  /** Django's cache backend, without expiry. */
  class Store {
    var entries: map<string, Entry>
    ghost var writes: seq<Write>

    constructor ()
      ensures entries == map[] && writes == []
    {
      entries, writes := map[], [];
    }

    /** `cache.get(key)`: the stored value, or `None`. */
    method Get(key: string) returns (v: Option<Value>)
      ensures v.Some? <==> key in entries
      ensures v.Some? ==> v.value == entries[key].value
    {
      v := if key in entries then Some(entries[key].value) else None;
    }

    /** `cache.set(key, value, timeout=timeout)`: replaces whatever the key held. */
    method Set(key: string, value: Value, timeout: Option<int>)
      modifies this
      ensures entries == old(entries)[key := Entry(value, timeout)]
      ensures writes == old(writes) + [Write(key, value, timeout)]
    {
      entries := entries[key := Entry(value, timeout)];
      writes := writes + [Write(key, value, timeout)];
    }
  }

  /** The module logger; only the lines written are kept. */
  class Logger {
    var lines: seq<string>

    constructor ()
      ensures lines == []
    {
      lines := [];
    }

    method Info(line: string)
      modifies this
      ensures lines == old(lines) + [line]
    {
      lines := lines + [line];
    }
  }

  /** An instance of a subclass of `Cache`. */
  class Cache {
    const cls: CacheClass
    var keySuffix: Option<string>
    /** The compute methods invoked on this instance, in order. */
    ghost var calls: seq<string>

    /** A new instance; `key_suffix` is only annotated, so it starts unset. */
    constructor (cls: CacheClass)
      ensures this.cls == cls && keySuffix == None && calls == []
    {
      this.cls := cls;
      keySuffix := None;
      calls := [];
    }

    /** `set_key_suffix(*args)`. */
    method SetKeySuffix(args: seq<Keys.Arg>)
      modifies this`keySuffix
      ensures keySuffix == Some(Keys.Suffix(args))
    {
      var enforeStr: seq<string> := [];
      for i := 0 to |args|
        invariant enforeStr == Keys.Strs(args[..i])
      {
        var arg := Keys.Str(args[i]);
        enforeStr := enforeStr + [arg];
      }
      assert args[..|args|] == args;
      keySuffix := Some(Text.Join(enforeStr));
    }

    /** `refresh(*fields)`, with a named field looked up in the registry. */
    method Refresh(fields: seq<string>, store: Store, logger: Logger, b: Bindings) returns (r: Result<()>)
      requires keySuffix.Some?
      modifies this`calls, store, logger
      ensures var s := Protocol.Refresh(old(Snap(store, logger, this)), cls, keySuffix.value, fields, b);
        r == s.result && Snap(store, logger, this) == s.world
    {
      var suffix := keySuffix.value;
      ghost var w0 := Snap(store, logger, this);
      var ts := RefreshList(cls.registry, fields);
      r := Ok(());
      for i := 0 to |ts|
        invariant r == Ok(())
        invariant RefreshTargets(w0, cls, suffix, ts[..i], b) == Step(r, Snap(store, logger, this))
      {
        RefreshTargetsStep(w0, cls, suffix, ts, b, i);
        match ts[i] {
          case Unknown(name) =>
            r := Err(UnknownField(name));
          case Known(d) =>
            r := DescRefresh(d, this, store, logger, b);
        }
        if r.Err? {
          RefreshTargetsSticky(w0, cls, suffix, ts, b, i + 1);
          return;
        }
      }
      assert ts[..|ts|] == ts;
    }
  }

  /** The state the protocol functions speak about. */
  ghost function Snap(store: Store, logger: Logger, inst: Cache): World
    reads store, logger, inst
  {
    World(store.entries, store.writes, logger.lines, inst.calls)
  }

  /** `cache_key(instance)`: keyed by the instance's own class. */
  function DescCacheKey(d: FieldDesc, inst: Cache): (key: string)
    requires inst.keySuffix.Some?
    reads inst
    ensures key == KeyOf(inst.cls, inst.keySuffix.value, d)
  {
    Keys.CacheKey(inst.cls.moduleName, inst.cls.name, d.fieldName, inst.keySuffix.value)
  }

  /** `get_new_value(instance)`: resolve the compute method; fail if the instance lacks it. */
  method DescGetNewValue(d: FieldDesc, inst: Cache, b: Bindings) returns (r: Result<Value>)
    modifies inst`calls
    ensures r.Ok? <==> ComputeName(d) in b
    ensures r.Ok? ==> r.value == b[ComputeName(d)] && inst.calls == old(inst.calls) + [ComputeName(d)]
    ensures r.Err? ==> r.error == MissingCompute(ComputeName(d)) && inst.calls == old(inst.calls)
  {
    var computeFuncName := ComputeName(d);
    if computeFuncName !in b {
      return Err(MissingCompute(computeFuncName));
    }
    inst.calls := inst.calls + [computeFuncName];
    r := Ok(b[computeFuncName]);
  }

  /** `set_new_value(key, value)`. */
  method DescSetNewValue(d: FieldDesc, key: string, value: Value, store: Store, logger: Logger, ghost inst: Cache)
    modifies store, logger
    ensures Snap(store, logger, inst) == Protocol.SetNewValue(old(Snap(store, logger, inst)), key, d, value)
  {
    store.Set(key, value, d.field.timeout);
    logger.Info(LogLine(key));
  }

  /** `__get__(instance, owner)`: read the stored value or compute, store and return a new one. */
  method DescGet(d: FieldDesc, inst: Cache, store: Store, logger: Logger, b: Bindings) returns (r: Result<Value>)
    requires inst.keySuffix.Some?
    modifies inst`calls, store, logger
    ensures var s := Protocol.Get(old(Snap(store, logger, inst)), inst.cls, inst.keySuffix.value, d, b);
      r == s.result && Snap(store, logger, inst) == s.world
  {
    var key := DescCacheKey(d, inst);
    var value := store.Get(key);
    if value.None? {
      var computed := DescGetNewValue(d, inst, b);
      if computed.Err? {
        return computed;
      }
      DescSetNewValue(d, key, computed.value, store, logger, inst);
      r := computed;
    } else {
      var coerced := Coerce(d.field.fieldType, value.value);
      r := if coerced.Some? then Ok(coerced.value) else Err(CoercionFailed(d.field.fieldType, value.value));
    }
  }

  /** `CacheValueDesc.refresh(instance)`. */
  method DescRefresh(d: FieldDesc, inst: Cache, store: Store, logger: Logger, b: Bindings) returns (r: Result<()>)
    requires inst.keySuffix.Some?
    modifies inst`calls, store, logger
    ensures inst.keySuffix == old(inst.keySuffix)
    ensures var s := Protocol.RefreshField(old(Snap(store, logger, inst)), inst.cls, inst.keySuffix.value, d, b);
      r == s.result && Snap(store, logger, inst) == s.world
  {
    var key := DescCacheKey(d, inst);
    var newValue := DescGetNewValue(d, inst, b);
    if newValue.Err? {
      return Err(newValue.error);
    }
    DescSetNewValue(d, key, newValue.value, store, logger, inst);
    r := Ok(());
  }
}
