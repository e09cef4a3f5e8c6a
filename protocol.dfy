/**
 * The access protocol of `CacheValueDesc` and `Cache.refresh`, as functions
 * from the state before a call to the state after it. The state is the
 * store's entries, the history of store writes, the log lines written and
 * the compute methods invoked, in order.
 */
module Protocol {
  import opened Wrappers
  import opened Fields
  import opened Registry
  import Keys

  datatype Error =
    | MissingCompute(name: string)                     // the AssertionError of `get_new_value`
    | CoercionFailed(fieldType: FieldType, raw: Value) // the ValueError of `int()` on a hit
    | UnknownField(name: string)                       // `refresh` named something that is not a field
    | NoAttribute(name: string)                        // an AttributeError

  datatype Result<T> = Ok(value: T) | Err(error: Error)

  /** What the store keeps under a key: the value and the timeout it was written with. */
  datatype Entry = Entry(value: Value, timeout: Option<int>)

  /** One `cache.set(key, value, timeout=...)`. */
  datatype Write = Write(key: string, value: Value, timeout: Option<int>)

  datatype World = World(entries: map<string, Entry>, writes: seq<Write>, log: seq<string>, calls: seq<string>)

  /** The outcome of one operation and the state it leaves. */
  datatype Step<T> = Step(result: Result<T>, world: World)

  /**
   * The callable attributes of the instance, by name, each with the value it
   * returns when called now. A name that is absent is a method the instance lacks.
   */
  type Bindings = map<string, Value>

  /** The key of field `d` for an instance of `cls` whose key suffix is `suffix`. */
  function KeyOf(cls: CacheClass, suffix: string, d: FieldDesc): string {
    Keys.CacheKey(cls.moduleName, cls.name, d.fieldName, suffix)
  }

  /** The record `set_new_value` logs. */
  function LogLine(key: string): (line: string)
    ensures |line| > |key| && line[|line| - |key|..] == key
  {
    "refresh_cache: " + key
  }

  /** `cache.get(key)`. */
  function Read(w: World, key: string): (r: Option<Value>)
    ensures r.Some? <==> key in w.entries
    ensures r.Some? ==> r.value == w.entries[key].value
  {
    if key in w.entries then Some(w.entries[key].value) else None
  }

  function EntryAt(m: map<string, Entry>, key: string): Option<Entry> {
    if key in m then Some(m[key]) else None
  }

  /** `set_new_value(key, value)`: one store write with the field's timeout, then one log line. */
  function SetNewValue(w: World, key: string, d: FieldDesc, v: Value): (r: World)
    ensures EntryAt(r.entries, key) == Some(Entry(v, d.field.timeout))
    ensures forall k :: k != key ==> EntryAt(r.entries, k) == EntryAt(w.entries, k)
    ensures r.writes == w.writes + [Write(key, v, d.field.timeout)]
    ensures r.log == w.log + [LogLine(key)] && r.calls == w.calls
  {
    w.(entries := w.entries[key := Entry(v, d.field.timeout)],
       writes := w.writes + [Write(key, v, d.field.timeout)],
       log := w.log + [LogLine(key)])
  }

  /** `get_new_value(instance)`: resolve the compute method and call it once. */
  function GetNewValue(w: World, d: FieldDesc, b: Bindings): (s: Step<Value>)
    ensures s.result.Ok? <==> ComputeName(d) in b
    ensures s.result.Ok? ==> s.result.value == b[ComputeName(d)] && s.world == w.(calls := w.calls + [ComputeName(d)])
    ensures s.result.Err? ==> s.result.error == MissingCompute(ComputeName(d)) && s.world == w
  {
    var name := ComputeName(d);
    if name in b then Step(Ok(b[name]), w.(calls := w.calls + [name]))
    else Step(Err(MissingCompute(name)), w)
  }

  /** `CacheValueDesc.__get__(instance, owner)`. */
  function Get(w: World, cls: CacheClass, suffix: string, d: FieldDesc, b: Bindings): (s: Step<Value>)
    // only an absent entry is a miss; a miss succeeds exactly when the compute method exists
    ensures Read(w, KeyOf(cls, suffix, d)).None? ==> (s.result.Ok? <==> ComputeName(d) in b)
    // a miss: one compute call, one write of the computed value with the field's timeout, one log line,
    // and the computed value returned as it is
    ensures Read(w, KeyOf(cls, suffix, d)).None? && ComputeName(d) in b ==>
      var key, v := KeyOf(cls, suffix, d), b[ComputeName(d)];
      && s.result == Ok(v)
      && s.world.calls == w.calls + [ComputeName(d)]
      && s.world.writes == w.writes + [Write(key, v, d.field.timeout)]
      && s.world.log == w.log + [LogLine(key)]
      && s.world.entries == w.entries[key := Entry(v, d.field.timeout)]
    // a missing compute method fails before anything is written
    ensures Read(w, KeyOf(cls, suffix, d)).None? && ComputeName(d) !in b ==>
      s == Step(Err(MissingCompute(ComputeName(d))), w)
    // a hit: nothing changes, and the stored value comes back converted to the field's type
    ensures Read(w, KeyOf(cls, suffix, d)).Some? ==>
      var raw := Read(w, KeyOf(cls, suffix, d)).value;
      && s.world == w
      && (s.result.Ok? <==> Coerce(d.field.fieldType, raw).Some?)
      && (s.result.Ok? ==> s.result.value == Coerce(d.field.fieldType, raw).value && HasType(s.result.value, d.field.fieldType))
  {
    var key := KeyOf(cls, suffix, d);
    match Read(w, key)
    case None =>
      var s := GetNewValue(w, d, b);
      if s.result.Err? then s else Step(s.result, SetNewValue(s.world, key, d, s.result.value))
    case Some(raw) =>
      match Coerce(d.field.fieldType, raw)
      case Some(v) => Step(Ok(v), w)
      case None => Step(Err(CoercionFailed(d.field.fieldType, raw)), w)
  }

  /** `CacheValueDesc.refresh(instance)`: compute and overwrite, whatever the store holds. */
  function RefreshField(w: World, cls: CacheClass, suffix: string, d: FieldDesc, b: Bindings): (s: Step<()>)
    ensures s.result.Ok? <==> ComputeName(d) in b
    ensures ComputeName(d) in b ==>
      var key, v := KeyOf(cls, suffix, d), b[ComputeName(d)];
      && s.world.calls == w.calls + [ComputeName(d)]
      && s.world.writes == w.writes + [Write(key, v, d.field.timeout)]
      && s.world.log == w.log + [LogLine(key)]
      && s.world.entries == w.entries[key := Entry(v, d.field.timeout)]
    ensures ComputeName(d) !in b ==> s == Step(Err(MissingCompute(ComputeName(d))), w)
  {
    var key := KeyOf(cls, suffix, d);
    var s := GetNewValue(w, d, b);
    if s.result.Err? then Step(Err(s.result.error), s.world)
    else Step(Ok(()), SetNewValue(s.world, key, d, s.result.value))
  }

  /** A second read after a successful miss is a hit: no compute call, no write, no log line. */
  lemma GetMissThenHit(w: World, cls: CacheClass, suffix: string, d: FieldDesc, b: Bindings)
    requires Read(w, KeyOf(cls, suffix, d)).None? && ComputeName(d) in b
    ensures var s1 := Get(w, cls, suffix, d, b);
      var s2 := Get(s1.world, cls, suffix, d, b);
      && s2.world == s1.world
      && (s2.result.Ok? <==> Coerce(d.field.fieldType, b[ComputeName(d)]).Some?)
      && (HasType(b[ComputeName(d)], d.field.fieldType) ==> s2.result == s1.result)
  {
  }

  /** A read after a successful refresh is a hit. */
  lemma RefreshThenHit(w: World, cls: CacheClass, suffix: string, d: FieldDesc, b: Bindings)
    requires ComputeName(d) in b
    ensures var s1 := RefreshField(w, cls, suffix, d, b);
      var s2 := Get(s1.world, cls, suffix, d, b);
      s2.world == s1.world && Read(s1.world, KeyOf(cls, suffix, d)) == Some(b[ComputeName(d)])
  {
  }

  // ---------------------------------------------------------------------------
  // Cache.refresh

  /** A field `refresh` is asked to recompute: a registered descriptor, or a name that is none. */
  datatype Target = Known(d: FieldDesc) | Unknown(name: string)

  /** The registered descriptor with the given name. */
  function Find(registry: seq<FieldDesc>, name: string): (r: Option<FieldDesc>)
    ensures r.Some? ==> r.value in registry && r.value.fieldName == name
    ensures r.None? <==> forall i :: 0 <= i < |registry| ==> registry[i].fieldName != name
  {
    if registry == [] then None
    else if registry[0].fieldName == name then Some(registry[0])
    else
      assert forall i :: 1 <= i < |registry| ==> registry[i] == registry[1..][i - 1];
      Find(registry[1..], name)
  }

  function Targets(ds: seq<FieldDesc>): (ts: seq<Target>)
    ensures |ts| == |ds| && forall i :: 0 <= i < |ds| ==> ts[i] == Known(ds[i])
  {
    seq(|ds|, i requires 0 <= i < |ds| => Known(ds[i]))
  }

  function Resolve(registry: seq<FieldDesc>, names: seq<string>): (ts: seq<Target>)
    ensures |ts| == |names|
    ensures forall i :: 0 <= i < |names| ==>
      ts[i] == match Find(registry, names[i]) case Some(d) => Known(d) case None => Unknown(names[i])
  {
    seq(|names|, i requires 0 <= i < |names| =>
      match Find(registry, names[i]) case Some(d) => Known(d) case None => Unknown(names[i]))
  }

  function RefreshTarget(w: World, cls: CacheClass, suffix: string, t: Target, b: Bindings): Step<()> {
    match t
    case Known(d) => RefreshField(w, cls, suffix, d, b)
    case Unknown(n) => Step(Err(UnknownField(n)), w)
  }

  /** Refresh the targets one after another; the first failure ends the loop. */
  function RefreshTargets(w: World, cls: CacheClass, suffix: string, ts: seq<Target>, b: Bindings): (r: Step<()>)
    ensures r.result.Ok? <==> Runnable(ts, b)
    ensures r.result.Err? ==> r.result.error.UnknownField? || r.result.error.MissingCompute?
    decreases |ts|
  {
    if ts == [] then Step(Ok(()), w)
    else
      var init := ts[..|ts| - 1];
      var s := RefreshTargets(w, cls, suffix, init, b);
      assert forall i :: 0 <= i < |init| ==> init[i] == ts[i];
      if s.result.Err? then s else RefreshTarget(s.world, cls, suffix, ts[|ts| - 1], b)
  }

  /**
   * What `Cache.refresh(*fields)` works through, as intended: with no names
   * every registered field in registry order, otherwise the named fields,
   * each looked up in the registry.
   */
  function RefreshList(registry: seq<FieldDesc>, names: seq<string>): seq<Target> {
    if names == [] then Targets(registry) else Resolve(registry, names)
  }

  /** `Cache.refresh(*fields)` as intended. */
  function Refresh(w: World, cls: CacheClass, suffix: string, names: seq<string>, b: Bindings): (s: Step<()>)
    ensures names == [] ==>
      (s.result.Ok? <==> forall i :: 0 <= i < |cls.registry| ==> ComputeName(cls.registry[i]) in b)
    ensures names != [] ==>
      (s.result.Ok? <==> forall i :: 0 <= i < |names| ==>
         Find(cls.registry, names[i]).Some? && ComputeName(Find(cls.registry, names[i]).value) in b)
  {
    RefreshTargets(w, cls, suffix, RefreshList(cls.registry, names), b)
  }

  /**
   * `Cache.refresh(*fields)` as written. The first name is fetched with
   * `getattr(self.__class__, field)` and its `refresh` is called; every
   * outcome raises `AttributeError` before any store access:
   * - a field descriptor runs `__get__(None, owner)`, and `cache_key(None)`
   *   fails on `None.key_suffix`;
   * - a name the class does not have fails in `getattr` itself, naming it;
   * - any other attribute (a method, `field_descs`) has no `refresh`.
   */
  function RefreshAsWritten(w: World, cls: CacheClass, suffix: string, names: seq<string>, b: Bindings): (s: Step<()>)
    ensures names == [] ==> s == Refresh(w, cls, suffix, [], b)
    ensures names != [] ==> s.world == w && s.result.Err? && s.result.error.NoAttribute?
    ensures names != [] && Lookup(cls.attrs, names[0]).Some? && Lookup(cls.attrs, names[0]).value.Desc? ==>
      s.result.error == NoAttribute("key_suffix")
    ensures names != [] && Lookup(cls.attrs, names[0]).None? ==> s.result.error == NoAttribute(names[0])
    ensures names != [] && Lookup(cls.attrs, names[0]).Some? && !Lookup(cls.attrs, names[0]).value.Desc? ==>
      s.result.error == NoAttribute("refresh")
  {
    if names == [] then RefreshTargets(w, cls, suffix, Targets(cls.registry), b)
    else
      match Lookup(cls.attrs, names[0])
      case Some(Desc(_)) => Step(Err(NoAttribute("key_suffix")), w)
      case None => Step(Err(NoAttribute(names[0])), w)
      case Some(_) => Step(Err(NoAttribute("refresh")), w)
  }

  /** Every target is a registered field whose compute method exists. */
  predicate Runnable(ts: seq<Target>, b: Bindings) {
    forall i :: 0 <= i < |ts| ==> ts[i].Known? && ComputeName(ts[i].d) in b
  }

  /** The compute methods a successful refresh calls, in order. */
  function CallsOf(ts: seq<Target>): (r: seq<string>)
    requires forall i :: 0 <= i < |ts| ==> ts[i].Known?
    ensures |r| == |ts| && forall i :: 0 <= i < |ts| ==> r[i] == ComputeName(ts[i].d)
  {
    if ts == [] then [] else CallsOf(ts[..|ts| - 1]) + [ComputeName(ts[|ts| - 1].d)]
  }

  /** The store writes a successful refresh makes, in order. */
  function WritesOf(cls: CacheClass, suffix: string, ts: seq<Target>, b: Bindings): (r: seq<Write>)
    requires Runnable(ts, b)
    ensures |r| == |ts|
    ensures forall i :: 0 <= i < |ts| ==>
      r[i] == Write(KeyOf(cls, suffix, ts[i].d), b[ComputeName(ts[i].d)], ts[i].d.field.timeout)
  {
    if ts == [] then []
    else
      var d := ts[|ts| - 1].d;
      WritesOf(cls, suffix, ts[..|ts| - 1], b) + [Write(KeyOf(cls, suffix, d), b[ComputeName(d)], d.field.timeout)]
  }

  /** The log lines a successful refresh writes, in order. */
  function LogOf(cls: CacheClass, suffix: string, ts: seq<Target>): (r: seq<string>)
    requires forall i :: 0 <= i < |ts| ==> ts[i].Known?
    ensures |r| == |ts| && forall i :: 0 <= i < |ts| ==> r[i] == LogLine(KeyOf(cls, suffix, ts[i].d))
  {
    if ts == [] then [] else LogOf(cls, suffix, ts[..|ts| - 1]) + [LogLine(KeyOf(cls, suffix, ts[|ts| - 1].d))]
  }

  function TargetKeys(cls: CacheClass, suffix: string, ts: seq<Target>): set<string> {
    set i | 0 <= i < |ts| && ts[i].Known? :: KeyOf(cls, suffix, ts[i].d)
  }

  lemma RunnablePrefix(ts: seq<Target>, b: Bindings, n: nat)
    requires Runnable(ts, b) && n <= |ts|
    ensures Runnable(ts[..n], b)
  {
    forall i | 0 <= i < n ensures ts[..n][i].Known? && ComputeName(ts[..n][i].d) in b {
      assert ts[..n][i] == ts[i];
    }
  }

  /**
   * A refresh whose targets are all runnable succeeds, calls each target's
   * compute method once, writes each once and logs each write once, in order.
   */
  lemma RefreshTargetsTrace(w: World, cls: CacheClass, suffix: string, ts: seq<Target>, b: Bindings)
    requires Runnable(ts, b)
    ensures var s := RefreshTargets(w, cls, suffix, ts, b);
      && s.result == Ok(())
      && s.world.calls == w.calls + CallsOf(ts)
      && s.world.writes == w.writes + WritesOf(cls, suffix, ts, b)
      && s.world.log == w.log + LogOf(cls, suffix, ts)
  {
    RefreshTargetsCalls(w, cls, suffix, ts, b);
    RefreshTargetsWrites(w, cls, suffix, ts, b);
    RefreshTargetsLog(w, cls, suffix, ts, b);
  }

  lemma {:induction false} RefreshTargetsCalls(w: World, cls: CacheClass, suffix: string, ts: seq<Target>, b: Bindings)
    requires Runnable(ts, b)
    ensures var s := RefreshTargets(w, cls, suffix, ts, b);
      s.result == Ok(()) && s.world.calls == w.calls + CallsOf(ts)
  {
    if ts != [] {
      var n := |ts| - 1;
      var init, d := ts[..n], ts[n].d;
      RunnablePrefix(ts, b, n);
      RefreshTargetsCalls(w, cls, suffix, init, b);
      var s0 := RefreshTargets(w, cls, suffix, init, b);
      assert RefreshTargets(w, cls, suffix, ts, b) == RefreshField(s0.world, cls, suffix, d, b);
      assert CallsOf(ts) == CallsOf(init) + [ComputeName(d)];
    }
  }

  lemma {:induction false} RefreshTargetsWrites(w: World, cls: CacheClass, suffix: string, ts: seq<Target>, b: Bindings)
    requires Runnable(ts, b)
    ensures RefreshTargets(w, cls, suffix, ts, b).world.writes == w.writes + WritesOf(cls, suffix, ts, b)
  {
    if ts != [] {
      var n := |ts| - 1;
      var init, d := ts[..n], ts[n].d;
      RunnablePrefix(ts, b, n);
      RefreshTargetsCalls(w, cls, suffix, init, b);
      RefreshTargetsWrites(w, cls, suffix, init, b);
      var s0 := RefreshTargets(w, cls, suffix, init, b);
      assert RefreshTargets(w, cls, suffix, ts, b) == RefreshField(s0.world, cls, suffix, d, b);
      assert WritesOf(cls, suffix, ts, b) == WritesOf(cls, suffix, init, b)
        + [Write(KeyOf(cls, suffix, d), b[ComputeName(d)], d.field.timeout)];
    }
  }

  lemma {:induction false} RefreshTargetsLog(w: World, cls: CacheClass, suffix: string, ts: seq<Target>, b: Bindings)
    requires Runnable(ts, b)
    ensures RefreshTargets(w, cls, suffix, ts, b).world.log == w.log + LogOf(cls, suffix, ts)
  {
    if ts != [] {
      var n := |ts| - 1;
      var init, d := ts[..n], ts[n].d;
      RunnablePrefix(ts, b, n);
      RefreshTargetsCalls(w, cls, suffix, init, b);
      RefreshTargetsLog(w, cls, suffix, init, b);
      var s0 := RefreshTargets(w, cls, suffix, init, b);
      assert RefreshTargets(w, cls, suffix, ts, b) == RefreshField(s0.world, cls, suffix, d, b);
      assert LogOf(cls, suffix, ts) == LogOf(cls, suffix, init) + [LogLine(KeyOf(cls, suffix, d))];
    }
  }

  /**
   * A refresh whose targets are all runnable leaves every key it does not
   * refresh as it was, and leaves every key it refreshes present.
   */
  lemma RefreshTargetsEntries(w: World, cls: CacheClass, suffix: string, ts: seq<Target>, b: Bindings)
    requires Runnable(ts, b)
    ensures var s := RefreshTargets(w, cls, suffix, ts, b);
      && (forall k :: k !in TargetKeys(cls, suffix, ts) ==> EntryAt(s.world.entries, k) == EntryAt(w.entries, k))
      && (forall i :: 0 <= i < |ts| ==> KeyOf(cls, suffix, ts[i].d) in s.world.entries)
  {
    RefreshTargetsUntouched(w, cls, suffix, ts, b);
    RefreshTargetsPresent(w, cls, suffix, ts, b);
  }

  lemma {:induction false} RefreshTargetsUntouched(w: World, cls: CacheClass, suffix: string, ts: seq<Target>, b: Bindings)
    requires Runnable(ts, b)
    ensures var s := RefreshTargets(w, cls, suffix, ts, b);
      forall k :: k !in TargetKeys(cls, suffix, ts) ==> EntryAt(s.world.entries, k) == EntryAt(w.entries, k)
  {
    if ts != [] {
      var n := |ts| - 1;
      var init := ts[..n];
      RunnablePrefix(ts, b, n);
      RefreshTargetsCalls(w, cls, suffix, init, b);
      RefreshTargetsUntouched(w, cls, suffix, init, b);
      var s0 := RefreshTargets(w, cls, suffix, init, b);
      var s := RefreshField(s0.world, cls, suffix, ts[n].d, b);
      assert RefreshTargets(w, cls, suffix, ts, b) == s;
      forall k | k !in TargetKeys(cls, suffix, ts) ensures EntryAt(s.world.entries, k) == EntryAt(w.entries, k) {
        assert KeyOf(cls, suffix, ts[n].d) in TargetKeys(cls, suffix, ts);
      }
    }
  }

  lemma {:induction false} RefreshTargetsPresent(w: World, cls: CacheClass, suffix: string, ts: seq<Target>, b: Bindings)
    requires Runnable(ts, b)
    ensures var s := RefreshTargets(w, cls, suffix, ts, b);
      forall i :: 0 <= i < |ts| ==> KeyOf(cls, suffix, ts[i].d) in s.world.entries
  {
    if ts != [] {
      var n := |ts| - 1;
      var init := ts[..n];
      RunnablePrefix(ts, b, n);
      RefreshTargetsCalls(w, cls, suffix, init, b);
      RefreshTargetsPresent(w, cls, suffix, init, b);
      var s0 := RefreshTargets(w, cls, suffix, init, b);
      var s := RefreshField(s0.world, cls, suffix, ts[n].d, b);
      assert RefreshTargets(w, cls, suffix, ts, b) == s;
      forall i | 0 <= i < |ts| ensures KeyOf(cls, suffix, ts[i].d) in s.world.entries {
        if i < n {
          assert ts[i] == init[i];
        }
      }
    }
  }

  /**
   * A refresh whose targets are all runnable leaves each refreshed key holding
   * the value its compute method returned, with the field's timeout, unless a
   * later target writes the same key again.
   */
  lemma {:induction false} RefreshTargetsValues(w: World, cls: CacheClass, suffix: string, ts: seq<Target>, b: Bindings)
    requires Runnable(ts, b)
    ensures var s := RefreshTargets(w, cls, suffix, ts, b);
      forall i :: 0 <= i < |ts| && LastWriteOf(cls, suffix, ts, i) ==>
        EntryAt(s.world.entries, KeyOf(cls, suffix, ts[i].d)) == Some(Entry(b[ComputeName(ts[i].d)], ts[i].d.field.timeout))
  {
    if ts != [] {
      var n := |ts| - 1;
      var init, d := ts[..n], ts[n].d;
      RunnablePrefix(ts, b, n);
      RefreshTargetsCalls(w, cls, suffix, init, b);
      RefreshTargetsValues(w, cls, suffix, init, b);
      var s0 := RefreshTargets(w, cls, suffix, init, b);
      var s := RefreshField(s0.world, cls, suffix, d, b);
      assert RefreshTargets(w, cls, suffix, ts, b) == s;
      forall i | 0 <= i < |ts| && LastWriteOf(cls, suffix, ts, i)
        ensures EntryAt(s.world.entries, KeyOf(cls, suffix, ts[i].d)) == Some(Entry(b[ComputeName(ts[i].d)], ts[i].d.field.timeout))
      {
        if i < n {
          assert KeyOf(cls, suffix, ts[n].d) != KeyOf(cls, suffix, ts[i].d);
          assert init[i] == ts[i];
          assert LastWriteOf(cls, suffix, init, i) by {
            forall j | i < j < n ensures KeyOf(cls, suffix, init[j].d) != KeyOf(cls, suffix, init[i].d) {
              assert init[j] == ts[j];
            }
          }
        }
      }
    }
  }

  /** No target after the `i`-th refreshes the same key. */
  predicate LastWriteOf(cls: CacheClass, suffix: string, ts: seq<Target>, i: nat)
    requires forall j :: 0 <= j < |ts| ==> ts[j].Known?
    requires i < |ts|
  {
    forall j :: i < j < |ts| ==> KeyOf(cls, suffix, ts[j].d) != KeyOf(cls, suffix, ts[i].d)
  }

  /**
   * After `refresh()` with no names, every registered field's key holds the
   * value its compute method returned, with the field's timeout.
   */
  lemma RefreshAllValues(w: World, cls: CacheClass, suffix: string, b: Bindings, i: nat)
    requires forall i :: 0 <= i < |cls.registry| ==> ComputeName(cls.registry[i]) in b
    requires DistinctFieldNames(cls.registry)
    requires i < |cls.registry|
    ensures var s := Refresh(w, cls, suffix, [], b);
      var d := cls.registry[i];
      EntryAt(s.world.entries, KeyOf(cls, suffix, d)) == Some(Entry(b[ComputeName(d)], d.field.timeout))
  {
    var ts := Targets(cls.registry);
    RefreshTargetsValues(w, cls, suffix, ts, b);
    forall j | i < j < |ts| ensures KeyOf(cls, suffix, ts[j].d) != KeyOf(cls, suffix, ts[i].d) {
      Keys.KeyFieldIsolation(cls.moduleName, cls.name, ts[j].d.fieldName, ts[i].d.fieldName, suffix);
    }
    assert LastWriteOf(cls, suffix, ts, i);
  }

  /** Once a prefix of the targets has failed, the rest of the list changes nothing. */
  lemma {:induction false} RefreshTargetsSticky(w: World, cls: CacheClass, suffix: string, ts: seq<Target>, b: Bindings, i: nat)
    requires i <= |ts|
    requires RefreshTargets(w, cls, suffix, ts[..i], b).result.Err?
    ensures RefreshTargets(w, cls, suffix, ts, b) == RefreshTargets(w, cls, suffix, ts[..i], b)
    decreases |ts| - i
  {
    if i < |ts| {
      var init := ts[..|ts| - 1];
      assert init[..i] == ts[..i];
      RefreshTargetsSticky(w, cls, suffix, init, b, i);
    } else {
      assert ts[..i] == ts;
    }
  }

  /**
   * The first target that cannot run ends the refresh with its error; the
   * targets before it have been refreshed and the ones after it are not touched.
   */
  lemma RefreshTargetsStopsAtFailure(w: World, cls: CacheClass, suffix: string, ts: seq<Target>, b: Bindings, i: nat)
    requires i < |ts| && Runnable(ts[..i], b) && !Runnable([ts[i]], b)
    ensures var before := RefreshTargets(w, cls, suffix, ts[..i], b);
      && before.result.Ok?
      && RefreshTargets(w, cls, suffix, ts, b) == RefreshTarget(before.world, cls, suffix, ts[i], b)
      && RefreshTargets(w, cls, suffix, ts, b).result.Err?
  {
    RefreshTargetsCalls(w, cls, suffix, ts[..i], b);
    assert ts[..i + 1][..i] == ts[..i];
    RefreshTargetsSticky(w, cls, suffix, ts, b, i + 1);
  }

  /** `refresh()` with no names recomputes every registered field once, in registry order. */
  lemma RefreshAllTrace(w: World, cls: CacheClass, suffix: string, b: Bindings)
    requires forall i :: 0 <= i < |cls.registry| ==> ComputeName(cls.registry[i]) in b
    ensures var s := Refresh(w, cls, suffix, [], b);
      && s.result == Ok(())
      && |s.world.calls| == |w.calls| + |cls.registry|
      && (forall i :: 0 <= i < |cls.registry| ==> s.world.calls[|w.calls| + i] == ComputeName(cls.registry[i]))
      && |s.world.writes| == |w.writes| + |cls.registry|
      && |s.world.log| == |w.log| + |cls.registry|
  {
    var ts := Targets(cls.registry);
    RefreshTargetsTrace(w, cls, suffix, ts, b);
    var s := Refresh(w, cls, suffix, [], b);
    forall i | 0 <= i < |cls.registry| ensures s.world.calls[|w.calls| + i] == ComputeName(cls.registry[i]) {
      assert CallsOf(ts)[i] == ComputeName(ts[i].d);
    }
  }

  /** After `refresh()`, reading any registered field is a hit. */
  lemma RefreshAllThenHit(w: World, cls: CacheClass, suffix: string, b: Bindings, i: nat)
    requires forall i :: 0 <= i < |cls.registry| ==> ComputeName(cls.registry[i]) in b
    requires i < |cls.registry|
    ensures var s := Refresh(w, cls, suffix, [], b);
      Get(s.world, cls, suffix, cls.registry[i], b).world == s.world
  {
    var ts := Targets(cls.registry);
    RefreshTargetsEntries(w, cls, suffix, ts, b);
    assert ts[i].d == cls.registry[i];
  }

  /** One more target: the refresh of a longer list continues from the shorter one's state. */
  lemma RefreshTargetsStep(w: World, cls: CacheClass, suffix: string, ts: seq<Target>, b: Bindings, i: nat)
    requires i < |ts|
    ensures var s := RefreshTargets(w, cls, suffix, ts[..i], b);
      RefreshTargets(w, cls, suffix, ts[..i + 1], b)
        == if s.result.Err? then s else RefreshTarget(s.world, cls, suffix, ts[i], b)
  {
    assert ts[..i + 1][..i] == ts[..i];
  }

  /**
   * Selective refresh: naming fields leaves the store entry of every other
   * field as it was, and calls only the compute methods of the named fields.
   */
  lemma RefreshNamedIsSelective(w: World, cls: CacheClass, suffix: string, names: seq<string>, b: Bindings, g: FieldDesc)
    requires names != []
    requires Runnable(Resolve(cls.registry, names), b)
    requires g.fieldName !in names
    ensures var s := Refresh(w, cls, suffix, names, b);
      && s.result == Ok(())
      && EntryAt(s.world.entries, KeyOf(cls, suffix, g)) == EntryAt(w.entries, KeyOf(cls, suffix, g))
      && |s.world.calls| == |w.calls| + |names|
      && (forall i :: 0 <= i < |names| ==>
            s.world.calls[|w.calls| + i] == ComputeName(Find(cls.registry, names[i]).value))
  {
    var ts := Resolve(cls.registry, names);
    RefreshTargetsCalls(w, cls, suffix, ts, b);
    RefreshTargetsEntries(w, cls, suffix, ts, b);
    if KeyOf(cls, suffix, g) in TargetKeys(cls, suffix, ts) {
      var i :| 0 <= i < |ts| && ts[i].Known? && KeyOf(cls, suffix, ts[i].d) == KeyOf(cls, suffix, g);
      assert ts[i].d.fieldName == names[i];
      Keys.KeyFieldIsolation(cls.moduleName, cls.name, names[i], g.fieldName, suffix);
      assert false;
    }
  }

  /**
   * The named refresh as written never refreshes anything, where the intended
   * one recomputes and writes the named field.
   */
  lemma NamedRefreshAsWrittenFails(w: World, cls: CacheClass, suffix: string, name: string, b: Bindings)
    requires Find(cls.registry, name).Some? && ComputeName(Find(cls.registry, name).value) in b
    requires Lookup(cls.attrs, name) == Some(Desc(Find(cls.registry, name).value))
    ensures var asWritten := RefreshAsWritten(w, cls, suffix, [name], b);
      asWritten == Step(Err(NoAttribute("key_suffix")), w)
    ensures var intended := Refresh(w, cls, suffix, [name], b);
      && intended.result.Ok?
      && intended.world.writes == w.writes + [Write(KeyOf(cls, suffix, Find(cls.registry, name).value),
                                                   b[ComputeName(Find(cls.registry, name).value)],
                                                   Find(cls.registry, name).value.field.timeout)]
  {
    var ts := Resolve(cls.registry, [name]);
    var d := Find(cls.registry, name).value;
    assert ts[0] == Known(d);
    assert ts[..0] == [];
    assert RefreshTargets(w, cls, suffix, ts, b) == RefreshField(w, cls, suffix, d, b);
  }
}
