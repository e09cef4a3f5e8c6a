/**
 * The metaclass `CacheBase`: when a class body is executed, every attribute
 * that is a field declaration is replaced by its descriptor, and the list
 * of descriptors, in declaration order, is stored as `field_descs`.
 */
module Registry {
  import opened Wrappers
  import opened Fields

  /** The value of a class attribute, as far as the metaclass distinguishes it. */
  datatype Attr =
    | Field(field: CacheField)               // a `CacheFieldBase` instance in the class body
    | Desc(desc: FieldDesc)                  // the `CacheValueDesc` that replaced it
    | Descs(descs: seq<FieldDesc>)           // the `field_descs` list
    | Other                                  // methods and every other attribute

  /** The class-body namespace: a dict, so names are in insertion order. */
  type Attrs = seq<(string, Attr)>

  predicate DistinctNames(attrs: Attrs) {
    forall i, j :: 0 <= i < j < |attrs| ==> attrs[i].0 != attrs[j].0
  }

  predicate DistinctFieldNames(ds: seq<FieldDesc>) {
    forall i, j :: 0 <= i < j < |ds| ==> ds[i].fieldName != ds[j].fieldName
  }

  /** A class made by the metaclass: module, name, namespace and `field_descs`. */
  datatype CacheClass = CacheClass(moduleName: string, name: string, attrs: Attrs, registry: seq<FieldDesc>)

  const FieldDescsName := "field_descs"

  /** The descriptors for the field declarations of a class body, in order. */
  function FieldsOf(attrs: Attrs): (ds: seq<FieldDesc>)
    ensures |ds| <= |attrs|
  {
    if attrs == [] then []
    else (if attrs[0].1.Field? then [FieldDesc(attrs[0].0, attrs[0].1.field)] else []) + FieldsOf(attrs[1..])
  }

  /** Every registered descriptor comes from a field declaration of the class body. */
  lemma {:induction false} FieldsOfSound(attrs: Attrs, d: FieldDesc)
    requires d in FieldsOf(attrs)
    ensures exists i :: 0 <= i < |attrs| && attrs[i] == (d.fieldName, Field(d.field))
  {
    var head := if attrs[0].1.Field? then [FieldDesc(attrs[0].0, attrs[0].1.field)] else [];
    if d !in head {
      FieldsOfSound(attrs[1..], d);
      var i :| 0 <= i < |attrs[1..]| && attrs[1..][i] == (d.fieldName, Field(d.field));
      assert attrs[i + 1] == attrs[1..][i];
    }
  }

  /** Every field declaration of the class body is registered. */
  lemma {:induction false} FieldsOfComplete(attrs: Attrs, i: nat)
    requires i < |attrs| && attrs[i].1.Field?
    ensures FieldDesc(attrs[i].0, attrs[i].1.field) in FieldsOf(attrs)
  {
    if i > 0 {
      assert attrs[1..][i - 1] == attrs[i];
      FieldsOfComplete(attrs[1..], i - 1);
    }
  }

  /** Declaration order is kept: the fields of a longer body extend those of its beginning. */
  lemma {:induction false} FieldsOfAppend(a: Attrs, b: Attrs)
    ensures FieldsOf(a + b) == FieldsOf(a) + FieldsOf(b)
  {
    if a != [] {
      assert (a + b)[0] == a[0];
      assert (a + b)[1..] == a[1..] + b;
      FieldsOfAppend(a[1..], b);
      var head := if a[0].1.Field? then [FieldDesc(a[0].0, a[0].1.field)] else [];
      assert FieldsOf(a + b) == head + FieldsOf(a[1..] + b);
      assert FieldsOf(a) == head + FieldsOf(a[1..]);
      assert head + (FieldsOf(a[1..]) + FieldsOf(b)) == (head + FieldsOf(a[1..])) + FieldsOf(b);
    } else {
      assert a + b == b;
    }
  }

  lemma FieldsOfSingle(k: string, v: Attr)
    ensures FieldsOf([(k, v)]) == if v.Field? then [FieldDesc(k, v.field)] else []
  {
  }

  /** Names that are unique in the class body are unique in the registry. */
  lemma {:induction false} FieldsOfDistinct(attrs: Attrs)
    requires DistinctNames(attrs)
    ensures DistinctFieldNames(FieldsOf(attrs))
  {
    if attrs != [] {
      var tail := attrs[1..];
      assert DistinctNames(tail) by {
        forall i, j | 0 <= i < j < |tail| ensures tail[i].0 != tail[j].0 {
          assert tail[i] == attrs[i + 1] && tail[j] == attrs[j + 1];
        }
      }
      FieldsOfDistinct(tail);
      var rest := FieldsOf(tail);
      if attrs[0].1.Field? {
        var ds := FieldsOf(attrs);
        assert ds == [FieldDesc(attrs[0].0, attrs[0].1.field)] + rest;
        forall j | 0 <= j < |rest| ensures rest[j].fieldName != attrs[0].0 {
          FieldsOfSound(tail, rest[j]);
          var i :| 0 <= i < |tail| && tail[i] == (rest[j].fieldName, Field(rest[j].field));
          assert tail[i] == attrs[i + 1];
        }
        forall i, j | 0 <= i < j < |ds| ensures ds[i].fieldName != ds[j].fieldName {
          if i > 0 {
            assert ds[i] == rest[i - 1] && ds[j] == rest[j - 1];
          } else {
            assert ds[j] == rest[j - 1];
          }
        }
      }
    }
  }

  /** `attrs[name]`, or `None` when there is no such attribute. */
  function Lookup(attrs: Attrs, name: string): (r: Option<Attr>)
    ensures r.None? <==> forall i :: 0 <= i < |attrs| ==> attrs[i].0 != name
    ensures r.Some? ==>
      exists i :: 0 <= i < |attrs| && attrs[i] == (name, r.value) && forall j :: 0 <= j < i ==> attrs[j].0 != name
  {
    if attrs == [] then None
    else if attrs[0].0 == name then Some(attrs[0].1)
    else
      assert forall i :: 1 <= i < |attrs| ==> attrs[i] == attrs[1..][i - 1];
      Lookup(attrs[1..], name)
  }

  /** `attrs[name] = v`: replaces an existing entry in place, or appends a new one. */
  function Put(attrs: Attrs, name: string, v: Attr): (r: Attrs)
    ensures |r| == |attrs| + (if Lookup(attrs, name).None? then 1 else 0)
    ensures forall i :: 0 <= i < |attrs| ==> r[i].0 == attrs[i].0
    ensures forall i :: 0 <= i < |attrs| && attrs[i].0 != name ==> r[i] == attrs[i]
    ensures Lookup(r, name) == Some(v)
  {
    if attrs == [] then [(name, v)]
    else if attrs[0].0 == name then [(name, v)] + attrs[1..]
    else
      var rest := Put(attrs[1..], name, v);
      assert forall i :: 1 <= i < |attrs| ==> attrs[1..][i - 1] == attrs[i];
      assert Lookup(attrs, name) == Lookup(attrs[1..], name);
      [attrs[0]] + rest
  }

  /** One entry of `attrs` after `attrs.update(m)`. */
  function Updated(entry: (string, Attr), m: map<string, Attr>): (string, Attr) {
    if entry.0 in m then (entry.0, m[entry.0]) else entry
  }

  /** Every entry of `attrs` after `attrs.update(m)`, in place. */
  function UpdateEntries(attrs: Attrs, m: map<string, Attr>): (r: Attrs)
    ensures |r| == |attrs|
    ensures forall i :: 0 <= i < |attrs| ==> r[i] == Updated(attrs[i], m)
  {
    seq(|attrs|, i requires 0 <= i < |attrs| => Updated(attrs[i], m))
  }

  /** Looking up a name after an entry-by-entry update of `attrs`. */
  lemma {:induction false} UpdatedLookup(attrs: Attrs, m: map<string, Attr>, k: string)
    ensures k in m && (exists i :: 0 <= i < |attrs| && attrs[i].0 == k) ==> Lookup(UpdateEntries(attrs, m), k) == Some(m[k])
    ensures k !in m ==> Lookup(UpdateEntries(attrs, m), k) == Lookup(attrs, k)
    decreases |attrs|
  {
    if attrs != [] && attrs[0].0 != k {
      var r := UpdateEntries(attrs, m);
      assert r[1..] == UpdateEntries(attrs[1..], m);
      UpdatedLookup(attrs[1..], m, k);
      if k in m && exists i :: 0 <= i < |attrs| && attrs[i].0 == k {
        var i :| 0 <= i < |attrs| && attrs[i].0 == k;
        assert attrs[1..][i - 1].0 == k;
      }
    }
  }

  /**
   * `attrs.update(m)`, for a map whose names are all in `attrs` already (as
   * the metaclass's `to_update` is): the names keep their places, a name of
   * `m` now holds its value in `m`, and every other name is as it was.
   */
  function Update(attrs: Attrs, m: map<string, Attr>): (r: Attrs)
    requires forall k :: k in m ==> exists i :: 0 <= i < |attrs| && attrs[i].0 == k
    ensures |r| == |attrs|
    ensures forall i :: 0 <= i < |attrs| ==> r[i].0 == attrs[i].0
    ensures forall k :: k in m ==> Lookup(r, k) == Some(m[k])
    ensures forall k :: k !in m ==> Lookup(r, k) == Lookup(attrs, k)
  {
    var r := UpdateEntries(attrs, m);
    assert forall k :: Lookup(r, k) == (if k in m then Some(m[k]) else Lookup(attrs, k)) by {
      forall k ensures Lookup(r, k) == (if k in m then Some(m[k]) else Lookup(attrs, k)) {
        UpdatedLookup(attrs, m, k);
      }
    }
    r
  }

  /** Updating with the `to_update` the metaclass builds installs every descriptor. */
  lemma UpdateInstalls(attrs: Attrs, m: map<string, Attr>)
    requires forall j :: 0 <= j < |attrs| && attrs[j].1.Field? ==>
      attrs[j].0 in m && m[attrs[j].0] == Desc(FieldDesc(attrs[j].0, attrs[j].1.field))
    requires forall j :: 0 <= j < |attrs| && !attrs[j].1.Field? ==> attrs[j].0 !in m
    requires forall k :: k in m ==> exists j :: 0 <= j < |attrs| && attrs[j].0 == k
    ensures Update(attrs, m) == InstallAll(attrs)
  {
    assert Update(attrs, m) == UpdateEntries(attrs, m);
  }

  /** What the metaclass leaves under one name of the class body. */
  function Installed(entry: (string, Attr)): (string, Attr) {
    if entry.1.Field? then (entry.0, Desc(FieldDesc(entry.0, entry.1.field))) else entry
  }

  /** The class body once every field declaration is replaced by its descriptor. */
  function InstallAll(attrs: Attrs): (r: Attrs)
    ensures |r| == |attrs|
    ensures forall i :: 0 <= i < |attrs| ==> r[i].0 == attrs[i].0
    ensures forall i :: 0 <= i < |attrs| && attrs[i].1.Field? ==>
      r[i].1 == Desc(FieldDesc(attrs[i].0, attrs[i].1.field))
    ensures forall i :: 0 <= i < |attrs| && !attrs[i].1.Field? ==> r[i] == attrs[i]
  {
    seq(|attrs|, i requires 0 <= i < |attrs| => Installed(attrs[i]))
  }

  /** The entry at `i` is what `Lookup` finds when no earlier entry has its name. */
  lemma {:induction false} LookupFirst(attrs: Attrs, i: nat)
    requires i < |attrs|
    requires forall j :: 0 <= j < i ==> attrs[j].0 != attrs[i].0
    ensures Lookup(attrs, attrs[i].0) == Some(attrs[i].1)
  {
    if i > 0 {
      var tail := attrs[1..];
      assert tail[i - 1] == attrs[i];
      forall j | 0 <= j < i - 1 ensures tail[j].0 != tail[i - 1].0 {
        assert tail[j] == attrs[j + 1];
      }
      LookupFirst(tail, i - 1);
    }
  }

  /**
   * After the metaclass has run, every registered field's attribute holds its
   * descriptor (unless the field is itself named `field_descs`, which the
   * registry then overwrites).
   */
  lemma InstalledFieldsHoldDescs(attrs: Attrs, d: FieldDesc)
    requires DistinctNames(attrs)
    requires d in FieldsOf(attrs) && d.fieldName != FieldDescsName
    ensures Lookup(Put(InstallAll(attrs), FieldDescsName, Descs(FieldsOf(attrs))), d.fieldName) == Some(Desc(d))
  {
    var installed := InstallAll(attrs);
    var p := Put(installed, FieldDescsName, Descs(FieldsOf(attrs)));
    FieldsOfSound(attrs, d);
    var i :| 0 <= i < |attrs| && attrs[i] == (d.fieldName, Field(d.field));
    assert p[i] == installed[i] == (d.fieldName, Desc(d));
    forall j | 0 <= j < i ensures p[j].0 != d.fieldName {
      assert p[j].0 == installed[j].0 == attrs[j].0;
    }
    LookupFirst(p, i);
  }

  /**
   * `CacheBase.__new__(cls, name, bases, attrs)`: the registry is the field
   * declarations in order, each field attribute now holds its descriptor, and
   * `field_descs` holds the registry.
   */
  method NewClass(moduleName: string, name: string, attrs: Attrs) returns (c: CacheClass)
    requires DistinctNames(attrs)
    ensures c.moduleName == moduleName && c.name == name
    ensures c.registry == FieldsOf(attrs) && DistinctFieldNames(c.registry)
    ensures c.attrs == Put(InstallAll(attrs), FieldDescsName, Descs(c.registry))
    ensures Lookup(c.attrs, FieldDescsName) == Some(Descs(c.registry))
    ensures forall d :: d in c.registry && d.fieldName != FieldDescsName ==> Lookup(c.attrs, d.fieldName) == Some(Desc(d))
  {
    var toUpdate: map<string, Attr> := map[];
    var descs: seq<FieldDesc> := [];
    for i := 0 to |attrs|
      invariant descs == FieldsOf(attrs[..i])
      invariant forall j :: 0 <= j < i && attrs[j].1.Field? ==>
        attrs[j].0 in toUpdate && toUpdate[attrs[j].0] == Desc(FieldDesc(attrs[j].0, attrs[j].1.field))
      invariant forall j :: 0 <= j < i && !attrs[j].1.Field? ==> attrs[j].0 !in toUpdate
      invariant forall j :: i <= j < |attrs| ==> attrs[j].0 !in toUpdate
      invariant forall k :: k in toUpdate ==> exists j :: 0 <= j < |attrs| && attrs[j].0 == k
    {
      var (k, v) := attrs[i];
      if v.Field? {
        var desc := FieldDesc(k, v.field);
        toUpdate := toUpdate[k := Desc(desc)];
        descs := descs + [desc];
      }
      FieldsOfAppend(attrs[..i], [attrs[i]]);
      assert attrs[..i + 1] == attrs[..i] + [attrs[i]];
    }
    assert attrs[..|attrs|] == attrs;
    UpdateInstalls(attrs, toUpdate);
    var updated := Update(attrs, toUpdate);
    c := CacheClass(moduleName, name, Put(updated, FieldDescsName, Descs(descs)), descs);
    FieldsOfDistinct(attrs);
    forall d | d in c.registry && d.fieldName != FieldDescsName
      ensures Lookup(c.attrs, d.fieldName) == Some(Desc(d))
    {
      InstalledFieldsHoldDescs(attrs, d);
    }
  }
}
