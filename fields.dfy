/**
 * Field declarations (`CacheFieldBase`, `StringField`, `IntegerField`), the
 * descriptor that binds one to its attribute name (`CacheValueDesc`), the
 * resolution of the compute method's name, and the conversion
 * `field_type(value)` applied to a value read back from the store.
 */
module Fields {
  import opened Wrappers
  import opened Text

  /** The values the model lets the store hold and compute methods return. */
  datatype Value = IntV(n: int) | StrV(s: string)

  /** The class attribute `field_type`: `str` or `int`. */
  datatype FieldType = StrType | IntType

  predicate HasType(v: Value, t: FieldType) {
    match t
    case StrType => v.StrV?
    case IntType => v.IntV?
  }

  /** A field declaration: its type, the timeout handed to the store, and the optional compute method name. */
  datatype CacheField = CacheField(fieldType: FieldType, timeout: Option<int>, computeFuncName: Option<string>)

  /** `StringField(timeout=None, compute_func_name=None)`. */
  function StringField(timeout: Option<int> := None, computeFuncName: Option<string> := None): (f: CacheField)
    ensures f.fieldType == StrType
    ensures f.timeout == timeout && f.computeFuncName == computeFuncName
  {
    CacheField(StrType, timeout, computeFuncName)
  }

  /** `IntegerField(timeout=None, compute_func_name=None)`. */
  function IntegerField(timeout: Option<int> := None, computeFuncName: Option<string> := None): (f: CacheField)
    ensures f.fieldType == IntType
    ensures f.timeout == timeout && f.computeFuncName == computeFuncName
  {
    CacheField(IntType, timeout, computeFuncName)
  }

  /** A `CacheValueDesc`: the attribute name and the declaration it replaced. */
  datatype FieldDesc = FieldDesc(fieldName: string, field: CacheField)

  /** `not compute_func_name`: both `None` and the empty text count as no override. */
  predicate HasOverride(f: CacheField) {
    f.computeFuncName.Some? && f.computeFuncName.value != ""
  }

  /** The name `get_new_value` looks up on the instance. */
  function ComputeName(d: FieldDesc): (name: string)
    ensures HasOverride(d.field) ==> name == d.field.computeFuncName.value
    ensures !HasOverride(d.field) ==> name == "compute_" + d.fieldName && name[8..] == d.fieldName
  {
    if HasOverride(d.field) then d.field.computeFuncName.value else "compute_" + d.fieldName
  }

  /**
   * `field_type(value)` on a value read from the store. `None` stands for the
   * `ValueError` of `int()` on text that is not an integer.
   */
  function Coerce(t: FieldType, v: Value): (r: Option<Value>)
    ensures r.Some? ==> HasType(r.value, t)
    ensures HasType(v, t) ==> r == Some(v)
    ensures t == StrType ==> r.Some?
    ensures t == StrType && v.IntV? ==> r.value.s == IntToDecimal(v.n) && ParseInt(r.value.s) == Some(v.n)
    ensures t == IntType && v.StrV? ==> (r.Some? <==> ParseInt(v.s).Some?)
    ensures t == IntType && v.StrV? && r.Some? ==> Some(r.value.n) == ParseInt(v.s)
  {
    match (t, v)
    case (StrType, StrV(s)) => Some(v)
    case (StrType, IntV(n)) => ParseIntToDecimal(n); Some(StrV(IntToDecimal(n)))
    case (IntType, IntV(n)) => Some(v)
    case (IntType, StrV(s)) =>
      match ParseInt(s)
      case Some(n) => Some(IntV(n))
      case None => None
  }

  /** An integer stored as its decimal text reads back as that integer from an integer field. */
  lemma CoerceDecimalText(n: int)
    ensures Coerce(IntType, StrV(IntToDecimal(n))) == Some(IntV(n))
  {
    ParseIntToDecimal(n);
  }

  /** Coercion is idempotent: a coerced value coerces to itself. */
  lemma CoerceIdempotent(t: FieldType, v: Value)
    requires Coerce(t, v).Some?
    ensures Coerce(t, Coerce(t, v).value) == Coerce(t, v)
  {
  }
}
