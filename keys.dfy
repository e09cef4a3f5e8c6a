/**
 * Cache keys (`CacheValueDesc.cache_key`) and the key suffix text that
 * `Cache.set_key_suffix` builds from its arguments.
 */
module Keys {
  import opened Wrappers
  import opened Text

  /** An argument of `set_key_suffix`: a text, or an integer such as an organisation id. */
  datatype Arg = StrArg(s: string) | IntArg(n: int)

  /** `arg if isinstance(arg, str) else str(arg)`. */
  function Str(a: Arg): (s: string)
    ensures a.StrArg? ==> s == a.s
    ensures a.IntArg? ==> s == IntToDecimal(a.n) && ParseInt(s) == Some(a.n)
  {
    match a
    case StrArg(s) => s
    case IntArg(n) => ParseIntToDecimal(n); IntToDecimal(n)
  }

  /** The list `enfore_str` once the loop over all arguments is done. */
  function Strs(args: seq<Arg>): (parts: seq<string>)
    ensures |parts| == |args|
    ensures forall i :: 0 <= i < |args| ==> parts[i] == Str(args[i])
  {
    seq(|args|, i requires 0 <= i < |args| => Str(args[i]))
  }

  /** The key suffix `set_key_suffix(*args)` stores: the texts of the arguments joined with '.'. */
  function Suffix(args: seq<Arg>): (s: string)
    ensures args == [] ==> s == ""
    ensures |args| == 1 ==> s == Str(args[0])
    ensures |args| > 0 && (forall i :: 0 <= i < |args| ==> DotFree(Str(args[i]))) ==> Split(s) == Strs(args)
  {
    var parts := Strs(args);
    if |args| > 0 && (forall i :: 0 <= i < |args| ==> DotFree(Str(args[i]))) then
      SplitJoin(parts);
      Join(parts)
    else
      Join(parts)
  }

  lemma SuffixOfOneText(s: string)
    ensures Suffix([StrArg(s)]) == s
  {
  }

  lemma SuffixOfOneInt(n: int)
    ensures Suffix([IntArg(n)]) == IntToDecimal(n)
    ensures ParseInt(Suffix([IntArg(n)])) == Some(n)
  {
  }

  /** Distinct argument lists can give the same suffix, and so share every cache key. */
  lemma SuffixCollision()
    ensures [StrArg("a.b")] != [StrArg("a"), StrArg("b")]
    ensures Suffix([StrArg("a.b")]) == Suffix([StrArg("a"), StrArg("b")])
  {
    assert Strs([StrArg("a"), StrArg("b")]) == ["a", "b"];
    assert Strs([StrArg("a"), StrArg("b")])[1..] == ["b"];
  }

  /** When every argument text is dot-free, the suffix determines the argument texts. */
  lemma SuffixDeterminesDotFreeTexts(xs: seq<Arg>, ys: seq<Arg>)
    requires |xs| > 0 && |ys| > 0
    requires forall i :: 0 <= i < |xs| ==> DotFree(Str(xs[i]))
    requires forall i :: 0 <= i < |ys| ==> DotFree(Str(ys[i]))
    requires Suffix(xs) == Suffix(ys)
    ensures Strs(xs) == Strs(ys)
  {
    JoinInjective(Strs(xs), Strs(ys));
  }

  /** The part of every key of one entity type in front of the field name. */
  function KeyPrefix(moduleName: string, className: string): string {
    "cache." + moduleName + "." + className + "."
  }

  /**
   * The key of one field of one instance: the word `cache`, the module of the
   * instance's class, the class name, the field name and the key suffix, in
   * that order, each separated from the next by a dot.
   */
  function CacheKey(moduleName: string, className: string, fieldName: string, suffix: string): (key: string)
    ensures |key| == 9 + |moduleName| + |className| + |fieldName| + |suffix|
    ensures key[..6] == "cache."
    ensures key[|key| - |suffix|..] == suffix
    ensures key == KeyPrefix(moduleName, className) + (fieldName + "." + suffix)
  {
    "cache." + moduleName + "." + className + "." + fieldName + "." + suffix
  }

  lemma PrefixCancel(p: string, s: string, t: string)
    requires p + s == p + t
    ensures s == t
  {
    assert s == (p + s)[|p|..];
    assert t == (p + t)[|p|..];
  }

  /** Suffix isolation: for one entity type and field, keys agree exactly when the suffixes do. */
  lemma KeySuffixIsolation(moduleName: string, className: string, fieldName: string, s1: string, s2: string)
    ensures CacheKey(moduleName, className, fieldName, s1) == CacheKey(moduleName, className, fieldName, s2) <==> s1 == s2
  {
    if CacheKey(moduleName, className, fieldName, s1) == CacheKey(moduleName, className, fieldName, s2) {
      PrefixCancel(KeyPrefix(moduleName, className) + fieldName + ".", s1, s2);
    }
  }

  /** Field isolation: for one entity type and suffix, distinct field names give distinct keys. */
  lemma KeyFieldIsolation(moduleName: string, className: string, f1: string, f2: string, suffix: string)
    ensures CacheKey(moduleName, className, f1, suffix) == CacheKey(moduleName, className, f2, suffix) <==> f1 == f2
  {
    if CacheKey(moduleName, className, f1, suffix) == CacheKey(moduleName, className, f2, suffix) {
      var t1, t2 := f1 + "." + suffix, f2 + "." + suffix;
      PrefixCancel(KeyPrefix(moduleName, className), t1, t2);
      assert f1 == t1[..|f1|];
      assert f2 == t2[..|f2|];
    }
  }

  /**
   * Within one module, a key determines the type name, the field name and the
   * suffix, provided type and field names are dot-free (as Python identifiers are).
   */
  lemma KeyInjective(moduleName: string, c1: string, f1: string, s1: string, c2: string, f2: string, s2: string)
    requires DotFree(c1) && DotFree(f1) && DotFree(c2) && DotFree(f2)
    requires CacheKey(moduleName, c1, f1, s1) == CacheKey(moduleName, c2, f2, s2)
    ensures c1 == c2 && f1 == f2 && s1 == s2
  {
    var p := "cache." + moduleName + ".";
    var t1, t2 := f1 + "." + s1, f2 + "." + s2;
    KeyAfterModule(moduleName, c1, f1, s1);
    KeyAfterModule(moduleName, c2, f2, s2);
    PrefixCancel(p, c1 + "." + t1, c2 + "." + t2);
    DotFreeHead(c1, t1, c2, t2);
    DotFreeHead(f1, s1, f2, s2);
  }

  lemma KeyAfterModule(moduleName: string, className: string, fieldName: string, suffix: string)
    ensures CacheKey(moduleName, className, fieldName, suffix)
      == ("cache." + moduleName + ".") + (className + "." + (fieldName + "." + suffix))
  {
    var p := "cache." + moduleName + ".";
    var t := fieldName + "." + suffix;
    assert KeyPrefix(moduleName, className) == p + className + ".";
    assert p + className + "." + t == p + (className + "." + t);
  }

  /** Across modules the key is not unique: a dotted module name can absorb the type name. */
  lemma KeyModuleCollision()
    ensures CacheKey("a.b", "C", "f", "1") == CacheKey("a", "b", "C", "f.1")
  {
  }
}
