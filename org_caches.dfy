/**
 * `OrgResourceCache`, the one entity type the repository declares: two
 * integer fields, a key suffix set from the organisation id, and a compute
 * method per field whose results come from the database.
 */
module OrgCaches {
  import opened Wrappers
  import opened Fields
  import opened Registry
  import opened Protocol
  import opened Runtime
  import Keys

  /**
   * The attributes declared in the class body of `OrgResourceCache`, in
   * order (the implicit `__module__` and `__qualname__` entries, which are
   * not fields either, are not listed).
   */
  const OrgResourceCacheBody: Attrs :=
    [("user_amount", Field(IntegerField()))]
    + [("group_amount", Field(IntegerField()))]
    + [("__init__", Other)]
    + [("compute_user_amount", Other)]
    + [("compute_group_amount", Other)]

  const UserAmount := FieldDesc("user_amount", IntegerField())
  const GroupAmount := FieldDesc("group_amount", IntegerField())
  const UserAmountKey := "cache.orgs.caches.OrgResourceCache.user_amount.42"
  const GroupAmountKey := "cache.orgs.caches.OrgResourceCache.group_amount.42"

  lemma OrgBodyDistinct()
    ensures DistinctNames(OrgResourceCacheBody)
  {
    var body := OrgResourceCacheBody;
    assert |body| == 5;
    assert |body[0].0| == 11 && |body[1].0| == 12 && |body[2].0| == 8 && |body[3].0| == 19 && |body[4].0| == 20;
  }

  lemma OrgBodyFields()
    ensures FieldsOf(OrgResourceCacheBody) == [UserAmount, GroupAmount]
  {
    var a, b, c, d, e := [("user_amount", Field(IntegerField()))], [("group_amount", Field(IntegerField()))],
      [("__init__", Other)], [("compute_user_amount", Other)], [("compute_group_amount", Other)];
    FieldsOfAppend(a + b + c + d, e);
    FieldsOfAppend(a + b + c, d);
    FieldsOfAppend(a + b, c);
    FieldsOfAppend(a, b);
    FieldsOfSingle(a[0].0, a[0].1);
    FieldsOfSingle(b[0].0, b[0].1);
    FieldsOfSingle(c[0].0, c[0].1);
    FieldsOfSingle(d[0].0, d[0].1);
    FieldsOfSingle(e[0].0, e[0].1);
  }

  /** `set_key_suffix(42)` stores the text "42". */
  lemma SuffixOf42()
    ensures Keys.Suffix([Keys.IntArg(42)]) == "42"
  {
    assert Text.DigitChar(4) == '4' && Text.DigitChar(2) == '2';
    assert Text.NatToDecimal(42) == Text.NatToDecimal(4) + [Text.DigitChar(2)];
    assert Keys.Str(Keys.IntArg(42)) == "42";
    var parts := Keys.Strs([Keys.IntArg(42)]);
    assert |parts| == 1 && parts[0] == "42";
  }

  const OrgKeyPrefix := "cache.orgs.caches.OrgResourceCache."

  lemma OrgKeyPrefixIs()
    ensures Keys.KeyPrefix("orgs.caches", "OrgResourceCache") == OrgKeyPrefix
  {
    ModulePart();
    ClassPart();
  }

  lemma ModulePart()
    ensures "cache." + "orgs.caches" + "." == "cache.orgs.caches."
  {
  }

  lemma ClassPart()
    ensures "cache.orgs.caches." + "OrgResourceCache" + "." == OrgKeyPrefix
  {
  }

  lemma UserAmountKeyIs()
    ensures Keys.CacheKey("orgs.caches", "OrgResourceCache", "user_amount", "42") == UserAmountKey
  {
    OrgKeyPrefixIs();
    UserAmountPart();
  }

  lemma UserAmountPart()
    ensures OrgKeyPrefix + ("user_amount" + "." + "42") == UserAmountKey
  {
    assert "user_amount" + "." + "42" == "user_amount.42";
  }

  lemma GroupAmountKeyIs()
    ensures Keys.CacheKey("orgs.caches", "OrgResourceCache", "group_amount", "42") == GroupAmountKey
  {
    OrgKeyPrefixIs();
    GroupAmountPart();
  }

  lemma GroupAmountPart()
    ensures OrgKeyPrefix + ("group_amount" + "." + "42") == GroupAmountKey
  {
    assert "group_amount" + "." + "42" == "group_amount.42";
  }

  lemma OrgComputeNames()
    ensures ComputeName(UserAmount) == "compute_user_amount"
    ensures ComputeName(GroupAmount) == "compute_group_amount"
  {
  }

  /** Defining the class registers its two fields, in declaration order. */
  method DefineOrgResourceCache() returns (cls: CacheClass)
    ensures cls.moduleName == "orgs.caches" && cls.name == "OrgResourceCache"
    ensures cls.registry == [UserAmount, GroupAmount]
    ensures Lookup(cls.attrs, "user_amount") == Some(Desc(UserAmount))
  {
    OrgBodyDistinct();
    OrgBodyFields();
    cls := NewClass("orgs.caches", "OrgResourceCache", OrgResourceCacheBody);
    assert UserAmount in cls.registry && UserAmount.fieldName != FieldDescsName;
  }

  /**
   * `OrgResourceCache(42).refresh("user_amount")` as written raises
   * `AttributeError` on `key_suffix` and changes nothing; the intended refresh
   * succeeds and writes the user count under the field's key.
   */
  lemma OrgNamedRefresh(cls: CacheClass, w: World, users: int, groups: int)
    requires IsOrgResourceCache(cls) && Lookup(cls.attrs, "user_amount") == Some(Desc(UserAmount))
    ensures RefreshAsWritten(w, cls, "42", ["user_amount"], OrgBindings(users, groups))
      == Step(Err(NoAttribute("key_suffix")), w)
    ensures var s := Refresh(w, cls, "42", ["user_amount"], OrgBindings(users, groups));
      s.result == Ok(()) && s.world.writes == w.writes + [Write(UserAmountKey, IntV(users), None)]
  {
    UserAmountKeyIs();
    OrgComputeNames();
    assert Find(cls.registry, "user_amount") == Some(UserAmount);
    NamedRefreshAsWrittenFails(w, cls, "42", "user_amount", OrgBindings(users, groups));
  }

  /** The compute methods of `OrgResourceCache` when the organisation has `users` members and `groups` groups. */
  function OrgBindings(users: int, groups: int): Bindings {
    map["compute_user_amount" := IntV(users), "compute_group_amount" := IntV(groups)]
  }

  /** What defining `OrgResourceCache` produces. */
  predicate IsOrgResourceCache(cls: CacheClass) {
    cls.moduleName == "orgs.caches" && cls.name == "OrgResourceCache" && cls.registry == [UserAmount, GroupAmount]
  }

  /**
   * `user_amount` read twice, starting where its key is absent: the first
   * read computes and logs, the second is a hit returning the same integer.
   */
  lemma OrgReadTwice(cls: CacheClass, w: World, users: int, groups: int)
    requires IsOrgResourceCache(cls) && UserAmountKey !in w.entries
    ensures var b := OrgBindings(users, groups);
      var s1 := Get(w, cls, "42", UserAmount, b);
      var s2 := Get(s1.world, cls, "42", UserAmount, b);
      && s1.result == Ok(IntV(users)) && s2.result == Ok(IntV(users))
      && s2.world.log == w.log + [LogLine(UserAmountKey)]
  {
    UserAmountKeyIs();
    OrgComputeNames();
    GetMissThenHit(w, cls, "42", UserAmount, OrgBindings(users, groups));
  }

  /** A stored text "10" reads back from `user_amount` as the integer 10 and changes nothing. */
  lemma OrgReadStoredText(cls: CacheClass, w: World, b: Bindings)
    requires IsOrgResourceCache(cls) && UserAmountKey in w.entries && w.entries[UserAmountKey].value == StrV("10")
    ensures Get(w, cls, "42", UserAmount, b) == Step(Ok(IntV(10)), w)
  {
    UserAmountKeyIs();
    assert Coerce(IntType, StrV("10")) == Some(IntV(10)) by {
      assert Text.NatToDecimal(10) == Text.NatToDecimal(1) + [Text.DigitChar(0)];
      assert Text.IntToDecimal(10) == "10";
      CoerceDecimalText(10);
    }
  }

  /** `refresh()` recomputes both fields, logging `user_amount` and then `group_amount`. */
  lemma OrgRefreshAll(cls: CacheClass, w: World, users: int, groups: int)
    requires IsOrgResourceCache(cls)
    ensures var s := Refresh(w, cls, "42", [], OrgBindings(users, groups));
      s.result == Ok(()) && s.world.log == w.log + [LogLine(UserAmountKey), LogLine(GroupAmountKey)]
  {
    UserAmountKeyIs();
    GroupAmountKeyIs();
    OrgComputeNames();
    var ts := RefreshList(cls.registry, []);
    assert ts == [Known(UserAmount), Known(GroupAmount)];
    RefreshTargetsCalls(w, cls, "42", ts, OrgBindings(users, groups));
    RefreshTargetsLog(w, cls, "42", ts, OrgBindings(users, groups));
  }

  /** A new `OrgResourceCache(42)` over an empty store and logger. */
  method NewOrg() returns (org: Cache, store: Store, logger: Logger)
    ensures fresh(org) && fresh(store) && fresh(logger)
    ensures IsOrgResourceCache(org.cls) && org.keySuffix == Some("42")
    ensures store.entries == map[] && logger.lines == []
  {
    var cls := DefineOrgResourceCache();
    org := new Cache(cls);
    org.SetKeySuffix([Keys.IntArg(42)]);
    SuffixOf42();
    store := new Store();
    logger := new Logger();
  }

  /**
   * `OrgResourceCache(42)`, then `user_amount` read twice on an empty store
   * while the organisation has `users` members: the first read computes,
   * writes and logs once, and the second is a hit that returns the same integer.
   */
  method ReadUserAmountTwice(users: int, groups: int) returns (first: Result<Value>, second: Result<Value>, log: seq<string>)
    ensures first == Ok(IntV(users)) && second == Ok(IntV(users))
    ensures log == [LogLine(UserAmountKey)]
  {
    var org, store, logger := NewOrg();
    OrgReadTwice(org.cls, Snap(store, logger, org), users, groups);
    first := DescGet(UserAmount, org, store, logger, OrgBindings(users, groups));
    second := DescGet(UserAmount, org, store, logger, OrgBindings(users, groups));
    log := logger.lines;
  }

  /** A stored text "10" reads back from the integer field as the integer 10, without a compute call. */
  method ReadUserAmountStoredAsText() returns (r: Result<Value>, log: seq<string>)
    ensures r == Ok(IntV(10))
    ensures log == []
  {
    var org, store, logger := NewOrg();
    store.Set(UserAmountKey, StrV("10"), None);
    OrgReadStoredText(org.cls, Snap(store, logger, org), map[]);
    r := DescGet(UserAmount, org, store, logger, map[]);
    log := logger.lines;
  }

  const MemberAmount := FieldDesc("member_amount", IntegerField())

  /** Reading a field whose compute method the instance lacks, on a miss, fails and changes nothing. */
  lemma MemberReadFails(cls: CacheClass, w: World, b: Bindings)
    requires "compute_member_amount" !in b
    requires Keys.CacheKey(cls.moduleName, cls.name, "member_amount", "42") !in w.entries
    ensures Get(w, cls, "42", MemberAmount, b) == Step(Err(MissingCompute("compute_member_amount")), w)
  {
    assert ComputeName(MemberAmount) == "compute_member_amount";
  }

  /** A field without a compute method fails on first read and writes nothing. */
  method ReadFieldWithoutCompute() returns (r: Result<Value>, entries: map<string, Entry>, log: seq<string>)
    ensures r == Err(MissingCompute("compute_member_amount"))
    ensures entries == map[] && log == []
  {
    var cls := NewClass("orgs.caches", "MemberCache", [("member_amount", Field(IntegerField()))]);
    var inst := new Cache(cls);
    inst.SetKeySuffix([Keys.IntArg(42)]);
    SuffixOf42();
    var store := new Store();
    var logger := new Logger();
    var b := map["compute_user_amount" := IntV(1)];
    MemberReadFails(cls, Snap(store, logger, inst), b);
    r := DescGet(MemberAmount, inst, store, logger, b);
    entries := store.entries;
    log := logger.lines;
  }

  /** `refresh()` on `OrgResourceCache(42)` recomputes both fields, in declaration order. */
  method RefreshOrg(users: int, groups: int) returns (r: Result<()>, log: seq<string>)
    ensures r == Ok(())
    ensures log == [LogLine(UserAmountKey), LogLine(GroupAmountKey)]
  {
    var org, store, logger := NewOrg();
    OrgRefreshAll(org.cls, Snap(store, logger, org), users, groups);
    r := org.Refresh([], store, logger, OrgBindings(users, groups));
    log := logger.lines;
  }
}
