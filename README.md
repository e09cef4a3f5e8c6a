# Declarative cache fields (`apps/common/cache.py`)

This project models jumpserver's declarative cache layer in Dafny and proves
properties of the model. In that layer:

- a subclass of `Cache` declares fields (`StringField`, `IntegerField`). Each field has a
  value type, an optional timeout and an optional compute method name;
- the metaclass `CacheBase` turns each declaration into a `CacheValueDesc`
  descriptor and records the descriptors, in declaration order, as `field_descs`;
- an instance sets its key suffix with `set_key_suffix(*args)`;
- reading a field looks its key up in the Django cache. On a miss, it calls
  the compute method, stores the result with the field's timeout, logs the key
  and returns the result. On a hit, it converts the stored value to the field's type;
- `refresh` recomputes and overwrites fields, whatever the store holds.

Modules:

- `Text`: the Python built-ins the layer relies on for text: `str()` of an
  integer, `int()` of a text, and `'.'.join`. `Split` is the inverse of `'.'.join`, used only in proofs.
- `Keys`: the key suffix text built from the arguments, and the key format
  `cache.<module>.<Class>.<field>.<suffix>`.
- `Fields`: field declarations, descriptors, compute-name resolution, and the
  conversion applied on a hit.
- `Registry`: the metaclass, as a method with a loop over the class body,
  specified by the function `FieldsOf`.
- `Protocol`: the access protocol as functions from a `World` to a `World`.
  A `World` holds the store entries with their timeouts, the writes made, the
  log lines and the compute calls, each in order.
- `Runtime`: the store, the logger and a `Cache` instance as classes with
  mutable fields. The descriptor operations and `Cache.refresh` are tied by
  their postconditions to the matching `Protocol` function of the state they
  started from. `set_key_suffix` is tied to `Keys.Suffix`. The store and logger
  methods, and `get_new_value`, state their effect on their own fields directly.
- `OrgCaches`: `OrgResourceCache` of `apps/orgs/caches.py` as a concrete
  instance, with organisation id 42.

The compute methods of an instance are a parameter of type `Bindings`. It maps
each method the instance has to the value that method returns now.

## Model

| member | source | states |
|---|---|---|
| Fields.StringField | apps/common/cache.py:8-17 | a string field has type `str` and keeps the timeout and compute name it was given (both default to none) |
| Fields.IntegerField | apps/common/cache.py:20-21 | an integer field has type `int` and keeps the timeout and compute name it was given |
| Fields.ComputeName | apps/common/cache.py:92-94 | the override name when it is set and non-empty; otherwise `compute_` followed by the field name |
| Fields.Coerce | apps/common/cache.py:83 | conversion yields a value of the field's type and leaves a value already of that type unchanged. For `str` it never fails, and an integer becomes its decimal text, which parses back to it. For `int` on text it succeeds exactly when the text parses, giving the parsed number |
| Fields.CoerceDecimalText | apps/common/cache.py:83 | an integer stored as its decimal text reads back from an integer field as that integer |
| Fields.CoerceIdempotent | apps/common/cache.py:83 | converting an already converted value changes nothing |
| Text.IntToDecimal | apps/common/cache.py:59 | `str(n)` is non-empty, starts with `-` exactly when `n` is negative, is otherwise digits, and has no leading zero: it starts with `0` only for 0, and a negative number's first digit is never `0` |
| Text.ParseInt | apps/common/cache.py:83 | `int(s)` fails on the empty text, succeeds only on text starting with a digit or a sign, and gives the decimal value of a digit string |
| Text.Join | apps/common/cache.py:62 | `'.'.join` of no parts is empty, of one part is that part, and of two or more contains a dot |
| Text.ParseIntToDecimal | apps/common/cache.py:59 | `int(str(n)) == n` for every integer, negative ones included |
| Text.SplitJoin | apps/common/cache.py:62 | splitting a `'.'.join` of dot-free parts at the dots gives the parts back |
| Text.JoinInjective | apps/common/cache.py:62 | `'.'.join` is injective on non-empty lists of dot-free parts |
| Keys.Str | apps/common/cache.py:58-59 | a text argument is kept as it is; an integer argument becomes its decimal text `str(n)`, which parses back to that integer |
| Keys.Strs | apps/common/cache.py:56-60 | `enfore_str` has one text per argument, in order, each converted by `Keys.Str` |
| Keys.Suffix | apps/common/cache.py:55-62 | no arguments give the empty suffix; one argument gives its text; when every argument text is dot-free, splitting the suffix at the dots gives the argument texts back |
| Keys.SuffixOfOneText | apps/common/cache.py:55-62 | a single text argument gives that text as the suffix |
| Keys.SuffixOfOneInt | apps/common/cache.py:55-62 | a single integer argument gives its decimal text, which parses back to it |
| Keys.SuffixCollision | apps/common/cache.py:55-62 | the distinct argument lists `("a.b")` and `("a", "b")` give the same suffix |
| Keys.SuffixDeterminesDotFreeTexts | apps/common/cache.py:55-62 | when every argument text is dot-free, equal suffixes mean equal argument texts |
| Keys.CacheKey | apps/common/cache.py:86-89 | the key starts with `cache.`, ends with the suffix, has the combined length of its parts plus nine, and is the class prefix followed by field name, `.` and suffix |
| Keys.KeySuffixIsolation | apps/common/cache.py:88 | for one class and field, two keys are equal exactly when the suffixes are |
| Keys.KeyFieldIsolation | apps/common/cache.py:88 | for one class and suffix, two keys are equal exactly when the field names are |
| Keys.KeyInjective | apps/common/cache.py:88 | within one module, a key determines the class name, the field name and the suffix |
| Keys.KeyModuleCollision | apps/common/cache.py:88 | across modules keys can collide: module `a.b`, class `C`, field `f`, suffix `1` and module `a`, class `b`, field `C`, suffix `f.1` share the key `cache.a.b.C.f.1` |
| Registry.FieldsOf | apps/common/cache.py:29-33 | the registry has at most one descriptor per attribute; the lemmas below give its contents and order |
| Registry.FieldsOfSound | apps/common/cache.py:29-33 | every registered descriptor comes from a field declaration of the class body, under its own name |
| Registry.FieldsOfComplete | apps/common/cache.py:29-33 | every field declaration of the class body is registered |
| Registry.FieldsOfAppend | apps/common/cache.py:29-33 | the registry keeps declaration order: the fields of a concatenated body are the fields of its parts, concatenated |
| Registry.FieldsOfDistinct | apps/common/cache.py:29-33 | unique attribute names give unique field names in the registry |
| Registry.Lookup | apps/common/cache.py:36 | a name is missing from the namespace exactly when no entry has it; otherwise the value found is that of the first entry with the name |
| Registry.Put | apps/common/cache.py:36 | assigning a name replaces its entry in place, or appends it when it is new, leaves others as they were, and makes the name map to the new value |
| Registry.Update | apps/common/cache.py:35 | `attrs.update(to_update)`, where every name of `to_update` is already in `attrs`: names keep their places, each name of the map now looks up to its new value, and every other name looks up as before |
| Registry.UpdateInstalls | apps/common/cache.py:29-35 | updating the namespace with the `to_update` map the loop builds (each field's name to its descriptor, nothing else) replaces every field declaration by its descriptor |
| Registry.InstallAll | apps/common/cache.py:35 | every field declaration is replaced by its descriptor under the same name and position, and every other entry stays as it was |
| Registry.InstalledFieldsHoldDescs | apps/common/cache.py:29-36 | after the update and the `field_descs` assignment, every registered field's name maps to its own descriptor |
| Registry.NewClass | apps/common/cache.py:24-37 | the class is built from its module and name. Its registry is the field declarations in order, with distinct names. The namespace is the class body with each declaration replaced by its descriptor, every registered field's name maps to its descriptor, and `field_descs` maps to the registry |
| Protocol.Read | apps/common/cache.py:76 | a stored value is returned exactly when the key is present; anything else is a miss |
| Protocol.SetNewValue | apps/common/cache.py:101-103 | the key now holds the value with the field's timeout, every other key is unchanged, one write and one log line are appended, and no compute call is made |
| Protocol.LogLine | apps/common/cache.py:103 | the log line ends with the key |
| Protocol.GetNewValue | apps/common/cache.py:91-99 | the call succeeds exactly when the instance has the compute method, and then records one call and returns that method's value; otherwise it fails and changes nothing |
| Protocol.Get | apps/common/cache.py:74-84 | on a miss it succeeds exactly when the compute method exists. A successful miss makes one call, one write with the field's timeout and one log line, and returns the computed value unconverted. A missing method fails with nothing written. A hit changes nothing and returns the stored value converted to the field's type, or fails when conversion fails |
| Protocol.RefreshField | apps/common/cache.py:105-108 | whatever the store holds, it succeeds exactly when the compute method exists. It then makes one call, one write with the field's timeout and one log line, and overwrites the entry; otherwise it fails with nothing changed |
| Protocol.GetMissThenHit | apps/common/cache.py:76-84 | a second read after a successful miss is a hit that changes nothing and, for a value of the field's type, returns the same result |
| Protocol.RefreshThenHit | apps/common/cache.py:105-108 | after a field refresh the store holds the computed value, and the next read is a hit that changes nothing |
| Protocol.Find | apps/common/cache.py:52 | a found descriptor is registered under the name; nothing is found exactly when no registered field has the name |
| Protocol.RefreshTargets | apps/common/cache.py:48-53 | the loop succeeds exactly when every target is a registered field whose compute method exists; a failure is an unknown field or a missing compute method |
| Protocol.Refresh | apps/common/cache.py:44-53 | with no names, `refresh` succeeds exactly when every registered field has its compute method; with names, exactly when every name is a registered field that has its compute method |
| Protocol.RefreshAsWritten | apps/common/cache.py:44-53 | with no names it is the intended refresh. With names, the first one raises `AttributeError` and nothing changes: on `key_suffix` for a field descriptor, on the name itself when the class lacks it, and on `refresh` for any other attribute |
| Protocol.RefreshTargetsTrace | apps/common/cache.py:44-53 | a refresh of runnable fields succeeds and appends each field's compute call, store write and log line once, in order |
| Protocol.RefreshTargetsCalls | apps/common/cache.py:44-53 | a refresh of runnable fields succeeds and calls each compute method once, in order |
| Protocol.RefreshTargetsWrites | apps/common/cache.py:44-53 | a refresh of runnable fields writes each field's key once, in order, with its computed value and timeout |
| Protocol.RefreshTargetsLog | apps/common/cache.py:44-53 | a refresh of runnable fields logs each field's key once, in order |
| Protocol.RefreshTargetsEntries | apps/common/cache.py:44-53 | a refresh of runnable fields leaves every key it does not refresh as it was, and leaves every key it refreshes present |
| Protocol.RefreshTargetsUntouched | apps/common/cache.py:44-53 | a refresh of runnable fields leaves every key it does not refresh as it was |
| Protocol.RefreshTargetsPresent | apps/common/cache.py:44-53 | a refresh of runnable fields leaves every key it refreshes present |
| Protocol.RefreshTargetsValues | apps/common/cache.py:105-108 | a refresh of runnable fields leaves each refreshed key holding its computed value with the field's timeout, unless a later field writes the same key |
| Protocol.RefreshAllValues | apps/common/cache.py:45-49 | after `refresh()` with no names, every registered field's key holds the value its compute method returned, with the field's timeout |
| Protocol.RefreshTargetsSticky | apps/common/cache.py:48-53 | once a field's refresh has raised, the remaining fields are not touched |
| Protocol.RefreshTargetsStopsAtFailure | apps/common/cache.py:48-53 | the first field that cannot be refreshed ends the refresh with its error, after the fields before it have been refreshed |
| Protocol.RefreshTargetsStep | apps/common/cache.py:48-53 | refreshing one more field continues from the state the shorter list left |
| Protocol.RefreshAllTrace | apps/common/cache.py:45-49 | `refresh()` with no names calls every registered field's compute method once, in registry order, with one write and one log line per field |
| Protocol.RefreshAllThenHit | apps/common/cache.py:45-49 | after `refresh()` with no names, reading any registered field is a hit |
| Protocol.RefreshNamedIsSelective | apps/common/cache.py:50-53 | a named refresh, as intended, calls only the named fields' compute methods, in order, and leaves the entry of every unnamed field as it was |
| Protocol.NamedRefreshAsWrittenFails | apps/common/cache.py:51-53 | as written, refreshing a registered field by name raises `AttributeError` on `key_suffix` with nothing changed, where the intended refresh writes that field |
| Runtime.Store.Get | apps/common/cache.py:76 | a stored value is returned exactly when the key is present |
| Runtime.Store.Set | apps/common/cache.py:102 | the key now holds the value with the timeout, and one write is recorded |
| Runtime.Logger.Info | apps/common/cache.py:103 | one line is appended |
| Runtime.Cache.constructor | apps/common/cache.py:40-42 | a new instance belongs to its class, has no key suffix and has made no compute calls |
| Runtime.Cache.SetKeySuffix | apps/common/cache.py:55-62 | the suffix becomes the argument texts joined with `.` |
| Runtime.DescCacheKey | apps/common/cache.py:86-89 | the key is that of the instance's own class and suffix, as `Protocol.KeyOf` gives it |
| Runtime.DescGetNewValue | apps/common/cache.py:91-99 | it succeeds exactly when the compute method exists, and then returns its value and records one call; otherwise it fails with no call recorded |
| Runtime.DescSetNewValue | apps/common/cache.py:101-103 | the store, write history and log change as `Protocol.SetNewValue` says: one write with the field's timeout and one log line |
| Runtime.DescGet | apps/common/cache.py:74-84 | result and new state are those of `Protocol.Get` on the state before the call |
| Runtime.DescRefresh | apps/common/cache.py:105-108 | result and new state are those of `Protocol.RefreshField` on the state before the call |
| Runtime.Cache.Refresh | apps/common/cache.py:44-53 | result and new state are those of `Protocol.Refresh` on the state before the call |
| OrgCaches.OrgBodyFields | apps/orgs/caches.py:8-10 | the registry of `OrgResourceCache` is `user_amount` then `group_amount`, both integer fields |
| OrgCaches.DefineOrgResourceCache | apps/orgs/caches.py:8-10 | defining the class registers its two fields in declaration order, and `user_amount` holds its descriptor |
| OrgCaches.OrgNamedRefresh | apps/common/cache.py:51-53 | `OrgResourceCache(42).refresh("user_amount")` as written raises on `key_suffix` with nothing changed; the intended refresh succeeds and writes the user count under the field's key |
| OrgCaches.SuffixOf42 | apps/orgs/caches.py:12-14 | `set_key_suffix(42)` gives the suffix `42` |
| OrgCaches.UserAmountKeyIs | apps/orgs/caches.py:8-14 | the key of `user_amount` for organisation 42 is `cache.orgs.caches.OrgResourceCache.user_amount.42` |
| OrgCaches.GroupAmountKeyIs | apps/orgs/caches.py:8-14 | the key of `group_amount` for organisation 42 is `cache.orgs.caches.OrgResourceCache.group_amount.42` |
| OrgCaches.OrgComputeNames | apps/orgs/caches.py:16-23 | the compute methods are `compute_user_amount` and `compute_group_amount` |
| OrgCaches.OrgReadTwice | apps/orgs/caches.py:8-21 | two reads of `user_amount` from a state without its key return the user count twice and log one line |
| OrgCaches.OrgReadStoredText | apps/orgs/caches.py:9 | the stored text `10` reads back from `user_amount` as the integer 10 with nothing changed |
| OrgCaches.OrgRefreshAll | apps/orgs/caches.py:8-28 | `refresh()` succeeds and logs `user_amount` and then `group_amount` |
| OrgCaches.MemberReadFails | apps/common/cache.py:95-97 | reading a field whose compute method is missing, on a miss, fails and changes nothing |
| OrgCaches.NewOrg | apps/orgs/caches.py:12-14 | `OrgResourceCache(42)` has suffix `42`, an empty store and an empty log |
| OrgCaches.ReadUserAmountTwice | apps/orgs/caches.py:8-21 | the two reads return the user count and only the first logs |
| OrgCaches.ReadUserAmountStoredAsText | apps/orgs/caches.py:9 | a stored text `10` reads back as the integer 10 with no log line |
| OrgCaches.ReadFieldWithoutCompute | apps/common/cache.py:95-97 | a field without a compute method fails on first read, and the store and log stay empty |
| OrgCaches.RefreshOrg | apps/orgs/caches.py:8-28 | `refresh()` on organisation 42 succeeds and logs both keys in declaration order |

## Left out

- The Django cache backend is a map from key to value and timeout. Expiry is
  not simulated: the timeout is only recorded with each write, and what a
  timeout of zero or a negative timeout means to the backend is not modelled.
- The logger keeps only the lines it is given. Log levels, formatting and
  handlers are not modelled. `CacheValueDesc.__repr__` is not modelled.
- Registry.Update: models `dict.update` only for a map whose names are all in
  the namespace already, which is the only way the metaclass calls it; adding
  new names at the end is not modelled.
- The metaclass and descriptor protocol are replaced by explicit calls.
  `NewClass` stands for class creation, and `DescGet`/`DescRefresh` stand for
  attribute access. The implicit `__module__` and `__qualname__` entries and
  the `bases` of the class are not modelled; `NewClass` returns a value
  describing the class.
- Registry.NewClass: requires distinct attribute names. A Python class body
  is a dict, so the requirement always holds there.
- Protocol.RefreshAllValues: requires distinct field names in the registry,
  which `Registry.NewClass` guarantees for every class it builds.
- Inheritance of `field_descs` between subclasses is not modelled. Each class
  is a single entity type with its own registry.
- Concurrency is not modelled. There is no locking, and two readers missing at
  once would both compute.
- `int()` on text with surrounding whitespace, underscores or non-ASCII
  decimal digits is not modelled. Python accepts such text; `ParseInt` treats
  it as a `ValueError`. Only ASCII digit strings with an optional sign are parsed.
- `str()` of arguments other than text and integers (floats, objects) is not
  modelled: `Keys.Arg` has only text and integers.
- `None` as a value is not modelled. A compute method that returns `None`
  would store `None`, which every later read treats as a miss.
- Values other than integers and text are not modelled: `Value` has only those two.
- What compute methods do is not modelled: the ORM queries and `print` of
  `apps/orgs/caches.py`, and any side effects. A method is given by the value
  it returns now (`Bindings`).
- Runtime.DescGet: requires the key suffix to be set. In Python, reading it
  before `set_key_suffix` raises `AttributeError`, and that path is not modelled.
- Runtime.DescRefresh: requires the key suffix to be set, for the same reason.
- Runtime.Cache.Refresh: requires the key suffix to be set, for the same reason.
- Attributes a cache class inherits (the methods of `Cache` and `object`) are
  not part of its modelled namespace. A named refresh as written that names one
  of them is modelled as failing on the name itself, where Python fails on
  `refresh`. An attribute with a `refresh` method of its own is not modelled
  either: every attribute other than a field descriptor fails on `refresh`.
- `getattr` finding an attribute that is not callable is not modelled: a compute
  name is either bound to a value-returning method or absent.

## Findings

| source | as written | input that shows it | evidently intended | confidence | as-written member | corrected member |
|---|---|---|---|---|---|---|
| apps/common/cache.py:51-53 | `getattr(self.__class__, field)` runs the descriptor's `__get__` with no instance, and `cache_key` then reads `None.key_suffix`, so a named refresh of a field always raises `AttributeError` before touching the store (and any other name raises too) | `OrgResourceCache(42).refresh("user_amount")` | look the named field up in the class's registry and refresh just that field | high, not executed | Protocol.RefreshAsWritten (lemmas Protocol.NamedRefreshAsWrittenFails, OrgCaches.OrgNamedRefresh) | Protocol.Refresh (lemma Protocol.RefreshNamedIsSelective) |

In the corrected model, a name that is not a registered field ends the
refresh with an `UnknownField` error. The fields refreshed before it stay refreshed.
