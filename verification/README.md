# steward_sqlalchemy model mixins, in Dafny

This project models the three mixins that `steward_sqlalchemy` offers to
model classes, and proves their properties:

- **`SelfAwareModel`** (module `SelfAware`, `self_aware.dfy`): `_columns`
  lists the public attributes of a class that are mapped columns, in the
  order the member enumeration yields them; `_primary_key_columns` narrows
  that list to the columns whose `primary_key` flag is set.
- **`ModelEqualityMixin`** (module `ModelEquality`, `model_equality.dfy`):
  `__eq__` is the conjunction of value equality over the primary-key
  columns, and `__hash__` is the sum of the value hashes over the same
  columns.
- **`JsonableMixin`** (module `Jsonable`, `jsonable.dfy`): `_json(exclude)`
  maps every column name not in `exclude` to the instance's value,
  `__json__` is `_json()` with nothing excluded, `load` hands a dictionary
  to the class constructor, and `load_all` does that for each dictionary
  of a list.

`json_equality.dfy` (module `JsonEquality`) covers a class that mixes in
both `JsonableMixin` and `ModelEqualityMixin`. `results.dfy` holds the `Option` and `Result` datatypes the others use.

How the Python is represented:

- A model class is a sequence of `Member(name, attr)` values in enumeration
  order; `attr` is `Column(primaryKey)` for a mapped column and `Other` for
  everything else. The runtime check "is an instrumented attribute" becomes
  the `Column?` test. The enumeration yields each name with the value
  `getattr(cls, name)` gives, inherited names included. So looking up a
  reported column name by `Lookup` finds the enumerated member itself,
  given the distinct names below.
- `getattr(cls, name)` is `Lookup`: a member with that name, if any. Python
  class namespaces have distinct names (`UniqueNames`); the lemmas that need
  this take it as a hypothesis.
- An instance is a map from attribute name to value. `IsInstanceOf` says it
  has an attribute for every column of its class.
- Value equality `==` and the built-in `hash` are parameters `eq` and `h`.
  The equal-values-equal-hashes property is stated under the hypothesis
  `HashRespectsEquality(eq, h)`.
- `__eq__` returns `Result<bool, string>`. The source builds the whole
  comparison list before calling `all`. So if `other` lacks a primary-key
  attribute, an attribute error is raised whatever the earlier comparisons
  gave. That error is `Failure(name)`, where `name` is the first missing key.
- The class constructor that `load` calls is a parameter
  `ctor: Dict<V> -> Result<T, E>`. `load_all` returns the first error the
  constructor raises, or the full list.

## Model

| member | source | states |
|---|---|---|
| SelfAware.Columns | steward_sqlalchemy/mixins.py:11-19 | no returned name starts with `_`; at most one name per member |
| SelfAware.ColumnsExact | steward_sqlalchemy/mixins.py:14-19 | a name is returned if and only if the class has a public member of that name that is a mapped column |
| SelfAware.ColumnsKeepOrder | steward_sqlalchemy/mixins.py:14-19 | the returned names are a subsequence of the member names: relative enumeration order is kept |
| SelfAware.ColumnsDistinct | steward_sqlalchemy/mixins.py:14-19 | in a class with distinct member names no column name is returned twice |
| SelfAware.Lookup | steward_sqlalchemy/mixins.py:24 | class attribute access finds a member of that name exactly when one exists, and what it finds is a member of the class |
| SelfAware.LookupFindsMember | steward_sqlalchemy/mixins.py:24 | with distinct member names, looking a member's name up gives that member, so `getattr(cls, col)` reads the column's own flag |
| SelfAware.KeepPrimaryKeys | steward_sqlalchemy/mixins.py:24 | the comprehension keeps exactly the names whose class attribute is a primary-key column, and keeps them in order |
| SelfAware.KeepPrimaryKeysCounts | steward_sqlalchemy/mixins.py:24 | a primary-key name is kept as often as it occurs in the input, and any other name not at all |
| SelfAware.PrimaryKeyColumns | steward_sqlalchemy/mixins.py:21-24 | the result is a subsequence of `_columns`, and holds exactly the columns whose attribute has `primary_key` set |
| SelfAware.PrimaryKeyColumnsExact | steward_sqlalchemy/mixins.py:21-24 | with distinct member names, a name is a primary-key column if and only if the class declares a public primary-key column of that name |
| SelfAware.KeepNothing | steward_sqlalchemy/mixins.py:24 | the comprehension is empty when no name in it is a primary-key attribute |
| SelfAware.NoPrimaryKeyColumns | steward_sqlalchemy/mixins.py:21-24 | a class that declares no public primary-key column has an empty primary-key list |
| ModelEquality.CompareKeys | steward_sqlalchemy/mixins.py:41-43 | it raises exactly when `other` lacks one of the keys, and then it names the first such key; otherwise it returns true if and only if the values are equal at every key |
| ModelEquality.Equals | steward_sqlalchemy/mixins.py:41-43 | `__eq__` raises exactly when `other` lacks a primary-key attribute, naming a primary-key column `other` lacks |
| ModelEquality.EqualWhenKeysAgree | steward_sqlalchemy/mixins.py:41-43 | instances whose primary-key values are equal compare equal, whatever their other columns hold |
| ModelEquality.UnequalWhenSomeKeyDiffers | steward_sqlalchemy/mixins.py:41-43 | an instance that differs on any one primary-key value compares unequal |
| ModelEquality.CompareKeysLocal | steward_sqlalchemy/mixins.py:42-43 | the comparison reads only the attributes named by the keys, on both sides |
| ModelEquality.EqualityIgnoresNonKeyColumns | steward_sqlalchemy/mixins.py:41-43 | changing attributes that are not primary-key columns, on either side, never changes the result of `__eq__` |
| ModelEquality.SumHashesLocal | steward_sqlalchemy/mixins.py:38-39 | the hash sum reads only the attributes named by the keys |
| ModelEquality.HashIgnoresNonKeyColumns | steward_sqlalchemy/mixins.py:37-39 | instances that agree on the primary-key columns have the same `__hash__` |
| ModelEquality.SumHashesRespectsEquality | steward_sqlalchemy/mixins.py:38-39 | if the values at every key are equal and the value hash agrees with value equality, the hash sums are equal |
| ModelEquality.EqualInstancesHashEqual | steward_sqlalchemy/mixins.py:37-43 | instances that `__eq__` calls equal have equal `__hash__`, provided the value hash agrees with value equality |
| ModelEquality.NoPrimaryKeyEverythingEqual | steward_sqlalchemy/mixins.py:37-43 | with no primary-key column every instance equals every object (`all([])`) and every hash is 0 (`sum([])`) |
| ModelEquality.EqualsReflexive | steward_sqlalchemy/mixins.py:41-43 | with a reflexive value equality every instance equals itself |
| ModelEquality.EqualsSymmetric | steward_sqlalchemy/mixins.py:41-43 | with a symmetric value equality, comparing two instances of the class gives the same result in either order |
| ModelEquality.UserExample | steward_sqlalchemy/mixins.py:41-43 | `User(id, name)` with key `id`: same id and different names gives equal; different ids gives unequal; an object without `id` raises an error naming `id` |
| Jsonable.JsonOf | steward_sqlalchemy/mixins.py:63-64 | the dictionary's keys are exactly the given names minus `exclude`, and each value is the instance's attribute of that name |
| Jsonable.Json | steward_sqlalchemy/mixins.py:61-64 | the keys of `_json(exclude)` are exactly `_columns()` minus `exclude`; no excluded name appears; each value is the instance's attribute |
| Jsonable.ToJson | steward_sqlalchemy/mixins.py:66-67 | `__json__` has every column as a key, with the instance's value |
| Jsonable.JsonIsToJsonWithoutExcluded | steward_sqlalchemy/mixins.py:61-67 | `_json(exclude)` is `__json__`'s dictionary with the excluded keys removed |
| Jsonable.LoadAll | steward_sqlalchemy/mixins.py:69-77 | if every dictionary loads, the result has the input's length and element i is what the constructor built from dictionary i, unchanged; otherwise the error is the one the constructor raised on the first dictionary it rejected |
| Jsonable.LoadToJsonRoundTrip | steward_sqlalchemy/mixins.py:61-72 | for any instance, if the constructor accepts a dictionary keyed by exactly the column names and sets each attribute it names to the given value (other dictionaries may be rejected), then loading `__json__` succeeds and gives an instance of the class that agrees with the original on every column |
| JsonEquality.LoadedFromJsonEqualsOriginal | steward_sqlalchemy/mixins.py:41-72 | under the same constructor hypothesis and a reflexive value equality, `__eq__` says the loaded instance and the original are equal, in both orders |
| Jsonable.LoadAllExamples | steward_sqlalchemy/mixins.py:74-77 | `load_all([])` is empty, and `load_all([d1, d2])` is `[load(d1), load(d2)]` in that order |

## Left out

- `steward_sqlalchemy/__init__.py` (the session factory, the per-request session and its cleanup callback, `create_schema`, `includeme`): it only delegates to SQLAlchemy, Pyramid and zope.sqlalchemy.
- Member enumeration by `inspect.getmembers` and the `InstrumentedAttribute` test: the class is given as its member list. The alphabetical order that `getmembers` imposes is not modelled; the lemmas only use the list order.
- The built-in `hash` and value `==`: they are parameters. Real hash values are not modelled. Neither is what `hash()` does with the sum `__hash__` returns: when the sum is outside the machine-word range, `hash()` uses the integer's own hash, which reduces it modulo 2^61-1 on 64-bit builds, and it turns a result of -1 into -2. Both mappings are functions of the sum, so the equal-instances-equal-hashes property still holds after them.
- Errors raised by value `==` or `hash` themselves: not modelled.
- The constructor behind `load`, with its errors for unexpected or missing keys: it belongs to the ORM's declarative base, and is an opaque parameter.
- Relationships and other instrumented attributes that are not columns: the source's `isinstance(member, InstrumentedAttribute)` test also accepts them, so `_columns` and `_json` would list them, and reading `primary_key` on them would raise. The model's `Column | Other` split has no such attribute, so it does not model that case.
- Jsonable.Json: the result is a map, so the insertion order of the Python dict, which follows `_columns`, is not stated. `exclude` is modelled as a set of names, though the source accepts any container.
- ModelEquality.Equals: an unset column on a mapped instance reads as `None`. Here every column of an instance is required to be present (`IsInstanceOf`) rather than modelling a `None` default.
- ModelEquality.Hash and Jsonable.Load carry no contract of their own. Their properties are stated by `EqualInstancesHashEqual`, `HashIgnoresNonKeyColumns`, `NoPrimaryKeyEverythingEqual`, `LoadAll`, `LoadToJsonRoundTrip` and `LoadedFromJsonEqualsOriginal`.
- `__json__`'s `request` argument: it is ignored by the source, and not a parameter here.
