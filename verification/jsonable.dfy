/**
 `JsonableMixin`: converting an instance to a dictionary of its column
 values, and building instances from such dictionaries.

 The class constructor that `load` calls belongs to the ORM; it is the
 parameter `ctor`, a function of the dictionary that either builds an
 instance or raises.
 */
module Jsonable {
  import opened Results
  import opened SelfAware

  /** A JSON object: values by string key. */
  type Dict<V> = map<string, V>

  /** `{name: self.name for name in names if name not in exclude}`. */
  function JsonOf<V>(self: Instance<V>, names: seq<string>, exclude: set<string>): (r: Dict<V>)
    requires HasAll(self, names)
    ensures r.Keys == (set n | n in names) - exclude
    ensures forall n :: n in r ==> r[n] == self[n]
  {
    if names == [] then map[]
    else
      var rest := JsonOf(self, names[1..], exclude);
      assert (set n | n in names) == {names[0]} + (set n | n in names[1..]);
      if names[0] in exclude then rest else rest[names[0] := self[names[0]]]
  }

  /** `_json(exclude)`: the column values of `self`, keyed by column name,
      for every column not in `exclude`. */
  function Json<V>(cls: ModelClass, self: Instance<V>, exclude: set<string>): (r: Dict<V>)
    requires IsInstanceOf(cls, self)
    ensures r.Keys == ColumnSet(cls) - exclude
    ensures forall x :: x in exclude ==> x !in r
    ensures forall n :: n in r ==> r[n] == self[n]
  {
    JsonOf(self, Columns(cls), exclude)
  }

  /** `__json__(request)`: `_json()` with nothing excluded; the request is
      not consulted. */
  function ToJson<V>(cls: ModelClass, self: Instance<V>): (r: Dict<V>)
    requires IsInstanceOf(cls, self)
    ensures r.Keys == ColumnSet(cls)
    ensures forall n :: n in r ==> r[n] == self[n]
  {
    Json(cls, self, {})
  }

  /** Excluding names from `_json` removes exactly those keys from
      `__json__`'s dictionary and changes no value. */
  lemma JsonIsToJsonWithoutExcluded<V>(cls: ModelClass, self: Instance<V>, exclude: set<string>)
    requires IsInstanceOf(cls, self)
    ensures Json(cls, self, exclude) == ToJson(cls, self) - exclude
  {
  }

  /** `load(data)`: the constructor called with `data` as keyword arguments. */
  function Load<V, T, E>(ctor: Dict<V> -> Result<T, E>, data: Dict<V>): Result<T, E> {
    ctor(data)
  }

  /** `load_all(data)`: `load` on each dictionary in order; the first one the
      constructor rejects raises, and then no list is returned. */
  function LoadAll<V, T, E>(ctor: Dict<V> -> Result<T, E>, data: seq<Dict<V>>): (r: Result<seq<T>, E>)
    ensures r.Success? <==> forall i :: 0 <= i < |data| ==> ctor(data[i]).Success?
    ensures r.Success? ==>
      |r.value| == |data| && forall i :: 0 <= i < |data| ==> ctor(data[i]) == Success(r.value[i])
    ensures r.Failure? ==>
      exists i :: 0 <= i < |data| && ctor(data[i]) == Failure(r.error)
        && forall j :: 0 <= j < i ==> ctor(data[j]).Success?
  {
    if data == [] then Success([])
    else
      match Load(ctor, data[0])
      case Failure(e) => Failure(e)
      case Success(x) =>
        match LoadAll(ctor, data[1..])
        case Failure(e) =>
          assert forall j :: 0 <= j < |data| - 1 ==> data[1..][j] == data[j + 1];
          Failure(e)
        case Success(xs) =>
          assert forall i :: 0 < i < |data| ==> data[i] == data[1..][i - 1];
          Success([x] + xs)
  }

  /** The constructor accepts a dictionary whose keys are exactly the
      columns of the class, and sets every attribute it names to the
      dictionary's value, as a declarative constructor or a constructor taking
      every column as an argument does. What it does with other dictionaries
      is open. */
  ghost predicate SetsGivenAttributes<V(!new), E>(cls: ModelClass, ctor: Dict<V> -> Result<Instance<V>, E>) {
    forall d: Dict<V> :: d.Keys == ColumnSet(cls) ==>
      ctor(d).Success? && forall k :: k in d ==> k in ctor(d).value && ctor(d).value[k] == d[k]
  }

  /** Round trip: with such a constructor, loading `__json__` of any instance
      gives an instance that agrees with the original on every column. */
  lemma LoadToJsonRoundTrip<V(!new), E>(cls: ModelClass, ctor: Dict<V> -> Result<Instance<V>, E>,
                                        m: Instance<V>)
    requires SetsGivenAttributes(cls, ctor)
    requires IsInstanceOf(cls, m)
    ensures Load(ctor, ToJson(cls, m)).Success?
    ensures IsInstanceOf(cls, Load(ctor, ToJson(cls, m)).value)
    ensures AgreeOn(Load(ctor, ToJson(cls, m)).value, m, Columns(cls))
  {
  }

  /** `load_all([])` is the empty list, and `load_all([d1, d2])` is
      `[load(d1), load(d2)]` when both loads succeed. */
  lemma LoadAllExamples<V, T, E>(ctor: Dict<V> -> Result<T, E>, d1: Dict<V>, d2: Dict<V>)
    ensures LoadAll(ctor, []) == Success([])
    ensures ctor(d1).Success? && ctor(d2).Success? ==>
      LoadAll(ctor, [d1, d2]) == Success([ctor(d1).value, ctor(d2).value])
  {
    if ctor(d1).Success? && ctor(d2).Success? {
      var data := [d1, d2];
      assert data[0] == d1 && data[1] == d2;
      var r := LoadAll(ctor, data);
      assert r.value == [ctor(d1).value, ctor(d2).value];
    }
  }
}
