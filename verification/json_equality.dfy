/**
 A model class that mixes in both `JsonableMixin` and `ModelEqualityMixin`:
 what `__eq__` says about an instance loaded back from its own `__json__`.
 */
module JsonEquality {
  import opened Results
  import opened SelfAware
  import opened ModelEquality
  import opened Jsonable

  /** Loading `__json__` of an instance gives an instance that `__eq__`
      calls equal to the original, and back, when value equality is
      reflexive. */
  lemma LoadedFromJsonEqualsOriginal<V(!new), E>(cls: ModelClass, eq: (V, V) -> bool,
                                                 ctor: Dict<V> -> Result<Instance<V>, E>,
                                                 m: Instance<V>)
    requires ReflexiveEq(eq)
    requires SetsGivenAttributes(cls, ctor)
    requires IsInstanceOf(cls, m)
    ensures Load(ctor, ToJson(cls, m)).Success?
    ensures Equals(cls, eq, m, Load(ctor, ToJson(cls, m)).value) == Success(true)
    ensures Equals(cls, eq, Load(ctor, ToJson(cls, m)).value, m) == Success(true)
  {
    LoadToJsonRoundTrip(cls, ctor, m);
    var loaded := Load(ctor, ToJson(cls, m)).value;
    forall k | k in PrimaryKeyColumns(cls)
      ensures k in loaded && eq(m[k], loaded[k]) && eq(loaded[k], m[k])
    {
      assert k in Columns(cls);
    }
  }
}
