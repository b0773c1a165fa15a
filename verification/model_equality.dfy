/**
 `ModelEqualityMixin`: equality and hash of model instances, both computed
 over the primary-key columns of the instance's class.

 Value equality (`==` on attribute values) and value hashing (`hash`) are
 the language's, not the mixin's; they are parameters `eq` and `h` here.
 Comparing against an object that lacks a primary-key attribute raises an
 attribute error; that is the `Failure` case, carrying the missing name.
 */
module ModelEquality {
  import opened Results
  import opened SelfAware

  /** The value hash agrees with value equality. */
  ghost predicate HashRespectsEquality<V(!new)>(eq: (V, V) -> bool, h: V -> int) {
    forall a, b :: eq(a, b) ==> h(a) == h(b)
  }

  ghost predicate ReflexiveEq<V(!new)>(eq: (V, V) -> bool) {
    forall a :: eq(a, a)
  }

  ghost predicate SymmetricEq<V(!new)>(eq: (V, V) -> bool) {
    forall a, b :: eq(a, b) == eq(b, a)
  }

  /** The sum of the value hashes of `inst` at `keys`. */
  function SumHashes<V>(h: V -> int, inst: Instance<V>, keys: seq<string>): int
    requires HasAll(inst, keys)
  {
    if keys == [] then 0 else h(inst[keys[0]]) + SumHashes(h, inst, keys[1..])
  }

  /** `all([self.k == other.k for k in keys])`: the list is built in full
      before `all` looks at it, so the first key missing on `other` raises,
      whatever the comparisons before it gave. */
  function CompareKeys<V>(eq: (V, V) -> bool, self: Instance<V>, other: Instance<V>,
                          keys: seq<string>): (r: Result<bool, string>)
    requires HasAll(self, keys)
    ensures r.Success? <==> HasAll(other, keys)
    ensures r.Failure? ==>
      exists i :: 0 <= i < |keys| && keys[i] == r.error && keys[i] !in other
        && forall j :: 0 <= j < i ==> keys[j] in other
    ensures r.Success? ==>
      (r.value <==> forall i :: 0 <= i < |keys| ==> eq(self[keys[i]], other[keys[i]]))
  {
    if keys == [] then Success(true)
    else if keys[0] !in other then Failure(keys[0])
    else
      match CompareKeys(eq, self, other, keys[1..])
      case Failure(e) =>
        assert forall j :: 0 <= j < |keys| - 1 ==> keys[1..][j] == keys[j + 1];
        Failure(e)
      case Success(b) =>
        assert forall i :: 0 < i < |keys| ==> keys[i] == keys[1..][i - 1];
        Success(eq(self[keys[0]], other[keys[0]]) && b)
  }

  /** `__hash__`: the sum of the hashes of the primary-key values. */
  function Hash<V>(cls: ModelClass, h: V -> int, self: Instance<V>): int
    requires IsInstanceOf(cls, self)
  {
    SumHashes(h, self, PrimaryKeyColumns(cls))
  }

  /** `__eq__`: every primary-key value of `self` equals `other`'s. */
  function Equals<V>(cls: ModelClass, eq: (V, V) -> bool, self: Instance<V>,
                     other: Instance<V>): (r: Result<bool, string>)
    requires IsInstanceOf(cls, self)
    ensures r.Failure? <==> exists k :: k in PrimaryKeyColumns(cls) && k !in other
    ensures r.Failure? ==> r.error in PrimaryKeyColumns(cls) && r.error !in other
  {
    CompareKeys(eq, self, other, PrimaryKeyColumns(cls))
  }

  /** Instances that agree on every primary-key value compare equal, whatever
      their other columns hold. */
  lemma EqualWhenKeysAgree<V>(cls: ModelClass, eq: (V, V) -> bool,
                              self: Instance<V>, other: Instance<V>)
    requires IsInstanceOf(cls, self)
    requires forall k :: k in PrimaryKeyColumns(cls) ==> k in other && eq(self[k], other[k])
    ensures Equals(cls, eq, self, other) == Success(true)
  {
  }

  /** Instances that differ on some primary-key value compare unequal. */
  lemma UnequalWhenSomeKeyDiffers<V>(cls: ModelClass, eq: (V, V) -> bool,
                                     self: Instance<V>, other: Instance<V>, k: string)
    requires IsInstanceOf(cls, self)
    requires HasAll(other, PrimaryKeyColumns(cls))
    requires k in PrimaryKeyColumns(cls) && !eq(self[k], other[k])
    ensures Equals(cls, eq, self, other) == Success(false)
  {
  }

  /** `CompareKeys` only reads the attributes named in `keys`. */
  lemma {:induction false} CompareKeysLocal<V>(eq: (V, V) -> bool, s1: Instance<V>, o1: Instance<V>,
                                               s2: Instance<V>, o2: Instance<V>, keys: seq<string>)
    requires HasAll(s1, keys) && HasAll(s2, keys)
    requires AgreeOn(s1, s2, keys) && AgreeOn(o1, o2, keys)
    ensures CompareKeys(eq, s1, o1, keys) == CompareKeys(eq, s2, o2, keys)
  {
    if keys != [] {
      assert keys[0] in keys;
      assert forall k :: k in keys[1..] ==> k in keys;
      CompareKeysLocal(eq, s1, o1, s2, o2, keys[1..]);
    }
  }

  /** Equality ignores every attribute that is not a primary-key column, on
      both sides. */
  lemma EqualityIgnoresNonKeyColumns<V>(cls: ModelClass, eq: (V, V) -> bool,
                                        s1: Instance<V>, o1: Instance<V>,
                                        s2: Instance<V>, o2: Instance<V>)
    requires IsInstanceOf(cls, s1) && IsInstanceOf(cls, s2)
    requires AgreeOn(s1, s2, PrimaryKeyColumns(cls))
    requires AgreeOn(o1, o2, PrimaryKeyColumns(cls))
    ensures Equals(cls, eq, s1, o1) == Equals(cls, eq, s2, o2)
  {
    CompareKeysLocal(eq, s1, o1, s2, o2, PrimaryKeyColumns(cls));
  }

  /** `SumHashes` only reads the attributes named in `keys`. */
  lemma {:induction false} SumHashesLocal<V>(h: V -> int, a: Instance<V>, b: Instance<V>,
                                             keys: seq<string>)
    requires HasAll(a, keys) && AgreeOn(a, b, keys)
    ensures HasAll(b, keys)
    ensures SumHashes(h, a, keys) == SumHashes(h, b, keys)
  {
    if keys != [] {
      assert keys[0] in keys;
      assert forall k :: k in keys[1..] ==> k in keys;
      SumHashesLocal(h, a, b, keys[1..]);
    }
  }

  /** The hash ignores every attribute that is not a primary-key column. */
  lemma HashIgnoresNonKeyColumns<V>(cls: ModelClass, h: V -> int, a: Instance<V>, b: Instance<V>)
    requires IsInstanceOf(cls, a) && IsInstanceOf(cls, b)
    requires AgreeOn(a, b, PrimaryKeyColumns(cls))
    ensures Hash(cls, h, a) == Hash(cls, h, b)
  {
    SumHashesLocal(h, a, b, PrimaryKeyColumns(cls));
  }

  /** Values equal at every key hash to the same sum. */
  lemma {:induction false} SumHashesRespectsEquality<V(!new)>(eq: (V, V) -> bool, h: V -> int,
                                                              a: Instance<V>, b: Instance<V>,
                                                              keys: seq<string>)
    requires HashRespectsEquality(eq, h)
    requires HasAll(a, keys) && HasAll(b, keys)
    requires forall i :: 0 <= i < |keys| ==> eq(a[keys[i]], b[keys[i]])
    ensures SumHashes(h, a, keys) == SumHashes(h, b, keys)
  {
    if keys != [] {
      assert eq(a[keys[0]], b[keys[0]]);
      assert forall i :: 0 <= i < |keys| - 1 ==> keys[1..][i] == keys[i + 1];
      SumHashesRespectsEquality(eq, h, a, b, keys[1..]);
    }
  }

  /** Equal instances have equal hashes, provided the value hash agrees with
      value equality: both are computed over the same primary-key list. */
  lemma EqualInstancesHashEqual<V(!new)>(cls: ModelClass, eq: (V, V) -> bool, h: V -> int,
                                         a: Instance<V>, b: Instance<V>)
    requires HashRespectsEquality(eq, h)
    requires IsInstanceOf(cls, a) && IsInstanceOf(cls, b)
    requires Equals(cls, eq, a, b) == Success(true)
    ensures Hash(cls, h, a) == Hash(cls, h, b)
  {
    SumHashesRespectsEquality(eq, h, a, b, PrimaryKeyColumns(cls));
  }

  /** A class with no public primary-key column: every two instances compare
      equal (`all([])`) and every hash is 0 (`sum([])`). */
  lemma NoPrimaryKeyEverythingEqual<V>(cls: ModelClass, eq: (V, V) -> bool, h: V -> int,
                                       a: Instance<V>, b: Instance<V>)
    requires forall i :: 0 <= i < |cls| ==> !IsPrimaryKeyMember(cls[i])
    requires IsInstanceOf(cls, a)
    ensures Equals(cls, eq, a, b) == Success(true)
    ensures Hash(cls, h, a) == 0
  {
  }

  /** With a reflexive value equality, every instance equals itself. */
  lemma EqualsReflexive<V(!new)>(cls: ModelClass, eq: (V, V) -> bool, a: Instance<V>)
    requires ReflexiveEq(eq)
    requires IsInstanceOf(cls, a)
    ensures Equals(cls, eq, a, a) == Success(true)
  {
  }

  /** With a symmetric value equality, comparing two instances of the class
      gives the same answer both ways round. */
  lemma EqualsSymmetric<V(!new)>(cls: ModelClass, eq: (V, V) -> bool, a: Instance<V>, b: Instance<V>)
    requires SymmetricEq(eq)
    requires IsInstanceOf(cls, a) && IsInstanceOf(cls, b)
    ensures Equals(cls, eq, a, b) == Equals(cls, eq, b, a)
  {
  }

  /** Attribute values of the `User` example. */
  datatype UserValue = IntValue(i: int) | StrValue(s: string)

  /** `User` with primary-key column `id` and plain column `name`: two users
      with the same id are equal whatever their names, users with different
      ids are not, and comparing with an object that has no `id` raises. */
  lemma UserExample()
    ensures
      var user := [Member("id", Column(true)), Member("name", Column(false))];
      var eq := (x: UserValue, y: UserValue) => x == y;
      var u1 := map["id" := IntValue(1), "name" := StrValue("a")];
      var u2 := map["id" := IntValue(1), "name" := StrValue("b")];
      var u3 := map["id" := IntValue(2), "name" := StrValue("a")];
      var stranger := map["name" := StrValue("a")];
      && PrimaryKeyColumns(user) == ["id"]
      && Equals(user, eq, u1, u2) == Success(true)
      && Equals(user, eq, u1, u3) == Success(false)
      && Equals(user, eq, u1, stranger) == Failure("id")
  {
    var user := [Member("id", Column(true)), Member("name", Column(false))];
    assert Columns(user) == ["id", "name"];
    assert Lookup(user, "name") == Some(Member("name", Column(false)));
    assert PrimaryKeyColumns(user) == ["id"];
  }
}
