/**
 Column reflection of `SelfAwareModel`: which attributes of a model class are
 mapped columns, and which of those make up the primary key.

 A model class is described by the sequence of its members in the order the
 member enumeration yields them; each member is either a mapped column (with
 its primary-key flag) or anything else (a method, a property, a plain class
 attribute).
 */
module SelfAware {
  import opened Results

  /** What a class attribute is. */
  datatype Attribute = Column(primaryKey: bool) | Other

  /** One named member of a model class. */
  datatype Member = Member(name: string, attr: Attribute)

  /** A model class, as the members its enumeration yields, in that order. */
  type ModelClass = seq<Member>

  /** An instance, as the values of its attributes by name. */
  type Instance<V> = map<string, V>

  /** Names starting with an underscore are private by convention. */
  predicate IsPrivate(name: string) {
    |name| > 0 && name[0] == '_'
  }

  /** A member that `_columns` reports: public and a mapped column. */
  predicate IsColumnMember(m: Member) {
    !IsPrivate(m.name) && m.attr.Column?
  }

  /** A member that `_primary_key_columns` reports. */
  predicate IsPrimaryKeyMember(m: Member) {
    IsColumnMember(m) && m.attr.primaryKey
  }

  /** Member names of a Python class are distinct: it is a namespace. */
  predicate UniqueNames(cls: ModelClass) {
    Distinct(Names(cls))
  }

  /** No name occurs twice. */
  predicate Distinct(s: seq<string>) {
    forall i, j :: 0 <= i < j < |s| ==> s[i] != s[j]
  }

  /** `a` is `b` with some elements dropped and the rest kept in order. */
  predicate Subsequence<T(==)>(a: seq<T>, b: seq<T>)
    decreases |b|
  {
    if a == [] then true
    else if b == [] then false
    else (a[0] == b[0] && Subsequence(a[1..], b[1..])) || Subsequence(a, b[1..])
  }

  /** `cls` declares a public column called `n`. */
  ghost predicate DeclaresColumn(cls: ModelClass, n: string) {
    exists i :: 0 <= i < |cls| && cls[i].name == n && IsColumnMember(cls[i])
  }

  /** `cls` declares a public primary-key column called `n`. */
  ghost predicate DeclaresPrimaryKey(cls: ModelClass, n: string) {
    exists i :: 0 <= i < |cls| && cls[i].name == n && IsPrimaryKeyMember(cls[i])
  }

  /** `inst` has an attribute for every column of `cls`, as every instance
      of a mapped class does. */
  predicate IsInstanceOf<V>(cls: ModelClass, inst: Instance<V>) {
    ColumnSet(cls) <= inst.Keys
  }

  /** Two attribute maps hold the same attributes, with the same values, at
      every name in `keys`. */
  ghost predicate AgreeOn<V>(a: Instance<V>, b: Instance<V>, keys: seq<string>) {
    forall k :: k in keys ==> (k in a <==> k in b) && (k in a ==> a[k] == b[k])
  }

  /** Every name in `keys` is an attribute of `inst`. */
  ghost predicate HasAll<V>(inst: Instance<V>, keys: seq<string>) {
    forall k :: k in keys ==> k in inst
  }

  /** The names of all members, in enumeration order. */
  function Names(cls: ModelClass): (r: seq<string>)
    ensures |r| == |cls|
    ensures forall i :: 0 <= i < |cls| ==> r[i] == cls[i].name
  {
    if cls == [] then [] else [cls[0].name] + Names(cls[1..])
  }

  /** Attribute access on the class (`getattr(cls, name)`): a member with
      that name, or nothing. */
  function Lookup(cls: ModelClass, name: string): (r: Option<Member>)
    ensures r.None? <==> name !in Names(cls)
    ensures r.Some? ==> r.value.name == name && r.value in cls
  {
    if cls == [] then None
    else if cls[0].name == name then Some(cls[0])
    else Lookup(cls[1..], name)
  }

  /** `_columns`: the public column names, in enumeration order. */
  function Columns(cls: ModelClass): (r: seq<string>)
    ensures forall n :: n in r ==> !IsPrivate(n)
    ensures |r| <= |cls|
  {
    if cls == [] then []
    else if IsColumnMember(cls[0]) then [cls[0].name] + Columns(cls[1..])
    else Columns(cls[1..])
  }

  /** The column names as a set. */
  function ColumnSet(cls: ModelClass): set<string> {
    set n | n in Columns(cls)
  }

  /** `getattr(cls, col).primary_key` for a name that `_columns` returned. */
  predicate IsPrimaryKeyAttr(a: Option<Member>) {
    a.Some? && a.value.attr == Column(true)
  }

  /** The names in `names` whose class attribute is a primary-key column,
      in their order. */
  function KeepPrimaryKeys(cls: ModelClass, names: seq<string>): (r: seq<string>)
    ensures forall n :: n in r <==> n in names && IsPrimaryKeyAttr(Lookup(cls, n))
    ensures Subsequence(r, names)
  {
    if names == [] then []
    else if IsPrimaryKeyAttr(Lookup(cls, names[0])) then
      [names[0]] + KeepPrimaryKeys(cls, names[1..])
    else
      KeepPrimaryKeys(cls, names[1..])
  }

  /** The comprehension keeps a primary-key name as often as it occurs in
      `names`, and drops every other name entirely. */
  lemma {:induction false} KeepPrimaryKeysCounts(cls: ModelClass, names: seq<string>, n: string)
    ensures multiset(KeepPrimaryKeys(cls, names))[n] ==
      if IsPrimaryKeyAttr(Lookup(cls, n)) then multiset(names)[n] else 0
  {
    if names != [] {
      assert names == [names[0]] + names[1..];
      KeepPrimaryKeysCounts(cls, names[1..], n);
    }
  }

  /** `_primary_key_columns`: the columns whose attribute has its
      primary-key flag set, in the order of `_columns`. */
  function PrimaryKeyColumns(cls: ModelClass): (r: seq<string>)
    ensures Subsequence(r, Columns(cls))
    ensures forall n :: n in r <==> n in Columns(cls) && IsPrimaryKeyAttr(Lookup(cls, n))
  {
    KeepPrimaryKeys(cls, Columns(cls))
  }

  /** `_columns` returns exactly the public column members' names. */
  lemma {:induction false} ColumnsExact(cls: ModelClass, n: string)
    ensures n in Columns(cls) <==> DeclaresColumn(cls, n)
  {
    if cls != [] {
      ColumnsExact(cls[1..], n);
      if DeclaresColumn(cls[1..], n) {
        var i :| 0 <= i < |cls[1..]| && cls[1..][i].name == n && IsColumnMember(cls[1..][i]);
        assert cls[i + 1] == cls[1..][i];
      }
      if DeclaresColumn(cls, n) {
        var i :| 0 <= i < |cls| && cls[i].name == n && IsColumnMember(cls[i]);
        if i > 0 {
          assert cls[1..][i - 1] == cls[i];
        }
      }
    }
  }

  /** `_columns` keeps the relative enumeration order of the members. */
  lemma {:induction false} ColumnsKeepOrder(cls: ModelClass)
    ensures Subsequence(Columns(cls), Names(cls))
  {
    if cls != [] {
      ColumnsKeepOrder(cls[1..]);
      assert Names(cls)[1..] == Names(cls[1..]);
      if IsColumnMember(cls[0]) {
        assert Columns(cls)[1..] == Columns(cls[1..]);
      } else if Columns(cls) != [] {
        assert Subsequence(Columns(cls), Names(cls)[1..]);
      }
    }
  }

  /** In a class whose member names are distinct, no column is reported twice. */
  lemma {:induction false} ColumnsDistinct(cls: ModelClass)
    requires UniqueNames(cls)
    ensures Distinct(Columns(cls))
  {
    if cls != [] {
      ColumnsDistinct(cls[1..]);
      if IsColumnMember(cls[0]) {
        var rest := Columns(cls[1..]);
        forall i | 0 <= i < |cls[1..]|
          ensures cls[1..][i].name != cls[0].name
        {
          assert cls[1..][i] == cls[i + 1];
        }
        ColumnsExact(cls[1..], cls[0].name);
        assert cls[0].name !in rest;
        assert forall j :: 0 <= j < |rest| ==> ([cls[0].name] + rest)[j + 1] == rest[j];
      }
    }
  }

  /** With distinct member names, attribute access by a member's own name
      finds that member. */
  lemma {:induction false} LookupFindsMember(cls: ModelClass, i: int)
    requires UniqueNames(cls)
    requires 0 <= i < |cls|
    ensures Lookup(cls, cls[i].name) == Some(cls[i])
  {
    if i > 0 {
      assert Names(cls)[0] != Names(cls)[i];
      assert forall a :: 0 <= a < |cls| - 1 ==> Names(cls[1..])[a] == Names(cls)[a + 1];
      assert cls[1..][i - 1] == cls[i];
      LookupFindsMember(cls[1..], i - 1);
    }
  }

  /** In a class with distinct member names, `_primary_key_columns` returns
      exactly the public primary-key columns, in `_columns` order. */
  lemma PrimaryKeyColumnsExact(cls: ModelClass, n: string)
    requires UniqueNames(cls)
    ensures n in PrimaryKeyColumns(cls) <==> DeclaresPrimaryKey(cls, n)
  {
    ColumnsExact(cls, n);
    if n in PrimaryKeyColumns(cls) {
      var i :| 0 <= i < |cls| && cls[i].name == n && IsColumnMember(cls[i]);
      LookupFindsMember(cls, i);
    }
    if DeclaresPrimaryKey(cls, n) {
      var i :| 0 <= i < |cls| && cls[i].name == n && IsPrimaryKeyMember(cls[i]);
      LookupFindsMember(cls, i);
    }
  }

  /** Filtering names none of which is a primary-key attribute keeps nothing. */
  lemma {:induction false} KeepNothing(cls: ModelClass, names: seq<string>)
    requires forall n :: n in names ==> !IsPrimaryKeyAttr(Lookup(cls, n))
    ensures KeepPrimaryKeys(cls, names) == []
  {
    if names != [] {
      assert names[0] in names;
      KeepNothing(cls, names[1..]);
    }
  }

  /** A class that declares no public primary-key column has an empty
      primary-key list, whether or not its names are distinct. */
  lemma NoPrimaryKeyColumns(cls: ModelClass)
    requires forall i :: 0 <= i < |cls| ==> !IsPrimaryKeyMember(cls[i])
    ensures PrimaryKeyColumns(cls) == []
  {
    forall n | n in Columns(cls)
      ensures !IsPrimaryKeyAttr(Lookup(cls, n))
    {
      var m := Lookup(cls, n);
      if m.Some? {
        var i :| 0 <= i < |cls| && cls[i] == m.value;
        assert !IsPrimaryKeyMember(cls[i]);
      }
    }
    KeepNothing(cls, Columns(cls));
  }
}
