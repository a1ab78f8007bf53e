/**
 * The two comparators of the service's listings and the ascending-by-id order that the
 * configuration writer uses, stated over `SharedBuildNumber` values.
 */
module Listing {
  import opened JavaString
  import opened Entity
  import opened TreeSet
  import opened Configuration

  /** By id, ascending; reversed when `descending`. */
  function IdOrder(descending: bool): (SharedBuildNumber, SharedBuildNumber) -> bool
  {
    if descending then (a: SharedBuildNumber, b: SharedBuildNumber) => b.id < a.id
    else (a: SharedBuildNumber, b: SharedBuildNumber) => a.id < b.id
  }

  /**
   * By name with `String.compareTo`; reversed when `descending`.  Only non-null names are
   * ever compared (a null name against a non-null one throws in the source).
   */
  function NameOrder(descending: bool): (SharedBuildNumber, SharedBuildNumber) -> bool
  {
    if descending then
      (a: SharedBuildNumber, b: SharedBuildNumber) => a.name.Str? && b.name.Str? && StrLess(b.name.s, a.name.s)
    else
      (a: SharedBuildNumber, b: SharedBuildNumber) => a.name.Str? && b.name.Str? && StrLess(a.name.s, b.name.s)
  }

  lemma IdOrderIsStrict(descending: bool)
    ensures StrictOrder(IdOrder(descending))
    ensures forall a, b :: Equivalent(IdOrder(descending), a, b) <==> a.id == b.id
  {
  }

  /** The name comparator is a strict order. */
  lemma NameOrderIsStrict(descending: bool)
    ensures StrictOrder(NameOrder(descending))
  {
    var less := NameOrder(descending);
    forall a: SharedBuildNumber ensures !less(a, a) {
      if a.name.Str? {
        StrLessIrreflexive(a.name.s);
      }
    }
    forall a: SharedBuildNumber, b: SharedBuildNumber, c: SharedBuildNumber | less(a, b) && less(b, c) ensures less(a, c) {
      if descending {
        StrLessTransitive(c.name.s, b.name.s, a.name.s);
      } else {
        StrLessTransitive(a.name.s, b.name.s, c.name.s);
      }
    }
  }

  /** Two named entries compare equal by name exactly when their names are equal. */
  lemma NameOrderEquivalent(descending: bool, a: SharedBuildNumber, b: SharedBuildNumber)
    requires a.name.Str? && b.name.Str?
    ensures Equivalent(NameOrder(descending), a, b) <==> a.name == b.name
  {
    StrLessIrreflexive(a.name.s);
    if !StrLess(a.name.s, b.name.s) && !StrLess(b.name.s, a.name.s) {
      StrLessTotal(a.name.s, b.name.s);
    }
  }

  /** A listing strictly ordered by name never lists the same name twice. */
  lemma NameSortedDistinct(r: seq<SharedBuildNumber>, descending: bool)
    requires Sorted(r, NameOrder(descending))
    ensures forall i, j | 0 <= i < j < |r| :: r[i].name != r[j].name
  {
    forall i, j | 0 <= i < j < |r| ensures r[i].name != r[j].name {
      assert NameOrder(descending)(r[i], r[j]);
      StrLessIrreflexive(r[i].name.s);
    }
  }

  /** Each value is filed under its own id. */
  predicate KeyedById(m: map<int, SharedBuildNumber>)
  {
    forall k | k in m :: m[k].id == k
  }

  /** Some element of a non-empty set. */
  ghost function Pick<T>(s: set<T>): (x: T)
    requires s != {}
    ensures x in s
  {
    var y :| y in s; y
  }

  /** The smallest element of a non-empty set of ids. */
  ghost function MinKey(s: set<int>): (k: int)
    requires s != {}
    ensures k in s && forall j | j in s :: k <= j
    decreases |s|
  {
    var x := Pick(s);
    if s == {x} then x
    else
      var least := MinKey(s - {x});
      assert forall j | j in s :: j == x || j in s - {x};
      if x < least then x else least
  }

  /** The values of `m`, smallest key first: what iterating a `TreeSet` ordered by id yields. */
  ghost function AscendingById(m: map<int, SharedBuildNumber>): (r: seq<SharedBuildNumber>)
    ensures |r| == |m|
    ensures forall x :: x in r <==> x in m.Values
    decreases |m|
  {
    if m == map[] then []
    else
      assert m.Keys != {} by {
        assert |m| != 0;
      }
      var k := MinKey(m.Keys);
      var rest := m - {k};
      assert rest.Keys == m.Keys - {k};
      assert forall x :: x in m.Values <==> x == m[k] || x in rest.Values by {
        forall x | x in m.Values ensures x == m[k] || x in rest.Values {
          var j :| j in m && m[j] == x;
          if j != k {
            assert rest[j] == x;
          }
        }
      }
      [m[k]] + AscendingById(rest)
  }

  /** An element below every element of a sorted sequence can go in front of it. */
  lemma SortedCons<T>(x: T, t: seq<T>, less: (T, T) -> bool)
    requires Sorted(t, less)
    requires forall y | y in t :: less(x, y)
    ensures Sorted([x] + t, less)
  {
    var r := [x] + t;
    forall i, j | 0 <= i < j < |r| ensures less(r[i], r[j]) {
      assert r[j] == t[j - 1];
      if i > 0 {
        assert r[i] == t[i - 1];
      }
    }
  }

  /** In an id-keyed table, every value outside the least key has a larger id than the least one. */
  lemma AboveLeastKey(m: map<int, SharedBuildNumber>, k: int)
    requires KeyedById(m) && m.Keys != {} && k == MinKey(m.Keys)
    ensures m[k].id == k
    ensures forall x | x in (m - {k}).Values :: k < x.id
  {
    forall x | x in (m - {k}).Values ensures k < x.id {
      var key :| key in m - {k} && (m - {k})[key] == x;
    }
  }

  /** When every value carries its key as id, the ascending listing is strictly ascending by id. */
  lemma {:induction false} AscendingByIdSorted(m: map<int, SharedBuildNumber>)
    requires KeyedById(m)
    ensures Sorted(AscendingById(m), IdOrder(false))
    decreases |m|
  {
    if m != map[] {
      assert m.Keys != {} by {
        assert |m| != 0;
      }
      var k := MinKey(m.Keys);
      var rest := m - {k};
      var r, t := AscendingById(m), AscendingById(rest);
      assert r == [m[k]] + t;
      AscendingByIdSorted(rest);
      AboveLeastKey(m, k);
      SortedCons(m[k], t, IdOrder(false));
    }
  }

  /** A strictly ordered listing of exactly the values of an id-keyed table has one element per key. */
  lemma ListingSize(r: seq<SharedBuildNumber>, m: map<int, SharedBuildNumber>, less: (SharedBuildNumber, SharedBuildNumber) -> bool)
    requires StrictOrder(less) && Sorted(r, less)
    requires forall x :: x in r <==> x in m.Values
    requires KeyedById(m)
    ensures |r| == |m|
  {
    SortedCard(r, less);
    assert (set y | y in r) == m.Values;
    forall a, b | a in m && b in m && a != b ensures m[a] != m[b] {
      assert m[a].id == a && m[b].id == b;
    }
    InjectiveValuesCard(m);
  }
}
