/**
 * `java.util.TreeSet` with a comparator, seen as the sequence of its elements in
 * iteration order.  `less(a, b)` stands for `compare(a, b) < 0`; two elements that are
 * not less than each other compare equal, and the set keeps only the first of them.
 */
module TreeSet {

  ghost predicate StrictOrder<T(!new)>(less: (T, T) -> bool)
  {
    && (forall a :: !less(a, a))
    && (forall a, b, c :: less(a, b) && less(b, c) ==> less(a, c))
  }

  /** The comparator finds neither element smaller: `compare(a, b) == 0`. */
  predicate Equivalent<T>(less: (T, T) -> bool, a: T, b: T)
  {
    !less(a, b) && !less(b, a)
  }

  /** Strictly increasing under `less`: what iterating a `TreeSet` yields. */
  predicate Sorted<T>(s: seq<T>, less: (T, T) -> bool)
  {
    forall i, j :: 0 <= i < j < |s| ==> less(s[i], s[j])
  }

  /**
   * `set.add(x)`: `x` goes in front of the first element it is less than, unless an
   * element that compares equal to it is met first, in which case the set is unchanged.
   */
  function Add<T(!new)>(s: seq<T>, x: T, less: (T, T) -> bool): (r: seq<T>)
    ensures r == s || |r| == |s| + 1
    ensures r == s ==> exists i :: 0 <= i < |s| && Equivalent(less, s[i], x)
    ensures r != s ==> x in r && forall y :: y in r <==> y == x || y in s
    ensures forall y :: y in r ==> y == x || y in s
  {
    if s == [] then [x]
    else if less(s[0], x) then
      var t := Add(s[1..], x, less);
      assert s == [s[0]] + s[1..];
      [s[0]] + t
    else if less(x, s[0]) then [x] + s
    else s
  }

  /** Adding to a sorted sequence keeps it sorted. */
  lemma {:induction false} AddSorted<T(!new)>(s: seq<T>, x: T, less: (T, T) -> bool)
    requires StrictOrder(less) && Sorted(s, less)
    ensures Sorted(Add(s, x, less), less)
  {
    if s != [] && less(s[0], x) {
      AddSorted(s[1..], x, less);
      var r := Add(s, x, less);
      var t := Add(s[1..], x, less);
      assert r == [s[0]] + t;
      forall j | 0 < j < |r| ensures less(r[0], r[j]) {
        assert r[j] in t;
        if r[j] != x {
          var k :| 0 <= k < |s[1..]| && s[1..][k] == r[j];
          assert s[k + 1] == r[j];
        }
      }
    } else if s != [] && less(x, s[0]) {
      var r := Add(s, x, less);
      forall i, j | 0 <= i < j < |r| ensures less(r[i], r[j]) {
        if i == 0 && j > 1 {
          assert less(s[0], s[j - 1]);
        }
      }
    }
  }

  /** `set.add(x)` on a sorted set that already holds an element comparing equal to `x` leaves it unchanged. */
  lemma {:induction false} AddEquivalentUnchanged<T(!new)>(s: seq<T>, x: T, less: (T, T) -> bool, i: int)
    requires StrictOrder(less) && Sorted(s, less)
    requires 0 <= i < |s| && Equivalent(less, s[i], x)
    ensures Add(s, x, less) == s
  {
    if i > 0 && less(s[0], x) {
      assert s[1..][i - 1] == s[i];
      AddEquivalentUnchanged(s[1..], x, less, i - 1);
      assert s == [s[0]] + s[1..];
    }
  }

  /** In a sorted sequence the first element is less than every other element. */
  lemma FirstIsLeast<T(!new)>(s: seq<T>, less: (T, T) -> bool, y: T)
    requires StrictOrder(less) && Sorted(s, less) && s != [] && y in s && y != s[0]
    ensures less(s[0], y)
  {
    var j :| 0 <= j < |s| && s[j] == y;
  }

  /** A sorted sequence is determined by its elements: two with the same elements are equal. */
  lemma {:induction false} SortedUnique<T(!new)>(s: seq<T>, t: seq<T>, less: (T, T) -> bool)
    requires StrictOrder(less) && Sorted(s, less) && Sorted(t, less)
    requires forall y :: y in s <==> y in t
    ensures s == t
    decreases |s|
  {
    assert s != [] ==> s[0] in t;
    assert t != [] ==> t[0] in s;
    if s != [] {
      if s[0] != t[0] {
        FirstIsLeast(s, less, t[0]);
        assert false;
      }
      forall y | y in s[1..] ensures y in t[1..] {
        var j :| 1 <= j < |s| && s[j] == y;
        assert less(s[0], s[j]);
        assert y in t && y != t[0];
      }
      forall y | y in t[1..] ensures y in s[1..] {
        var j :| 1 <= j < |t| && t[j] == y;
        assert less(t[0], t[j]);
        assert y in s && y != s[0];
      }
      SortedUnique(s[1..], t[1..], less);
      assert s == [s[0]] + s[1..] && t == [t[0]] + t[1..];
    }
  }

  /** A sorted sequence holds no element twice, so it has as many elements as its length. */
  lemma {:induction false} SortedCard<T(!new)>(s: seq<T>, less: (T, T) -> bool)
    requires StrictOrder(less) && Sorted(s, less)
    ensures |set y | y in s| == |s|
  {
    if s != [] {
      SortedCard(s[1..], less);
      var tail := set y | y in s[1..];
      assert (set y | y in s) == {s[0]} + tail;
      assert s[0] !in tail;
    }
  }
}
