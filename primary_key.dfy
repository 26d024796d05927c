/**
 * The cube's primary key: a fixed tuple of dimension values, compared
 * lexicographically, element by element.
 */
module PrimaryKeys {

  /** A key tuple; its elements are compared with the comparator their dimensions define. */
  datatype PrimaryKey<T> = PrimaryKey(values: seq<T>)

  /** `ofList` and `ofArray`: the key holds the values in the given order. */
  function OfList<T>(values: seq<T>): PrimaryKey<T> {
    PrimaryKey(values)
  }

  function Size<T>(k: PrimaryKey<T>): nat {
    |k.values|
  }

  function Get<T>(k: PrimaryKey<T>, index: nat): T
    requires index < Size(k)
  {
    k.values[index]
  }

  predicate IsEmpty<T>(k: PrimaryKey<T>) {
    Size(k) == 0
  }

  /** A key built from a list has that list's size and returns its i-th value at index i. */
  lemma OfListGet<T>(values: seq<T>)
    ensures Size(OfList(values)) == |values|
    ensures IsEmpty(OfList(values)) <==> values == []
    ensures forall i :: 0 <= i < |values| ==> Get(OfList(values), i) == values[i]
  {
  }

  /** `prefix`: a new array of `size` elements, filled with the first `size` values. */
  method Prefix<T(0)>(k: PrimaryKey<T>, size: nat) returns (p: PrimaryKey<T>)
    requires size <= Size(k)
    ensures Size(p) == size
    ensures forall i :: 0 <= i < size ==> Get(p, i) == Get(k, i)
    ensures p == PrimaryKey(k.values[..size])
  {
    var newValues := new T[size];
    var i := 0;
    while i < size
      invariant 0 <= i <= size
      invariant newValues[..i] == k.values[..i]
    {
      newValues[i] := k.values[i];
      i := i + 1;
    }
    p := OfList(newValues[..]);
  }

  /**
   * A prefix of a prefix is the shorter prefix of the original key: any p
   * and q meeting Prefix's size-and-values contract for k, n and for p, m
   * make q the key of k's first m values.
   */
  lemma {:induction false} PrefixOfPrefix<T>(k: PrimaryKey<T>, p: PrimaryKey<T>, q: PrimaryKey<T>, m: nat, n: nat)
    requires m <= n <= Size(k)
    requires Size(p) == n && forall i :: 0 <= i < n ==> Get(p, i) == Get(k, i)
    requires Size(q) == m && forall i :: 0 <= i < m ==> Get(q, i) == Get(p, i)
    ensures q == PrimaryKey(k.values[..m])
  {
    assert q.values == k.values[..m] by {
      forall i | 0 <= i < m ensures q.values[i] == k.values[i] {
        assert Get(q, i) == Get(p, i) == Get(k, i);
      }
    }
  }

  /** `equals`: keys of equal size are equal when every position holds equal values. */
  method Equals<T(==)>(a: PrimaryKey<T>, b: PrimaryKey<T>) returns (r: bool)
    requires Size(a) == Size(b)
    ensures r <==> forall i :: 0 <= i < Size(a) ==> a.values[i] == b.values[i]
    ensures r <==> a == b
  {
    var i := 0;
    while i < |a.values|
      invariant 0 <= i <= |a.values|
      invariant forall j :: 0 <= j < i ==> a.values[j] == b.values[j]
    {
      if a.values[i] != b.values[i] {
        return false;
      }
      i := i + 1;
    }
    assert a.values == b.values;
    return true;
  }

  /**
   * The lexicographic order `compareTo` implements: the comparison of the
   * first position whose values compare non-zero, or zero when there is none.
   */
  function LexCompare<T>(cmp: (T, T) -> int, a: seq<T>, b: seq<T>): int
    requires |a| == |b|
  {
    if a == [] then 0
    else if cmp(a[0], b[0]) != 0 then cmp(a[0], b[0])
    else LexCompare(cmp, a[1..], b[1..])
  }

  /** `compareTo`: the loop returns at the first non-zero element comparison. */
  method CompareTo<T>(cmp: (T, T) -> int, a: PrimaryKey<T>, b: PrimaryKey<T>) returns (r: int)
    requires Size(a) == Size(b)
    ensures r == LexCompare(cmp, a.values, b.values)
  {
    var i := 0;
    while i < |a.values|
      invariant 0 <= i <= |a.values|
      invariant LexCompare(cmp, a.values, b.values) == LexCompare(cmp, a.values[i..], b.values[i..])
    {
      var result := cmp(a.values[i], b.values[i]);
      if result != 0 {
        return result;
      }
      assert a.values[i..][1..] == a.values[i + 1..];
      assert b.values[i..][1..] == b.values[i + 1..];
      i := i + 1;
    }
    return 0;
  }

  /** The lexicographic compare is zero exactly when every position compares zero. */
  lemma {:induction false} LexCompareZero<T>(cmp: (T, T) -> int, a: seq<T>, b: seq<T>)
    requires |a| == |b|
    ensures LexCompare(cmp, a, b) == 0 <==> forall i :: 0 <= i < |a| ==> cmp(a[i], b[i]) == 0
  {
    if a != [] {
      LexCompareZero(cmp, a[1..], b[1..]);
      if cmp(a[0], b[0]) == 0 && LexCompare(cmp, a[1..], b[1..]) == 0 {
        forall i | 0 <= i < |a| ensures cmp(a[i], b[i]) == 0 {
          if i > 0 {
            assert a[i] == a[1..][i - 1] && b[i] == b[1..][i - 1];
          }
        }
      }
    }
  }

  /** The lexicographic compare is decided by the first position that compares non-zero. */
  lemma {:induction false} LexCompareFirstDifference<T>(cmp: (T, T) -> int, a: seq<T>, b: seq<T>, k: nat)
    requires |a| == |b| && k < |a|
    requires forall j :: 0 <= j < k ==> cmp(a[j], b[j]) == 0
    requires cmp(a[k], b[k]) != 0
    ensures LexCompare(cmp, a, b) == cmp(a[k], b[k])
    decreases k
  {
    if k > 0 {
      assert cmp(a[0], b[0]) == 0;
      forall j | 0 <= j < k - 1 ensures cmp(a[1..][j], b[1..][j]) == 0 {
        assert a[1..][j] == a[j + 1] && b[1..][j] == b[j + 1];
      }
      LexCompareFirstDifference(cmp, a[1..], b[1..], k - 1);
    }
  }

  /** An element comparator that is zero exactly on equal values. */
  ghost predicate ConsistentWithEquals<T(!new)>(cmp: (T, T) -> int) {
    forall x: T, y: T :: cmp(x, y) == 0 <==> x == y
  }

  /** An element comparator whose sign flips when its arguments are swapped. */
  ghost predicate Antisymmetric<T(!new)>(cmp: (T, T) -> int) {
    forall x: T, y: T :: cmp(x, y) < 0 <==> cmp(y, x) > 0
  }

  /** With element comparators consistent with equality, `compareTo` is zero exactly when `equals` holds. */
  lemma CompareToAgreesWithEquals<T(!new)>(cmp: (T, T) -> int, a: seq<T>, b: seq<T>)
    requires |a| == |b| && ConsistentWithEquals(cmp)
    ensures LexCompare(cmp, a, b) == 0 <==> a == b
  {
    LexCompareZero(cmp, a, b);
    if forall i :: 0 <= i < |a| ==> cmp(a[i], b[i]) == 0 {
      assert forall i :: 0 <= i < |a| ==> a[i] == b[i];
    }
  }

  /** With antisymmetric element comparators, swapping the keys flips the sign of `compareTo`. */
  lemma {:induction false} LexCompareAntisymmetric<T(!new)>(cmp: (T, T) -> int, a: seq<T>, b: seq<T>)
    requires |a| == |b| && Antisymmetric(cmp)
    ensures LexCompare(cmp, a, b) < 0 <==> LexCompare(cmp, b, a) > 0
  {
    if a != [] {
      LexCompareAntisymmetric(cmp, a[1..], b[1..]);
      assert cmp(a[0], b[0]) < 0 <==> cmp(b[0], a[0]) > 0;
      assert cmp(b[0], a[0]) < 0 <==> cmp(a[0], b[0]) > 0;
    }
  }
}
