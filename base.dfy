/** Small value types shared by every module of the model. */
module Base {

  /** A value that may be absent (the source's nullable references). */
  datatype Option<+T> = None | Some(value: T)

  /** A computation that either yields a value or fails with an error (the source's exceptions). */
  datatype Result<+T, +E> = Ok(value: T) | Err(error: E)

  /** The 32-bit range of Java's `int`. */
  predicate IsInt32(x: int) { -0x8000_0000 <= x < 0x8000_0000 }

  /** The 64-bit range of Java's `long`. */
  predicate IsInt64(x: int) { -0x8000_0000_0000_0000 <= x < 0x8000_0000_0000_0000 }

  /** Java `int` arithmetic: an exact result reduced, modulo 2^32, into the `int` range. */
  function WrapInt32(x: int): (r: int)
    ensures IsInt32(r)
    ensures IsInt32(x) ==> r == x
    ensures x == 0x8000_0000 ==> r == -0x8000_0000
    ensures x == -0x8000_0001 ==> r == 0x7fff_ffff
  {
    (x + 0x8000_0000) % 0x1_0000_0000 - 0x8000_0000
  }

  /** Java `long` arithmetic: an exact result reduced, modulo 2^64, into the `long` range. */
  function WrapInt64(x: int): (r: int)
    ensures IsInt64(r)
    ensures IsInt64(x) ==> r == x
    ensures x == 0x8000_0000_0000_0000 ==> r == -0x8000_0000_0000_0000
    ensures x == -0x8000_0000_0000_0001 ==> r == 0x7fff_ffff_ffff_ffff
  {
    (x + 0x8000_0000_0000_0000) % 0x1_0000_0000_0000_0000 - 0x8000_0000_0000_0000
  }

  /** The elements of `s` that satisfy `p`, in order (a filter). */
  function Filter<T>(p: T -> bool, s: seq<T>): (r: seq<T>)
    ensures |r| <= |s|
    ensures forall x :: x in r ==> x in s && p(x)
  {
    if s == [] then [] else (if p(s[0]) then [s[0]] else []) + Filter(p, s[1..])
  }

  /** `f` applied to each element of `s`, in order (a map). */
  function MapSeq<T, U>(f: T -> U, s: seq<T>): (r: seq<U>)
    ensures |r| == |s|
    ensures forall i :: 0 <= i < |s| ==> r[i] == f(s[i])
  {
    if s == [] then [] else [f(s[0])] + MapSeq(f, s[1..])
  }

  /** The first `n` elements of `s`, or all of `s` when it is shorter. */
  function Take<T>(s: seq<T>, n: nat): (r: seq<T>)
    ensures |r| == if n <= |s| then n else |s|
    ensures r == s[..|r|]
  {
    if n <= |s| then s[..n] else s
  }

  /** All elements of the sequences of `ss`, concatenated in order. */
  function Flatten<T>(ss: seq<seq<T>>): (r: seq<T>)
  {
    if ss == [] then [] else ss[0] + Flatten(ss[1..])
  }

  lemma {:induction false} FlattenAppend<T>(a: seq<seq<T>>, b: seq<seq<T>>)
    ensures Flatten(a + b) == Flatten(a) + Flatten(b)
  {
    if a == [] {
      assert a + b == b;
    } else {
      assert (a + b)[1..] == a[1..] + b;
      FlattenAppend(a[1..], b);
    }
  }

  lemma {:induction false} FilterAppend<T>(p: T -> bool, a: seq<T>, b: seq<T>)
    ensures Filter(p, a + b) == Filter(p, a) + Filter(p, b)
  {
    if a == [] {
      assert a + b == b;
    } else {
      assert (a + b)[1..] == a[1..] + b;
      FilterAppend(p, a[1..], b);
    }
  }

  lemma {:induction false} MapSeqAppend<T, U>(f: T -> U, a: seq<T>, b: seq<T>)
    ensures MapSeq(f, a + b) == MapSeq(f, a) + MapSeq(f, b)
  {
    if a == [] {
      assert a + b == b;
    } else {
      assert (a + b)[1..] == a[1..] + b;
      MapSeqAppend(f, a[1..], b);
      var x, l, r := [f(a[0])], MapSeq(f, a[1..]), MapSeq(f, b);
      assert x + (l + r) == (x + l) + r;
    }
  }

  /** The set of keys of `items`. */
  ghost function KeysOf<K, T>(key: T -> K, items: seq<T>): set<K> {
    set x | x in items :: key(x)
  }

  lemma KeysOfSnoc<K, T>(key: T -> K, items: seq<T>)
    requires items != []
    ensures KeysOf(key, items) == KeysOf(key, items[..|items| - 1]) + {key(items[|items| - 1])}
  {
    var init := items[..|items| - 1];
    assert items == init + [items[|items| - 1]];
  }

  /** A hash map's iteration order: `order` lists each key of `state` exactly once. */
  ghost predicate IterationOrder<K, A>(state: map<K, A>, order: seq<K>) {
    && (forall i, j :: 0 <= i < j < |order| ==> order[i] != order[j])
    && (forall i :: 0 <= i < |order| ==> order[i] in state)
    && |order| == |state|
  }

  /** The items of key `k`, in input order. */
  function OfKey<K(==), T>(key: T -> K, k: K, items: seq<T>): seq<T> {
    Filter(x => key(x) == k, items)
  }

  lemma OfKeySnoc<K, T>(key: T -> K, k: K, items: seq<T>)
    requires items != []
    ensures var x := items[|items| - 1];
            OfKey(key, k, items) == OfKey(key, k, items[..|items| - 1]) + (if key(x) == k then [x] else [])
  {
    var init := items[..|items| - 1];
    var x := items[|items| - 1];
    assert items == init + [x];
    FilterAppend(x => key(x) == k, init, [x]);
  }
}
