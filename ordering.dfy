/** The two query building blocks the controllers rely on: selecting the records
    of a collection that satisfy a filter (in id order, like a find without a
    sort), and sorting by a key in descending order (like `.sort({key: -1})`). */
module Ordering {

  /** Keys never increase from left to right. */
  ghost predicate SortedDesc<T>(xs: seq<T>, key: T -> int)
  {
    forall i, j :: 0 <= i < j < |xs| ==> key(xs[i]) >= key(xs[j])
  }

  /** The entries `(id, record)` of `xs` whose record satisfies `keep`, in id order. */
  function Select<T(!new)>(xs: seq<T>, keep: T -> bool): (r: seq<(nat, T)>)
    ensures forall e :: e in r <==> e.0 < |xs| && xs[e.0] == e.1 && keep(e.1)
    ensures forall a, b :: 0 <= a < b < |r| ==> r[a].0 < r[b].0
  {
    if xs == [] then []
    else
      var n := |xs| - 1;
      Select(xs[..n], keep) + (if keep(xs[n]) then [(n, xs[n])] else [])
  }

  /** Sequences that are permutations of each other have the same members. */
  lemma SameMembers<T>(a: seq<T>, b: seq<T>)
    requires multiset(a) == multiset(b)
    ensures forall e :: e in a <==> e in b
  {
    forall e ensures e in a <==> e in b {
      assert e in a <==> e in multiset(a);
      assert e in b <==> e in multiset(b);
    }
  }

  /** `x` may go in front of a descending sequence whose head key is not larger. */
  lemma InsertAtFront<T>(x: T, xs: seq<T>, key: T -> int)
    requires SortedDesc(xs, key)
    requires xs == [] || key(x) >= key(xs[0])
    ensures SortedDesc([x] + xs, key)
  {
  }

  /** When `x` goes behind the head of `xs`, the head followed by the insertion
      into the tail (`rest`) is descending and holds `xs` and `x`. */
  lemma InsertBehindHead<T>(x: T, xs: seq<T>, rest: seq<T>, key: T -> int)
    requires SortedDesc(xs, key) && xs != [] && key(x) < key(xs[0])
    requires SortedDesc(rest, key) && multiset(rest) == multiset(xs[1..]) + multiset{x}
    ensures SortedDesc([xs[0]] + rest, key)
    ensures multiset([xs[0]] + rest) == multiset(xs) + multiset{x}
  {
    forall k | 0 <= k < |rest| ensures key(rest[k]) <= key(xs[0]) {
      assert rest[k] in multiset(rest);
      if rest[k] != x {
        assert rest[k] in xs[1..];
        var j :| 0 <= j < |xs| - 1 && xs[1..][j] == rest[k];
        assert key(xs[0]) >= key(xs[j + 1]);
      }
    }
    assert xs == [xs[0]] + xs[1..];
  }

  /** Inserts `x` into a descending sequence, before the first element whose key is not larger. */
  function Insert<T>(x: T, xs: seq<T>, key: T -> int): (r: seq<T>)
    requires SortedDesc(xs, key)
    ensures SortedDesc(r, key)
    ensures multiset(r) == multiset(xs) + multiset{x}
  {
    if xs == [] || key(x) >= key(xs[0]) then
      InsertAtFront(x, xs, key);
      [x] + xs
    else
      var rest := Insert(x, xs[1..], key);
      InsertBehindHead(x, xs, rest, key);
      [xs[0]] + rest
  }

  /** Insertion sort by descending key; a permutation of the input. */
  function SortDesc<T>(xs: seq<T>, key: T -> int): (r: seq<T>)
    ensures SortedDesc(r, key)
    ensures multiset(r) == multiset(xs)
  {
    if xs == [] then []
    else
      assert xs == [xs[0]] + xs[1..];
      Insert(xs[0], SortDesc(xs[1..], key), key)
  }
}
