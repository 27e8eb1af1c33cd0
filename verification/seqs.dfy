/** Generic sequence operations with the meaning of JavaScript's
    `Array.prototype.filter` and `Array.prototype.map` (both walk the array
    from front to back and build a fresh array), plus the facts about them
    that the client's list updates rely on. */
module Seqs {

  /** `a` can be obtained from `b` by deleting elements, without reordering
      what is left. */
  predicate IsSubsequence<T(==)>(a: seq<T>, b: seq<T>)
    decreases |b|
  {
    if a == [] then true
    else if b == [] then false
    else (a[0] == b[0] && IsSubsequence(a[1..], b[1..])) || IsSubsequence(a, b[1..])
  }

  /** `s.filter(keep)`: the elements of `s` satisfying `keep`, in their
      original order and with their original multiplicities. */
  function Filter<T(==,!new)>(s: seq<T>, keep: T -> bool): (r: seq<T>)
    ensures |r| <= |s|
    ensures forall x :: x in r <==> x in s && keep(x)
  {
    if s == [] then []
    else
      if keep(s[0]) then [s[0]] + Filter(s[1..], keep)
      else Filter(s[1..], keep)
  }

  /** `s.map(f)`: same length, and every position holds `f` of the element
      that was there. */
  function Map<T, U>(s: seq<T>, f: T -> U): (r: seq<U>)
    ensures |r| == |s|
    ensures forall i :: 0 <= i < |s| ==> r[i] == f(s[i])
  {
    if s == [] then [] else [f(s[0])] + Map(s[1..], f)
  }

  /** `s` read back to front. */
  function Reverse<T>(s: seq<T>): (r: seq<T>)
    ensures |r| == |s|
    ensures forall i :: 0 <= i < |s| ==> r[i] == s[|s| - 1 - i]
  {
    if s == [] then [] else Reverse(s[1..]) + [s[0]]
  }

  /** Filtering only deletes elements; it never reorders the survivors. */
  lemma {:induction false} FilterIsSubsequence<T(!new)>(s: seq<T>, keep: T -> bool)
    ensures IsSubsequence(Filter(s, keep), s)
  {
    if s != [] {
      FilterIsSubsequence(s[1..], keep);
      var rest := Filter(s[1..], keep);
      if keep(s[0]) {
        assert ([s[0]] + rest)[1..] == rest;
      }
    }
  }

  /** Filtering keeps every element satisfying `keep` exactly as often as it
      occurs in `s`, and no other element at all. */
  lemma {:induction false} FilterCounts<T(!new)>(s: seq<T>, keep: T -> bool)
    ensures forall x :: multiset(Filter(s, keep))[x] == if keep(x) then multiset(s)[x] else 0
  {
    if s != [] {
      assert s == [s[0]] + s[1..];
      FilterCounts(s[1..], keep);
    }
  }

  /** Peeling the first element off a reversal puts it just before whatever
      follows the reversed sequence. */
  lemma ReverseUnfold<T>(s: seq<T>, t: seq<T>)
    requires s != []
    ensures Reverse(s[1..]) + ([s[0]] + t) == Reverse(s) + t
  {
    assert Reverse(s) == Reverse(s[1..]) + [s[0]];
    AppendAssociates(Reverse(s[1..]), [s[0]], t);
  }

  /** Concatenation is associative. */
  lemma AppendAssociates<T>(a: seq<T>, b: seq<T>, c: seq<T>)
    ensures a + (b + c) == (a + b) + c
  {
  }

  /** A filter that keeps everything is the identity. */
  lemma {:induction false} FilterKeepsAll<T(!new)>(s: seq<T>, keep: T -> bool)
    requires forall i :: 0 <= i < |s| ==> keep(s[i])
    ensures Filter(s, keep) == s
  {
    if s != [] {
      FilterKeepsAll(s[1..], keep);
    }
  }

  /** A filter that keeps nothing yields the empty sequence. */
  lemma {:induction false} FilterDropsAll<T(!new)>(s: seq<T>, keep: T -> bool)
    requires forall i :: 0 <= i < |s| ==> !keep(s[i])
    ensures Filter(s, keep) == []
  {
    if s != [] {
      FilterDropsAll(s[1..], keep);
    }
  }

  /** Filtering commutes with concatenation: what survives from the front part
      stays in front of what survives from the back part. */
  lemma {:induction false} FilterAppend<T(!new)>(a: seq<T>, b: seq<T>, keep: T -> bool)
    ensures Filter(a + b, keep) == Filter(a, keep) + Filter(b, keep)
  {
    if a == [] {
      assert a + b == b;
    } else {
      assert (a + b)[0] == a[0];
      assert (a + b)[1..] == a[1..] + b;
      FilterAppend(a[1..], b, keep);
    }
  }

  /** Filtering out one rejected element that sits between elements that are
      all kept leaves exactly those elements, in order. */
  lemma FilterAroundOne<T(!new)>(front: seq<T>, x: T, back: seq<T>, keep: T -> bool)
    requires forall i :: 0 <= i < |front| ==> keep(front[i])
    requires forall i :: 0 <= i < |back| ==> keep(back[i])
    requires !keep(x)
    ensures Filter(front + [x] + back, keep) == front + back
  {
    var left := front + [x];
    FilterAppend(left, back, keep);
    FilterAppend(front, [x], keep);
    FilterKeepsAll(front, keep);
    FilterKeepsAll(back, keep);
    FilterDropsAll([x], keep);
    assert Filter(left, keep) == front;
  }

  /** Filtering by a predicate and by its negation splits the sequence: the
      two results together hold every element exactly as often as `s` does,
      so their lengths add up to `|s|`. */
  lemma FilterPartition<T(!new)>(s: seq<T>, keep: T -> bool, drop: T -> bool)
    requires forall x :: drop(x) == !keep(x)
    ensures multiset(Filter(s, keep)) + multiset(Filter(s, drop)) == multiset(s)
    ensures |Filter(s, keep)| + |Filter(s, drop)| == |s|
  {
    var a, b := Filter(s, keep), Filter(s, drop);
    FilterCounts(s, keep);
    FilterCounts(s, drop);
    assert multiset(a) + multiset(b) == multiset(s) by {
      forall x
        ensures (multiset(a) + multiset(b))[x] == multiset(s)[x]
      {
        assert drop(x) == !keep(x);
      }
    }
    assert |multiset(a)| == |a| && |multiset(b)| == |b| && |multiset(s)| == |s|;
  }
}
