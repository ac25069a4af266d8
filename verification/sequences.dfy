/** Generic sequence operations that stand for JavaScript's
    `Array.prototype.filter` and `Array.prototype.findIndex`. */
module Sequences {

  /** `sub` can be obtained from `s` by deleting elements: order is kept. */
  predicate IsSubsequence<T(==)>(sub: seq<T>, s: seq<T>)
    decreases |s|
  {
    if |sub| == 0 then true
    else if |s| == 0 then false
    else if sub[0] == s[0] then IsSubsequence(sub[1..], s[1..])
    else IsSubsequence(sub, s[1..])
  }

  /** `xs.filter(p)`: the elements satisfying `p`, in their original order. */
  function Filter<T>(s: seq<T>, p: T -> bool): (r: seq<T>)
    ensures |r| <= |s|
    ensures forall i :: 0 <= i < |r| ==> r[i] in s && p(r[i])
    ensures forall i :: 0 <= i < |s| && p(s[i]) ==> s[i] in r
    ensures (forall i :: 0 <= i < |s| ==> p(s[i])) ==> r == s
    ensures (forall i :: 0 <= i < |s| ==> !p(s[i])) ==> r == []
    decreases |s|
  {
    if |s| == 0 then []
    else
      var rest := Filter(s[1..], p);
      assert s == [s[0]] + s[1..];
      if p(s[0]) then [s[0]] + rest else rest
  }

  /** Filtering keeps every passing element as often as it occurs and
      drops every other one. */
  lemma {:induction false} FilterMultiset<T(!new)>(s: seq<T>, p: T -> bool)
    ensures forall x :: multiset(Filter(s, p))[x] == if p(x) then multiset(s)[x] else 0
    decreases |s|
  {
    if |s| > 0 {
      FilterMultiset(s[1..], p);
      var rest := Filter(s[1..], p);
      assert s == [s[0]] + s[1..];
      forall x
        ensures multiset(Filter(s, p))[x] == if p(x) then multiset(s)[x] else 0
      {
        assert multiset(s)[x] == multiset([s[0]])[x] + multiset(s[1..])[x];
        if p(s[0]) {
          assert Filter(s, p) == [s[0]] + rest;
          assert multiset(Filter(s, p))[x] == multiset([s[0]])[x] + multiset(rest)[x];
        }
      }
    }
  }

  lemma {:induction false} FilterIsSubsequence<T>(s: seq<T>, p: T -> bool)
    ensures IsSubsequence(Filter(s, p), s)
    decreases |s|
  {
    if |s| > 0 {
      FilterIsSubsequence(s[1..], p);
      var rest := Filter(s[1..], p);
      if p(s[0]) {
        assert Filter(s, p) == [s[0]] + rest;
        assert ([s[0]] + rest)[1..] == rest;
      } else {
        SubsequenceOfTail(rest, s);
      }
    }
  }

  /** A subsequence of the tail is a subsequence of the whole list. */
  lemma {:induction false} SubsequenceOfTail<T>(sub: seq<T>, s: seq<T>)
    requires |s| > 0
    requires IsSubsequence(sub, s[1..])
    ensures IsSubsequence(sub, s)
    decreases |s|, |sub|
  {
    if |sub| > 0 && sub[0] == s[0] {
      // Here the definition takes the matching branch; the tail of `sub` is
      // also a subsequence of `s[1..]`.
      DropHead(sub, s[1..]);
    }
  }

  lemma {:induction false} DropHead<T>(sub: seq<T>, s: seq<T>)
    requires |sub| > 0
    requires IsSubsequence(sub, s)
    ensures IsSubsequence(sub[1..], s)
    decreases |s|, |sub|
  {
    if |s| > 0 {
      if sub[0] == s[0] {
        SubsequenceOfTail(sub[1..], s);
      } else {
        DropHead(sub, s[1..]);
        SubsequenceOfTail(sub[1..], s);
      }
    }
  }

  /** Filtering with two predicates that agree on every element gives the same list. */
  lemma {:induction false} FilterCongruent<T>(s: seq<T>, p: T -> bool, q: T -> bool)
    requires forall i :: 0 <= i < |s| ==> p(s[i]) == q(s[i])
    ensures Filter(s, p) == Filter(s, q)
    decreases |s|
  {
    if |s| > 0 {
      FilterCongruent(s[1..], p, q);
    }
  }

  /** `xs.findIndex(p)`: the first index whose element satisfies `p`, or -1. */
  function FindIndex<T>(s: seq<T>, p: T -> bool): (r: int)
    ensures -1 <= r < |s|
    ensures r == -1 <==> forall i :: 0 <= i < |s| ==> !p(s[i])
    ensures r >= 0 ==> p(s[r]) && forall i :: 0 <= i < r ==> !p(s[i])
    decreases |s|
  {
    if |s| == 0 then -1
    else if p(s[0]) then 0
    else
      var k := FindIndex(s[1..], p);
      if k == -1 then -1 else k + 1
  }

  /** The list without its element at position `i`. */
  function RemoveAt<T>(s: seq<T>, i: nat): (r: seq<T>)
    requires i < |s|
    ensures |r| == |s| - 1
    ensures forall k :: 0 <= k < i ==> r[k] == s[k]
    ensures forall k :: i <= k < |r| ==> r[k] == s[k + 1]
  {
    s[..i] + s[i + 1..]
  }

  /** Array-splice move: `xs.splice(from, 1)` followed by
      `xs.splice(to, 0, moved)`. */
  function Move<T>(s: seq<T>, from: nat, to: nat): (r: seq<T>)
    requires from < |s| && to < |s|
    ensures |r| == |s|
    ensures r[to] == s[from]
    ensures RemoveAt(r, to) == RemoveAt(s, from)
    ensures multiset(r) == multiset(s)
  {
    var rest := RemoveAt(s, from);
    var r := rest[..to] + [s[from]] + rest[to..];
    assert RemoveAt(r, to) == rest by {
      assert r[..to] == rest[..to];
      assert r[to + 1..] == rest[to..];
      assert rest[..to] + rest[to..] == rest;
    }
    assert multiset(r) == multiset(s) by {
      calc {
        multiset(r);
        multiset(rest[..to]) + multiset([s[from]]) + multiset(rest[to..]);
        { assert rest[..to] + rest[to..] == rest; }
        multiset(rest) + multiset([s[from]]);
        multiset(s[..from]) + multiset(s[from + 1..]) + multiset([s[from]]);
        { assert s == s[..from] + [s[from]] + s[from + 1..]; }
        multiset(s);
      }
    }
    r
  }

  /** Moving an element back to where it came from restores the list. */
  lemma MoveBack<T>(s: seq<T>, from: nat, to: nat)
    requires from < |s| && to < |s|
    ensures Move(Move(s, from, to), to, from) == s
  {
  }
}
