/** Order-preserving filtering of a sequence by a predicate, and how it distributes over
    concatenation. */
module Filtering {
  /** The elements satisfying `p`, in order. */
  function Filter<T>(p: T -> bool, s: seq<T>): seq<T> {
    if s == [] then [] else (if p(s[0]) then [s[0]] else []) + Filter(p, s[1..])
  }

  lemma FilterCons<T>(p: T -> bool, h: T, s: seq<T>)
    ensures Filter(p, [h] + s) == (if p(h) then [h] else []) + Filter(p, s)
  {
    assert ([h] + s)[1..] == s;
  }

  lemma {:induction false} FilterAppend<T>(p: T -> bool, a: seq<T>, b: seq<T>)
    ensures Filter(p, a + b) == Filter(p, a) + Filter(p, b)
  {
    if a != [] {
      assert (a + b)[1..] == a[1..] + b;
      FilterAppend(p, a[1..], b);
    } else {
      assert a + b == b;
    }
  }

  lemma {:induction false} FilterNone<T>(p: T -> bool, s: seq<T>)
    requires forall i :: 0 <= i < |s| ==> !p(s[i])
    ensures Filter(p, s) == []
  {
    if s != [] {
      FilterNone(p, s[1..]);
    }
  }

  lemma Regroup<T>(a: seq<T>, b: seq<T>, r: seq<T>, t: seq<T>, hd: seq<T>, last: seq<T>)
    requires a == hd + r && b == hd + t && r == t + last
    ensures a == b + last
  {
  }

  /** Filtering commutes with putting an element back in front. */
  lemma ConsStable<T>(p: T -> bool, h: T, rest: seq<T>, tail: seq<T>, last: seq<T>)
    requires Filter(p, rest) == Filter(p, tail) + last
    ensures Filter(p, [h] + rest) == Filter(p, [h] + tail) + last
  {
    FilterCons(p, h, rest);
    FilterCons(p, h, tail);
    Regroup(Filter(p, [h] + rest), Filter(p, [h] + tail), Filter(p, rest), Filter(p, tail),
            if p(h) then [h] else [], last);
  }

  /** Exactly the elements satisfying `p` survive. */
  lemma {:induction false} FilterMembers<T>(p: T -> bool, s: seq<T>)
    ensures forall x :: x in Filter(p, s) <==> x in s && p(x)
    ensures |Filter(p, s)| <= |s|
  {
    if s != [] {
      FilterMembers(p, s[1..]);
      assert s == [s[0]] + s[1..];
    }
  }

  /** Each element satisfying `p` is kept as often as it occurs; the others are dropped. */
  lemma {:induction false} FilterCount<T>(p: T -> bool, s: seq<T>, x: T)
    ensures multiset(Filter(p, s))[x] == if p(x) then multiset(s)[x] else 0
  {
    if s != [] {
      FilterCount(p, s[1..], x);
      assert s == [s[0]] + s[1..];
    }
  }

  /** When every element satisfies `p`, filtering changes nothing. */
  lemma {:induction false} FilterAll<T>(p: T -> bool, s: seq<T>)
    requires forall i :: 0 <= i < |s| ==> p(s[i])
    ensures Filter(p, s) == s
  {
    if s != [] {
      FilterAll(p, s[1..]);
      assert s == [s[0]] + s[1..];
    }
  }
}
