/** The three `Array.prototype` methods the components are built from:
    `filter`, `map` and `every`, as functions on sequences. */
module JsArray {

  /** Array filter: the elements of s that satisfy p, in their original order. */
  function Filter<T(!new)>(p: T -> bool, s: seq<T>): (r: seq<T>)
    ensures |r| <= |s|
    ensures forall x :: x in r <==> x in s && p(x)
  {
    if s == [] then [] else (if p(s[0]) then [s[0]] else []) + Filter(p, s[1..])
  }

  /** Array map: one image per element, at the same position. */
  function Map<T, U>(f: T -> U, s: seq<T>): (r: seq<U>)
    ensures |r| == |s|
    ensures forall i :: 0 <= i < |s| ==> r[i] == f(s[i])
  {
    if s == [] then [] else [f(s[0])] + Map(f, s[1..])
  }

  /** Array every: whether all elements satisfy p; true on the empty array. */
  function Every<T>(p: T -> bool, s: seq<T>): (b: bool)
    ensures b <==> forall i :: 0 <= i < |s| ==> p(s[i])
  {
    if s == [] then true
    else
      assert forall i :: 1 <= i < |s| ==> s[i] == s[1..][i - 1];
      p(s[0]) && Every(p, s[1..])
  }

  lemma {:induction false} FilterConcat<T(!new)>(p: T -> bool, a: seq<T>, b: seq<T>)
    ensures Filter(p, a + b) == Filter(p, a) + Filter(p, b)
  {
    if a == [] {
      assert a + b == b;
    } else {
      assert (a + b)[0] == a[0];
      assert (a + b)[1..] == a[1..] + b;
      FilterConcat(p, a[1..], b);
    }
  }

  /** Filtering keeps every element exactly when all of them pass; otherwise it drops one. */
  lemma {:induction false} FilterKeepsAll<T(!new)>(p: T -> bool, s: seq<T>)
    ensures Filter(p, s) == s <==> forall i :: 0 <= i < |s| ==> p(s[i])
    ensures |Filter(p, s)| == |s| <==> forall i :: 0 <= i < |s| ==> p(s[i])
  {
    if s != [] {
      FilterKeepsAll(p, s[1..]);
      assert forall i :: 1 <= i < |s| ==> s[i] == s[1..][i - 1];
      if !p(s[0]) {
        assert |Filter(p, s)| < |s|;
      } else {
        assert Filter(p, s) == [s[0]] + Filter(p, s[1..]);
        if forall i :: 0 <= i < |s| ==> p(s[i]) {
          assert s == [s[0]] + s[1..];
        }
      }
    }
  }

  /** Filtering drops everything when nothing passes. */
  lemma {:induction false} FilterNone<T(!new)>(p: T -> bool, s: seq<T>)
    requires forall i :: 0 <= i < |s| ==> !p(s[i])
    ensures Filter(p, s) == []
  {
    if s != [] {
      FilterNone(p, s[1..]);
    }
  }

  /** When exactly one element passes, the filter is that element alone. */
  lemma {:induction false} FilterSingleton<T(!new)>(p: T -> bool, s: seq<T>, i: nat)
    requires i < |s| && p(s[i])
    requires forall j :: 0 <= j < |s| && j != i ==> !p(s[j])
    ensures Filter(p, s) == [s[i]]
  {
    if i == 0 {
      FilterNone(p, s[1..]);
    } else {
      FilterSingleton(p, s[1..], i - 1);
    }
  }

  /** When two elements pass, the filter keeps at least two. */
  lemma {:induction false} FilterTwo<T(!new)>(p: T -> bool, s: seq<T>, i: nat, j: nat)
    requires i < j < |s| && p(s[i]) && p(s[j])
    ensures |Filter(p, s)| >= 2
  {
    if i == 0 {
      assert s[1..][j - 1] in Filter(p, s[1..]);
    } else {
      FilterTwo(p, s[1..], i - 1, j - 1);
    }
  }

  /** Filtering twice by the same predicate is filtering once. */
  lemma FilterIdempotent<T(!new)>(p: T -> bool, s: seq<T>)
    ensures Filter(p, Filter(p, s)) == Filter(p, s)
  {
    var r := Filter(p, s);
    assert forall i :: 0 <= i < |r| ==> r[i] in r;
    FilterKeepsAll(p, r);
  }

  /** `filter` sees each element on its own: its multiset of survivors is that of the input, restricted. */
  lemma {:induction false} FilterMultiset<T(!new)>(p: T -> bool, s: seq<T>, x: T)
    ensures multiset(Filter(p, s))[x] == if p(x) then multiset(s)[x] else 0
  {
    if s != [] {
      FilterMultiset(p, s[1..], x);
      assert s == [s[0]] + s[1..];
      assert multiset(s) == multiset([s[0]]) + multiset(s[1..]);
    }
  }

  /** Filtering two permutations of each other yields two permutations of each other. */
  lemma FilterPermutation<T(!new)>(p: T -> bool, a: seq<T>, b: seq<T>)
    requires multiset(a) == multiset(b)
    ensures multiset(Filter(p, a)) == multiset(Filter(p, b))
  {
    forall x
      ensures multiset(Filter(p, a))[x] == multiset(Filter(p, b))[x]
    {
      FilterMultiset(p, a, x);
      FilterMultiset(p, b, x);
    }
  }

  lemma MapConcat<T, U>(f: T -> U, a: seq<T>, b: seq<T>)
    ensures Map(f, a + b) == Map(f, a) + Map(f, b)
  {
    var l, r := Map(f, a + b), Map(f, a) + Map(f, b);
    assert |l| == |r|;
    forall i | 0 <= i < |l| ensures l[i] == r[i] {
      if i < |a| {
        assert (a + b)[i] == a[i];
      } else {
        assert (a + b)[i] == b[i - |a|];
      }
    }
  }

  /** Taking the first element off one of two permutations of each other, and the same
      value off the other at some position, leaves two permutations of each other. */
  lemma PermutationTail<T>(a: seq<T>, b: seq<T>) returns (i: nat)
    requires multiset(a) == multiset(b) && a != []
    ensures i < |b| && b[i] == a[0]
    ensures multiset(a[1..]) == multiset(b[..i] + b[i + 1..])
  {
    assert a[0] in multiset(b);
    i :| 0 <= i < |b| && b[i] == a[0];
    var rest := b[..i] + b[i + 1..];
    assert b == b[..i] + [b[i]] + b[i + 1..];
    assert a == [a[0]] + a[1..];
    assert multiset(b) == multiset(b[..i]) + multiset([b[i]]) + multiset(b[i + 1..]);
    assert multiset(rest) == multiset(b[..i]) + multiset(b[i + 1..]);
    forall y ensures multiset(a[1..])[y] == multiset(rest)[y] {
      assert multiset(a)[y] == multiset(b)[y];
    }
  }

  /** The images of a sequence are those of the sequence without position i, plus the image of b[i]. */
  lemma MapRemoveAt<T, U>(f: T -> U, b: seq<T>, i: nat)
    requires i < |b|
    ensures multiset(Map(f, b)) == multiset(Map(f, b[..i] + b[i + 1..])) + multiset([f(b[i])])
  {
    var front, back := b[..i], b[i + 1..];
    assert b == front + ([b[i]] + back);
    MapConcat(f, front, [b[i]] + back);
    MapConcat(f, [b[i]], back);
    MapConcat(f, front, back);
  }

  /** Mapping two permutations of each other yields two permutations of each other. */
  lemma {:induction false} MapPermutation<T, U>(f: T -> U, a: seq<T>, b: seq<T>)
    requires multiset(a) == multiset(b)
    ensures multiset(Map(f, a)) == multiset(Map(f, b))
  {
    if a == [] {
      assert |b| == |multiset(b)| == 0;
    } else {
      var i := PermutationTail(a, b);
      MapPermutation(f, a[1..], b[..i] + b[i + 1..]);
      MapRemoveAt(f, b, i);
      MapRemoveAt(f, a, 0);
      assert a[..0] + a[1..] == a[1..];
    }
  }
}
