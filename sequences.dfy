/** Order-preserving selection over sequences.  Both container exercises
    that erase matching pointers from a vector, and the timeline query that
    copies the events at a given time, are instances of Filter. */
module Sequences {

  /** r can be obtained from s by deleting elements, without reordering. */
  predicate IsSubsequence<T(==)>(r: seq<T>, s: seq<T>)
    decreases |s|
  {
    if r == [] then true
    else if s == [] then false
    else (r[0] == s[0] && IsSubsequence(r[1..], s[1..])) || IsSubsequence(r, s[1..])
  }

  /** The elements of s that satisfy keep, in their original order. */
  function Filter<T>(s: seq<T>, keep: T -> bool): (r: seq<T>)
    ensures |r| <= |s|
    ensures forall i :: 0 <= i < |r| ==> keep(r[i])
    ensures forall i :: 0 <= i < |s| && keep(s[i]) ==> s[i] in r
    ensures (forall i :: 0 <= i < |s| ==> keep(s[i])) ==> r == s
  {
    if s == [] then []
    else if keep(s[0]) then [s[0]] + Filter(s[1..], keep)
    else Filter(s[1..], keep)
  }

  /** Filtering a concatenation filters each part. */
  lemma {:induction false} FilterAppend<T>(a: seq<T>, b: seq<T>, keep: T -> bool)
    ensures Filter(a + b, keep) == Filter(a, keep) + Filter(b, keep)
  {
    if a == [] {
      assert a + b == b;
    } else {
      assert (a + b)[1..] == a[1..] + b;
      FilterAppend(a[1..], b, keep);
    }
  }

  /** Filter keeps every selected element as often as it occurs, and no other. */
  lemma {:induction false} FilterCount<T>(s: seq<T>, keep: T -> bool, x: T)
    ensures multiset(Filter(s, keep))[x] == if keep(x) then multiset(s)[x] else 0
  {
    if s != [] {
      FilterCount(s[1..], keep, x);
      assert s == [s[0]] + s[1..];
    }
  }

  /** Filter never reorders. */
  lemma {:induction false} FilterIsSubsequence<T>(s: seq<T>, keep: T -> bool)
    ensures IsSubsequence(Filter(s, keep), s)
  {
    if s != [] {
      FilterIsSubsequence(s[1..], keep);
      var r := Filter(s, keep);
      if keep(s[0]) {
        assert r[0] == s[0] && r[1..] == Filter(s[1..], keep);
      } else {
        SkipFirst(r, s);
      }
    }
  }

  /** Dropping the first element of s keeps every subsequence of s[1..]. */
  lemma SkipFirst<T>(r: seq<T>, s: seq<T>)
    requires s != [] && IsSubsequence(r, s[1..])
    ensures IsSubsequence(r, s)
  {
  }

  /** Every entry of s except those equal to x, in order. */
  function RemoveAll<T(==)>(s: seq<T>, x: T): (r: seq<T>)
    ensures x !in r
    ensures x !in s ==> r == s
  {
    Filter(s, y => y != x)
  }

  /** RemoveAll drops exactly the occurrences of x and keeps the others in order. */
  lemma RemoveAllSpec<T>(s: seq<T>, x: T)
    ensures multiset(RemoveAll(s, x))[x] == 0
    ensures forall y :: y != x ==> multiset(RemoveAll(s, x))[y] == multiset(s)[y]
    ensures IsSubsequence(RemoveAll(s, x), s)
    ensures |RemoveAll(s, x)| == |s| - multiset(s)[x]
  {
    forall y ensures multiset(RemoveAll(s, x))[y] == if y != x then multiset(s)[y] else 0 {
      FilterCount(s, y => y != x, y);
    }
    FilterIsSubsequence(s, y => y != x);
    RemoveAllSize(s, x);
  }

  lemma {:induction false} RemoveAllSize<T>(s: seq<T>, x: T)
    ensures |RemoveAll(s, x)| == |s| - multiset(s)[x]
  {
    if s != [] {
      RemoveAllSize(s[1..], x);
      assert s == [s[0]] + s[1..];
    }
  }

  /** One iteration of an erase loop at index i keeps the loop's invariant
      "done part + RemoveAll(rest) == RemoveAll(original)": erasing s[i]
      when it is x, stepping past it otherwise. */
  lemma EraseStep<T>(s: seq<T>, i: nat, x: T)
    requires i < |s|
    ensures s[i] == x ==>
      (s[..i] + s[i + 1..])[..i] + RemoveAll((s[..i] + s[i + 1..])[i..], x) == s[..i] + RemoveAll(s[i..], x)
    ensures s[i] != x ==> s[..i + 1] + RemoveAll(s[i + 1..], x) == s[..i] + RemoveAll(s[i..], x)
  {
    var rest := s[i..];
    RemoveAllCons(rest, x);
    assert rest[1..] == s[i + 1..];
    if s[i] == x {
      var t := s[..i] + s[i + 1..];
      assert t[..i] == s[..i] && t[i..] == s[i + 1..];
    } else {
      calc {
        s[..i + 1] + RemoveAll(s[i + 1..], x);
        { assert s[..i + 1] == s[..i] + [s[i]]; }
        s[..i] + ([s[i]] + RemoveAll(s[i + 1..], x));
      }
    }
  }

  /** One step of RemoveAll, as the erase loops take it. */
  lemma RemoveAllCons<T>(s: seq<T>, x: T)
    requires s != []
    ensures RemoveAll(s, x) == (if s[0] == x then [] else [s[0]]) + RemoveAll(s[1..], x)
  {
  }
}
