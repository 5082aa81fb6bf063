/** Generic helpers shared by the model: an optional value (Swift's `T?`) and
    the sequence operations Swift's collections provide (`filter`, `map`,
    substring search). */
module Common {

  datatype Option<T> = None | Some(value: T)

  /** The elements of `s` that satisfy `keep`, in their original order
      (Swift's `filter`; `removeAll(where:)` is the filter by the negated test). */
  function Filter<T(!new)>(s: seq<T>, keep: T -> bool): (r: seq<T>)
    ensures |r| <= |s|
    ensures forall x :: x in r <==> x in s && keep(x)
  {
    if s == [] then []
    else (if keep(s[0]) then [s[0]] else []) + Filter(s[1..], keep)
  }

  /** `a` is obtained from `b` by deleting some elements, without reordering. */
  predicate IsSubsequence<T(==)>(a: seq<T>, b: seq<T>)
  {
    if a == [] then true
    else if b == [] then false
    else if a[0] == b[0] then IsSubsequence(a[1..], b[1..])
    else IsSubsequence(a, b[1..])
  }

  /** Filtering never reorders: what survives is a subsequence of the input. */
  lemma {:induction false} FilterIsSubsequence<T(!new)>(s: seq<T>, keep: T -> bool)
    ensures IsSubsequence(Filter(s, keep), s)
  {
    if s != [] {
      var rest := Filter(s[1..], keep);
      FilterIsSubsequence(s[1..], keep);
      if keep(s[0]) {
        assert Filter(s, keep) == [s[0]] + rest;
        assert ([s[0]] + rest)[1..] == rest;
      } else {
        assert Filter(s, keep) == rest;
        if rest != [] {
          assert rest[0] in rest;
          assert rest[0] != s[0];
        }
      }
    }
  }

  /** Filtering distributes over concatenation, so the survivors of an earlier
      segment always stay ahead of the survivors of a later one. */
  lemma {:induction false} FilterAppend<T(!new)>(a: seq<T>, b: seq<T>, keep: T -> bool)
    ensures Filter(a + b, keep) == Filter(a, keep) + Filter(b, keep)
  {
    if a == [] {
      assert a + b == b;
    } else {
      assert (a + b)[0] == a[0];
      assert (a + b)[1..] == a[1..] + b;
      FilterAppend(a[1..], b, keep);
    }
  }

  /** Filtering twice by the same test changes nothing the second time. */
  lemma {:induction false} FilterIdempotent<T(!new)>(s: seq<T>, keep: T -> bool)
    ensures Filter(Filter(s, keep), keep) == Filter(s, keep)
  {
    if s != [] {
      FilterIdempotent(s[1..], keep);
      var rest := Filter(s[1..], keep);
      if keep(s[0]) {
        assert Filter(s, keep) == [s[0]] + rest;
        assert ([s[0]] + rest)[1..] == rest;
        assert ([s[0]] + rest)[0] == s[0];
        assert Filter([s[0]] + rest, keep) == [s[0]] + Filter(rest, keep);
      } else {
        assert Filter(s, keep) == [] + rest == rest;
      }
    }
  }

  /** When every element passes, the filter is the identity. */
  lemma {:induction false} FilterKeepsAll<T(!new)>(s: seq<T>, keep: T -> bool)
    requires forall i :: 0 <= i < |s| ==> keep(s[i])
    ensures Filter(s, keep) == s
  {
    if s != [] {
      FilterKeepsAll(s[1..], keep);
      assert [s[0]] + s[1..] == s;
    }
  }

  /** Swift's `map`. */
  function MapSeq<T, U>(s: seq<T>, f: T -> U): (r: seq<U>)
    ensures |r| == |s|
    ensures forall i :: 0 <= i < |s| ==> r[i] == f(s[i])
  {
    if s == [] then [] else [f(s[0])] + MapSeq(s[1..], f)
  }

  lemma MapSeqAppend<T, U>(a: seq<T>, b: seq<T>, f: T -> U)
    ensures MapSeq(a + b, f) == MapSeq(a, f) + MapSeq(b, f)
  {
    var l, r := MapSeq(a + b, f), MapSeq(a, f) + MapSeq(b, f);
    assert |l| == |r|;
    forall i | 0 <= i < |l| ensures l[i] == r[i] {
      if i < |a| {
        assert (a + b)[i] == a[i];
      } else {
        assert (a + b)[i] == b[i - |a|];
      }
    }
  }

  predicate IsPrefix<T(==)>(p: seq<T>, s: seq<T>)
  {
    |p| <= |s| && s[..|p|] == p
  }

  /** `needle` occurs in `hay` starting at position `i`. */
  predicate OccursAt<T(==)>(needle: seq<T>, hay: seq<T>, i: int)
  {
    0 <= i <= |hay| - |needle| && hay[i..i + |needle|] == needle
  }

  /** Substring test: `needle` occurs somewhere in `hay`, tried position by position. */
  predicate IsInfix<T(==)>(needle: seq<T>, hay: seq<T>)
  {
    IsPrefix(needle, hay) || (hay != [] && IsInfix(needle, hay[1..]))
  }

  /** The position-by-position test agrees with the direct definition of an occurrence. */
  lemma {:induction false} IsInfixIff<T>(needle: seq<T>, hay: seq<T>)
    ensures IsInfix(needle, hay) <==> exists i :: OccursAt(needle, hay, i)
  {
    if |needle| <= |hay| {
      assert hay[0..0 + |needle|] == hay[..|needle|];
    }
    assert OccursAt(needle, hay, 0) <==> IsPrefix(needle, hay);
    if hay == [] {
      forall i | OccursAt(needle, hay, i) ensures i == 0 { }
    } else {
      IsInfixIff(needle, hay[1..]);
      forall i | 1 <= i
        ensures OccursAt(needle, hay, i) <==> OccursAt(needle, hay[1..], i - 1)
      {
        if i <= |hay| - |needle| {
          assert hay[1..][i - 1..i - 1 + |needle|] == hay[i..i + |needle|];
        }
      }
      if IsInfix(needle, hay[1..]) {
        var j :| OccursAt(needle, hay[1..], j);
        assert OccursAt(needle, hay, j + 1);
      }
      if exists i :: OccursAt(needle, hay, i) {
        var i :| OccursAt(needle, hay, i);
        if i >= 1 {
          assert OccursAt(needle, hay[1..], i - 1);
        }
      }
    }
  }
}
