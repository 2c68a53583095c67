/** The two uses of Array.prototype.filter in the dashboard: dropping every
    element equal to a value, and dropping the element at one index. Each is
    written the way filter computes (one element at a time, front to back)
    and then characterised independently. */
module JsArray {

  /** s.filter(x => x !== v), for element types whose !== is value equality
      (strings, as in the styles list). */
  function Without<T(==)>(s: seq<T>, v: T): (r: seq<T>)
    ensures |r| <= |s|
    ensures v !in r
  {
    if s == [] then []
    else (if s[0] != v then [s[0]] else []) + Without(s[1..], v)
  }

  /** r keeps some of the elements of s, in their original order. */
  ghost predicate IsSubsequence<T>(r: seq<T>, s: seq<T>)
    decreases |s|
  {
    r == [] || (s != [] && ((r[0] == s[0] && IsSubsequence(r[1..], s[1..])) || IsSubsequence(r, s[1..])))
  }

  /** An element survives the filter exactly when it was there and is not v. */
  lemma {:induction false} WithoutMembers<T>(s: seq<T>, v: T, x: T)
    ensures x in Without(s, v) <==> x in s && x != v
  {
    if s != [] {
      WithoutMembers(s[1..], v, x);
      assert s == [s[0]] + s[1..];
    }
  }

  /** Every occurrence of v goes, and every other element keeps its
      number of occurrences. */
  lemma {:induction false} WithoutCounts<T>(s: seq<T>, v: T)
    ensures multiset(Without(s, v)) == multiset(s)[v := 0]
  {
    if s != [] {
      WithoutCounts(s[1..], v);
      assert s == [s[0]] + s[1..];
    }
  }

  /** The survivors keep their original relative order. */
  lemma {:induction false} WithoutKeepsOrder<T>(s: seq<T>, v: T)
    ensures IsSubsequence(Without(s, v), s)
  {
    if s != [] {
      WithoutKeepsOrder(s[1..], v);
      var r := Without(s, v);
      if s[0] != v {
        assert r == [s[0]] + Without(s[1..], v);
        assert r[0] == s[0] && r[1..] == Without(s[1..], v);
      } else {
        assert r == Without(s[1..], v);
      }
    }
  }

  /** Filtering out a value that is absent returns the same sequence. */
  lemma {:induction false} WithoutAbsent<T>(s: seq<T>, v: T)
    requires v !in s
    ensures Without(s, v) == s
  {
    if s != [] {
      WithoutAbsent(s[1..], v);
      assert s == [s[0]] + s[1..];
    }
  }

  /** The filter works element by element, so it splits over concatenation. */
  lemma {:induction false} WithoutAppend<T>(a: seq<T>, b: seq<T>, v: T)
    ensures Without(a + b, v) == Without(a, v) + Without(b, v)
  {
    if a != [] {
      WithoutAppend(a[1..], b, v);
      var head := if a[0] != v then [a[0]] else [];
      assert (a + b)[0] == a[0] && (a + b)[1..] == a[1..] + b;
      assert Without(a + b, v) == head + Without(a[1..] + b, v);
      assert Without(a, v) == head + Without(a[1..], v);
      assert head + (Without(a[1..], v) + Without(b, v)) == (head + Without(a[1..], v)) + Without(b, v);
    } else {
      assert a + b == b;
    }
  }

  /** Uniqueness of elements survives the filter. */
  lemma {:induction false} WithoutNoDuplicates<T>(s: seq<T>, v: T)
    requires forall p, q :: 0 <= p < q < |s| ==> s[p] != s[q]
    ensures var r := Without(s, v); forall p, q :: 0 <= p < q < |r| ==> r[p] != r[q]
  {
    if s != [] {
      WithoutNoDuplicates(s[1..], v);
      if s[0] != v {
        var r := Without(s, v);
        forall q | 0 < q < |r| ensures r[0] != r[q] {
          WithoutMembers(s[1..], v, r[q]);
          assert r[q] == Without(s[1..], v)[q - 1];
          assert s[0] !in s[1..];
        }
      }
    }
  }

  /** The elements at positions k, k+1, ... of s, except the one at position
      i: the step-by-step form of s.filter((_, index) => index !== i), which
      visits the positions in order. */
  function DropIndexFrom<T>(s: seq<T>, i: int, k: nat): (r: seq<T>)
    requires k <= |s|
    ensures |r| == if k <= i < |s| then |s| - k - 1 else |s| - k
    decreases |s| - k
  {
    if k == |s| then []
    else (if k != i then [s[k]] else []) + DropIndexFrom(s, i, k + 1)
  }

  /** s.filter((_, index) => index !== i). */
  function DropIndex<T>(s: seq<T>, i: int): (r: seq<T>)
    ensures |r| == if 0 <= i < |s| then |s| - 1 else |s|
  {
    DropIndexFrom(s, i, 0)
  }

  lemma {:induction false} DropIndexFromSlices<T>(s: seq<T>, i: int, k: nat)
    requires k <= |s|
    ensures DropIndexFrom(s, i, k) == if k <= i < |s| then s[k..i] + s[i + 1..] else s[k..]
    decreases |s| - k
  {
    if k < |s| {
      var rest := DropIndexFrom(s, i, k + 1);
      DropIndexFromSlices(s, i, k + 1);
      if k == i {
        assert DropIndexFrom(s, i, k) == rest == s[i + 1..];
        assert s[k..i] == [];
      } else if k < i < |s| {
        assert DropIndexFrom(s, i, k) == [s[k]] + rest;
        assert rest == s[k + 1..i] + s[i + 1..];
        assert s[k..i] == [s[k]] + s[k + 1..i];
      } else {
        assert DropIndexFrom(s, i, k) == [s[k]] + rest;
        assert rest == s[k + 1..];
        assert s[k..] == [s[k]] + s[k + 1..];
      }
    }
  }

  /** Reference definition: an index in range removes exactly that element,
      keeping the others in order; any other index (negative, or past the
      end) removes nothing. */
  lemma DropIndexSlices<T>(s: seq<T>, i: int)
    ensures DropIndex(s, i) == if 0 <= i < |s| then s[..i] + s[i + 1..] else s
  {
    DropIndexFromSlices(s, i, 0);
  }
}
