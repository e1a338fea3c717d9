/** The Kotlin collection operations the wizard relies on (`filter`, `map`,
    `mapNotNull`), as recursive functions over sequences, with the facts about
    them that the wizard's own properties are built from. */
module Seqs {
  import opened Wrappers

  /** Kotlin `filter`: the elements satisfying `p`, in their original order. */
  function Filter<T>(p: T -> bool, s: seq<T>): (r: seq<T>)
    ensures |r| <= |s|
    ensures forall k :: 0 <= k < |r| ==> p(r[k])
    decreases |s|
  {
    if s == [] then []
    else (if p(s[0]) then [s[0]] else []) + Filter(p, s[1..])
  }

  /** Kotlin `map`: apply `f` to every element. */
  function Map<T, U>(f: T -> U, s: seq<T>): (r: seq<U>)
    ensures |r| == |s|
    ensures forall k :: 0 <= k < |s| ==> r[k] == f(s[k])
    decreases |s|
  {
    if s == [] then [] else [f(s[0])] + Map(f, s[1..])
  }

  /** Kotlin `mapNotNull`: apply `f` and keep the non-null (`Some`) results, in order. */
  function MapNotNull<T, U>(f: T -> Option<U>, s: seq<T>): (r: seq<U>)
    ensures |r| <= |s|
    decreases |s|
  {
    if s == [] then []
    else
      var rest := MapNotNull(f, s[1..]);
      match f(s[0])
      case Some(y) => [y] + rest
      case None => rest
  }

  /** Filtering a concatenation filters each part: the kept elements stay in order. */
  lemma {:induction false} FilterConcat<T>(p: T -> bool, a: seq<T>, b: seq<T>)
    ensures Filter(p, a + b) == Filter(p, a) + Filter(p, b)
    decreases |a|
  {
    if a == [] {
      assert a + b == b;
    } else {
      assert (a + b)[1..] == a[1..] + b;
      FilterConcat(p, a[1..], b);
    }
  }

  /** An element survives the filter exactly when it occurs in the input and satisfies `p`. */
  lemma {:induction false} FilterMembers<T>(p: T -> bool, s: seq<T>, x: T)
    ensures x in Filter(p, s) <==> x in s && p(x)
    decreases |s|
  {
    if s != [] {
      FilterMembers(p, s[1..], x);
      assert s == [s[0]] + s[1..];
    }
  }

  /** A filter that keeps every element is the identity. */
  lemma {:induction false} FilterKeepsAll<T>(p: T -> bool, s: seq<T>)
    requires forall k :: 0 <= k < |s| ==> p(s[k])
    ensures Filter(p, s) == s
    decreases |s|
  {
    if s != [] {
      FilterKeepsAll(p, s[1..]);
    }
  }

  /** Mapping a concatenation maps each part: the surviving results stay in order. */
  lemma {:induction false} MapNotNullConcat<T, U>(f: T -> Option<U>, a: seq<T>, b: seq<T>)
    ensures MapNotNull(f, a + b) == MapNotNull(f, a) + MapNotNull(f, b)
    decreases |a|
  {
    if a == [] {
      assert a + b == b;
    } else {
      assert (a + b)[1..] == a[1..] + b;
      MapNotNullConcat(f, a[1..], b);
    }
  }

  /** `mapNotNull` yields nothing exactly when `f` yields `None` on every element. */
  lemma {:induction false} MapNotNullEmpty<T, U>(f: T -> Option<U>, s: seq<T>)
    ensures MapNotNull(f, s) == [] <==> forall k :: 0 <= k < |s| ==> f(s[k]).None?
    decreases |s|
  {
    if s != [] {
      MapNotNullEmpty(f, s[1..]);
      assert forall k :: 1 <= k < |s| ==> s[k] == s[1..][k - 1];
    }
  }

  /** A value is produced exactly when some element is mapped to it. */
  lemma {:induction false} MapNotNullMembers<T, U>(f: T -> Option<U>, s: seq<T>, y: U)
    ensures y in MapNotNull(f, s) <==> exists k :: 0 <= k < |s| && f(s[k]) == Some(y)
    decreases |s|
  {
    if s != [] {
      MapNotNullMembers(f, s[1..], y);
      if exists k :: 0 <= k < |s| && f(s[k]) == Some(y) {
        var k :| 0 <= k < |s| && f(s[k]) == Some(y);
        if k > 0 {
          assert f(s[1..][k - 1]) == Some(y);
        }
      }
      if exists k :: 0 <= k < |s[1..]| && f(s[1..][k]) == Some(y) {
        var k :| 0 <= k < |s[1..]| && f(s[1..][k]) == Some(y);
        assert f(s[k + 1]) == Some(y);
      }
    }
  }
}
