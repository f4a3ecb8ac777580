/** Array.prototype.filter: the order-preserving selection every page's
    search and delete code is built from. */
module Seqs {
  import opened Wrappers

  function Filter<T>(s: seq<T>, keep: T -> bool): (r: seq<T>)
    ensures |r| <= |s|
    ensures forall i :: 0 <= i < |r| ==> keep(r[i]) && r[i] in s
    decreases |s|
  {
    if s == [] then []
    else if keep(s[0]) then [s[0]] + Filter(s[1..], keep)
    else Filter(s[1..], keep)
  }

  /** An element is kept exactly when it occurs in the input and passes the test. */
  lemma {:induction false} FilterMembership<T>(s: seq<T>, keep: T -> bool, x: T)
    ensures x in Filter(s, keep) <==> x in s && keep(x)
    decreases |s|
  {
    if s != [] {
      FilterMembership(s[1..], keep, x);
      assert s == [s[0]] + s[1..];
    }
  }

  /** Filtering distributes over concatenation, so the kept elements stay in
      their original relative order. */
  lemma {:induction false} FilterConcat<T>(a: seq<T>, b: seq<T>, keep: T -> bool)
    ensures Filter(a + b, keep) == Filter(a, keep) + Filter(b, keep)
    decreases |a|
  {
    if a == [] {
      assert a + b == b;
    } else {
      var ab := a + b;
      assert ab[0] == a[0] && ab[1..] == a[1..] + b;
      FilterConcat(a[1..], b, keep);
      var y, z := Filter(a[1..], keep), Filter(b, keep);
      if keep(a[0]) {
        assert Filter(ab, keep) == [a[0]] + (y + z);
        assert [a[0]] + (y + z) == ([a[0]] + y) + z;
      } else {
        assert Filter(ab, keep) == y + z;
      }
    }
  }

  /** A test every element passes keeps the whole sequence. */
  lemma {:induction false} FilterAll<T>(s: seq<T>, keep: T -> bool)
    requires forall i :: 0 <= i < |s| ==> keep(s[i])
    ensures Filter(s, keep) == s
    decreases |s|
  {
    if s != [] {
      FilterAll(s[1..], keep);
    }
  }

  /** Filtering twice by the same test is filtering once. */
  lemma FilterIdempotent<T>(s: seq<T>, keep: T -> bool)
    ensures Filter(Filter(s, keep), keep) == Filter(s, keep)
  {
    FilterAll(Filter(s, keep), keep);
  }

  /** Every element mapped to a sequence, the results one after the other
      (Array.prototype.flatMap). */
  function FlatMap<T, U>(f: T -> seq<U>, s: seq<T>): seq<U>
    decreases |s|
  {
    if s == [] then [] else f(s[0]) + FlatMap(f, s[1..])
  }

  /** Mapping a concatenation maps each part, so results keep the order of
      the elements they come from. */
  lemma {:induction false} FlatMapConcat<T, U>(f: T -> seq<U>, a: seq<T>, b: seq<T>)
    ensures FlatMap(f, a + b) == FlatMap(f, a) + FlatMap(f, b)
    decreases |a|
  {
    if a == [] {
      assert a + b == b;
    } else {
      var ab := a + b;
      assert ab[0] == a[0] && ab[1..] == a[1..] + b;
      FlatMapConcat(f, a[1..], b);
      var x, y, z := f(a[0]), FlatMap(f, a[1..]), FlatMap(f, b);
      assert FlatMap(f, ab) == x + (y + z);
      assert x + (y + z) == (x + y) + z;
    }
  }

  /** A value comes out exactly when some element maps to a sequence that
      holds it. */
  lemma {:induction false} FlatMapMembership<T, U>(f: T -> seq<U>, s: seq<T>, u: U)
    ensures u in FlatMap(f, s) <==> exists i :: 0 <= i < |s| && u in f(s[i])
    decreases |s|
  {
    if s != [] {
      FlatMapMembership(f, s[1..], u);
      if exists i :: 0 <= i < |s| - 1 && u in f(s[1..][i]) {
        var i :| 0 <= i < |s| - 1 && u in f(s[1..][i]);
        assert s[i + 1] == s[1..][i];
      }
      if exists i :: 0 <= i < |s| && u in f(s[i]) {
        var i :| 0 <= i < |s| && u in f(s[i]);
        if i > 0 {
          assert s[1..][i - 1] == s[i];
        }
      }
    }
  }

  /** Array.prototype.findIndex: the position of the first element that
      passes the test, if any. */
  function FindFirst<T>(s: seq<T>, keep: T -> bool): (r: Option<nat>)
    ensures r.Some? ==> r.value < |s| && keep(s[r.value])
    ensures r.Some? ==> forall j :: 0 <= j < r.value ==> !keep(s[j])
    ensures r.None? ==> forall j :: 0 <= j < |s| ==> !keep(s[j])
    decreases |s|
  {
    if s == [] then None
    else if keep(s[0]) then Some(0)
    else match FindFirst(s[1..], keep)
      case None => None
      case Some(k) => Some(k + 1)
  }

  /** The position of the last element that passes the test, if any: the
      entry a `Map` built from the sequence keeps when keys repeat. */
  function FindLast<T>(s: seq<T>, keep: T -> bool): (r: Option<nat>)
    ensures r.Some? ==> r.value < |s| && keep(s[r.value])
    ensures r.Some? ==> forall j :: r.value < j < |s| ==> !keep(s[j])
    ensures r.None? ==> forall j :: 0 <= j < |s| ==> !keep(s[j])
    decreases |s|
  {
    if s == [] then None
    else if keep(s[|s| - 1]) then Some(|s| - 1)
    else FindLast(s[..|s| - 1], keep)
  }
}
