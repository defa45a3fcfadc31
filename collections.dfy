/**
 * Keeping, in order, the successful results of a partial step over a list:
 * what a `forEach` that appends only the cards it could build leaves behind.
 */
module Collections {
  import opened Wrappers

  /** The `Some` results of `f` over `xs`, in the order of `xs`. */
  function FilterMap<T, U>(xs: seq<T>, f: T -> Option<U>): (r: seq<U>)
    ensures |r| <= |xs|
  {
    if xs == [] then []
    else
      var last := f(xs[|xs| - 1]);
      FilterMap(xs[..|xs| - 1], f) + (if last.Some? then [last.value] else [])
  }

  /** One more element adds its result, if any, at the end. */
  lemma FilterMapSnoc<T, U>(xs: seq<T>, x: T, f: T -> Option<U>)
    ensures FilterMap(xs + [x], f) == FilterMap(xs, f) + (if f(x).Some? then [f(x).value] else [])
  {
    assert (xs + [x])[..|xs|] == xs;
  }

  /** `FilterMapSnoc` for a loop over `xs`: the result for the first `i + 1` elements. */
  lemma FilterMapPrefix<T, U>(xs: seq<T>, i: nat, f: T -> Option<U>)
    requires i < |xs|
    ensures FilterMap(xs[..i + 1], f) == FilterMap(xs[..i], f) + (if f(xs[i]).Some? then [f(xs[i]).value] else [])
  {
    assert xs[..i + 1][..i] == xs[..i];
  }

  /** Processing two lists one after the other: order is kept and failures leave no gap. */
  lemma {:induction false} FilterMapAppend<T, U>(a: seq<T>, b: seq<T>, f: T -> Option<U>)
    ensures FilterMap(a + b, f) == FilterMap(a, f) + FilterMap(b, f)
    decreases |b|
  {
    if b == [] {
      assert a + b == a;
    } else {
      var b' := b[..|b| - 1];
      assert (a + b)[..|a + b| - 1] == a + b';
      assert (a + b)[|a + b| - 1] == b[|b| - 1];
      FilterMapAppend(a, b', f);
    }
  }

  /** A value is kept exactly when some element of the list yields it. */
  lemma {:induction false} FilterMapMembers<T, U>(xs: seq<T>, f: T -> Option<U>, y: U)
    ensures y in FilterMap(xs, f) <==> exists i :: 0 <= i < |xs| && f(xs[i]) == Some(y)
  {
    if xs != [] {
      var n := |xs| - 1;
      var init := xs[..n];
      FilterMapMembers(init, f, y);
      if exists i :: 0 <= i < |xs| && f(xs[i]) == Some(y) {
        var i :| 0 <= i < |xs| && f(xs[i]) == Some(y);
        assert i < n ==> init[i] == xs[i];
      }
      if exists i :: 0 <= i < |init| && f(init[i]) == Some(y) {
        var i :| 0 <= i < |init| && f(init[i]) == Some(y);
        assert xs[i] == init[i];
      }
    }
  }

  /** The positions at which `f` fails. */
  function Failures<T, U>(xs: seq<T>, f: T -> Option<U>): set<nat> {
    set i: nat | i < |xs| && f(xs[i]).None?
  }

  /** With N elements of which K fail, exactly N - K results are kept. */
  lemma {:induction false} FilterMapCount<T, U>(xs: seq<T>, f: T -> Option<U>)
    ensures |FilterMap(xs, f)| == |xs| - |Failures(xs, f)|
  {
    if xs == [] {
      assert Failures(xs, f) == {};
    } else {
      var n := |xs| - 1;
      var init := xs[..n];
      FilterMapCount(init, f);
      if f(xs[n]).None? {
        assert Failures(xs, f) == Failures(init, f) + {n};
      } else {
        assert Failures(xs, f) == Failures(init, f);
      }
    }
  }

  /** When nothing fails, every element yields exactly one result, at its own position. */
  lemma {:induction false} FilterMapTotal<T, U>(xs: seq<T>, f: T -> Option<U>)
    requires forall i :: 0 <= i < |xs| ==> f(xs[i]).Some?
    ensures |FilterMap(xs, f)| == |xs|
    ensures forall i :: 0 <= i < |xs| ==> Some(FilterMap(xs, f)[i]) == f(xs[i])
  {
    if xs != [] {
      var n := |xs| - 1;
      FilterMapTotal(xs[..n], f);
    }
  }
}
