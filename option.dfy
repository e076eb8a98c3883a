/** An optional value: `None` stands for a key that is absent from a JSON object
    or a cell that pandas reads as missing (NaN). */
module Opt {

  datatype Option<T> = None | Some(value: T) {

    /** Python's `d.get(key, default)`. */
    function GetOr(default: T): T
    {
      match this
      case Some(v) => v
      case None => default
    }
  }

  /** The values `f` keeps, in input order. */
  function FilterMap<T, U>(f: T -> Option<U>, xs: seq<T>): seq<U>
    decreases |xs|
  {
    if xs == [] then []
    else
      var r := f(xs[|xs| - 1]);
      FilterMap(f, xs[..|xs| - 1]) + (if r.Some? then [r.value] else [])
  }

  lemma {:induction false} FilterMapAppend<T, U>(f: T -> Option<U>, a: seq<T>, b: seq<T>)
    ensures FilterMap(f, a + b) == FilterMap(f, a) + FilterMap(f, b)
    decreases |b|
  {
    if b == [] {
      assert a + b == a;
    } else {
      var pre := b[..|b| - 1];
      assert (a + b)[..|a + b| - 1] == a + pre;
      assert (a + b)[|a + b| - 1] == b[|b| - 1];
      FilterMapAppend(f, a, pre);
    }
  }

  /** Filtering a non-empty list: what `f` keeps of its first element, then
      the filtered rest. */
  lemma FilterMapStep<T, U>(f: T -> Option<U>, xs: seq<T>, h: seq<U>, tail: seq<U>)
    requires xs != []
    requires h == (if f(xs[0]).Some? then [f(xs[0]).value] else [])
    requires tail == FilterMap(f, xs[1..])
    ensures FilterMap(f, xs) == h + tail
  {
    assert [xs[0]][..0] == [];
    FilterMapAppend(f, [xs[0]], xs[1..]);
    assert [xs[0]] + xs[1..] == xs;
  }

  /** At most one output per input; with nothing dropped, output `i` is the
      value for input `i`. */
  lemma {:induction false} FilterMapCount<T, U>(f: T -> Option<U>, xs: seq<T>)
    ensures |FilterMap(f, xs)| <= |xs|
    ensures (forall i :: 0 <= i < |xs| ==> f(xs[i]).Some?) ==>
              |FilterMap(f, xs)| == |xs|
              && forall i :: 0 <= i < |xs| ==> FilterMap(f, xs)[i] == f(xs[i]).value
    decreases |xs|
  {
    if xs != [] {
      var pre := xs[..|xs| - 1];
      FilterMapCount(f, pre);
      assert forall i :: 0 <= i < |pre| ==> pre[i] == xs[i];
      if forall i :: 0 <= i < |xs| ==> f(xs[i]).Some? {
        assert forall i :: 0 <= i < |pre| ==> f(pre[i]).Some?;
        assert f(xs[|xs| - 1]).Some?;
      }
    }
  }

  /** Each output is the value for some input. */
  lemma FilterMapFrom<T, U>(f: T -> Option<U>, xs: seq<T>)
    ensures forall k :: 0 <= k < |FilterMap(f, xs)| ==>
              exists i :: 0 <= i < |xs| && f(xs[i]) == Some(FilterMap(f, xs)[k])
  {
    var out := FilterMap(f, xs);
    forall k | 0 <= k < |out|
      ensures exists i :: 0 <= i < |xs| && f(xs[i]) == Some(out[k])
    {
      var i := FilterMapSource(f, xs, k);
    }
  }

  /** The input that output `k` comes from. */
  lemma {:induction false} FilterMapSource<T, U>(f: T -> Option<U>, xs: seq<T>, k: int) returns (i: int)
    requires 0 <= k < |FilterMap(f, xs)|
    ensures 0 <= i < |xs| && f(xs[i]) == Some(FilterMap(f, xs)[k])
    decreases |xs|
  {
    var pre := xs[..|xs| - 1];
    var r := f(xs[|xs| - 1]);
    assert FilterMap(f, xs) == FilterMap(f, pre) + (if r.Some? then [r.value] else []);
    if k < |FilterMap(f, pre)| {
      i := FilterMapSource(f, pre, k);
      assert xs[i] == pre[i];
    } else {
      i := |xs| - 1;
    }
  }
}
