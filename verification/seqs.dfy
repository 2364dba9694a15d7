/** Order-preserving selection over sequences: the shape shared by every
    helper that walks a list with `forEach` and pushes some of its elements,
    transformed, onto a result array. */
module Seqs {

  datatype Option<T> = None | Some(value: T)

  /** Keeps the images of the elements `f` maps to `Some`, in input order.
      Defined from the last element so that a left-to-right loop extends it. */
  function FilterMap<T, U>(s: seq<T>, f: T -> Option<U>): (r: seq<U>)
    ensures |r| <= |s|
  {
    if s == [] then []
    else
      FilterMap(s[..|s| - 1], f) + match f(s[|s| - 1]) case Some(u) => [u] case None => []
  }

  predicate Increasing(idx: seq<nat>) {
    forall a, b :: 0 <= a < b < |idx| ==> idx[a] < idx[b]
  }

  /** `r` lists, in the order of `s`, the images of exactly those elements of
      `s` that `f` keeps; `idx` says where each of them came from. */
  ghost predicate SelectsInOrder<T, U>(s: seq<T>, f: T -> Option<U>, r: seq<U>, idx: seq<nat>) {
    && |idx| == |r|
    && Increasing(idx)
    && (forall k :: 0 <= k < |idx| ==> idx[k] < |s| && f(s[idx[k]]) == Some(r[k]))
    && (forall i :: 0 <= i < |s| && f(s[i]).Some? ==> i in idx)
  }

  lemma FilterMapSelectsInOrder<T, U>(s: seq<T>, f: T -> Option<U>) returns (idx: seq<nat>)
    ensures SelectsInOrder(s, f, FilterMap(s, f), idx)
    ensures forall k :: 0 <= k < |idx| ==> idx[k] < |s|
  {
    idx := Selected(s, f);
    SelectedMaps(s, f);
    SelectedIncreasing(s, f);
    SelectedComplete(s, f);
  }

  /** The positions of the elements `f` keeps, in increasing order. */
  function Selected<T, U>(s: seq<T>, f: T -> Option<U>): (idx: seq<nat>)
    ensures |idx| == |FilterMap(s, f)|
    ensures forall k :: 0 <= k < |idx| ==> idx[k] < |s|
  {
    if s == [] then []
    else Selected(s[..|s| - 1], f) + if f(s[|s| - 1]).Some? then [|s| - 1] else []
  }

  lemma {:induction false} SelectedMaps<T, U>(s: seq<T>, f: T -> Option<U>)
    ensures forall k :: 0 <= k < |Selected(s, f)| ==> f(s[Selected(s, f)[k]]) == Some(FilterMap(s, f)[k])
  {
    if s != [] {
      var n := |s| - 1;
      var init := s[..n];
      SelectedMaps(init, f);
      var idx0, r0 := Selected(init, f), FilterMap(init, f);
      forall k | 0 <= k < |idx0| ensures f(s[idx0[k]]) == Some(r0[k]) {
        assert s[idx0[k]] == init[idx0[k]];
      }
      match f(s[n])
      case None =>
        assert Selected(s, f) == idx0 && FilterMap(s, f) == r0;
      case Some(u) =>
        assert Selected(s, f) == idx0 + [n] && FilterMap(s, f) == r0 + [u];
    }
  }

  lemma {:induction false} SelectedIncreasing<T, U>(s: seq<T>, f: T -> Option<U>)
    ensures Increasing(Selected(s, f))
  {
    if s != [] {
      var n := |s| - 1;
      SelectedIncreasing(s[..n], f);
      var idx0 := Selected(s[..n], f);
      if f(s[n]).Some? {
        var idx := idx0 + [n];
        assert Selected(s, f) == idx;
        forall a, b | 0 <= a < b < |idx| ensures idx[a] < idx[b] {
          assert idx[a] == idx0[a];
          if b < |idx0| {
            assert idx[b] == idx0[b];
          }
        }
      }
    }
  }

  lemma {:induction false} SelectedComplete<T, U>(s: seq<T>, f: T -> Option<U>)
    ensures forall i :: 0 <= i < |s| && f(s[i]).Some? ==> i in Selected(s, f)
  {
    if s != [] {
      var n := |s| - 1;
      var init := s[..n];
      SelectedComplete(init, f);
      var idx0 := Selected(init, f);
      var last := if f(s[n]).Some? then [n] else [];
      assert Selected(s, f) == idx0 + last;
      forall i | 0 <= i < |s| && f(s[i]).Some? ensures i in idx0 + last {
        if i < n {
          assert init[i] == s[i];
          assert i in idx0;
        } else {
          assert last == [n];
        }
      }
    }
  }

  /** Membership: an element is in the result exactly when some input
      element maps to it. */
  lemma FilterMapMember<T, U>(s: seq<T>, f: T -> Option<U>, u: U)
    ensures u in FilterMap(s, f) <==> exists i :: 0 <= i < |s| && f(s[i]) == Some(u)
  {
    var idx := FilterMapSelectsInOrder(s, f);
    var r := FilterMap(s, f);
    if u in r {
      var k :| 0 <= k < |r| && r[k] == u;
      assert f(s[idx[k]]) == Some(u);
    }
    if exists i :: 0 <= i < |s| && f(s[i]) == Some(u) {
      var i :| 0 <= i < |s| && f(s[i]) == Some(u);
      assert i in idx;
      var k :| 0 <= k < |idx| && idx[k] == i;
      assert r[k] == u;
    }
  }
}
