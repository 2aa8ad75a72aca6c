/** Sequences produced by several producers at once. */
module Interleavings {
  import opened Basics

  /** The elements of `t` that producer `p` contributed. */
  function Pick<T>(t: seq<T>, tags: seq<nat>, p: nat): (own: seq<T>)
    requires |tags| == |t|
  {
    if t == [] then []
    else
      var rest := Pick(t[..|t| - 1], tags[..|t| - 1], p);
      if tags[|t| - 1] == p then rest + [t[|t| - 1]] else rest
  }

  /** `tags` splits `t` into exactly the given parts, each in its own order. */
  ghost predicate Merges<T>(t: seq<T>, tags: seq<nat>, parts: seq<seq<T>>) {
    && |tags| == |t|
    && (forall i :: 0 <= i < |tags| ==> tags[i] < |parts|)
    && (forall p :: 0 <= p < |parts| ==> Pick(t, tags, p) == parts[p])
  }

  ghost predicate Interleaving<T(!new)>(t: seq<T>, parts: seq<seq<T>>) {
    exists tags :: Merges(t, tags, parts)
  }

  lemma PickSnoc<T>(t: seq<T>, tags: seq<nat>, x: T, tag: nat, p: nat)
    requires |tags| == |t|
    ensures Pick(t + [x], tags + [tag], p) == if tag == p then Pick(t, tags, p) + [x] else Pick(t, tags, p)
  {
    assert (t + [x])[..|t|] == t && (tags + [tag])[..|t|] == tags;
  }

  /** The last element comes from the end of the part its tag names. */
  lemma MergeInit<T>(t: seq<T>, tags: seq<nat>, parts: seq<seq<T>>) returns (p: nat, shorter: seq<seq<T>>)
    requires Merges(t, tags, parts) && t != []
    ensures p < |parts| && parts[p] != [] && parts[p][|parts[p]| - 1] == t[|t| - 1]
    ensures shorter == parts[p := parts[p][..|parts[p]| - 1]]
    ensures Merges(t[..|t| - 1], tags[..|t| - 1], shorter)
  {
    p := tags[|t| - 1];
    assert Pick(t, tags, p) == parts[p];
    shorter := parts[p := parts[p][..|parts[p]| - 1]];
    forall q | 0 <= q < |shorter|
      ensures Pick(t[..|t| - 1], tags[..|t| - 1], q) == shorter[q]
    {
      assert Pick(t, tags, q) == parts[q];
    }
  }

  /** Nothing is lost and nothing is added. */
  lemma {:induction false} MergeMember<T>(t: seq<T>, tags: seq<nat>, parts: seq<seq<T>>, x: T)
    requires Merges(t, tags, parts)
    ensures x in t <==> exists p :: 0 <= p < |parts| && x in parts[p]
  {
    if t == [] {
      assert forall p :: 0 <= p < |parts| ==> Pick(t, tags, p) == [];
    } else {
      var p, shorter := MergeInit(t, tags, parts);
      MergeMember(t[..|t| - 1], tags[..|t| - 1], shorter, x);
      assert t == t[..|t| - 1] + [t[|t| - 1]];
      assert parts[p] == shorter[p] + [t[|t| - 1]];
      if x in t {
        if x == t[|t| - 1] {
          assert x in parts[p];
        } else {
          var q :| 0 <= q < |shorter| && x in shorter[q];
          assert x in parts[q];
        }
      }
      if q :| 0 <= q < |parts| && x in parts[q] {
        assert x == t[|t| - 1] || x in shorter[q];
      }
    }
  }

  /** Looking only for elements that one part alone can contain finds that part's. */
  lemma {:induction false} FilterMerge<T>(t: seq<T>, tags: seq<nat>, parts: seq<seq<T>>, p: nat, keep: T -> bool)
    requires Merges(t, tags, parts) && p < |parts|
    requires forall q, x :: 0 <= q < |parts| && q != p && x in parts[q] ==> !keep(x)
    ensures Filter(t, keep) == Filter(parts[p], keep)
  {
    if t == [] {
      assert Pick(t, tags, p) == [];
    } else {
      var init, last := t[..|t| - 1], t[|t| - 1];
      assert t == init + [last];
      var q, shorter := MergeInit(t, tags, parts);
      forall r, x | 0 <= r < |shorter| && r != p && x in shorter[r]
        ensures !keep(x)
      {
        assert x in parts[r];
      }
      FilterMerge(init, tags[..|t| - 1], shorter, p, keep);
      FilterAppend(init, [last], keep);
      assert parts[q] == shorter[q] + [last];
      if q == p {
        FilterAppend(shorter[p], [last], keep);
      } else {
        assert last in parts[q];
        FilterNone([last], keep);
        assert Filter(init, keep) + [] == Filter(init, keep);
      }
    }
  }

  lemma {:induction false} FilterMergeNone<T>(t: seq<T>, tags: seq<nat>, parts: seq<seq<T>>, keep: T -> bool)
    requires Merges(t, tags, parts)
    requires forall q, x :: 0 <= q < |parts| && x in parts[q] ==> !keep(x)
    ensures Filter(t, keep) == []
  {
    forall x | x in t
      ensures !keep(x)
    {
      MergeMember(t, tags, parts, x);
    }
    FilterNone(t, keep);
  }
}
