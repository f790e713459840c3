/**
 * The loop shape shared by every extractor and filter in the backend:
 * `for x in xs:` decide to skip `x`, to append one value made from it, or to raise.
 * `FilterMap` is the list such a loop builds; `Collect` adds the exception, which
 * discards the whole list.
 */
module Seqs {
  import opened Wrappers

  /** What one loop iteration does with one element. */
  datatype Step<+B> = Skip | Emit(value: B) | Fail

  /** The values appended by a loop that runs over all of `s` (failures treated as skips). */
  function FilterMap<A, B>(s: seq<A>, f: A -> Step<B>): (r: seq<B>)
    ensures |r| <= |s|
    decreases |s|
  {
    if |s| == 0 then []
    else FilterMap(s[..|s| - 1], f) + (if f(s[|s| - 1]).Emit? then [f(s[|s| - 1]).value] else [])
  }

  predicate NoFail<A, B>(s: seq<A>, f: A -> Step<B>)
    decreases |s|
  {
    |s| == 0 || (NoFail(s[..|s| - 1], f) && !f(s[|s| - 1]).Fail?)
  }

  lemma {:induction false} NoFailIff<A, B>(s: seq<A>, f: A -> Step<B>)
    ensures NoFail(s, f) <==> forall i :: 0 <= i < |s| ==> !f(s[i]).Fail?
    decreases |s|
  {
    if |s| > 0 {
      NoFailIff(s[..|s| - 1], f);
    }
  }

  lemma NoFailSnoc<A, B>(s: seq<A>, x: A, f: A -> Step<B>)
    ensures NoFail(s + [x], f) <==> NoFail(s, f) && !f(x).Fail?
  {
    assert (s + [x])[..|s|] == s;
  }

  /** The loop's result: the appended values, or `None` when some element raises. */
  function Collect<A, B>(s: seq<A>, f: A -> Step<B>): (r: Option<seq<B>>)
    ensures r.Some? <==> NoFail(s, f)
  {
    if NoFail(s, f) then Some(FilterMap(s, f)) else None
  }

  /** One more iteration, given what it does with the new element. */
  lemma FilterMapSnocStep<A, B>(s: seq<A>, x: A, f: A -> Step<B>, step: Step<B>)
    requires f(x) == step
    ensures FilterMap(s + [x], f) == FilterMap(s, f) + (if step.Emit? then [step.value] else [])
    ensures NoFail(s + [x], f) <==> NoFail(s, f) && !step.Fail?
  {
    assert (s + [x])[..|s|] == s;
  }

  /** A loop raises as soon as one element raises. */
  lemma CollectFail<A, B>(s: seq<A>, f: A -> Step<B>, i: nat)
    requires i < |s| && f(s[i]).Fail?
    ensures Collect(s, f) == None
  {
    NoFailIff(s, f);
  }

  /** One more iteration appends what the new element emits. */
  lemma FilterMapSnoc<A, B>(s: seq<A>, x: A, f: A -> Step<B>)
    ensures FilterMap(s + [x], f) == FilterMap(s, f) + (if f(x).Emit? then [f(x).value] else [])
  {
    assert (s + [x])[..|s|] == s;
  }

  /**
   * The positions of the elements that emit, in ascending order: element `k` of the
   * result is made from element `KeptIndices(s, f)[k]` of the input, and every
   * emitting element has its place, so the output keeps input order and drops
   * exactly the skipped elements.
   */
  ghost function KeptIndices<A, B>(s: seq<A>, f: A -> Step<B>): (idx: seq<nat>)
    ensures |idx| == |FilterMap(s, f)|
    ensures forall k :: 0 <= k < |idx| ==> idx[k] < |s| && f(s[idx[k]]) == Emit(FilterMap(s, f)[k])
    ensures forall k, l :: 0 <= k < l < |idx| ==> idx[k] < idx[l]
    ensures forall i :: 0 <= i < |s| && f(s[i]).Emit? ==> i in idx
    decreases |s|
  {
    if |s| == 0 then []
    else
      var prefix := KeptIndices(s[..|s| - 1], f);
      KeptIndicesSnoc(s[..|s| - 1], s[|s| - 1], f, prefix);
      assert s == s[..|s| - 1] + [s[|s| - 1]];
      prefix + (if f(s[|s| - 1]).Emit? then [|s| - 1] else [])
  }

  /** `idx` lists, in ascending order, the positions of the elements of `s` that emit `out`. */
  ghost predicate IndexesOf<A, B>(s: seq<A>, f: A -> Step<B>, out: seq<B>, idx: seq<nat>) {
    && IndexedValues(s, f, out, idx)
    && Ascending(idx)
    && Complete(s, f, idx)
  }

  /** Element `k` of `out` is what element `idx[k]` of `s` emits. */
  ghost predicate IndexedValues<A, B>(s: seq<A>, f: A -> Step<B>, out: seq<B>, idx: seq<nat>) {
    && |idx| == |out|
    && forall k :: 0 <= k < |idx| ==> idx[k] < |s| && f(s[idx[k]]) == Emit(out[k])
  }

  ghost predicate Ascending(idx: seq<nat>) {
    forall k, l :: 0 <= k < l < |idx| ==> idx[k] < idx[l]
  }

  /** Every position of an element that emits is listed. */
  ghost predicate Complete<A, B>(s: seq<A>, f: A -> Step<B>, idx: seq<nat>) {
    forall i :: 0 <= i < |s| && f(s[i]).Emit? ==> i in idx
  }

  /** The step of `KeptIndices`: the new position joins the list when the new element emits. */
  lemma KeptIndicesSnoc<A, B>(init: seq<A>, x: A, f: A -> Step<B>, prefix: seq<nat>)
    requires IndexesOf(init, f, FilterMap(init, f), prefix)
    ensures IndexesOf(init + [x], f, FilterMap(init + [x], f), prefix + (if f(x).Emit? then [|init|] else []))
  {
    FilterMapSnoc(init, x, f);
    IndexedValuesSnoc(init, x, f, FilterMap(init, f), prefix);
    AscendingSnoc(init, x, f, FilterMap(init, f), prefix);
    CompleteSnoc(init, x, f, prefix);
  }

  lemma IndexedValuesSnoc<A, B>(init: seq<A>, x: A, f: A -> Step<B>, out: seq<B>, prefix: seq<nat>)
    requires IndexedValues(init, f, out, prefix)
    ensures IndexedValues(init + [x], f, out + (if f(x).Emit? then [f(x).value] else []),
                          prefix + (if f(x).Emit? then [|init|] else []))
  {
    var s := init + [x];
    var out' := out + (if f(x).Emit? then [f(x).value] else []);
    var idx := prefix + (if f(x).Emit? then [|init|] else []);
    forall k | 0 <= k < |idx| ensures idx[k] < |s| && f(s[idx[k]]) == Emit(out'[k]) {
      if k < |prefix| {
        assert idx[k] == prefix[k] && out'[k] == out[k];
        assert s[prefix[k]] == init[prefix[k]];
      } else {
        assert idx[k] == |init| && s[|init|] == x;
      }
    }
  }

  lemma AscendingSnoc<A, B>(init: seq<A>, x: A, f: A -> Step<B>, out: seq<B>, prefix: seq<nat>)
    requires IndexedValues(init, f, out, prefix) && Ascending(prefix)
    ensures Ascending(prefix + (if f(x).Emit? then [|init|] else []))
  {
  }

  lemma CompleteSnoc<A, B>(init: seq<A>, x: A, f: A -> Step<B>, prefix: seq<nat>)
    requires Complete(init, f, prefix)
    ensures Complete(init + [x], f, prefix + (if f(x).Emit? then [|init|] else []))
  {
    var s := init + [x];
    var idx := prefix + (if f(x).Emit? then [|init|] else []);
    forall i | 0 <= i < |s| && f(s[i]).Emit? ensures i in idx {
      if i < |init| {
        assert s[i] == init[i];
        var j :| 0 <= j < |prefix| && prefix[j] == i;
        assert idx[j] == i;
      } else {
        assert idx[|prefix|] == i;
      }
    }
  }

  /** Read from the front: the first element's contribution comes first. */
  lemma {:induction false} FilterMapCons<A, B>(x: A, s: seq<A>, f: A -> Step<B>)
    ensures FilterMap([x] + s, f) == (if f(x).Emit? then [f(x).value] else []) + FilterMap(s, f)
    decreases |s|
  {
    if |s| > 0 {
      var init := s[..|s| - 1];
      FilterMapCons(x, init, f);
      assert ([x] + s)[..|s|] == [x] + init;
      assert s[..|s| - 1] == init;
    }
  }

  /**
   * The first value comes from the first element that emits; nothing is produced
   * exactly when no element emits.
   */
  lemma FilterMapFirst<A, B>(s: seq<A>, f: A -> Step<B>)
    ensures |FilterMap(s, f)| == 0 <==> forall i :: 0 <= i < |s| ==> !f(s[i]).Emit?
    ensures |FilterMap(s, f)| > 0 ==>
              exists j :: && 0 <= j < |s| && f(s[j]) == Emit(FilterMap(s, f)[0])
                          && forall i :: 0 <= i < j ==> !f(s[i]).Emit?
  {
    var idx := KeptIndices(s, f);
    if |idx| > 0 {
      var j := idx[0];
      assert forall i :: 0 <= i < j ==> !f(s[i]).Emit?;
    }
  }

  /** Every value comes from an element that emits it, and every emitted value is there. */
  lemma FilterMapOrigin<A, B>(s: seq<A>, f: A -> Step<B>)
    ensures forall m :: 0 <= m < |FilterMap(s, f)| ==>
              exists j :: 0 <= j < |s| && f(s[j]) == Emit(FilterMap(s, f)[m])
    ensures forall j :: 0 <= j < |s| && f(s[j]).Emit? ==> f(s[j]).value in FilterMap(s, f)
  {
    var idx := KeptIndices(s, f);
    forall j | 0 <= j < |s| && f(s[j]).Emit? ensures f(s[j]).value in FilterMap(s, f) {
      var l :| 0 <= l < |idx| && idx[l] == j;
    }
  }

  /** A loop in which every element emits keeps length and order. */
  lemma {:induction false} FilterMapAllEmit<A, B>(s: seq<A>, f: A -> Step<B>)
    requires forall i :: 0 <= i < |s| ==> f(s[i]).Emit?
    ensures |FilterMap(s, f)| == |s|
    ensures forall i :: 0 <= i < |s| ==> FilterMap(s, f)[i] == f(s[i]).value
    decreases |s|
  {
    if |s| > 0 {
      FilterMapAllEmit(s[..|s| - 1], f);
    }
  }

  /** A loop that re-emits every element unchanged is the identity. */
  lemma FilterMapIdentity<A>(s: seq<A>, f: A -> Step<A>)
    requires forall i :: 0 <= i < |s| ==> f(s[i]) == Emit(s[i])
    ensures FilterMap(s, f) == s
  {
    FilterMapAllEmit(s, f);
  }

  /** A loop that emits on fewer elements yields a list no longer than one that emits on more. */
  lemma {:induction false} FilterMapFewer<A, B, C>(s: seq<A>, f: A -> Step<B>, g: A -> Step<C>)
    requires forall i :: 0 <= i < |s| && f(s[i]).Emit? ==> g(s[i]).Emit?
    ensures |FilterMap(s, f)| <= |FilterMap(s, g)|
    decreases |s|
  {
    if |s| > 0 {
      FilterMapFewer(s[..|s| - 1], f, g);
    }
  }

  /**
   * `r` is what is left of `s` after deleting some of its elements: the elements of `r`
   * occur in `s` in the same order.
   */
  predicate IsSubsequence<T(==)>(r: seq<T>, s: seq<T>)
    decreases |s|
  {
    |r| == 0 || (|s| > 0 && ((r[0] == s[0] && IsSubsequence(r[1..], s[1..])) || IsSubsequence(r, s[1..])))
  }

  /** What is left of a suffix is also what is left of the whole sequence. */
  lemma {:induction false} SubsequenceOfSuffix<T>(r: seq<T>, s: seq<T>, k: nat)
    requires k <= |s| && IsSubsequence(r, s[k..])
    ensures IsSubsequence(r, s)
    decreases k
  {
    if k > 0 {
      assert s[1..][k - 1..] == s[k..];
      SubsequenceOfSuffix(r, s[1..], k - 1);
    }
  }
}
