/**
 * The per-item isolation policy that every loop of the pipeline follows: each
 * item goes through one step that either succeeds or raises; a success is
 * appended to the output list, a failure is logged and the item is skipped,
 * and the loop carries on with the next item.
 *
 * The functions recurse on the LAST item, so that "the first i items" is
 * exactly what a loop that appends has built after i iterations.
 */
module Batch {
  import opened Wrappers

  /** The values of the items whose step succeeded, in input order. */
  function Successes<A, B, E>(xs: seq<A>, step: A -> Result<B, E>): (out: seq<B>)
    ensures |out| <= |xs|
    decreases |xs|
  {
    if xs == [] then []
    else
      var last := xs[|xs| - 1];
      Successes(xs[..|xs| - 1], step) + (if step(last).Ok? then [step(last).value] else [])
  }

  /** The errors of the items whose step failed, in input order (the diagnostics log). */
  function Failures<A, B, E>(xs: seq<A>, step: A -> Result<B, E>): (log: seq<E>)
    ensures |log| <= |xs|
    decreases |xs|
  {
    if xs == [] then []
    else
      var last := xs[|xs| - 1];
      Failures(xs[..|xs| - 1], step) + (if step(last).Err? then [step(last).error] else [])
  }

  /** The positions of the items whose step succeeded, in increasing order. */
  function SuccessIndices<A, B, E>(xs: seq<A>, step: A -> Result<B, E>): seq<nat>
    decreases |xs|
  {
    if xs == [] then []
    else SuccessIndices(xs[..|xs| - 1], step) + (if step(xs[|xs| - 1]).Ok? then [|xs| - 1] else [])
  }

  /** Every item ends up in exactly one of the two lists. */
  lemma {:induction false} SuccessesAndFailuresPartition<A, B, E>(xs: seq<A>, step: A -> Result<B, E>)
    ensures |Successes(xs, step)| + |Failures(xs, step)| == |xs|
    decreases |xs|
  {
    if xs != [] {
      SuccessesAndFailuresPartition(xs[..|xs| - 1], step);
    }
  }

  /** There is one success index per output value, and every index is a position of the input. */
  lemma {:induction false} SuccessIndicesInRange<A, B, E>(xs: seq<A>, step: A -> Result<B, E>)
    ensures |SuccessIndices(xs, step)| == |Successes(xs, step)|
    ensures forall k :: 0 <= k < |SuccessIndices(xs, step)| ==> SuccessIndices(xs, step)[k] < |xs|
    decreases |xs|
  {
    if xs != [] {
      SuccessIndicesInRange(xs[..|xs| - 1], step);
    }
  }

  /** The success indices increase strictly: the output keeps the input order. */
  lemma {:induction false} SuccessIndicesIncrease<A, B, E>(xs: seq<A>, step: A -> Result<B, E>)
    ensures forall k, l :: 0 <= k < l < |SuccessIndices(xs, step)| ==>
              SuccessIndices(xs, step)[k] < SuccessIndices(xs, step)[l]
    decreases |xs|
  {
    if xs != [] {
      var prefix := xs[..|xs| - 1];
      SuccessIndicesIncrease(prefix, step);
      SuccessIndicesInRange(prefix, step);
    }
  }

  /** The k-th output value is what the step returned for the item at the k-th success index. */
  lemma {:induction false} SuccessesAtIndices<A, B, E>(xs: seq<A>, step: A -> Result<B, E>)
    ensures |SuccessIndices(xs, step)| == |Successes(xs, step)|
    ensures forall k :: 0 <= k < |SuccessIndices(xs, step)| ==>
              SuccessIndices(xs, step)[k] < |xs|
              && step(xs[SuccessIndices(xs, step)[k]]) == Ok(Successes(xs, step)[k])
    decreases |xs|
  {
    SuccessIndicesInRange(xs, step);
    if xs != [] {
      var prefix := xs[..|xs| - 1];
      SuccessesAtIndices(prefix, step);
      var idx := SuccessIndices(prefix, step);
      assert forall k :: 0 <= k < |idx| ==> xs[idx[k]] == prefix[idx[k]];
    }
  }

  /** A position is a success index exactly when the step succeeded on the item there. */
  lemma {:induction false} SuccessIndicesExactlyOk<A, B, E>(xs: seq<A>, step: A -> Result<B, E>)
    ensures forall j :: 0 <= j < |xs| ==> (j in SuccessIndices(xs, step) <==> step(xs[j]).Ok?)
    decreases |xs|
  {
    if xs != [] {
      var prefix := xs[..|xs| - 1];
      SuccessIndicesExactlyOk(prefix, step);
      SuccessIndicesInRange(prefix, step);
      assert |xs| - 1 !in SuccessIndices(prefix, step);
      assert forall j :: 0 <= j < |xs| - 1 ==> xs[j] == prefix[j];
    }
  }

  /** Processing a concatenation is processing each part in turn. */
  lemma {:induction false} BatchAppend<A, B, E>(xs: seq<A>, ys: seq<A>, step: A -> Result<B, E>)
    ensures Successes(xs + ys, step) == Successes(xs, step) + Successes(ys, step)
    ensures Failures(xs + ys, step) == Failures(xs, step) + Failures(ys, step)
    decreases |ys|
  {
    if ys == [] {
      assert xs + ys == xs;
    } else {
      var zs := xs + ys;
      assert zs[..|zs| - 1] == xs + ys[..|ys| - 1];
      assert zs[|zs| - 1] == ys[|ys| - 1];
      BatchAppend(xs, ys[..|ys| - 1], step);
    }
  }

  /** One step of a loop: the first i+1 items are the first i items plus item i. */
  lemma PrefixStep<A, B, E>(xs: seq<A>, i: nat, step: A -> Result<B, E>)
    requires i < |xs|
    ensures Successes(xs[..i + 1], step)
            == Successes(xs[..i], step) + (if step(xs[i]).Ok? then [step(xs[i]).value] else [])
    ensures Failures(xs[..i + 1], step)
            == Failures(xs[..i], step) + (if step(xs[i]).Err? then [step(xs[i]).error] else [])
  {
    assert xs[..i + 1][..i] == xs[..i];
  }

  /** A failing item is dropped and logged; the items before and after it are processed as if it were absent. */
  lemma FailureOnlyDropsItself<A, B, E>(xs: seq<A>, x: A, ys: seq<A>, step: A -> Result<B, E>)
    requires step(x).Err?
    ensures Successes(xs + [x] + ys, step) == Successes(xs, step) + Successes(ys, step)
    ensures Failures(xs + [x] + ys, step) == Failures(xs, step) + [step(x).error] + Failures(ys, step)
  {
    BatchAppend(xs + [x], ys, step);
    BatchAppend(xs, [x], step);
    assert [x][..0] == [];
  }

  /** When every step succeeds, nothing is dropped and nothing is logged. */
  lemma {:induction false} AllSucceed<A, B, E>(xs: seq<A>, step: A -> Result<B, E>)
    requires forall j :: 0 <= j < |xs| ==> step(xs[j]).Ok?
    ensures |Successes(xs, step)| == |xs|
    ensures Failures(xs, step) == []
    decreases |xs|
  {
    if xs != [] {
      AllSucceed(xs[..|xs| - 1], step);
    }
  }

  /** Of N items of which exactly one fails, N-1 are kept and only that one is logged. */
  lemma ExactlyOneFailure<A, B, E>(xs: seq<A>, i: nat, step: A -> Result<B, E>)
    requires i < |xs|
    requires step(xs[i]).Err?
    requires forall j :: 0 <= j < |xs| && j != i ==> step(xs[j]).Ok?
    ensures |Successes(xs, step)| == |xs| - 1
    ensures Failures(xs, step) == [step(xs[i]).error]
  {
    var before, after := xs[..i], xs[i + 1..];
    assert xs == before + [xs[i]] + after;
    FailureOnlyDropsItself(before, xs[i], after, step);
    AllSucceed(before, step);
    assert forall j :: 0 <= j < |after| ==> after[j] == xs[i + 1 + j];
    AllSucceed(after, step);
  }

  /**
   * Two steps that succeed on the same items, the second yielding g of what
   * the first yields, produce outputs of the same length related item by item by g.
   */
  lemma {:induction false} SuccessesMapped<A, B, C, E, F>(xs: seq<A>, step1: A -> Result<B, E>, step2: A -> Result<C, F>, g: B -> C)
    requires forall x :: step2(x).Ok? == step1(x).Ok?
    requires forall x :: step1(x).Ok? ==> step2(x).value == g(step1(x).value)
    ensures |Successes(xs, step2)| == |Successes(xs, step1)|
    ensures forall k :: 0 <= k < |Successes(xs, step1)| ==> Successes(xs, step2)[k] == g(Successes(xs, step1)[k])
    decreases |xs|
  {
    if xs != [] {
      SuccessesMapped(xs[..|xs| - 1], step1, step2, g);
    }
  }
}
