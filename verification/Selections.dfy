/**
 What a loop or a recursion selects from a list: the elements at increasing positions, no other
 position being one that is selected.
 */
module Selections {
  import opened Wrappers

  predicate Increasing(at: seq<nat>) {
    forall i, j :: 0 <= i < j < |at| ==> at[i] < at[j]
  }

  /** `r` has what `pick` gives for the positions `at`, which are those in `lo..hi` for which it gives something. */
  ghost predicate Selects<T>(r: seq<T>, at: seq<nat>, lo: nat, hi: nat, pick: nat -> Option<T>) {
    && |r| == |at| && Increasing(at)
    && (forall i :: 0 <= i < |at| ==> lo <= at[i] < hi && pick(at[i]) == Some(r[i]))
    && (forall k :: lo <= k < hi && pick(k).Some? ==> k in at)
  }

  lemma SelectsNothing<T>(lo: nat, pick: nat -> Option<T>)
    ensures Selects([], [], lo, lo, pick)
  {
  }

  lemma SelectsOneMore<T>(r: seq<T>, at: seq<nat>, lo: nat, hi: nat, pick: nat -> Option<T>)
    requires lo <= hi && Selects(r, at, lo, hi, pick)
    ensures pick(hi).None? ==> Selects(r, at, lo, hi + 1, pick)
    ensures pick(hi).Some? ==> Selects(r + [pick(hi).value], at + [hi], lo, hi + 1, pick)
  {
  }

  lemma SelectsOneBefore<T>(r: seq<T>, at: seq<nat>, lo: nat, hi: nat, pick: nat -> Option<T>)
    requires lo < hi && Selects(r, at, lo + 1, hi, pick)
    ensures pick(lo).None? ==> Selects(r, at, lo, hi, pick)
    ensures pick(lo).Some? ==> Selects([pick(lo).value] + r, [lo] + at, lo, hi, pick)
  {
  }

  lemma SelectsAlike<T>(r: seq<T>, at: seq<nat>, lo: nat, hi: nat, pick: nat -> Option<T>, pick': nat -> Option<T>)
    requires Selects(r, at, lo, hi, pick) && forall k :: lo <= k < hi ==> pick(k) == pick'(k)
    ensures Selects(r, at, lo, hi, pick')
  {
  }

  lemma LastIsLargest(at: seq<nat>, i: nat)
    requires i < |at| && Increasing(at)
    ensures at[i] <= at[|at| - 1]
  {
  }

  lemma {:induction false} SamePositions(at: seq<nat>, at': seq<nat>)
    requires Increasing(at) && Increasing(at') && forall k :: k in at <==> k in at'
    ensures at == at'
  {
    if at != [] {
      var n, m := |at| - 1, |at'| - 1;
      assert at[n] in at' && at'[0] in at;
      var i :| 0 <= i < |at'| && at'[i] == at[n];
      LastIsLargest(at', i);
      assert at'[m] in at;
      var j :| 0 <= j < |at| && at[j] == at'[m];
      LastIsLargest(at, j);
      LastLeftOut(at);
      LastLeftOut(at');
      SamePositions(at[..n], at'[..m]);
      assert at == at[..n] + [at[n]] && at' == at'[..m] + [at'[m]];
    } else if at' != [] {
      NotEmpty(at', at);
      assert false;
    }
  }

  lemma NotEmpty(at: seq<nat>, at': seq<nat>)
    requires at != [] && forall k :: k in at ==> k in at'
    ensures at' != []
  {
    assert at[0] in at';
  }

  lemma LastLeftOut(at: seq<nat>)
    requires at != [] && Increasing(at)
    ensures var n := |at| - 1;
            Increasing(at[..n]) && forall k :: k in at[..n] <==> k in at && k != at[n]
  {
    var n := |at| - 1;
    assert at == at[..n] + [at[n]];
  }

  /** There is only one selection. */
  lemma SelectionIsUnique<T>(r: seq<T>, at: seq<nat>, r': seq<T>, at': seq<nat>, lo: nat, hi: nat,
                             pick: nat -> Option<T>)
    requires Selects(r, at, lo, hi, pick) && Selects(r', at', lo, hi, pick)
    ensures r == r' && at == at'
  {
    SamePositions(at, at');
    forall i | 0 <= i < |at|
      ensures r[i] == r'[i]
    {
      assert pick(at[i]) == Some(r[i]) && pick(at'[i]) == Some(r'[i]);
    }
  }
}
