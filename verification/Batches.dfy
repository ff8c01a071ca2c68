/**
 What the sweeps have in common: a query that returns the first rows of an order, up to a
 limit, and enqueues that can fail one by one.
 */
module Batches {

  /** The columns a query orders by, smallest first. */
  datatype Rank = Rank(first: int, second: int)

  predicate Before(a: Rank, b: Rank) {
    a.first < b.first || (a.first == b.first && a.second < b.second)
  }

  /** What such a query may return for the candidates it ranks: at most `limit` of them, in
      order, and nothing left out that comes before something returned. Ties fall anyhow. */
  ghost predicate IsBatch(ids: seq<nat>, ranks: map<nat, Rank>, limit: nat) {
    && |ids| <= limit
    && (forall i :: 0 <= i < |ids| ==> ids[i] in ranks)
    && (forall i, j :: 0 <= i < j < |ids| ==> ids[i] != ids[j] && !Before(ranks[ids[j]], ranks[ids[i]]))
    && (forall id :: id in ranks && id !in ids ==>
          |ids| == limit && forall i :: 0 <= i < |ids| ==> !Before(ranks[id], ranks[ids[i]]))
  }

  lemma {:induction false} FirstOf(ranks: map<nat, Rank>, left: set<nat>) returns (best: nat)
    requires left != {} && left <= ranks.Keys
    ensures best in left && forall x | x in left :: !Before(ranks[x], ranks[best])
    decreases |left|
  {
    var x :| x in left;
    if left == {x} {
      best := x;
    } else {
      var other := FirstOf(ranks, left - {x});
      best := if Before(ranks[x], ranks[other]) then x else other;
      assert forall y | y in left && y != x :: y in left - {x} && !Before(ranks[y], ranks[other]);
    }
  }

  method SelectBatch(ranks: map<nat, Rank>, limit: nat) returns (ids: seq<nat>)
    ensures IsBatch(ids, ranks, limit)
  {
    ids := [];
    var left := ranks.Keys;
    while |ids| < limit && left != {}
      invariant |ids| <= limit && left <= ranks.Keys
      invariant forall id :: id in ranks ==> (id in left <==> id !in ids)
      invariant forall i :: 0 <= i < |ids| ==> ids[i] in ranks
      invariant forall i, j :: 0 <= i < j < |ids| ==> ids[i] != ids[j] && !Before(ranks[ids[j]], ranks[ids[i]])
      invariant forall i, id :: 0 <= i < |ids| && id in left ==> !Before(ranks[id], ranks[ids[i]])
      decreases left
    {
      ghost var _ := FirstOf(ranks, left);
      var best :| best in left && forall x | x in left :: !Before(ranks[x], ranks[best]);
      ids, left := ids + [best], left - {best};
    }
  }

  /** The ids of `order` whose enqueue does not fail, in order. */
  function Succeeding(order: seq<nat>, failing: set<nat>): seq<nat> {
    if order == [] then []
    else
      Succeeding(order[..|order| - 1], failing)
      + if order[|order| - 1] in failing then [] else [order[|order| - 1]]
  }

  /** Exactly those, none twice. */
  lemma {:induction false} SucceedingFacts(order: seq<nat>, failing: set<nat>)
    requires forall i, j :: 0 <= i < j < |order| ==> order[i] != order[j]
    ensures var kept := Succeeding(order, failing);
            && (forall id :: id in kept <==> id in order && id !in failing)
            && forall i, j :: 0 <= i < j < |kept| ==> kept[i] != kept[j]
  {
    if order == [] {
    } else {
      var front, last := order[..|order| - 1], order[|order| - 1];
      SucceedingFacts(front, failing);
      assert order == front + [last] && last !in front;
    }
  }
}
