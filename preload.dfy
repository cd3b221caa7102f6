/**
 * The texture preload of a tile (Tile.preload): one texture handle is pushed
 * per source when its load is issued, and a counter shared by the load
 * callbacks fires the all-loaded callback when it reaches the number of
 * sources.
 */
module Preload {
  import opened Bounds

  /** A texture handle: the source it loads and its sampling centre. */
  datatype Texture = Texture(source: string, center: Vec2)

  /** Every handle's sampling centre is set to the middle of the image. */
  const Centre := Vec2(0.5, 0.5)

  /** The handles pushed for the given sources, in the order the loads are issued. */
  function Handles(sources: seq<string>): (hs: seq<Texture>)
    ensures |hs| == |sources|
    ensures forall k :: 0 <= k < |sources| ==> hs[k] == Texture(sources[k], Centre)
  {
    if sources == [] then []
    else Handles(sources[..|sources| - 1]) + [Texture(sources[|sources| - 1], Centre)]
  }

  /**
   * How many of the first k completions fire the all-loaded callback when n
   * loads were issued: the k-th completion fires it when the counter, after
   * its increment, equals n.
   */
  function FiringsAmong(n: nat, k: nat): nat {
    if k == 0 then 0 else FiringsAmong(n, k - 1) + (if k == n then 1 else 0)
  }

  /**
   * The all-loaded callback fires once, on the n-th completion, and never
   * before it; with no sources it never fires.
   */
  lemma {:induction false} FiresExactlyOnce(n: nat, k: nat)
    ensures FiringsAmong(n, k) == if 0 < n <= k then 1 else 0
  {
    if k > 0 {
      FiresExactlyOnce(n, k - 1);
    }
  }

  predicate Distinct(t: seq<nat>) {
    forall i, j :: 0 <= i < j < |t| ==> t[i] != t[j]
  }

  function Elements(t: seq<nat>): set<int> {
    set x: int | x in t
  }

  /** The indices of n issued loads. */
  function Indices(n: nat): (ids: set<int>)
    ensures |ids| == n
    ensures forall i :: i in ids <==> 0 <= i < n
  {
    if n == 0 then {} else Indices(n - 1) + {n - 1}
  }

  lemma {:induction false} DistinctElementsSize(t: seq<nat>)
    requires Distinct(t)
    ensures |Elements(t)| == |t|
  {
    if t != [] {
      var init := t[..|t| - 1];
      DistinctElementsSize(init);
      assert Elements(t) == Elements(init) + {t[|t| - 1]};
      assert t[|t| - 1] !in Elements(init);
    }
  }

  /**
   * When each issued load completes at most once, the counter never passes
   * n, and it reaches n only once every one of the n loads has completed,
   * whatever order they completed in; the all-loaded callback has then fired
   * exactly once.
   */
  lemma CompletionsCoverAllLoads(t: seq<nat>, n: nat)
    requires Distinct(t)
    requires forall k :: 0 <= k < |t| ==> t[k] < n
    ensures |t| <= n
    ensures |t| == n ==> forall i :: 0 <= i < n ==> i in t
    ensures FiringsAmong(n, |t|) == if 0 < n == |t| then 1 else 0
  {
    var done, all := Elements(t), Indices(n);
    DistinctElementsSize(t);
    assert done <= all;
    var rest := all - done;
    assert all == done + rest && done * rest == {};
    assert |all| == |done| + |rest|;
    if |t| == n {
      assert rest == {};
      forall i | 0 <= i < n ensures i in t {
        assert i in all;
      }
    }
    FiresExactlyOnce(n, |t|);
  }

  /**
   * The counter captured by the load callbacks of one preload call, with the
   * number of loads it waits for.
   */
  class LoadBarrier {
    const toBeLoadedNumber: nat
    var loadedCounter: nat
    /** The indices of the loads that have completed, in completion order. */
    ghost var completed: seq<nat>
    /** How many times the all-loaded callback has fired. */
    ghost var firings: nat

    ghost predicate Valid()
      reads this
    {
      loadedCounter == |completed| &&
      (forall k :: 0 <= k < |completed| ==> completed[k] < toBeLoadedNumber) &&
      firings == FiringsAmong(toBeLoadedNumber, loadedCounter)
    }

    constructor (n: nat)
      ensures Valid()
      ensures toBeLoadedNumber == n && loadedCounter == 0 && completed == [] && firings == 0
    {
      toBeLoadedNumber := n;
      loadedCounter := 0;
      completed := [];
      firings := 0;
    }

    /**
     * The callback of load i: count it, and report whether this completion
     * fires the all-loaded callback.
     */
    method Complete(i: nat) returns (allLoaded: bool)
      requires Valid() && i < toBeLoadedNumber
      modifies this
      ensures Valid()
      ensures loadedCounter == old(loadedCounter) + 1 && completed == old(completed) + [i]
      ensures allLoaded <==> loadedCounter == toBeLoadedNumber
      ensures firings == old(firings) + (if allLoaded then 1 else 0)
      ensures Distinct(completed) && allLoaded ==> forall j :: 0 <= j < toBeLoadedNumber ==> j in completed
    {
      loadedCounter := loadedCounter + 1;
      completed := completed + [i];
      allLoaded := loadedCounter == toBeLoadedNumber;
      if allLoaded {
        firings := firings + 1;
      }
      if Distinct(completed) {
        CompletionsCoverAllLoads(completed, toBeLoadedNumber);
      }
    }
  }
}
