/** The constructor's bound leaves room for every batch and every child a disciplined run asks for. */
module KernelCapacity {
  import opened Base
  import opened Kernel
  import opened KernelInv

  function BusyBatches(k: Kernel): set<int> {
    set b | 0 <= b < |k.batchs| && k.batchs[b].state != Idle
  }

  /** Live children of the batches in bids. */
  function Kids(k: Kernel, bids: set<int>): set<int> {
    set c | 0 <= c < |k.cos| && k.cos[c].state != Idle && IsChild(k, c) && k.cos[c].relateBid in bids
  }

  lemma ProductBound(m: nat, n: nat)
    requires m >= 1 && (m + 1) * n <= MAX_COROUTINE
    ensures n <= MAX_BATCH
  {}

  /** Batches have different parents, all of them top-level. */
  lemma {:induction false} BatchesVsParents(k: Kernel, bids: set<int>, tops: set<int>)
    requires Inv(k) && bids <= BusyBatches(k)
    requires forall b :: b in bids ==> k.batchs[b].parentCid in tops
    ensures |bids| <= |tops|
    decreases |bids|
  {
    if bids == {} {
    } else {
      var b :| b in bids;
      var p := k.batchs[b].parentCid;
      forall x | x in bids - {b} ensures k.batchs[x].parentCid in tops - {p} {
        assert BatchInv(k, x) && BatchInv(k, b);
      }
      BatchesVsParents(k, bids - {b}, tops - {p});
    }
  }

  lemma ParentIsTop(k: Kernel, b: int)
    requires Inv(k) && b in BusyBatches(k)
    ensures k.batchs[b].parentCid in Tops(k)
  {
    assert BatchInv(k, b);
  }

  lemma BusyBound(k: Kernel)
    requires Inv(k)
    ensures |BusyBatches(k)| <= |Tops(k)|
  {
    forall b | b in BusyBatches(k) ensures k.batchs[b].parentCid in Tops(k) { ParentIsTop(k, b); }
    BatchesVsParents(k, BusyBatches(k), Tops(k));
  }

  /** A running coroutine without a batch is a top-level coroutine that is nobody's parent. */
  lemma BusyOthers(k: Kernel)
    requires Inv(k) && Running(k) && Self(k).relateBid == INVALID
    ensures |BusyBatches(k)| < |Tops(k)|
  {
    assert CoInv(k, k.slave);
    assert k.slave in Tops(k);
    forall b | b in BusyBatches(k) ensures k.batchs[b].parentCid in Tops(k) - {k.slave} {
      ParentIsTop(k, b);
      assert BatchInv(k, b);
    }
    BatchesVsParents(k, BusyBatches(k), Tops(k) - {k.slave});
  }

  /** BatchCreate never answers kInvalidBid: a running coroutine without a batch finds an idle one. */
  lemma BatchAvailable(k: Kernel)
    requires Inv(k) && Within(k) && k.m >= 1 && Running(k) && Self(k).relateBid == INVALID
    ensures IdleBatch(k.batchs) != INVALID
  {
    IdleBatchSpec(k.batchs, 0);
    if IdleBatch(k.batchs) == INVALID {
      BusyOthers(k);
      FullRangeSize(BusyBatches(k), MAX_BATCH);
      ProductBound(k.m, k.n);
      assert false;
    }
  }

  lemma KidsSplit(k: Kernel, bids: set<int>, b: int)
    requires b in bids
    ensures Kids(k, bids) == Kids(k, bids - {b}) + Kids(k, {b})
  {}

  lemma KidsOfOne(k: Kernel, b: int)
    requires Inv(k) && 0 <= b < |k.batchs|
    ensures |Kids(k, {b})| <= |k.batchs[b].childFinish|
  {
    forall c | c in Kids(k, {b}) ensures c in k.batchs[b].childFinish.Keys { assert CoInv(k, c); }
    SubsetSize(Kids(k, {b}), k.batchs[b].childFinish.Keys);
  }

  lemma KidsOfBusy(k: Kernel, b: int)
    requires Inv(k) && b in BusyBatches(k)
    ensures |Kids(k, {b})| <= k.m
  {
    KidsOfOne(k, b);
    assert BatchInv(k, b);
  }

  lemma KidsOneMore(k: Kernel, bids: set<int>, b: int)
    requires b in bids && |Kids(k, bids - {b})| <= k.m * (|bids| - 1) && |Kids(k, {b})| <= k.m
    ensures |Kids(k, bids)| <= k.m * |bids|
  {
    KidsSplit(k, bids, b);
    assert |Kids(k, bids)| <= |Kids(k, bids - {b})| + |Kids(k, {b})|;
    assert k.m * (|bids| - 1) + k.m == k.m * |bids|;
  }

  lemma {:induction false} KidsBound(k: Kernel, bids: set<int>)
    requires Inv(k) && bids <= BusyBatches(k)
    ensures |Kids(k, bids)| <= k.m * |bids|
    decreases |bids|
  {
    if bids == {} {
      assert Kids(k, bids) == {};
    } else {
      var b :| b in bids;
      assert |bids - {b}| == |bids| - 1;
      KidsBound(k, bids - {b});
      KidsOfBusy(k, b);
      KidsOneMore(k, bids, b);
    }
  }

  lemma LiveSizes(k: Kernel, b: int)
    requires Inv(k) && b in BusyBatches(k) && |k.batchs[b].childFinish| < k.m
    ensures |Kids(k, BusyBatches(k) - {b})| <= k.m * (|BusyBatches(k)| - 1)
    ensures |Kids(k, {b})| < k.m && 0 < |BusyBatches(k)| <= |Tops(k)|
  {
    var busy := BusyBatches(k);
    assert |busy - {b}| == |busy| - 1;
    KidsBound(k, busy - {b});
    KidsOfOne(k, b);
    BusyBound(k);
  }

  lemma SlotArithmetic(n: nat, m: nat, tops: nat, busy: nat, others: nat, own: nat, slots: nat)
    requires 0 < busy <= tops <= n && others <= m * (busy - 1) && own < m && slots == (m + 1) * n
    ensures tops + others + own < slots
  {}

  lemma LiveTotal(k: Kernel, tops: nat, busy: nat, others: nat, own: nat)
    requires SizeInv(k) && Within(k) && tops == |Tops(k)|
    requires others <= k.m * (busy - 1) && own < k.m && 0 < busy <= tops
    ensures tops + others + own < |k.cos|
  {
    SlotArithmetic(k.n, k.m, tops, busy, others, own, |k.cos|);
  }

  lemma UnionSize(a: set<int>, b: set<int>, c: set<int>, bc: set<int>)
    requires bc == b + c
    ensures |a + bc| <= |a| + |b| + |c|
  {}

  lemma LiveBound(k: Kernel, b: int)
    requires Inv(k) && Within(k) && b in BusyBatches(k) && |k.batchs[b].childFinish| < k.m
    ensures |Tops(k) + Kids(k, BusyBatches(k))| < |k.cos|
  {
    var busy := BusyBatches(k);
    LiveSizes(k, b);
    LiveTotal(k, |Tops(k)|, |busy|, |Kids(k, busy - {b})|, |Kids(k, {b})|);
    KidsSplit(k, busy, b);
    UnionSize(Tops(k), Kids(k, busy - {b}), Kids(k, {b}), Kids(k, busy));
  }

  /** Without an idle slot, everybody is a top-level coroutine or the child of an open batch. */
  lemma AllLive(k: Kernel)
    requires Inv(k) && IdleSlot(k.cos) == INVALID
    ensures |Tops(k) + Kids(k, BusyBatches(k))| == |k.cos|
  {
    IdleSlotSpec(k.cos, 0);
    var live := Tops(k) + Kids(k, BusyBatches(k));
    forall c | 0 <= c < |k.cos| ensures c in live {
      assert CoInv(k, c);
      if IsChild(k, c) { assert BatchInv(k, k.cos[c].relateBid); }
    }
    FullRangeSize(live, |k.cos|);
  }

  /** The CoroutineCreate inside BatchAdd always finds an idle slot. */
  lemma SlotAvailable(k: Kernel)
    requires Inv(k) && Within(k) && HasOpenBatch(k) && |k.batchs[Self(k).relateBid].childFinish| < k.m
    ensures IdleSlot(k.cos) != INVALID
  {
    if IdleSlot(k.cos) == INVALID {
      AllLive(k);
      LiveBound(k, Self(k).relateBid);
      assert false;
    }
  }

  lemma TopArithmetic(n: nat, m: nat, tops: nat, busy: nat, kids: nat, slots: nat)
    requires busy <= tops < n && kids <= m * busy && slots == (m + 1) * n
    ensures tops + kids < slots
  {
    assert m * busy <= m * tops;
    assert (m + 1) * (tops + 1) <= (m + 1) * n;
  }

  lemma TopBound(k: Kernel)
    requires Inv(k) && |Tops(k)| < k.n
    ensures |Tops(k)| + |Kids(k, BusyBatches(k))| < |k.cos|
  {
    BusyBound(k);
    KidsBound(k, BusyBatches(k));
    TopArithmetic(k.n, k.m, |Tops(k)|, |BusyBatches(k)|, |Kids(k, BusyBatches(k))|, |k.cos|);
  }

  /** A top-level creation within the allowance always finds an idle slot. */
  lemma TopSlotAvailable(k: Kernel)
    requires Inv(k) && |Tops(k)| < k.n
    ensures IdleSlot(k.cos) != INVALID
  {
    if IdleSlot(k.cos) == INVALID {
      AllLive(k);
      TopBound(k);
      assert false;
    }
  }
}
