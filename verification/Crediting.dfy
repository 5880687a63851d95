/** No output is credited twice: when every transaction is in sight at one place only, the outputs that back what the
    invoices are credited with are pairwise different, each counted once and for one invoice. */
module Crediting {
  import opened Invoices
  import opened Chain
  import opened OutputKeys
  import opened Txpool
  import opened Scanning
  import opened Subaddresses
  import opened Ledger
  import opened Runs
  import opened Conservation

  /** No output is listed twice. */
  ghost predicate NoneTwice(os: seq<TxOutput>)
  {
    forall k, l :: 0 <= k < l < |os| ==> os[k].txHash != os[l].txHash || os[k].out.index != os[l].out.index
  }

  /** No key is listed twice. */
  ghost predicate DistinctKeys(os: seq<TxOutput>) { forall k,
                               l :: 0 <= k < l < |os| ==> os[k].out.key != os[l].out.key }

  // ---------------------------------------------------------------------------
  // Transactions in sight
  // ---------------------------------------------------------------------------

  /** Each owned output of a transaction has its own position. */
  ghost predicate WellFormed(tx: Tx)
  {
    forall i, j :: 0 <= i < j < |tx.owned| ==> tx.owned[i].index != tx.owned[j].index
  }

  ghost predicate AllWellFormed(txs: seq<Tx>) { forall i :: 0 <= i < |txs| ==> WellFormed(txs[i]) }

  /** No transaction is in two last-seen blocks, twice in one, or in one and in the remembered pool. */
  ghost predicate SeenOnce(g: Gateway)
  {
    && (forall h: nat :: h in g.seen ==> DistinctHashes(g.seen[h]) && AllWellFormed(g.seen[h]))
    && (forall h: nat, k: nat :: h in g.seen && k in g.seen && h < k ==> HashesOf(g.seen[h]) !! HashesOf(g.seen[k]))
    && (forall h: nat :: h in g.seen ==> HashesOf(g.seen[h]) !! g.pool.discovered.Keys)
    && (forall t :: t in g.pool.discovered && t in g.pool.known ==> WellFormed(g.pool.known[t]))
  }

  lemma NoneTwiceBoth(a: seq<TxOutput>, b: seq<TxOutput>)
    requires NoneTwice(a) && NoneTwice(b)
    requires forall o, q :: o in a && q in b ==> o.Id() != q.Id()
    ensures NoneTwice(a + b)
  {
    forall k, l | 0 <= k < l < |a + b|
      ensures (a + b)[k].Id() != (a + b)[l].Id()
    {
      if k < |a| <= l { assert a[k] in a && b[l - |a|] in b; }
    }
  }

  lemma {:induction false} OutputsNoneTwice(txs: seq<Tx>)
    requires DistinctHashes(txs) && AllWellFormed(txs)
    ensures NoneTwice(Outputs(txs))
  {
    if |txs| > 0 {
      var init, last := txs[..|txs| - 1], txs[|txs| - 1];
      OutputsNoneTwice(init);
      OutputsHashes(init);
      assert last.hash !in HashesOf(init);
      assert WellFormed(last) && NoneTwice(InTx(last.hash, last.owned));
      if last.unlockTime == 0 {
        NoneTwiceBoth(Outputs(init), InTx(last.hash, last.owned));
      } else {
        assert Outputs(txs) == Outputs(init);
      }
    }
  }

  lemma {:induction false} AcceptedNoneTwice(keys: KeyTable, contains: SubIndex -> bool, os: seq<TxOutput>)
    requires NoneTwice(os)
    ensures NoneTwice(Accepted(keys, contains, os))
  {
    if |os| > 0 {
      var init, last := os[..|os| - 1], os[|os| - 1];
      AcceptedNoneTwice(keys, contains, init);
      AcceptedFrom(keys, contains, init);
      forall o | o in Accepted(keys, contains, init)
        ensures o.Id() != last.Id()
      {
        var k :| 0 <= k < |init| && init[k] == o;
        assert os[k].Id() != os[|os| - 1].Id();
      }
      NoneTwiceBoth(Accepted(keys, contains, init), [last]);
      assert Accepted(keys, contains, init) + [] == Accepted(keys, contains, init);
    }
  }

  /** Where the outputs of the chain come from. */
  lemma {:induction false} ChainHashes(g: Gateway, h: nat)
    ensures forall o :: o in ChainOutputs(g, h) ==>
            exists k: nat :: k <= h && k in g.seen && o.txHash in HashesOf(g.seen[k])
  {
    if h > 0 { ChainHashes(g, h - 1); }
    if h in g.seen {
      AcceptedFrom(g.keys, All(), Outputs(g.seen[h]));
      OutputsHashes(g.seen[h]);
    }
  }

  lemma BlockNoneTwice(keys: KeyTable, txs: seq<Tx>)
    requires DistinctHashes(txs) && AllWellFormed(txs)
    ensures NoneTwice(Accepted(keys, All(), Outputs(txs)))
    ensures forall o :: o in Accepted(keys, All(), Outputs(txs)) ==> o.txHash in HashesOf(txs)
  {
    OutputsNoneTwice(txs);
    AcceptedNoneTwice(keys, All(), Outputs(txs));
    AcceptedFrom(keys, All(), Outputs(txs));
    OutputsHashes(txs);
  }

  lemma {:induction false} ChainNoneTwice(g: Gateway, h: nat)
    requires SeenOnce(g)
    ensures NoneTwice(ChainOutputs(g, h))
  {
    var below := if h == 0 then [] else ChainOutputs(g, h - 1);
    if h > 0 {
      ChainNoneTwice(g, h - 1);
      ChainHashes(g, h - 1);
    }
    if h in g.seen {
      var here := Accepted(g.keys, All(), Outputs(g.seen[h]));
      BlockNoneTwice(g.keys, g.seen[h]);
      forall o, q | o in below && q in here
        ensures o.Id() != q.Id()
      {
        assert q.txHash in HashesOf(g.seen[h]);
        var k: nat :| k <= h - 1 && k in g.seen && o.txHash in HashesOf(g.seen[k]);
        assert HashesOf(g.seen[k]) !! HashesOf(g.seen[h]);
      }
      NoneTwiceBoth(below, here);
    } else {
      assert ChainOutputs(g, h) == below;
    }
  }

  lemma OneTxNoneTwice(keys: KeyTable, tx: Tx)
    requires WellFormed(tx)
    ensures NoneTwice(TxOutputs(keys, tx))
    ensures forall o :: o in TxOutputs(keys, tx) ==> o.txHash == tx.hash
  {
    BlockNoneTwice(keys, [tx]);
    assert HashesOf([tx]) == {tx.hash};
  }

  lemma {:induction false} PoolNoneTwice(p: PoolState, keys: KeyTable, hs: seq<Hash>)
    requires forall i, j :: 0 <= i < j < |hs| ==> hs[i] != hs[j]
    requires forall h :: h in hs && h in p.known ==> p.known[h].hash == h && WellFormed(p.known[h])
    ensures NoneTwice(PoolOutputs(p, keys, hs))
    ensures forall o :: o in PoolOutputs(p, keys, hs) ==> o.txHash in hs
  {
    if |hs| > 0 {
      var init, last := hs[..|hs| - 1], hs[|hs| - 1];
      assert hs == init + [last] && last !in init;
      PoolNoneTwice(p, keys, init);
      if last in p.known {
        OneTxNoneTwice(keys, p.known[last]);
        NoneTwiceBoth(PoolOutputs(p, keys, init), TxOutputs(keys, p.known[last]));
      } else {
        assert PoolOutputs(p, keys, hs) == PoolOutputs(p, keys, init);
      }
    }
  }

  /** When no transaction is in sight at two places, no output is. */
  lemma VisibleNoneTwice(g: Gateway, hs: seq<Hash>)
    requires SeenOnce(g) && PoolBacked(g.pool, g.keys) && Enumerates(hs, g.pool.discovered)
    ensures NoneTwice(Visible(g, hs))
  {
    var chain, pool := ChainOutputs(g, g.cache.height), PoolOutputs(g.pool, g.keys, hs);
    forall h | h in hs && h in g.pool.known
      ensures g.pool.known[h].hash == h && WellFormed(g.pool.known[h])
    {
      assert EntryBacked(g.pool, g.keys, h);
    }
    ChainNoneTwice(g, g.cache.height);
    ChainHashes(g, g.cache.height);
    PoolNoneTwice(g.pool, g.keys, hs);
    forall o, q | o in chain && q in pool
      ensures o.Id() != q.Id()
    {
      var k: nat :| k <= g.cache.height && k in g.seen && o.txHash in HashesOf(g.seen[k]);
      assert q.txHash in g.pool.discovered && HashesOf(g.seen[k]) !! g.pool.discovered.Keys;
    }
    NoneTwiceBoth(chain, pool);
  }

  // ---------------------------------------------------------------------------
  // Each output counts once, for one invoice
  // ---------------------------------------------------------------------------

  lemma {:induction false} AcceptedOwn(keys: KeyTable, contains: SubIndex -> bool, os: seq<TxOutput>)
    ensures forall o :: o in Accepted(keys, contains, os) ==> Owns(keys, o)
  {
    if |os| > 0 { AcceptedOwn(keys, contains, os[..|os| - 1]); }
  }

  lemma {:induction false} ChainOwnsKeys(g: Gateway, h: nat)
    ensures forall o :: o in ChainOutputs(g, h) ==> Owns(g.keys, o)
  {
    if h > 0 { ChainOwnsKeys(g, h - 1); }
    if h in g.seen { AcceptedOwn(g.keys, All(), Outputs(g.seen[h])); }
  }

  lemma {:induction false} PoolOwnsKeys(p: PoolState, keys: KeyTable, hs: seq<Hash>)
    ensures forall o :: o in PoolOutputs(p, keys, hs) ==> Owns(keys, o)
  {
    if |hs| > 0 {
      PoolOwnsKeys(p, keys, hs[..|hs| - 1]);
      if hs[|hs| - 1] in p.known { AcceptedOwn(keys, All(), Outputs([p.known[hs[|hs| - 1]]])); }
    }
  }

  lemma VisibleOwn(g: Gateway, hs: seq<Hash>)
    ensures forall o :: o in Visible(g, hs) ==> Owns(g.keys, o)
  {
    ChainOwnsKeys(g, g.cache.height);
    PoolOwnsKeys(g.pool, g.keys, hs);
  }

  lemma VisibleKeysAreDistinct(g: Gateway, hs: seq<Hash>)
    requires SeenOnce(g) && PoolBacked(g.pool, g.keys) && Enumerates(hs, g.pool.discovered)
    ensures DistinctKeys(Visible(g, hs))
  {
    var os := Visible(g, hs);
    VisibleOwn(g, hs);
    VisibleNoneTwice(g, hs);
    forall i, j | 0 <= i < j < |os|
      ensures os[i].out.key != os[j].out.key
    {
      assert os[i] in os && os[j] in os;
      assert os[i].Id() != os[j].Id();
    }
  }

  /** Conservation over distinct outputs: in every run, at every moment after the first scan at which no transaction is
      in sight at two places, the invoices together are paid at most the worth of outputs with pairwise different keys,
      each the one accepted for its key. */
  lemma PaidByDistinctOutputs(states: seq<Gateway>, events: seq<Event>, n: nat, ids: seq<InvoiceId>, hs: seq<Hash>)
    requires HonestRun(states, events) && n < |states| && !states[n].firstScan && SeenOnce(states[n])
    requires forall i :: 0 <= i < |ids| ==> ids[i] in states[n].invoices
    requires forall i, j :: 0 <= i < j < |ids| ==> ids[i] != ids[j]
    requires Enumerates(hs, states[n].pool.discovered)
    ensures var os := Visible(states[n], hs);
            && DistinctKeys(os) && NoneTwice(os)
            && (forall o :: o in os ==> Owns(states[n].keys, o))
            && TotalPaid(states[n].invoices, ids) <= Worth(os)
  {
    RunKeepsPoolInv(states, events, n);
    TotalPaidIsConserved(states, events, n, ids, hs);
    VisibleNoneTwice(states[n], hs);
    VisibleKeysAreDistinct(states[n], hs);
    VisibleOwn(states[n], hs);
  }

  /** The output backs what the invoice is credited with. */
  ghost predicate Backs(g: Gateway, hs: seq<Hash>, o: TxOutput, id: InvoiceId)
  {
    id in g.invoices && o in Visible(g, hs) && o.out.subIndex == id.subIndex
  }

  /** No output is credited to two invoices, nor are two outputs with the same key credited at all. */
  lemma NoOutputPaysTwoInvoices(states: seq<Gateway>, events: seq<Event>, n: nat, hs: seq<Hash>, o: TxOutput,
                                q: TxOutput, a: InvoiceId, b: InvoiceId)
    requires ErrorFreeRun(states, events) && HonestThroughout(states, events) && n < |states| && SeenOnce(states[n])
    requires Enumerates(hs, states[n].pool.discovered)
    requires Backs(states[n], hs, o, a) && Backs(states[n], hs, q, b) && o.out.key == q.out.key
    ensures o == q && a == b
  {
    RunKeepsPoolInv(states, events, n);
    VisibleKeysAreDistinct(states[n], hs);
    RunKeepsAccount(states, events, n);
    LiveAreDistinct(states[n].lending, states[n].invoices.Keys, a, b);
  }
}
