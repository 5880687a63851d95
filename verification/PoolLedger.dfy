/** The pool's part of the ledger, output by output: what an invoice holds from the txpool after a scan, counted over
    the
    transactions still in the pool since a scan was handed them (library/src/scanner.rs:321-368). */
module PoolLedger {
  import opened Prelude
  import opened Invoices
  import opened Transfers
  import opened Chain
  import opened OutputKeys
  import opened Scanning
  import opened Ledger
  import opened Runs
  import opened Filtering
  import opened Conservation
  import opened FilterRuns
  import opened Itemised

  // ---------------------------------------------------------------------------
  // Counting what a hand-over found
  // ---------------------------------------------------------------------------

  function AmountTo(s: SubIndex, h: Hash, a: nat): TxOutput -> bool
  {
    (o: TxOutput) => o.txHash == h && o.out.subIndex == s && o.Amount() == a
  }

  function AcceptedTo(keys: KeyTable, contains: SubIndex -> bool, s: SubIndex, h: Hash, a: nat): TxOutput -> bool
  {
    (o: TxOutput) => Owns(keys, o) && contains(o.out.subIndex) && AmountTo(s, h, a)(o)
  }

  lemma {:induction false} AmountsCount(os: seq<TxOutput>, s: SubIndex, h: Hash, a: nat)
    ensures multiset(AmountsFrom(os, s, h))[a] == Count(os, AmountTo(s, h, a))
  {
    if |os| > 0 { AmountsCount(os[..|os| - 1], s, h, a); }
  }

  lemma {:induction false} AcceptedCount(keys: KeyTable, contains: SubIndex -> bool, os: seq<TxOutput>, s: SubIndex,
                                         h: Hash, a: nat)
    ensures Count(Accepted(keys, contains, os), AmountTo(s, h, a)) == Count(os, AcceptedTo(keys, contains, s, h, a))
  {
    if |os| > 0 {
      var init, last := os[..|os| - 1], os[|os| - 1];
      AcceptedCount(keys, contains, init, s, h, a);
      var before := Accepted(keys, contains, init);
      assert (before + [last])[..|before|] == before && before + [] == before;
    }
  }

  lemma FoundCount(keys: KeyTable, contains: SubIndex -> bool, txs: seq<Tx>, s: SubIndex, h: Hash, a: nat)
    ensures multiset(AmountsFrom(Accepted(keys, contains, Outputs(txs)), s, h))[a] ==
            |Positions(txs, AcceptedTo(keys, contains, s, h, a))|
  {
    AmountsCount(Accepted(keys, contains, Outputs(txs)), s, h, a);
    AcceptedCount(keys, contains, Outputs(txs), s, h, a);
    OutputsAreAll(txs, AcceptedTo(keys, contains, s, h, a));
  }

  // ---------------------------------------------------------------------------
  // Positions in the pool
  // ---------------------------------------------------------------------------

  /** Output j of transaction i handed over at event k pays amount a to subaddress s, is the output its key belongs to,
      passed the filter of that scan, and its transaction has been in the pool ever since, until before event n. */
  ghost predicate PaysFromPool(states: seq<Gateway>, events: seq<Event>, n: nat, k: nat, i: nat, j: nat, s: SubIndex,
                               a: nat)
    requires n <= |events| < |states|
  {
    && k < n && events[k].Scanned? && i < |events[k].env.delivered|
    && var tx := events[k].env.delivered[i];
    && Pays(states[k + 1].keys, tx, j, s, a) && events[k].env.contains(s)
    && forall l :: k <= l < n && events[l].Scanned? ==> tx.hash in events[l].env.hashes
  }

  /** All such positions: event, transaction, output. */
  ghost function PoolPositions(states: seq<Gateway>, events: seq<Event>, n: nat, s: SubIndex, a: nat):
    set<(nat, nat, nat)>
    requires n <= |events| < |states|
  {
    set k: nat, i: nat, j: nat | k < n && events[k].Scanned? && i < |events[k].env.delivered| &&
      j < |events[k].env.delivered[i].owned| && PaysFromPool(states, events, n, k, i, j, s, a) :: (k, i, j)
  }

  /** The hash of the transaction at a position. */
  ghost function HashAt(events: seq<Event>, x: (nat, nat, nat)): Option<Hash>
  {
    if x.0 < |events| && events[x.0].Scanned? && x.1 < |events[x.0].env.delivered|
    then Some(events[x.0].env.delivered[x.1].hash) else None
  }

  /** The positions whose transaction is in a list of hashes. */
  ghost function Among(events: seq<Event>, xs: set<(nat, nat, nat)>, hs: seq<Hash>): set<(nat, nat, nat)>
  {
    set x | x in xs && HashAt(events, x).Some? && HashAt(events, x).value in hs
  }

  /** Positions in one transaction list, tagged with the event. */
  ghost function Tagged(k: nat, xs: set<(nat, nat)>): set<(nat, nat, nat)>
  {
    set x | x in xs :: (k, x.0, x.1)
  }

  lemma {:induction false} TaggedSize(k: nat, xs: set<(nat, nat)>)
    ensures |Tagged(k, xs)| == |xs|
  {
    if xs != {} {
      var x :| x in xs;
      TaggedSize(k, xs - {x});
      assert Tagged(k, xs) == Tagged(k, xs - {x}) + {(k, x.0, x.1)};
    } else {
      assert Tagged(k, xs) == {};
    }
  }

  lemma PositionPays(keys: KeyTable, contains: SubIndex -> bool, txs: seq<Tx>, i: nat, j: nat, s: SubIndex, h: Hash,
                     a: nat)
    ensures HasAt(txs, i, j, AcceptedTo(keys, contains, s, h, a)) <==>
            i < |txs| && txs[i].hash == h && contains(s) && Pays(keys, txs[i], j, s, a)
  {
    if i < |txs| && j < |txs[i].owned| {
      var o := TxOutput(txs[i].hash, txs[i].owned[j]);
      assert AmountTo(s, h, a)(o) <==> o.txHash == h && o.out.subIndex == s && o.Amount() == a;
      assert AcceptedTo(keys, contains, s, h, a)(o) <==>
             Owns(keys, o) && contains(o.out.subIndex) && AmountTo(s, h, a)(o);
    }
  }

  /** The positions of one hash are those in the transactions handed over with it. */
  lemma OneHash(states: seq<Gateway>, events: seq<Event>, n: nat, h: Hash, k: nat, s: SubIndex, a: nat)
    requires ErrorFreeRun(states, events) && HonestThroughout(states, events) && n <= |events|
    requires Handed(events, h, k, n)
    ensures var e := events[k].env;
            Among(events, PoolPositions(states, events, n, s, a), [h]) ==
            Tagged(k, Positions(e.delivered, AcceptedTo(states[k + 1].keys, e.contains, s, h, a)))
  {
    var e, all := events[k].env, PoolPositions(states, events, n, s, a);
    var p := AcceptedTo(states[k + 1].keys, e.contains, s, h, a);
    forall x | x in Among(events, all, [h])
      ensures x in Tagged(k, Positions(e.delivered, p))
    {
      assert PaysFromPool(states, events, n, x.0, x.1, x.2, s, a);
      assert Handed(events, h, x.0, n);
      HandedOnce(states, events, h, x.0, k, n);
      PositionPays(states[k + 1].keys, e.contains, e.delivered, x.1, x.2, s, h, a);
      assert (x.1, x.2) in Positions(e.delivered, p);
    }
    forall x | x in Tagged(k, Positions(e.delivered, p))
      ensures x in Among(events, all, [h])
    {
      PositionPays(states[k + 1].keys, e.contains, e.delivered, x.1, x.2, s, h, a);
      assert PaysFromPool(states, events, n, k, x.1, x.2, s, a);
    }
  }

  /** What is remembered of one hash pays an invoice what stands at those positions. */
  lemma OneHashCounts(states: seq<Gateway>, events: seq<Event>, n: nat, h: Hash, s: SubIndex, c: u64, a: nat)
    requires ErrorFreeRun(states, events) && HonestThroughout(states, events) && n <= |events|
    ensures multiset(GainedFrom(states[n].pool.discovered, h, s, c))[a] ==
            |Among(events, PoolPositions(states, events, n, s, a), [h])|
  {
    var all := PoolPositions(states, events, n, s, a);
    if k: nat :| Handed(events, h, k, n) {
      var e := events[k].env;
      RememberedPays(states, events, n, h, k, s, c);
      FoundCount(states[k + 1].keys, e.contains, e.delivered, s, h, a);
      OneHash(states, events, n, h, k, s, a);
      TaggedSize(k, Positions(e.delivered, AcceptedTo(states[k + 1].keys, e.contains, s, h, a)));
    } else {
      UnhandedPaysNothing(states, events, n, h, s, c);
      assert Among(events, all, [h]) == {} by {
        forall x | x in Among(events, all, [h])
          ensures Handed(events, h, x.0, n)
        {
          assert PaysFromPool(states, events, n, x.0, x.1, x.2, s, a);
        }
      }
    }
  }

  lemma AmongSplit(events: seq<Event>, xs: set<(nat, nat, nat)>, init: seq<Hash>, h: Hash)
    requires h !in init
    ensures |Among(events, xs, init + [h])| == |Among(events, xs, init)| + |Among(events, xs, [h])|
  {
    assert Among(events, xs, init + [h]) == Among(events, xs, init) + Among(events, xs, [h]);
    assert Among(events, xs, init) !! Among(events, xs, [h]);
  }

  lemma {:induction false} FlattenCounts(states: seq<Gateway>, events: seq<Event>, n: nat, hs: seq<Hash>, s: SubIndex,
                                         c: u64, a: nat)
    requires ErrorFreeRun(states, events) && HonestThroughout(states, events) && n <= |events| && NoRepeats(hs)
    ensures multiset(Gained(Flatten(states[n].pool.discovered, hs), s, c, None))[a] ==
            |Among(events, PoolPositions(states, events, n, s, a), hs)|
  {
    var m, all := states[n].pool.discovered, PoolPositions(states, events, n, s, a);
    if |hs| > 0 {
      var init, h := hs[..|hs| - 1], hs[|hs| - 1];
      assert hs == init + [h] && h !in init;
      FlattenCounts(states, events, n, init, s, c, a);
      OneHashCounts(states, events, n, h, s, c, a);
      AmongSplit(events, all, init, h);
      GainedConcat(Flatten(m, init), if h in m then m[h] else [], s, c, None);
    } else {
      assert Among(events, all, hs) == {};
    }
  }

  /** Every position belongs to a remembered transaction. */
  lemma AllRemembered(states: seq<Gateway>, events: seq<Event>, n: nat, hs: seq<Hash>, s: SubIndex, c: u64, a: nat)
    requires ErrorFreeRun(states, events) && HonestThroughout(states, events) && n <= |events|
    requires Enumerates(hs, states[n].pool.discovered)
    ensures Among(events, PoolPositions(states, events, n, s, a), hs) == PoolPositions(states, events, n, s, a)
  {
    var all := PoolPositions(states, events, n, s, a);
    forall x | x in all
      ensures x in Among(events, all, hs)
    {
      assert PaysFromPool(states, events, n, x.0, x.1, x.2, s, a);
      var h := events[x.0].env.delivered[x.1].hash;
      OneHashCounts(states, events, n, h, s, c, a);
      assert x in Among(events, all, [h]);
      assert |Among(events, all, [h])| > 0;
      assert h in states[n].pool.discovered;
    }
  }

  /** The pool, output by output. In every error-free run with an honest daemon, right after a scan, an invoice holds a
      pool transfer of an amount exactly as often as outputs of that amount to its subaddress, each the one its key
      belongs to, stand in transactions that a scan was handed, that passed that scan's filter, and that have been in
      the
      pool ever since. */
  lemma PoolByOutput(states: seq<Gateway>, events: seq<Event>, n: nat, id: InvoiceId, a: nat)
    requires ErrorFreeRun(states, events) && HonestThroughout(states, events)
    requires 0 < n <= |events| && events[n - 1].Scanned? && id in states[n].invoices
    ensures multiset(states[n].invoices[id].transfers)[Transfer(a, None)] ==
            |PoolPositions(states, events, n, id.subIndex, a)|
  {
    var s, c := id.subIndex, id.creationHeight;
    var order := PoolPart(states, events, n, id);
    CountByHeight(states[n].invoices[id].transfers, Transfer(a, None));
    FlattenCounts(states, events, n, order, s, c, a);
    AllRemembered(states, events, n, order, s, c, a);
  }
}
