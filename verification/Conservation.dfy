/** Conservation: what all tracked invoices are credited with never exceeds the outputs in sight. Crediting says when
    each of these is counted once. */
module Conservation {
  import opened Prelude
  import opened Invoices
  import opened Transfers
  import opened Chain
  import opened OutputKeys
  import opened Txpool
  import opened Storage
  import opened Scanning
  import opened Subaddresses
  import opened Ledger
  import opened Upkeep
  import opened Runs

  // ---------------------------------------------------------------------------
  // Sums over outputs and payments
  // ---------------------------------------------------------------------------

  function All(): SubIndex -> bool { s => true }

  /** Total amount of a list of outputs. */
  function Worth(os: seq<TxOutput>): nat
  {
    if |os| == 0 then 0 else Worth(os[..|os| - 1]) + os[|os| - 1].Amount()
  }

  lemma {:induction false} WorthIsSum(os: seq<TxOutput>)
    ensures Worth(os) == Sum(seq(|os|, i requires 0 <= i < |os| => os[i].Amount()))
  {
    if |os| > 0 {
      WorthIsSum(os[..|os| - 1]);
      var xs: seq<nat> := seq(|os|, i requires 0 <= i < |os| => os[i].Amount());
      var ys: seq<nat> := seq(|os| - 1, i requires 0 <= i < |os| - 1 => os[..|os| - 1][i].Amount());
      assert xs[..|xs| - 1] == ys;
    }
  }

  /** What a list of outputs pays to one subaddress. */
  function WorthTo(os: seq<TxOutput>, s: SubIndex): nat
  {
    if |os| == 0 then 0
    else WorthTo(os[..|os| - 1], s) + (if os[|os| - 1].out.subIndex == s then os[|os| - 1].Amount() else 0)
  }

  /** What a list of payments pays to one subaddress. */
  function PaidTo(ps: seq<Payment>, s: SubIndex): nat
  {
    if |ps| == 0 then 0
    else PaidTo(ps[..|ps| - 1], s) + (if ps[|ps| - 1].subIndex == s then ps[|ps| - 1].transfer.amount else 0)
  }

  function NotTo(os: seq<TxOutput>, s: SubIndex): seq<TxOutput>
  {
    if |os| == 0 then []
    else NotTo(os[..|os| - 1], s) + (if os[|os| - 1].out.subIndex == s then [] else [os[|os| - 1]])
  }

  lemma {:induction false} WorthSplits(os: seq<TxOutput>, s: SubIndex)
    ensures Worth(os) == WorthTo(os, s) + Worth(NotTo(os, s))
  {
    if |os| > 0 {
      WorthSplits(os[..|os| - 1], s);
      var rest := NotTo(os[..|os| - 1], s);
      assert (rest + [os[|os| - 1]])[..|rest|] == rest && rest + [] == rest;
    }
  }

  lemma {:induction false} WorthToOthers(os: seq<TxOutput>, s: SubIndex, t: SubIndex)
    requires s != t
    ensures WorthTo(NotTo(os, s), t) == WorthTo(os, t)
  {
    if |os| > 0 {
      WorthToOthers(os[..|os| - 1], s, t);
      var rest := NotTo(os[..|os| - 1], s);
      assert (rest + [os[|os| - 1]])[..|rest|] == rest && rest + [] == rest;
    }
  }

  lemma {:induction false} WorthToConcat(a: seq<TxOutput>, b: seq<TxOutput>, s: SubIndex)
    ensures WorthTo(a + b, s) == WorthTo(a, s) + WorthTo(b, s)
  {
    if |b| == 0 {
      assert a + b == a;
    } else {
      assert (a + b)[..|a + b| - 1] == a + b[..|b| - 1];
      WorthToConcat(a, b[..|b| - 1], s);
    }
  }

  lemma {:induction false} PaidToConcat(a: seq<Payment>, b: seq<Payment>, s: SubIndex)
    ensures PaidTo(a + b, s) == PaidTo(a, s) + PaidTo(b, s)
  {
    if |b| == 0 {
      assert a + b == a;
    } else {
      assert (a + b)[..|a + b| - 1] == a + b[..|b| - 1];
      PaidToConcat(a, b[..|b| - 1], s);
    }
  }

  lemma {:induction false} AcceptedConcat(keys: KeyTable, contains: SubIndex -> bool, a: seq<TxOutput>,
                                          b: seq<TxOutput>)
    ensures Accepted(keys, contains, a + b) == Accepted(keys, contains, a) + Accepted(keys, contains, b)
  {
    if |b| == 0 {
      assert a + b == a;
    } else {
      assert (a + b)[..|a + b| - 1] == a + b[..|b| - 1];
      AcceptedConcat(keys, contains, a, b[..|b| - 1]);
    }
  }

  /** The subaddresses of distinct invoices split a list of outputs: what they receive together is at most its worth. */
  function WorthToEach(os: seq<TxOutput>, ss: seq<SubIndex>): nat
  {
    if |ss| == 0 then 0 else WorthToEach(os, ss[..|ss| - 1]) + WorthTo(os, ss[|ss| - 1])
  }

  lemma {:induction false} EachWithout(os: seq<TxOutput>, s: SubIndex, ss: seq<SubIndex>)
    requires s !in ss
    ensures WorthToEach(NotTo(os, s), ss) == WorthToEach(os, ss)
  {
    if |ss| > 0 {
      assert ss[|ss| - 1] in ss;
      EachWithout(os, s, ss[..|ss| - 1]);
      WorthToOthers(os, s, ss[|ss| - 1]);
    }
  }

  lemma {:induction false} EachAtMostWorth(os: seq<TxOutput>, ss: seq<SubIndex>)
    requires forall i, j :: 0 <= i < j < |ss| ==> ss[i] != ss[j]
    ensures WorthToEach(os, ss) <= Worth(os)
    decreases |ss|
  {
    if |ss| > 0 {
      var s := ss[|ss| - 1];
      EachWithout(os, s, ss[..|ss| - 1]);
      EachAtMostWorth(NotTo(os, s), ss[..|ss| - 1]);
      WorthSplits(os, s);
    }
  }

  // ---------------------------------------------------------------------------
  // The mined part
  // ---------------------------------------------------------------------------

  lemma {:induction false} CreditsWorth(keys: KeyTable, os: seq<TxOutput>, s: SubIndex)
    ensures Sum(Credits(keys, os, s)) == WorthTo(Accepted(keys, All(), os), s)
  {
    if |os| > 0 {
      var init, last := os[..|os| - 1], os[|os| - 1];
      CreditsWorth(keys, init, s);
      SumConcat(Credits(keys, init, s), if Owns(keys, last) && last.out.subIndex == s then [last.Amount()] else []);
      var before := Accepted(keys, All(), init);
      assert (before + [last])[..|before|] == before;
      assert before + [] == before;
    }
  }

  /** The outputs that own their key in the last-seen blocks up to height h. */
  function ChainOutputs(g: Gateway, h: nat): seq<TxOutput>
  {
    (if h == 0 then [] else ChainOutputs(g, h - 1)) +
    (if h in g.seen then Accepted(g.keys, All(), Outputs(g.seen[h])) else [])
  }

  lemma {:induction false} LedgerSumWorth(g: Gateway, id: InvoiceId, h: nat)
    requires id in g.since
    ensures LedgerSum(g, id, h) <= WorthTo(ChainOutputs(g, h), id.subIndex)
  {
    var below := if h == 0 then [] else ChainOutputs(g, h - 1);
    var here := if h in g.seen then Accepted(g.keys, All(), Outputs(g.seen[h])) else [];
    WorthToConcat(below, here, id.subIndex);
    if h > 0 { LedgerSumWorth(g, id, h - 1); }
    if h in g.seen { CreditsWorth(g.keys, Outputs(g.seen[h]), id.subIndex); }
  }

  // ---------------------------------------------------------------------------
  // The pool's part
  // ---------------------------------------------------------------------------

  /** The outputs of one transaction that own their key. */
  function TxOutputs(keys: KeyTable, tx: Tx): seq<TxOutput> { Accepted(keys, All(), Outputs([tx])) }

  /** ... of the pool transactions in a list of hashes. */
  function PoolOutputs(p: PoolState, keys: KeyTable, hs: seq<Hash>): seq<TxOutput>
  {
    if |hs| == 0 then []
    else PoolOutputs(p, keys, hs[..|hs| - 1]) +
         (if hs[|hs| - 1] in p.known then TxOutputs(keys, p.known[hs[|hs| - 1]]) else [])
  }

  /** The payments are covered, subaddress by subaddress, by the outputs. */
  ghost predicate Backed(ps: seq<Payment>, os: seq<TxOutput>)
  {
    forall s: SubIndex :: PaidTo(ps, s) <= WorthTo(os, s)
  }

  /** What is remembered of a pool transaction is backed by its own outputs, all registered. */
  ghost predicate EntryBacked(p: PoolState, keys: KeyTable, h: Hash)
    requires h in p.discovered
  {
    && h in p.known && p.known[h].hash == h
    && Covers(keys, Outputs([p.known[h]]))
    && Backed(p.discovered[h], TxOutputs(keys, p.known[h]))
  }

  ghost predicate PoolBacked(p: PoolState, keys: KeyTable)
  {
    forall h :: h in p.discovered ==> EntryBacked(p, keys, h)
  }

  lemma {:induction false} FlattenBacked(p: PoolState, keys: KeyTable, hs: seq<Hash>, s: SubIndex)
    requires PoolBacked(p, keys)
    ensures PaidTo(Flatten(p.discovered, hs), s) <= WorthTo(PoolOutputs(p, keys, hs), s)
  {
    if |hs| > 0 {
      var init, h := hs[..|hs| - 1], hs[|hs| - 1];
      FlattenBacked(p, keys, init, s);
      PaidToConcat(Flatten(p.discovered, init), if h in p.discovered then p.discovered[h] else [], s);
      WorthToConcat(PoolOutputs(p, keys, init), if h in p.known then TxOutputs(keys, p.known[h]) else [], s);
      if h in p.discovered { assert EntryBacked(p, keys, h); }
    }
  }

  /** The order of payments does not matter to the sum. */
  lemma {:induction false} PaidToPermutation(a: seq<Payment>, b: seq<Payment>, s: SubIndex)
    requires multiset(a) == multiset(b)
    ensures PaidTo(a, s) == PaidTo(b, s)
    decreases |a|
  {
    if |a| == 0 {
      assert |multiset(b)| == 0;
      assert b == [];
    } else {
      var k := FindLast(a, b);
      PaidToPermutation(a[..|a| - 1], RemoveAt(b, k), s);
      assert b == b[..k] + [b[k]] + b[k + 1..];
      PaidToConcat(b[..k], b[k + 1..], s);
      PaidToConcat(b[..k], [b[k]], s);
      PaidToConcat(b[..k] + [b[k]], b[k + 1..], s);
    }
  }

  // ---------------------------------------------------------------------------
  // What a pool scan finds is backed
  // ---------------------------------------------------------------------------

  /** What outputs of one transaction in a list pay to a subaddress. */
  function WorthFrom(os: seq<TxOutput>, s: SubIndex, h: Hash): nat
  {
    if |os| == 0 then 0
    else WorthFrom(os[..|os| - 1], s, h) +
         (if os[|os| - 1].out.subIndex == s && os[|os| - 1].txHash == h then os[|os| - 1].Amount() else 0)
  }

  lemma {:induction false} GroupWorth(found: seq<TxOutput>, s: SubIndex, h: Hash)
    ensures PaidTo(if h in Group(found) then Group(found)[h] else [], s) == WorthFrom(found, s, h)
  {
    if |found| > 0 {
      var init, o := found[..|found| - 1], found[|found| - 1];
      GroupWorth(init, s, h);
      if o.txHash == h {
        var before := if h in Group(init) then Group(init)[h] else [];
        var p := Payment(o.out.subIndex, Transfer(o.Amount(), None));
        assert (before + [p])[..|before|] == before;
      }
    }
  }

  lemma {:induction false} WorthFromConcat(a: seq<TxOutput>, b: seq<TxOutput>, s: SubIndex, h: Hash)
    ensures WorthFrom(a + b, s, h) == WorthFrom(a, s, h) + WorthFrom(b, s, h)
  {
    if |b| == 0 {
      assert a + b == a;
    } else {
      assert (a + b)[..|a + b| - 1] == a + b[..|b| - 1];
      WorthFromConcat(a, b[..|b| - 1], s, h);
    }
  }

  lemma WorthOne(o: TxOutput, s: SubIndex, h: Hash)
    ensures WorthTo([o], s) == if o.out.subIndex == s then o.Amount() else 0
    ensures WorthFrom([o], s, h) == if o.out.subIndex == s && o.txHash == h then o.Amount() else 0
  {
    assert [o][..|[o]| - 1] == [];
  }

  lemma FilteredStep(some: seq<TxOutput>, every: seq<TxOutput>, o: TxOutput, owned: bool, passed: bool, s: SubIndex,
                     h: Hash)
    requires passed ==> owned
    requires WorthFrom(some, s, h) <= WorthTo(every, s)
    ensures WorthFrom(some + (if passed then [o] else []), s, h) <= WorthTo(every + (if owned then [o] else []), s)
  {
    WorthFromConcat(some, if passed then [o] else [], s, h);
    WorthToConcat(every, if owned then [o] else [], s);
    WorthOne(o, s, h);
  }

  /** A narrower filter accepts no more. */
  lemma {:induction false} FilteredWorth(keys: KeyTable, contains: SubIndex -> bool, os: seq<TxOutput>, s: SubIndex,
                                         h: Hash)
    ensures WorthFrom(Accepted(keys, contains, os), s, h) <= WorthTo(Accepted(keys, All(), os), s)
  {
    if |os| > 0 {
      var init, last := os[..|os| - 1], os[|os| - 1];
      FilteredWorth(keys, contains, init, s, h);
      FilteredStep(Accepted(keys, contains, init), Accepted(keys, All(), init), last,
                   Owns(keys, last), Owns(keys, last) && contains(last.out.subIndex), s, h);
    }
  }

  lemma {:induction false} NothingFrom(keys: KeyTable, contains: SubIndex -> bool, os: seq<TxOutput>, s: SubIndex,
                                       h: Hash)
    requires forall o :: o in os ==> o.txHash != h
    ensures WorthFrom(Accepted(keys, contains, os), s, h) == 0
  {
    if |os| > 0 {
      var init, last := os[..|os| - 1], os[|os| - 1];
      assert last in os;
      NothingFrom(keys, contains, init, s, h);
      var some := Accepted(keys, contains, init);
      assert (some + [last])[..|some|] == some && some + [] == some;
    }
  }

  lemma {:induction false} OutputsHashes(txs: seq<Tx>)
    ensures forall o :: o in Outputs(txs) ==> o.txHash in HashesOf(txs)
  {
    if |txs| > 0 {
      var init, last := txs[..|txs| - 1], txs[|txs| - 1];
      OutputsHashes(init);
      assert HashesOf(txs) == HashesOf(init) + {last.hash};
    }
  }

  ghost predicate DistinctHashes(txs: seq<Tx>)
  {
    forall i, j :: 0 <= i < j < |txs| ==> txs[i].hash != txs[j].hash
  }

  lemma OneTx(tx: Tx)
    ensures Outputs([tx]) == if tx.unlockTime == 0 then InTx(tx.hash, tx.owned) else []
  {
    assert [tx][..|[tx]| - 1] == [];
  }

  lemma FoundSplits(keys: KeyTable, contains: SubIndex -> bool, txs: seq<Tx>, s: SubIndex, h: Hash)
    requires |txs| > 0
    ensures var init, last := txs[..|txs| - 1], txs[|txs| - 1];
            WorthFrom(Accepted(keys, contains, Outputs(txs)), s, h) ==
            WorthFrom(Accepted(keys, contains, Outputs(init)), s, h)
            + WorthFrom(Accepted(keys, contains, Outputs([last])), s, h)
  {
    var init, last := txs[..|txs| - 1], txs[|txs| - 1];
    OneTx(last);
    assert Outputs(txs) == Outputs(init) + Outputs([last]);
    AcceptedConcat(keys, contains, Outputs(init), Outputs([last]));
    WorthFromConcat(Accepted(keys, contains, Outputs(init)), Accepted(keys, contains, Outputs([last])), s, h);
  }

  lemma LastHashIsNew(txs: seq<Tx>)
    requires DistinctHashes(txs) && |txs| > 0
    ensures var init, last := txs[..|txs| - 1], txs[|txs| - 1];
            && DistinctHashes(init) && HashesOf(txs) == HashesOf(init) + {last.hash} && last.hash !in HashesOf(init)
            && forall h :: h in HashesOf(txs) ==> ByHash(txs)[h] == if h == last.hash then last else ByHash(init)[h]
  {
  }

  lemma FoundInLast(keys: KeyTable, contains: SubIndex -> bool, tx: Tx, s: SubIndex, h: Hash)
    ensures WorthFrom(Accepted(keys, contains, Outputs([tx])), s, h) <=
            if h == tx.hash then WorthTo(TxOutputs(keys, tx), s) else 0
  {
    OneTx(tx);
    if h == tx.hash {
      FilteredWorth(keys, contains, Outputs([tx]), s, h);
    } else {
      NothingFrom(keys, contains, Outputs([tx]), s, h);
    }
  }

  lemma {:induction false} FoundIsBacked(keys: KeyTable, contains: SubIndex -> bool, txs: seq<Tx>, s: SubIndex, h: Hash)
    requires DistinctHashes(txs) && h in HashesOf(txs)
    ensures WorthFrom(Accepted(keys, contains, Outputs(txs)), s, h) <= WorthTo(TxOutputs(keys, ByHash(txs)[h]), s)
  {
    var init, last := txs[..|txs| - 1], txs[|txs| - 1];
    LastHashIsNew(txs);
    FoundSplits(keys, contains, txs, s, h);
    FoundInLast(keys, contains, last, s, h);
    if h == last.hash {
      OutputsHashes(init);
      NothingFrom(keys, contains, Outputs(init), s, h);
    } else {
      FoundIsBacked(keys, contains, init, s, h);
    }
  }

  /** The daemon delivers only requested pool transactions, each once. */
  ghost predicate HonestDelivery(p: PoolState, e: ScanEnv)
  {
    HashesOf(e.delivered) <= Requested(p, e.hashes) && DistinctHashes(e.delivered)
  }

  lemma FoundAreDelivered(keys: KeyTable, e: ScanEnv)
    ensures PoolScanOf(keys, e).found.Keys <= HashesOf(e.delivered)
  {
    var found := Accepted(keys, e.contains, Outputs(e.delivered));
    GroupKeys(found);
    OutputsHashes(e.delivered);
    forall h | h in Group(found)
      ensures h in HashesOf(e.delivered)
    {
      var i :| 0 <= i < |found| && found[i].txHash == h;
      AcceptedFrom(keys, e.contains, Outputs(e.delivered));
      assert found[i] in found;
    }
  }

  lemma {:induction false} AcceptedFrom(keys: KeyTable, contains: SubIndex -> bool, os: seq<TxOutput>)
    ensures forall o :: o in Accepted(keys, contains, os) ==> o in os
  {
    if |os| > 0 { AcceptedFrom(keys, contains, os[..|os| - 1]); }
  }

  lemma {:induction false} DeliveredOutputs(txs: seq<Tx>, h: Hash)
    requires h in HashesOf(txs)
    ensures ByHash(txs)[h] in txs && ByHash(txs)[h].hash == h
    ensures forall o :: o in Outputs([ByHash(txs)[h]]) ==> o in Outputs(txs)
  {
    var init, last := txs[..|txs| - 1], txs[|txs| - 1];
    assert HashesOf(txs) == HashesOf(init) + {last.hash};
    OneTx(last);
    if h != last.hash { DeliveredOutputs(init, h); }
  }

  lemma NewEntryBacked(p: PoolState, keys: KeyTable, e: ScanEnv, h: Hash)
    requires HonestDelivery(p, e) && h in PoolScanOf(keys, e).found
    requires Covers(keys, Outputs(e.delivered))
    ensures EntryBacked(AfterScan(p, PoolScanOf(keys, e)), keys, h)
  {
    FoundAreDelivered(keys, e);
    var q := AfterScan(p, PoolScanOf(keys, e));
    var tx := ByHash(e.delivered)[h];
    assert q.known[h] == tx;
    DeliveredOutputs(e.delivered, h);
    var os := Outputs([tx]);
    forall i | 0 <= i < |os|
      ensures os[i].out.key in keys
    {
      assert os[i] in os;
      var k :| 0 <= k < |Outputs(e.delivered)| && Outputs(e.delivered)[k] == os[i];
    }
    forall s: SubIndex
      ensures PaidTo(q.discovered[h], s) <= WorthTo(TxOutputs(keys, tx), s)
    {
      GroupWorth(Accepted(keys, e.contains, Outputs(e.delivered)), s, h);
      FoundIsBacked(keys, e.contains, e.delivered, s, h);
    }
  }

  lemma OldEntryBacked(p: PoolState, keys: KeyTable, later: KeyTable, e: ScanEnv, h: Hash)
    requires HonestDelivery(p, e) && PoolBacked(p, keys) && Extends(keys, later)
    requires h in AfterScan(p, PoolScanOf(later, e)).discovered && h !in PoolScanOf(later, e).found
    ensures EntryBacked(AfterScan(p, PoolScanOf(later, e)), later, h)
  {
    assert EntryBacked(p, keys, h);
    AcceptedIsStable(keys, later, All(), Outputs([p.known[h]]));
  }

  /** A scan keeps the pool backed, and reports what it remembers. */
  lemma ScanKeepsBacked(p: PoolState, keys: KeyTable, later: KeyTable, e: ScanEnv)
    requires HonestDelivery(p, e) && PoolBacked(p, keys) && Extends(keys, later)
    requires Covers(later, Outputs(e.delivered))
    ensures PoolBacked(AfterScan(p, PoolScanOf(later, e)), later)
    ensures PoolReport(p, PoolScanOf(later, e)) == AfterScan(p, PoolScanOf(later, e)).discovered
  {
    var q := AfterScan(p, PoolScanOf(later, e));
    forall h | h in q.discovered
      ensures EntryBacked(q, later, h)
    {
      if h in PoolScanOf(later, e).found {
        NewEntryBacked(p, later, e, h);
      } else {
        OldEntryBacked(p, keys, later, e, h);
      }
    }
    FoundAreDelivered(later, e);
    assert p.discovered.Keys <= p.known.Keys by {
      forall h | h in p.discovered
        ensures h in p.known
      {
        assert EntryBacked(p, keys, h);
      }
    }
    ReportedIsRemembered(p, PoolScanOf(later, e));
  }

  // ---------------------------------------------------------------------------
  // Runs
  // ---------------------------------------------------------------------------

  /** The invoice's pool transfers are at most what the pool cache remembers for its subaddress. */
  ghost predicate PoolOk(g: Gateway, id: InvoiceId)
    requires id in g.invoices
  {
    forall hs: seq<Hash> :: Enumerates(hs, g.pool.discovered) ==>
      Sum(Select(g.invoices[id].transfers, At(None))) <= PaidTo(Flatten(g.pool.discovered, hs), id.subIndex)
  }

  ghost predicate PoolInv(g: Gateway)
  {
    PoolBacked(g.pool, g.keys) && (!g.firstScan ==> forall id :: id in g.invoices ==> PoolOk(g, id))
  }

  lemma {:induction false} GainedAtMostPaid(ps: seq<Payment>, s: SubIndex, creationHeight: u64)
    ensures Sum(Gained(ps, s, creationHeight, None)) <= PaidTo(ps, s)
  {
    if |ps| > 0 {
      var init, last := ps[..|ps| - 1], ps[|ps| - 1];
      GainedAtMostPaid(init, s, creationHeight);
      assert ps == init + [last];
      GainedConcat(init, [last], s, creationHeight, None);
      GainedOne(last, s, creationHeight, None);
      SumConcat(Gained(init, s, creationHeight, None), Gained([last], s, creationHeight, None));
      assert Sum([last.transfer.amount]) == last.transfer.amount by {
        assert [last.transfer.amount][..0] == [];
      }
    }
  }

  /** After a scan an invoice's pool transfers add up to what the pool report pays it. */
  lemma PoolPartOfScan(g: Gateway, f: Findings, id: InvoiceId)
    requires Orderly(g, id) && Surveyed(g, f)
    ensures id in Apply(g, f).invoices
    ensures Sum(Select(Apply(g, f).invoices[id].transfers, At(None))) <= PaidTo(f.poolPayments, id.subIndex)
  {
    var inv := g.invoices[id];
    var stored := Apply(g, f).invoices[id].transfers;
    StoredAt(g, f, id, None);
    RescannedInPool(inv, f.reports, f.poolPayments, f.cache, f.depth, f.Deepest(), f.keys, f.contains);
    SumPermutation(Select(stored, At(None)), Gained(f.poolPayments, inv.index, inv.creationHeight, None));
    GainedAtMostPaid(f.poolPayments, inv.index, inv.creationHeight);
  }

  /** The pool report is what is remembered, in some order: every order pays each subaddress the same. */
  lemma PoolOkAfterScan(g: Gateway, f: Findings, order: seq<Hash>, id: InvoiceId)
    requires Orderly(g, id) && Surveyed(g, f)
    requires Enumerates(order, f.pool.discovered) && f.poolPayments == Flatten(f.pool.discovered, order)
    ensures id in Apply(g, f).invoices && PoolOk(Apply(g, f), id)
  {
    PoolPartOfScan(g, f, id);
    forall hs: seq<Hash> | Enumerates(hs, f.pool.discovered)
      ensures PaidTo(Flatten(f.pool.discovered, hs), id.subIndex) == PaidTo(f.poolPayments, id.subIndex)
    {
      EnumerationsAgree(hs, order, f.pool.discovered);
      FlattenPermutation(f.pool.discovered, hs, order);
      PaidToPermutation(Flatten(f.pool.discovered, hs), f.poolPayments, id.subIndex);
    }
  }

  lemma ApplyKeepsPoolInv(g: Gateway, f: Findings, order: seq<Hash>)
    requires AllOrderly(g) && Surveyed(g, f) && PoolBacked(f.pool, f.keys)
    requires Enumerates(order, f.pool.discovered) && f.poolPayments == Flatten(f.pool.discovered, order)
    ensures PoolInv(Apply(g, f))
  {
    forall id | id in Apply(g, f).invoices
      ensures PoolOk(Apply(g, f), id)
    {
      assert Orderly(g, id);
      PoolOkAfterScan(g, f, order, id);
    }
  }

  lemma ScanKeepsPoolInv(g: Gateway, e: ScanEnv)
    requires AllOrderly(g) && PoolInv(g) && ErrorFree(g, e) && HonestDelivery(g.pool, e)
    ensures PoolInv(Scan(g, e))
  {
    ErrorFreeIsSurveyed(g, e);
    ScanPoolFacts(g, e);
    ApplyKeepsPoolInv(g, FindingsOf(g, e), e.poolOrder);
  }

  lemma ScanPoolFacts(g: Gateway, e: ScanEnv)
    requires ErrorFree(g, e) && PoolBacked(g.pool, g.keys) && HonestDelivery(g.pool, e)
    ensures var f := FindingsOf(g, e);
            && PoolBacked(f.pool, f.keys)
            && Enumerates(e.poolOrder, f.pool.discovered)
            && f.poolPayments == Flatten(f.pool.discovered, e.poolOrder)
  {
    DeliveredAreCovered(g.keys, e, FindingsOf(g, e));
    RegisterAllExtends(g.keys, e.schedule);
    ScanKeepsBacked(g.pool, g.keys, RegisterAll(g.keys, e.schedule), e);
  }

  lemma DeliveredAreCovered(keys: KeyTable, e: ScanEnv, f: Findings)
    requires WellShaped(f) && f.keys == RegisterAll(keys, e.schedule)
    requires multiset(e.schedule) == multiset(ScannedOutputs(f.cache, f.depth, e.delivered))
    ensures Covers(f.keys, Outputs(e.delivered))
  {
    CoveredBySchedule(keys, e.schedule, ScannedOutputs(f.cache, f.depth, e.delivered), Outputs(e.delivered));
  }

  lemma QuietKeepsPoolInv(g: Gateway, g': Gateway)
    requires PoolInv(g) && Quiet(g, g')
    ensures PoolInv(g')
  {
    forall id | id in g'.invoices && !g'.firstScan
      ensures PoolOk(g', id)
    {
      if Untouched(g, g', id) { assert PoolOk(g, id); }
    }
  }

  lemma NextKeepsPoolInv(g: Gateway, ev: Event)
    requires AllOrderly(g) && PoolInv(g) && CanHappen(g, ev)
    requires ev.Scanned? ==> HonestDelivery(g.pool, ev.env)
    ensures PoolInv(Next(g, ev))
  {
    if ev.Scanned? {
      ScanKeepsPoolInv(g, ev.env);
    } else {
      OthersAreQuiet(g, ev);
      QuietKeepsPoolInv(g, Next(g, ev));
    }
  }

  /** Every scan met an honest daemon, and nothing was remembered of the pool at the start. */
  ghost predicate HonestThroughout(states: seq<Gateway>, events: seq<Event>)
    requires |states| == |events| + 1
  {
    states[0].pool.discovered == map[] && forall i :: 0 <= i < |events| ==> HonestAt(states[i], events[i])
  }

  ghost predicate HonestRun(states: seq<Gateway>, events: seq<Event>)
  {
    Run(states, events) && HonestThroughout(states, events)
  }

  ghost predicate HonestAt(g: Gateway, ev: Event) { ev.Scanned? ==> HonestDelivery(g.pool, ev.env) }

  lemma {:induction false} RunKeepsPoolInv(states: seq<Gateway>, events: seq<Event>, n: nat)
    requires ErrorFreeRun(states, events) && HonestThroughout(states, events) && n < |states|
    ensures PoolInv(states[n])
  {
    if n > 0 {
      RunKeepsPoolInv(states, events, n - 1);
      StepKeepsPoolInv(states, events, n - 1);
    }
  }

  lemma StepKeepsPoolInv(states: seq<Gateway>, events: seq<Event>, k: nat)
    requires ErrorFreeRun(states, events) && HonestThroughout(states, events) && k < |events| && PoolInv(states[k])
    ensures PoolInv(states[k + 1])
  {
    RunStaysOrderly(states, events, k);
    assert StepAt(states, events, k) && HonestAt(states[k], events[k]);
    NextKeepsPoolInv(states[k], events[k]);
  }

  // ---------------------------------------------------------------------------
  // Conservation
  // ---------------------------------------------------------------------------

  /** The accepted outputs the gateway can see: those of the last-seen blocks, and those of remembered pool
      transactions. */
  function Visible(g: Gateway, hs: seq<Hash>): seq<TxOutput>
  {
    ChainOutputs(g, g.cache.height) + PoolOutputs(g.pool, g.keys, hs)
  }

  /** What one invoice is credited with is covered by the visible outputs to its subaddress. */
  lemma PaidIsVisible(g: Gateway, id: InvoiceId, hs: seq<Hash>)
    requires Inv(g) && PoolInv(g) && !g.firstScan && id in g.invoices && Enumerates(hs, g.pool.discovered)
    ensures g.invoices[id].amountPaid <= WorthTo(Visible(g, hs), id.subIndex)
  {
    var inv := g.invoices[id];
    assert InvoiceOk(g, id) && PoolOk(g, id);
    PaidHeightIsFirstMet(inv.transfers, inv.amountRequested);
    MinedBelowCache(g, id);
    TotalByHeight(inv.transfers, g.cache.height);
    SumIsLedgerSum(g, id, g.cache.height);
    LedgerSumWorth(g, id, g.cache.height);
    FlattenBacked(g.pool, g.keys, hs, id.subIndex);
    WorthToConcat(ChainOutputs(g, g.cache.height), PoolOutputs(g.pool, g.keys, hs), id.subIndex);
  }

  lemma MinedBelowCache(g: Gateway, id: InvoiceId)
    requires id in g.invoices && id in g.since && InvoiceOk(g, id) && !g.firstScan
    ensures forall t :: t in g.invoices[id].transfers && t.height.Some? ==> t.height.value <= g.cache.height
  {
    forall t | t in g.invoices[id].transfers && t.height.Some?
      ensures t.height.value <= g.cache.height
    {
      SelectFinds(g.invoices[id].transfers, t);
      assert LedgerAt(g, id, t.height.value);
      assert |multiset(Expected(g, id, t.height.value))| > 0;
    }
  }

  function TotalPaid(invoices: InvoiceTable, ids: seq<InvoiceId>): nat
    requires forall i :: 0 <= i < |ids| ==> ids[i] in invoices
  {
    if |ids| == 0 then 0 else TotalPaid(invoices, ids[..|ids| - 1]) + invoices[ids[|ids| - 1]].amountPaid
  }

  function SubIndices(ids: seq<InvoiceId>): seq<SubIndex>
  {
    seq(|ids|, i requires 0 <= i < |ids| => ids[i].subIndex)
  }

  lemma {:induction false} TotalPaidIsVisible(invoices: InvoiceTable, ids: seq<InvoiceId>, os: seq<TxOutput>)
    requires forall i :: 0 <= i < |ids| ==> ids[i] in invoices
    requires forall i :: 0 <= i < |ids| ==> invoices[ids[i]].amountPaid <= WorthTo(os, ids[i].subIndex)
    ensures TotalPaid(invoices, ids) <= WorthToEach(os, SubIndices(ids))
  {
    if |ids| > 0 {
      var init := ids[..|ids| - 1];
      TotalPaidIsVisible(invoices, init, os);
      assert SubIndices(ids)[..|ids| - 1] == SubIndices(init);
    }
  }

  /** Conservation: in every run, at every moment after the first scan, the amounts credited to all tracked invoices
      together never exceed the accepted outputs in sight (those of the last-seen blocks, and those of the remembered
      pool transactions; a transaction in both counts twice). */
  lemma TotalPaidIsConserved(states: seq<Gateway>, events: seq<Event>, n: nat, ids: seq<InvoiceId>, hs: seq<Hash>)
    requires HonestRun(states, events) && n < |states| && !states[n].firstScan
    requires forall i :: 0 <= i < |ids| ==> ids[i] in states[n].invoices
    requires forall i, j :: 0 <= i < j < |ids| ==> ids[i] != ids[j]
    requires Enumerates(hs, states[n].pool.discovered)
    ensures TotalPaid(states[n].invoices, ids) <= Worth(Visible(states[n], hs))
  {
    var g := states[n];
    RunKeepsInv(states, events, n);
    RunKeepsPoolInv(states, events, n);
    forall i | 0 <= i < |ids|
      ensures g.invoices[ids[i]].amountPaid <= WorthTo(Visible(g, hs), ids[i].subIndex)
    {
      PaidIsVisible(g, ids[i], hs);
    }
    TotalPaidIsVisible(g.invoices, ids, Visible(g, hs));
    var ss := SubIndices(ids);
    forall i, j | 0 <= i < j < |ss|
      ensures ss[i] != ss[j]
    {
      if ss[i] == ss[j] { LiveAreDistinct(g.lending, g.invoices.Keys, ids[i], ids[j]); }
    }
    EachAtMostWorth(Visible(g, hs), ss);
  }

  /** Hence amounts in 64 bits never overflow while the outputs in sight are worth less than 2^64 piconeros. */
  lemma AmountPaidFits(states: seq<Gateway>, events: seq<Event>, n: nat, id: InvoiceId, hs: seq<Hash>)
    requires HonestRun(states, events) && n < |states| && !states[n].firstScan && id in states[n].invoices
    requires Enumerates(hs, states[n].pool.discovered) && Worth(Visible(states[n], hs)) < U64_LIMIT
    ensures states[n].invoices[id].amountPaid < U64_LIMIT
  {
    TotalPaidIsConserved(states, events, n, [id], hs);
    assert [id][..0] == [];
  }
}
