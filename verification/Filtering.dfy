/** Two facts about what a scan depends on: which invoices it stores does not depend on the store's subaddress filter or
    on hash map order, though whether it fails may; and the first scan after a restart is exact only for invoices with
    nothing mined in its window. */
module Filtering {
  import opened Prelude
  import opened Invoices
  import opened Transfers
  import opened Chain
  import opened BlockCaching
  import opened OutputKeys
  import opened Txpool
  import opened Storage
  import opened Scanning
  import opened Ledger
  import opened Upkeep

  // ---------------------------------------------------------------------------
  // What a pool report pays one subaddress
  // ---------------------------------------------------------------------------

  /** What a report of pool payments adds to an invoice from one transaction. */
  function GainedFrom(m: map<Hash, seq<Payment>>, h: Hash, s: SubIndex, creationHeight: u64): seq<nat>
  {
    if h in m then Gained(m[h], s, creationHeight, None) else []
  }

  /** The amounts that outputs of one transaction in a list pay to a subaddress. */
  function AmountsFrom(os: seq<TxOutput>, s: SubIndex, h: Hash): seq<nat>
  {
    if |os| == 0 then []
    else
      var o := os[|os| - 1];
      AmountsFrom(os[..|os| - 1], s, h) + (if o.txHash == h && o.out.subIndex == s then [o.Amount()] else [])
  }

  lemma {:induction false} GroupGains(found: seq<TxOutput>, h: Hash, s: SubIndex, creationHeight: u64)
    ensures GainedFrom(Group(found), h, s, creationHeight) == AmountsFrom(found, s, h)
  {
    if |found| > 0 {
      var init, o := found[..|found| - 1], found[|found| - 1];
      GroupGains(init, h, s, creationHeight);
      if o.txHash == h {
        var before := if h in Group(init) then Group(init)[h] else [];
        var p := Payment(o.out.subIndex, Transfer(o.Amount(), None));
        GainedConcat(before, [p], s, creationHeight, None);
        GainedOne(p, s, creationHeight, None);
      }
    }
  }

  /** What a live subaddress receives does not depend on the filter. */
  lemma {:induction false} AmountsAreUnfiltered(keys: KeyTable, contains: SubIndex -> bool, contains': SubIndex -> bool,
                                                os: seq<TxOutput>, s: SubIndex, h: Hash)
    requires contains(s) && contains'(s)
    ensures AmountsFrom(Accepted(keys, contains, os), s, h) == AmountsFrom(Accepted(keys, contains', os), s, h)
  {
    if |os| > 0 {
      var init, last := os[..|os| - 1], os[|os| - 1];
      AmountsAreUnfiltered(keys, contains, contains', init, s, h);
      AmountsSnoc(Accepted(keys, contains, init), last, s, h);
      AmountsSnoc(Accepted(keys, contains', init), last, s, h);
      assert Accepted(keys, contains, init) + [] == Accepted(keys, contains, init);
      assert Accepted(keys, contains', init) + [] == Accepted(keys, contains', init);
    }
  }

  lemma AmountsSnoc(os: seq<TxOutput>, o: TxOutput, s: SubIndex, h: Hash)
    ensures AmountsFrom(os + [o], s, h) ==
            AmountsFrom(os, s, h) + (if o.txHash == h && o.out.subIndex == s then [o.Amount()] else [])
  {
    assert (os + [o])[..|os|] == os;
  }

  // ---------------------------------------------------------------------------
  // Reports over different hashes in different orders
  // ---------------------------------------------------------------------------

  ghost predicate NoRepeats(hs: seq<Hash>) { forall i, j :: 0 <= i < j < |hs| ==> hs[i] != hs[j] }

  /** The hashes of a list that are (or are not) in a set. */
  function Among(hs: seq<Hash>, keep: set<Hash>): seq<Hash>
  {
    if |hs| == 0 then []
    else Among(hs[..|hs| - 1], keep) + (if hs[|hs| - 1] in keep then [hs[|hs| - 1]] else [])
  }

  lemma {:induction false} AmongFacts(hs: seq<Hash>, keep: set<Hash>)
    requires NoRepeats(hs)
    ensures NoRepeats(Among(hs, keep))
    ensures forall h :: h in Among(hs, keep) <==> h in hs && h in keep
  {
    if |hs| > 0 {
      var init, last := hs[..|hs| - 1], hs[|hs| - 1];
      AmongFacts(init, keep);
      assert hs == init + [last];
      assert last !in init;
    }
  }

  lemma {:induction false} FlattenAmong(m: map<Hash, seq<Payment>>, hs: seq<Hash>)
    ensures Flatten(m, Among(hs, m.Keys)) == Flatten(m, hs)
  {
    if |hs| > 0 {
      var init, last := hs[..|hs| - 1], hs[|hs| - 1];
      FlattenAmong(m, init);
      var some := Among(init, m.Keys);
      assert (some + [last])[..|some|] == some && some + [] == some;
    }
  }

  /** Any list without repeats that has all the keys flattens to the same payments. */
  lemma FlattenOver(m: map<Hash, seq<Payment>>, order: seq<Hash>, all: seq<Hash>)
    requires Enumerates(order, m) && NoRepeats(all) && forall h :: h in m ==> h in all
    ensures multiset(Flatten(m, order)) == multiset(Flatten(m, all))
  {
    AmongFacts(all, m.Keys);
    EnumerationsAgree(order, Among(all, m.Keys), m);
    FlattenPermutation(m, order, Among(all, m.Keys));
    FlattenAmong(m, all);
  }

  lemma {:induction false} GainsAlike(m: map<Hash, seq<Payment>>, m': map<Hash, seq<Payment>>, all: seq<Hash>,
                                      s: SubIndex, creationHeight: u64)
    requires forall h :: h in all ==> GainedFrom(m, h, s, creationHeight) == GainedFrom(m', h, s, creationHeight)
    ensures Gained(Flatten(m, all), s, creationHeight, None) == Gained(Flatten(m', all), s, creationHeight, None)
  {
    if |all| > 0 {
      var init, last := all[..|all| - 1], all[|all| - 1];
      assert last in all && forall h :: h in init ==> h in all;
      GainsAlike(m, m', init, s, creationHeight);
      GainedConcat(Flatten(m, init), if last in m then m[last] else [], s, creationHeight, None);
      GainedConcat(Flatten(m', init), if last in m' then m'[last] else [], s, creationHeight, None);
    }
  }

  lemma NoRepeatsBoth(a: seq<Hash>, b: seq<Hash>)
    requires NoRepeats(a) && NoRepeats(b) && forall h :: h in b ==> h !in a
    ensures NoRepeats(a + b)
  {
    forall i, j | 0 <= i < j < |a + b|
      ensures (a + b)[i] != (a + b)[j]
    {
      if i < |a| <= j { assert b[j - |a|] in b && a[i] in a; }
    }
  }

  /** One list for the keys of both reports. */
  lemma JointOrder(m: map<Hash, seq<Payment>>, order: seq<Hash>, m': map<Hash, seq<Payment>>, order': seq<Hash>)
    returns (all: seq<Hash>)
    requires Enumerates(order, m) && Enumerates(order', m')
    ensures NoRepeats(all) && (forall h :: h in m ==> h in all) && forall h :: h in m' ==> h in all
  {
    var rest := Among(order', m'.Keys - m.Keys);
    AmongFacts(order', m'.Keys - m.Keys);
    NoRepeatsBoth(order, rest);
    all := order + rest;
    forall h | h in m'
      ensures h in all
    {
      if h !in m { assert h in rest; }
    }
  }

  /** Two reports that pay a subaddress the same from every transaction add the same to its invoice, in whatever
      order. */
  lemma ReportsGainAlike(m: map<Hash, seq<Payment>>, order: seq<Hash>, m': map<Hash, seq<Payment>>, order': seq<Hash>,
                         s: SubIndex, creationHeight: u64)
    requires Enumerates(order, m) && Enumerates(order', m')
    requires forall h :: GainedFrom(m, h, s, creationHeight) == GainedFrom(m', h, s, creationHeight)
    ensures SamePool(Flatten(m, order), Flatten(m', order'), s, creationHeight)
  {
    var all := JointOrder(m, order, m', order');
    FlattenOver(m, order, all);
    FlattenOver(m', order', all);
    GainsAlike(m, m', all, s, creationHeight);
    GainedPermutation(Flatten(m, order), Flatten(m, all), s, creationHeight, None);
    GainedPermutation(Flatten(m', order'), Flatten(m', all), s, creationHeight, None);
  }

  // ---------------------------------------------------------------------------
  // Filter independence
  // ---------------------------------------------------------------------------

  /** Two lists of pool payments add the same to an invoice. */
  ghost predicate SamePool(ps: seq<Payment>, ps': seq<Payment>, s: SubIndex, creationHeight: u64)
  {
    multiset(Gained(ps, s, creationHeight, None)) == multiset(Gained(ps', s, creationHeight, None))
  }

  /** Two scans that learned the same about the blocks, and the same about what the pool pays this invoice. */
  ghost predicate SameFor(id: InvoiceId, f: Findings, f': Findings)
  {
    && f'.cache == f.cache && f'.count == f.count && f'.depth == f.depth && f'.keys == f.keys
    && SamePool(f.poolPayments, f'.poolPayments, id.subIndex, id.creationHeight)
  }

  lemma SameInPool(inv: Invoice, f: Findings, f': Findings)
    requires WellShaped(f) && WellShaped(f') && SameFor(inv.Id(), f, f') && inv.creationHeight >= 1
    requires f.contains(inv.index) && f'.contains(inv.index)
    requires Faithful(f.reports, f.cache, f.depth, f.keys, f.contains)
    requires Faithful(f'.reports, f'.cache, f'.depth, f'.keys, f'.contains)
    ensures multiset(Select(Carried(inv, f).transfers, At(None))) ==
            multiset(Select(Carried(inv, f').transfers, At(None)))
  {
    RescannedInPool(inv, f.reports, f.poolPayments, f.cache, f.depth, f.Deepest(), f.keys, f.contains);
    RescannedInPool(inv, f'.reports, f'.poolPayments, f'.cache, f'.depth, f'.Deepest(), f'.keys, f'.contains);
  }

  /** Height by height the two scans carry the same amounts into an invoice. */
  lemma SameCarriedAt(g: Gateway, f: Findings, f': Findings, id: InvoiceId, h: Option<nat>)
    requires Orderly(g, id) && Surveyed(g, f) && Surveyed(g, f') && SameFor(id, f, f')
    ensures multiset(Select(Carried(g.invoices[id], f).transfers, At(h))) ==
            multiset(Select(Carried(g.invoices[id], f').transfers, At(h)))
  {
    var inv := g.invoices[id];
    match h
    case None => SameInPool(inv, f, f');
    case Some(k) =>
      RescannedAt(inv, f.reports, f.poolPayments, f.cache, f.depth, f.Deepest(), f.keys, f.contains, k);
      RescannedAt(inv, f'.reports, f'.poolPayments, f'.cache, f'.depth, f'.Deepest(), f'.keys, f'.contains, k);
  }

  lemma SameCarried(g: Gateway, f: Findings, f': Findings, id: InvoiceId)
    requires Orderly(g, id) && Surveyed(g, f) && Surveyed(g, f') && SameFor(id, f, f')
    ensures SameInvoice(Carried(g.invoices[id], f), Carried(g.invoices[id], f'))
  {
    var a, b := Carried(g.invoices[id], f).transfers, Carried(g.invoices[id], f').transfers;
    forall h: Option<nat>
      ensures multiset(Select(a, At(h))) == multiset(Select(b, At(h)))
    {
      SameCarriedAt(g, f, f', id, h);
    }
    SameByHeight(a, b);
    SameTransfersIff(a, b);
  }

  lemma SameApplied(g: Gateway, f: Findings, f': Findings, id: InvoiceId)
    requires Orderly(g, id) && Surveyed(g, f) && Surveyed(g, f') && SameFor(id, f, f')
    ensures id in Apply(g, f).invoices && id in Apply(g, f').invoices
    ensures SameInvoice(Apply(g, f).invoices[id], Apply(g, f').invoices[id])
  {
    var inv := g.invoices[id];
    ApplyKeepsOrder(g, f, id);
    ApplyKeepsOrder(g, f', id);
    SameCarried(g, f, f', id);
    CarriedSorted(g, f, id);
    CarriedSorted(g, f', id);
    SameRecount(Carried(inv, f), Carried(inv, f'));
    SameThrough(Apply(g, f).invoices[id], Recounted(Carried(inv, f)), Recounted(Carried(inv, f')),
                Apply(g, f').invoices[id]);
  }

  lemma SameRecount(a: Invoice, b: Invoice)
    requires SameInvoice(a, b) && Sorted(a.transfers) && Sorted(b.transfers)
    ensures SameInvoice(Recounted(a), Recounted(b))
  {
    SameTransfersIff(a.transfers, b.transfers);
    TallyIgnoresOrder(a.transfers, b.transfers, a.amountRequested);
  }

  lemma SameThrough(a: Invoice, b: Invoice, b': Invoice, a': Invoice)
    requires SameInvoice(a, b) && SameInvoice(b, b') && SameInvoice(a', b')
    ensures SameInvoice(a, a')
  {
    SameTransfersIff(a.transfers, b.transfers);
    SameTransfersIff(b.transfers, b'.transfers);
    SameTransfersIff(a'.transfers, b'.transfers);
    SameTransfersIff(a.transfers, a'.transfers);
  }

  /** The same daemon and the same schedule; the filter, and with it the reports, and hash map orders may differ. */
  ghost predicate SameButFilter(e: ScanEnv, e': ScanEnv)
  {
    e' == e.(contains := e'.contains, reports := e'.reports, poolOrder := e'.poolOrder)
  }

  /** The pool pays a live subaddress the same under both filters, transaction by transaction. */
  lemma SamePoolReport(p: PoolState, keys: KeyTable, e: ScanEnv, e': ScanEnv, s: SubIndex, creationHeight: u64)
    requires SameButFilter(e, e') && e.contains(s) && e'.contains(s)
    requires Enumerates(e.poolOrder, PoolReport(p, PoolScanOf(keys, e)))
    requires Enumerates(e'.poolOrder, PoolReport(p, PoolScanOf(keys, e')))
    ensures SamePool(Flatten(PoolReport(p, PoolScanOf(keys, e)), e.poolOrder),
                     Flatten(PoolReport(p, PoolScanOf(keys, e')), e'.poolOrder), s, creationHeight)
  {
    var m, m' := PoolReport(p, PoolScanOf(keys, e)), PoolReport(p, PoolScanOf(keys, e'));
    var os := Outputs(e.delivered);
    forall h
      ensures GainedFrom(m, h, s, creationHeight) == GainedFrom(m', h, s, creationHeight)
    {
      GroupGains(Accepted(keys, e.contains, os), h, s, creationHeight);
      GroupGains(Accepted(keys, e'.contains, os), h, s, creationHeight);
      AmountsAreUnfiltered(keys, e.contains, e'.contains, os, s, h);
    }
    ReportsGainAlike(m, e.poolOrder, m', e'.poolOrder, s, creationHeight);
  }

  lemma SameFindings(g: Gateway, e: ScanEnv, e': ScanEnv, id: InvoiceId)
    requires ErrorFree(g, e) && ErrorFree(g, e') && SameButFilter(e, e') && id in g.invoices
    ensures SameFor(id, FindingsOf(g, e), FindingsOf(g, e'))
  {
    SamePoolReport(g.pool, RegisterAll(g.keys, e.schedule), e, e', id.subIndex, id.creationHeight);
  }

  /** Filter independence: two error-free scans of the same state, blocks and pool store the same invoices (up to the
      order of transfers that invoice equality ignores), whatever filter each used, as long as it is true on every
      live subaddress, and whatever order hash maps yielded. By TestsCoverLive the in-memory range test and the exact
      count are two such filters; the range test also accepts payments to dead subaddresses, which reach no invoice.
      */
  lemma FilterIndependence(g: Gateway, e: ScanEnv, e': ScanEnv, id: InvoiceId)
    requires AllOrderly(g) && ErrorFree(g, e) && ErrorFree(g, e') && SameButFilter(e, e') && id in g.invoices
    ensures id in Scan(g, e).invoices && id in Scan(g, e').invoices
    ensures SameInvoice(Scan(g, e).invoices[id], Scan(g, e').invoices[id])
  {
    ErrorFreeIsSurveyed(g, e);
    ErrorFreeIsSurveyed(g, e');
    assert Orderly(g, id);
    SameFindings(g, e, e', id);
    SameApplied(g, FindingsOf(g, e), FindingsOf(g, e'), id);
  }

  // ---------------------------------------------------------------------------
  // Which filter makes a scan fail
  // ---------------------------------------------------------------------------

  /** An output that cannot be unblinded owns its key and pays a subaddress that is dead, but below a live one. */
  ghost predicate Stuck(o: TxOutput, keys: KeyTable, invoices: InvoiceTable)
  {
    && Owns(keys, o) && o.out.amount.None? && !ExactTest(invoices, o.out.subIndex)
    && exists id :: id in invoices && CompareSubIndex(id.subIndex, o.out.subIndex) == Greater
  }

  /** The filter is not harmless to the scan itself: behind the range test a scan succeeds exactly if it would behind
      the exact count and, besides, no output that cannot be unblinded pays a dead subaddress below a live one. */
  lemma RangeScanSucceedsIff(keys: KeyTable, invoices: InvoiceTable, os: seq<TxOutput>)
    ensures ScanOutputs(keys, RangeFilter(invoices), os).found.Ok? <==>
            && ScanOutputs(keys, ExactFilter(invoices), os).found.Ok?
            && forall i :: 0 <= i < |os| ==> !Stuck(os[i], RegisterAll(keys, os), invoices)
  {
    var all := RegisterAll(keys, os);
    ScanOkIff(keys, RangeFilter(invoices), os, all);
    ScanOkIff(keys, ExactFilter(invoices), os, all);
    forall i | 0 <= i < |os|
      ensures RangeFilter(invoices)(os[i].out.subIndex) <==>
              || ExactFilter(invoices)(os[i].out.subIndex)
              || exists id :: id in invoices && CompareSubIndex(id.subIndex, os[i].out.subIndex) == Greater
    {
      RangeTestIsOneSided(invoices, os[i].out.subIndex);
    }
  }

  /** A scan that fails for the in-memory store alone: one output to 0/3, which is dead, cannot be unblinded, while 0/5
      is live. */
  lemma OnlyTheRangeTestFails(keys: KeyTable, invoices: InvoiceTable, live: InvoiceId, o: TxOutput)
    requires invoices.Keys == {live} && live.subIndex == SubIndex(0, 5)
    requires o.out.subIndex == SubIndex(0, 3) && o.out.amount.None? && o.out.index < 256 && o.out.key !in keys
    ensures ScanOutputs(keys, ExactFilter(invoices), [o]).found.Ok?
    ensures ScanOutputs(keys, RangeFilter(invoices), [o]).found.Err?
  {
    assert [o][..0] == [];
    RangeScanSucceedsIff(keys, invoices, [o]);
    assert live in invoices && CompareSubIndex(live.subIndex, SubIndex(0, 3)) == Greater;
    assert Stuck([o][0], RegisterAll(keys, [o]), invoices);
  }

  // ---------------------------------------------------------------------------
  // The first scan
  // ---------------------------------------------------------------------------

  /** The invoice holds exactly what the cached block at height h credits it. */
  ghost predicate ExactAt(inv: Invoice, c: CacheState, keys: KeyTable, h: nat)
    requires 1 <= |c.blocks| <= c.height + 1
  {
    multiset(Select(inv.transfers, At(Some(h)))) ==
    multiset(RescanCredits(c, |c.blocks|, 0, keys, inv.index, inv.creationHeight, Some(h)))
  }

  ghost predicate ExactInWindow(inv: Invoice, c: CacheState, keys: KeyTable)
    requires 1 <= |c.blocks| <= c.height + 1
  {
    forall h: nat :: c.Bottom() <= h <= c.height ==> ExactAt(inv, c, keys, h)
  }

  /** No transfer the invoice would keep is in the window. */
  ghost predicate ClearBelow(inv: Invoice, c: CacheState, deepest: nat)
  {
    forall h: nat :: c.Bottom() <= h < deepest ==> Select(inv.transfers, At(Some(h))) == []
  }

  lemma FirstScanAt(inv: Invoice, f: Findings, h: nat)
    requires WellShaped(f) && f.depth == |f.cache.blocks| && inv.creationHeight >= 1 && f.contains(inv.index)
    requires Faithful(f.reports, f.cache, f.depth, f.keys, f.contains) && AllInPool(f.poolPayments)
    requires f.cache.Bottom() <= h <= f.cache.height
    ensures ExactAt(Refreshed(inv, f.Payments(), f.Deepest(), f.cache.height), f.cache, f.keys, h) <==>
            (h < f.Deepest() ==> Select(inv.transfers, At(Some(h))) == [])
  {
    var stored := Refreshed(inv, f.Payments(), f.Deepest(), f.cache.height);
    var next := Rescanned(inv, f.Payments(), f.Deepest(), f.cache.height);
    SameTransfersIff(next.transfers, inv.transfers);
    assert multiset(stored.transfers) == multiset(next.transfers);
    SelectPermutation(stored.transfers, next.transfers, At(Some(h)));
    RescannedAt(inv, f.reports, f.poolPayments, f.cache, f.depth, f.Deepest(), f.keys, f.contains, h);
    var kept := if h < f.Deepest() then Select(inv.transfers, At(Some(h))) else [];
    var credits := RescanCredits(f.cache, f.depth, 0, f.keys, inv.index, inv.creationHeight, Some(h));
    assert |multiset(kept + credits)| == |kept| + |credits| && |multiset(credits)| == |credits|;
    assert kept == [] ==> kept + credits == credits;
  }

  /** The first scan rescans the whole window but drops transfers only from the deepest changed block on. So it leaves
      an invoice exact over the window if and only if the invoice held no mined transfer in the window below that
      block. */
  lemma FirstScanIsExactIff(inv: Invoice, f: Findings)
    requires WellShaped(f) && f.depth == |f.cache.blocks| && inv.creationHeight >= 1 && f.contains(inv.index)
    requires Faithful(f.reports, f.cache, f.depth, f.keys, f.contains) && AllInPool(f.poolPayments)
    ensures ExactInWindow(Refreshed(inv, f.Payments(), f.Deepest(), f.cache.height), f.cache, f.keys) <==>
            ClearBelow(inv, f.cache, f.Deepest())
  {
    if ExactInWindow(Refreshed(inv, f.Payments(), f.Deepest(), f.cache.height), f.cache, f.keys) {
      ExactNeedsClear(inv, f);
    }
    if ClearBelow(inv, f.cache, f.Deepest()) {
      ClearGivesExact(inv, f);
    }
  }

  lemma ExactNeedsClear(inv: Invoice, f: Findings)
    requires WellShaped(f) && f.depth == |f.cache.blocks| && inv.creationHeight >= 1 && f.contains(inv.index)
    requires Faithful(f.reports, f.cache, f.depth, f.keys, f.contains) && AllInPool(f.poolPayments)
    requires ExactInWindow(Refreshed(inv, f.Payments(), f.Deepest(), f.cache.height), f.cache, f.keys)
    ensures ClearBelow(inv, f.cache, f.Deepest())
  {
    forall h: nat | f.cache.Bottom() <= h < f.Deepest()
      ensures Select(inv.transfers, At(Some(h))) == []
    {
      FirstScanAt(inv, f, h);
      assert ExactAt(Refreshed(inv, f.Payments(), f.Deepest(), f.cache.height), f.cache, f.keys, h);
    }
  }

  lemma ClearGivesExact(inv: Invoice, f: Findings)
    requires WellShaped(f) && f.depth == |f.cache.blocks| && inv.creationHeight >= 1 && f.contains(inv.index)
    requires Faithful(f.reports, f.cache, f.depth, f.keys, f.contains) && AllInPool(f.poolPayments)
    requires ClearBelow(inv, f.cache, f.Deepest())
    ensures ExactInWindow(Refreshed(inv, f.Payments(), f.Deepest(), f.cache.height), f.cache, f.keys)
  {
    forall h: nat | f.cache.Bottom() <= h <= f.cache.height
      ensures ExactAt(Refreshed(inv, f.Payments(), f.Deepest(), f.cache.height), f.cache, f.keys, h)
    {
      FirstScanAt(inv, f, h);
    }
  }
}
