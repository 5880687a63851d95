/** What every error-free scan keeps about a stored invoice, whether or not its count covers what the cache update
    replaced: transfers stay sorted, totals are those of a full recount, and nothing is recorded above what was scanned
    (library/src/scanner.rs:176-253). */
module Upkeep {
  import opened Prelude
  import opened Invoices
  import opened Transfers
  import opened Chain
  import opened BlockCaching
  import opened OutputKeys
  import opened Txpool
  import opened Storage
  import opened Scanning
  import opened Ledger

  /** Facts every error-free scan of a valid cache provides, covered or not. */
  ghost predicate Surveyed(g: Gateway, f: Findings)
  {
    && WellShaped(f) && ValidCache(f.cache) && ValidCache(g.cache)
    && |f.cache.blocks| == |g.cache.blocks| && g.cache.height <= f.cache.height <= g.cache.height + 1
    && (f.cache.height == g.cache.height + 1 ==> f.count >= 1)
    && f.depth == (if g.firstScan then |f.cache.blocks| else f.count) && Extends(g.keys, f.keys)
    && (forall k :: 0 <= k < f.depth ==> Covers(f.keys, Outputs(f.cache.blocks[k].txs)))
    && Faithful(f.reports, f.cache, f.depth, f.keys, f.contains)
    && CoversLive(f.contains, g.invoices)
    && AllInPool(f.poolPayments)
  }

  lemma ErrorFreeIsSurveyed(g: Gateway, e: ScanEnv)
    requires ValidCache(g.cache) && PoolUnmined(g.pool) && ErrorFree(g, e)
    ensures Surveyed(g, FindingsOf(g, e)) && PoolUnmined(FindingsOf(g, e).pool)
  {
    UpdateKeepsShape(g.cache, Some(e.reported), e.daemon);
    UpdateCountFits(g.cache, Some(e.reported), e.daemon);
    RegisterAllExtends(g.keys, e.schedule);
    PoolStaysUnmined(g.pool, RegisterAll(g.keys, e.schedule), e);
    var f := FindingsOf(g, e);
    forall k | 0 <= k < f.depth
      ensures Covers(f.keys, Outputs(f.cache.blocks[k].txs))
    {
      RescannedAreCovered(g.keys, e.schedule, f.cache, f.depth, e.delivered, k);
    }
  }

  /** The stored transfers after a scan are the carried ones, in some order. */
  lemma StoredIsCarried(g: Gateway, f: Findings, id: InvoiceId)
    requires WellShaped(f) && id in g.invoices
    ensures multiset(Apply(g, f).invoices[id].transfers) == multiset(Carried(g.invoices[id], f).transfers)
  {
    SameTransfersIff(Carried(g.invoices[id], f).transfers, g.invoices[id].transfers);
  }

  lemma StoredAt(g: Gateway, f: Findings, id: InvoiceId, h: Option<nat>)
    requires WellShaped(f) && id in g.invoices
    ensures multiset(Select(Apply(g, f).invoices[id].transfers, At(h))) ==
            multiset(Select(Carried(g.invoices[id], f).transfers, At(h)))
  {
    StoredIsCarried(g, f, id);
    SelectPermutation(Apply(g, f).invoices[id].transfers, Carried(g.invoices[id], f).transfers, At(h));
  }

  // ---------------------------------------------------------------------------
  // The invariant
  // ---------------------------------------------------------------------------

  /** The height below which all mined transfers on record lie. */
  function Horizon(g: Gateway): int { if g.firstScan then g.cache.Bottom() else g.cache.height + 1 }

  ghost predicate MinedBelow(ts: seq<Transfer>, horizon: int)
  {
    forall t :: t in ts && t.height.Some? ==> t.height.value < horizon
  }

  /** Sorted, totalled, and nothing mined on record above what was scanned. */
  ghost predicate Orderly(g: Gateway, id: InvoiceId)
  {
    && id in g.invoices
    && var inv := g.invoices[id];
    && inv.Id() == id && inv.creationHeight >= 1
    && Sorted(inv.transfers) && Totalled(inv) && MinedBelow(inv.transfers, Horizon(g))
  }

  ghost predicate AllOrderly(g: Gateway)
  {
    && ValidCache(g.cache) && WindowSeen(g) && PoolUnmined(g.pool)
    && forall id :: id in g.invoices ==> Orderly(g, id)
  }

  /** An invoice in accord with the ledger is in order. */
  lemma OkIsOrderly(g: Gateway, id: InvoiceId)
    requires id in g.invoices && id in g.since && InvoiceOk(g, id) && ValidCache(g.cache)
    ensures Orderly(g, id)
  {
    var ts := g.invoices[id].transfers;
    forall t | t in ts && t.height.Some?
      ensures t.height.value < Horizon(g)
    {
      SelectFinds(ts, t);
      assert LedgerAt(g, id, t.height.value);
      assert |multiset(Expected(g, id, t.height.value))| == |multiset(Select(ts, At(t.height)))| > 0;
    }
  }

  lemma InvIsOrderly(g: Gateway)
    requires Inv(g) && PoolUnmined(g.pool)
    ensures AllOrderly(g)
  {
    forall id | id in g.invoices
      ensures Orderly(g, id)
    {
      OkIsOrderly(g, id);
    }
  }

  lemma CarriedSorted(g: Gateway, f: Findings, id: InvoiceId)
    requires Orderly(g, id) && Surveyed(g, f)
    ensures Sorted(Carried(g.invoices[id], f).transfers)
  {
    var inv := g.invoices[id];
    forall t | t in inv.transfers && t.height.Some?
      ensures t.height.value <= f.cache.height - f.depth || f.Deepest() <= t.height.value
    {
      assert t.height.value < Horizon(g);
    }
    RescannedSorted(inv, f.reports, f.poolPayments, f.cache, f.depth, f.Deepest(), f.keys, f.contains);
  }

  lemma CarriedMinedBelow(g: Gateway, f: Findings, id: InvoiceId)
    requires Orderly(g, id) && Surveyed(g, f)
    ensures MinedBelow(Carried(g.invoices[id], f).transfers, f.cache.height + 1)
  {
    var inv := g.invoices[id];
    var blocks := BlocksReport(f.reports, f.depth, 0);
    RetainedFacts(inv.transfers, f.Deepest());
    BlocksReportInOrder(f.reports, f.cache, f.depth, 0, f.keys, f.contains);
    AddedFrom(f.Payments(), inv.index, inv.creationHeight);
    forall t | t in Carried(inv, f).transfers && t.height.Some?
      ensures t.height.value < f.cache.height + 1
    {
      if t in Retained(inv.transfers, f.Deepest()) {
        var i :| 0 <= i < |Retained(inv.transfers, f.Deepest())| && Retained(inv.transfers, f.Deepest())[i] == t;
      } else {
        assert Payment(inv.index, t) in blocks + f.poolPayments;
        assert Payment(inv.index, t) in blocks || Payment(inv.index, t) in f.poolPayments;
      }
    }
  }

  /** An error-free scan keeps an invoice in order and brings it up to date. */
  lemma ApplyKeepsOrder(g: Gateway, f: Findings, id: InvoiceId)
    requires Orderly(g, id) && Surveyed(g, f)
    ensures Orderly(Apply(g, f), id)
    ensures SameInvoice(Apply(g, f).invoices[id], Recounted(Carried(g.invoices[id], f)))
    ensures Apply(g, f).invoices[id].currentHeight == f.cache.height + 1
  {
    var inv := g.invoices[id];
    CarriedSorted(g, f, id);
    CarriedMinedBelow(g, f, id);
    RefreshedIsTotalled(inv, f.Payments(), f.Deepest(), f.cache.height);
    StoredIsCarried(g, f, id);
    var stored, next := Apply(g, f).invoices[id].transfers, Carried(inv, f).transfers;
    forall t | t in stored && t.height.Some?
      ensures t.height.value < f.cache.height + 1
    {
      assert t in multiset(stored);
      assert t in next;
    }
  }

  lemma ApplyStaysOrderly(g: Gateway, f: Findings)
    requires AllOrderly(g) && Surveyed(g, f) && PoolUnmined(f.pool)
    ensures AllOrderly(Apply(g, f))
  {
    var g' := Apply(g, f);
    forall h: nat | g'.cache.Bottom() <= h <= g'.cache.height
      ensures h in g'.seen && g'.seen[h] == BlockAt(g'.cache, h).txs
    {
      SeenInWindow(g.seen, f.cache, h);
    }
    forall id | id in g'.invoices
      ensures Orderly(g', id)
    {
      ApplyKeepsOrder(g, f, id);
    }
  }

  lemma QuietStaysOrderly(g: Gateway, g': Gateway)
    requires AllOrderly(g) && Quiet(g, g') && forall id :: id in g'.invoices ==> g'.invoices[id].Id() == id
    ensures AllOrderly(g')
  {
    assert WindowSeen(g) ==> WindowSeen(g');
    forall id | id in g'.invoices
      ensures Orderly(g', id)
    {
      if Untouched(g, g', id) {
        assert Orderly(g, id);
      } else {
        assert Fresh(g'.invoices[id]);
      }
    }
  }

  /** Every event keeps the order. */
  lemma NextStaysOrderly(g: Gateway, ev: Event)
    requires AllOrderly(g) && CanHappen(g, ev)
    ensures AllOrderly(Next(g, ev))
  {
    if ev.Scanned? {
      ErrorFreeIsSurveyed(g, ev.env);
      ApplyStaysOrderly(g, FindingsOf(g, ev.env));
    } else {
      OthersAreQuiet(g, ev);
      forall id | id in Next(g, ev).invoices
        ensures Next(g, ev).invoices[id].Id() == id
      {
        assert id in g.invoices ==> Orderly(g, id);
      }
      QuietStaysOrderly(g, Next(g, ev));
    }
  }
}
