/** The gateway as one state machine: scans, and invoices being created and removed, in any order
    (library/src/scanner.rs:102-316, library/src/payment_gateway.rs:280-359). The ledger theorem: at every
    moment of every run, an invoice's mined transfers are exactly what a rescan of the last-seen blocks credits it. */
module Ledger {
  import opened Prelude
  import opened Invoices
  import opened Transfers
  import opened Chain
  import opened BlockCaching
  import opened OutputKeys
  import opened Txpool
  import opened Storage
  import opened Scanning
  import opened Subaddresses

  /** `seen` and `since` are history: the transactions of the block last seen at each height, and for each stored
      invoice the lowest height scanned while it was stored (one above the cache when it was added). */
  datatype Gateway = Gateway(
    cache: CacheState, pool: PoolState, invoices: InvoiceTable, keys: KeyTable, firstScan: bool, lending: Lending,
    seen: map<nat, seq<Tx>>, since: map<InvoiceId, nat>)

  // ---------------------------------------------------------------------------
  // One scan
  // ---------------------------------------------------------------------------

  /** What a scan has in hand when it turns to the invoices: the updated cache and its count, how many slots it
      rescanned, the key table, the filter it used, what each slot reported, and the pool's state and report. */
  datatype Findings = Findings(
    cache: CacheState, count: nat, depth: nat, keys: KeyTable, contains: SubIndex -> bool,
    reports: seq<seq<Payment>>, pool: PoolState, poolPayments: seq<Payment>)
  {
    /** The deepest changed height, from which transfers are dropped. */
    function Deepest(): int { cache.height - count + 1 }

    /** The lowest rescanned height. */
    function Lowest(): int { cache.height - depth + 1 }

    function Payments(): seq<Payment>
      requires depth <= |reports|
    {
      AllPayments(reports, depth, poolPayments)
    }
  }

  /** The history of blocks after a cache update: the whole window is what was last seen at its heights. */
  function SeenAfter(seen: map<nat, seq<Tx>>, c: CacheState): map<nat, seq<Tx>>
    requires 1 <= |c.blocks| <= c.height + 1
  {
    seen + map h: nat | c.Bottom() <= h <= c.height :: BlockAt(c, h).txs
  }

  predicate WellShaped(f: Findings)
  {
    f.count <= f.depth <= |f.cache.blocks| <= f.cache.height + 1 && f.depth <= |f.reports| && |f.cache.blocks| >= 1
  }

  /** Carry the findings into the invoices. */
  function Apply(g: Gateway, f: Findings): Gateway
    requires WellShaped(f)
  {
    Gateway(
      f.cache,
      f.pool,
      map id | id in g.invoices :: Refreshed(g.invoices[id], f.Payments(), f.Deepest(), f.cache.height),
      f.keys,
      false,
      g.lending,
      SeenAfter(g.seen, f.cache),
      map id | id in g.since :: Min(g.since[id], f.Lowest()))
  }

  /** Everything outside the gateway's control during one scan: the daemon's answers, the store's subaddress filter,
      the order in which the two concurrent scans register outputs, and hash map iteration orders. */
  datatype ScanEnv = ScanEnv(
    reported: u64, daemon: Daemon, hashes: set<Hash>, delivered: seq<Tx>, contains: SubIndex -> bool,
    schedule: seq<TxOutput>, reports: seq<seq<Payment>>, poolOrder: seq<Hash>)

  /** How many slots are rescanned: all of them the first time, afterwards those the update replaced. */
  function Depth(firstScan: bool, u: CacheUpdate): nat
    requires u.count.Some?
  {
    if firstScan then |u.cache.blocks| else u.count.value
  }

  function BlocksOutputs(c: CacheState, depth: nat, i: nat): seq<TxOutput>
    requires depth <= |c.blocks|
    decreases depth - i
  {
    if i >= depth then [] else BlocksOutputs(c, depth, i + 1) + Outputs(c.blocks[i].txs)
  }

  /** Everything the two scans look at. */
  function ScannedOutputs(c: CacheState, depth: nat, delivered: seq<Tx>): seq<TxOutput>
    requires depth <= |c.blocks|
  {
    BlocksOutputs(c, depth, 0) + Outputs(delivered)
  }

  function PoolScanOf(keys: KeyTable, e: ScanEnv): PoolScan
  {
    PoolScan(e.hashes, e.delivered, Group(Accepted(keys, e.contains, Outputs(e.delivered))))
  }

  /** The pool transfers a scan hands to the invoice update, by transaction. */
  function PoolReport(p: PoolState, e: PoolScan): map<Hash, seq<Payment>>
  {
    Reported(UpdatePool(p, e.hashes, e.delivered), e.found)
  }

  /** The cache update, the registration of outputs and the pool update of one scan. */
  function FindingsOf(g: Gateway, e: ScanEnv): Findings
    requires 1 <= |g.cache.blocks| <= g.cache.height + 1
    requires UpdateCache(g.cache, Some(e.reported), e.daemon).count.Some?
  {
    var u := UpdateCache(g.cache, Some(e.reported), e.daemon);
    var keys := RegisterAll(g.keys, e.schedule);
    var pool := PoolScanOf(keys, e);
    Findings(u.cache, u.count.value, Depth(g.firstScan, u), keys, e.contains, e.reports,
             AfterScan(g.pool, pool), Flatten(PoolReport(g.pool, pool), e.poolOrder))
  }

  /** A scan that meets no error, whatever the daemon serves meanwhile. */
  ghost predicate ErrorFree(g: Gateway, e: ScanEnv)
  {
    && 1 <= |g.cache.blocks| <= g.cache.height + 1
    && UpdateCache(g.cache, Some(e.reported), e.daemon).count.Some?
    && var f := FindingsOf(g, e);
    && WellShaped(f)
    && multiset(e.schedule) == multiset(ScannedOutputs(f.cache, f.depth, e.delivered))
    && Scannable(e.schedule, f.keys, e.contains)
    && Faithful(e.reports, f.cache, f.depth, f.keys, e.contains)
    && CoversLive(e.contains, g.invoices)
    && Enumerates(e.poolOrder, PoolReport(g.pool, PoolScanOf(f.keys, e)))
  }

  lemma ErrorFreeWhen(g: Gateway, e: ScanEnv, f: Findings)
    requires 1 <= |g.cache.blocks| <= g.cache.height + 1
    requires UpdateCache(g.cache, Some(e.reported), e.daemon).count.Some? && f == FindingsOf(g, e) && WellShaped(f)
    requires multiset(e.schedule) == multiset(ScannedOutputs(f.cache, f.depth, e.delivered))
    requires Scannable(e.schedule, f.keys, e.contains) && Faithful(e.reports, f.cache, f.depth, f.keys, e.contains)
    requires CoversLive(e.contains, g.invoices) && Enumerates(e.poolOrder, PoolReport(g.pool, PoolScanOf(f.keys, e)))
    ensures ErrorFree(g, e)
  {
  }

  /** An error-free scan whose count covers every block the cache update replaced. From a linked cache every
      error-free scan is one (LinkedScanIsClean); CountCoversIff says when else. */
  ghost predicate CleanScan(g: Gateway, e: ScanEnv)
  {
    && ErrorFree(g, e)
    && var f := FindingsOf(g, e); CountCovers(g.cache, f.cache, f.count)
  }

  function Scan(g: Gateway, e: ScanEnv): Gateway
    requires ErrorFree(g, e)
  {
    Apply(g, FindingsOf(g, e))
  }

  /** What a scan that fails leaves behind: the block cache as its update left it, finished or not, and whatever the
      scan registered and learned of the pool before it failed. No invoice changes. */
  datatype Failure = Failure(reported: Option<u64>, daemon: Daemon, keys: KeyTable, pool: PoolState)

  function AfterFailure(g: Gateway, x: Failure): Gateway
    requires ValidCache(g.cache)
  {
    UpdateKeepsShape(g.cache, x.reported, x.daemon);
    var c := UpdateCache(g.cache, x.reported, x.daemon).cache;
    g.(cache := c, keys := x.keys, pool := x.pool, seen := SeenAfter(g.seen, c))
  }

  // ---------------------------------------------------------------------------
  // Invoices coming and going
  // ---------------------------------------------------------------------------

  datatype Event =
    | Scanned(env: ScanEnv)
    | Drew(draw: nat, derive: Derivation)
    | Committed(invoice: Invoice)
    | Abandoned(subIndex: SubIndex)
    | Took(id: InvoiceId)
    | Returned(entry: Entry)

  /** An invoice as the gateway creates it; the daemon height it is dated with is positive. */
  ghost predicate Fresh(inv: Invoice)
  {
    && inv.transfers == [] && inv.amountPaid == 0 && inv.paidHeight.None? && inv.currentHeight == 0
    && inv.creationHeight >= 1
  }

  ghost predicate CanHappen(g: Gateway, ev: Event)
  {
    match ev
    case Scanned(e) => ErrorFree(g, e)
    case Drew(draw, _) => draw < |g.lending.cache.available|
    case Committed(inv) => inv.index in g.lending.drawn && Fresh(inv)
    case Abandoned(s) => s in g.lending.drawn
    case Took(id) => id in g.invoices
    case Returned(e) => e.subIndex in g.lending.returning
  }

  /** If the event is a scan, its count covers what the cache update replaced. */
  ghost predicate Trusted(g: Gateway, ev: Event) { ev.Scanned? && ErrorFree(g, ev.env) ==> CleanScan(g, ev.env) }

  function Next(g: Gateway, ev: Event): Gateway
    requires CanHappen(g, ev)
  {
    match ev
    case Scanned(e) => Scan(g, e)
    case Drew(draw, derive) => g.(lending := Draw(g.lending, draw, derive))
    case Committed(inv) =>
      // the store refuses a duplicate id; the creation then fails and its index is lost
      if inv.Id() in g.invoices then g.(lending := Abandon(g.lending, inv.index))
      else g.(lending := Commit(g.lending, inv.index), invoices := g.invoices[inv.Id() := inv],
              since := g.since[inv.Id() := g.cache.height + 1])
    case Abandoned(s) => g.(lending := Abandon(g.lending, s))
    case Took(id) => g.(lending := Take(g.lending, id.subIndex), invoices := g.invoices - {id}, since := g.since - {id})
    case Returned(e) => g.(lending := Return(g.lending, e))
  }

  // ---------------------------------------------------------------------------
  // The invariant
  // ---------------------------------------------------------------------------

  /** Heights up to here have been scanned (before the first scan, nothing in the window above its bottom). */
  function ScannedTo(g: Gateway): int { if g.firstScan then g.cache.Bottom() else g.cache.height }

  /** The heights at which an invoice's transfers are on record. */
  predicate OnRecord(g: Gateway, id: InvoiceId, h: nat)
    requires id in g.since
  {
    id.creationHeight <= h && g.since[id] <= h <= ScannedTo(g)
  }

  /** What a rescan of the block last seen at height h credits the invoice. */
  function Expected(g: Gateway, id: InvoiceId, h: nat): seq<nat>
    requires id in g.since
  {
    if OnRecord(g, id, h) && h in g.seen then Credits(g.keys, Outputs(g.seen[h]), id.subIndex) else []
  }

  ghost predicate LedgerAt(g: Gateway, id: InvoiceId, h: nat)
    requires id in g.invoices && id in g.since
  {
    && (OnRecord(g, id, h) ==> h in g.seen && Covers(g.keys, Outputs(g.seen[h])))
    && multiset(Select(g.invoices[id].transfers, At(Some(h)))) == multiset(Expected(g, id, h))
  }

  ghost predicate InvoiceOk(g: Gateway, id: InvoiceId)
    requires id in g.invoices && id in g.since
  {
    var inv := g.invoices[id];
    && inv.Id() == id
    && inv.creationHeight >= 1
    && Sorted(inv.transfers)
    && Totalled(inv)
    && (forall h: nat :: LedgerAt(g, id, h))
    && (g.firstScan && g.cache.Bottom() >= 0 ==> Select(inv.transfers, At(Some(g.cache.Bottom()))) == [])
  }

  /** The last-seen block at every height of the window is the cached one. */
  ghost predicate WindowSeen(g: Gateway)
    requires ValidCache(g.cache)
  {
    forall h: nat :: g.cache.Bottom() <= h <= g.cache.height ==>
      h in g.seen && g.seen[h] == BlockAt(g.cache, h).txs
  }

  ghost predicate Inv(g: Gateway)
  {
    && ValidCache(g.cache) && WindowSeen(g)
    && g.since.Keys == g.invoices.Keys
    && Accounted(g.lending, g.invoices.Keys)
    && forall id :: id in g.invoices ==> InvoiceOk(g, id)
  }

  // ---------------------------------------------------------------------------
  // A scan keeps the invariant
  // ---------------------------------------------------------------------------

  /** The findings describe the cache truthfully: the slots from `count` on are the blocks held before, a first
      rescan covers the whole window, every output of a rescanned slot is registered, and the reports are faithful. */
  ghost predicate Truthful(g: Gateway, f: Findings)
  {
    && WellShaped(f)
    && ValidCache(f.cache) && ValidCache(g.cache)
    && |f.cache.blocks| == |g.cache.blocks|
    && g.cache.height <= f.cache.height <= g.cache.height + 1
    && (f.cache.height == g.cache.height + 1 ==> f.count > 0)
    && (forall i :: f.count <= i < |f.cache.blocks| ==> KeptSlot(g.cache, f.cache, i))
    && f.depth == (if g.firstScan then |f.cache.blocks| else f.count)
    && Extends(g.keys, f.keys)
    && (forall k :: 0 <= k < f.depth ==> Covers(f.keys, Outputs(f.cache.blocks[k].txs)))
    && Faithful(f.reports, f.cache, f.depth, f.keys, f.contains)
    && CoversLive(f.contains, g.invoices)
    && AllInPool(f.poolPayments)
  }

  lemma {:induction false} InBlocksOutputs(c: CacheState, depth: nat, i: nat, k: nat)
    requires depth <= |c.blocks| && i <= k < depth
    ensures forall o :: o in Outputs(c.blocks[k].txs) ==> o in BlocksOutputs(c, depth, i)
    decreases depth - i
  {
    assert BlocksOutputs(c, depth, i) == BlocksOutputs(c, depth, i + 1) + Outputs(c.blocks[i].txs);
    if i < k { InBlocksOutputs(c, depth, i + 1, k); }
  }

  lemma CoveredBySchedule(keys: KeyTable, schedule: seq<TxOutput>, all: seq<TxOutput>, os: seq<TxOutput>)
    requires multiset(schedule) == multiset(all)
    requires forall o :: o in os ==> o in all
    ensures Covers(RegisterAll(keys, schedule), os)
  {
    RegisterAllExtends(keys, schedule);
    forall i | 0 <= i < |os|
      ensures os[i].out.key in RegisterAll(keys, schedule)
    {
      assert os[i] in os;
      assert os[i] in multiset(all);
      var k :| 0 <= k < |schedule| && schedule[k] == os[i];
    }
  }

  /** Every output of a rescanned slot is registered, whatever the schedule of the two scans. */
  lemma RescannedAreCovered(keys: KeyTable, schedule: seq<TxOutput>, c: CacheState, depth: nat, delivered: seq<Tx>,
                            k: nat)
    requires k < depth <= |c.blocks|
    requires multiset(schedule) == multiset(ScannedOutputs(c, depth, delivered))
    ensures Covers(RegisterAll(keys, schedule), Outputs(c.blocks[k].txs))
  {
    var os := Outputs(c.blocks[k].txs);
    InBlocksOutputs(c, depth, 0, k);
    forall o | o in os
      ensures o in ScannedOutputs(c, depth, delivered)
    {
      assert o in BlocksOutputs(c, depth, 0);
    }
    CoveredBySchedule(keys, schedule, ScannedOutputs(c, depth, delivered), os);
  }

  /** Pool payments carry no height. */
  ghost predicate PoolUnmined(p: PoolState)
  {
    forall h :: h in p.discovered ==> AllInPool(p.discovered[h])
  }

  lemma PoolStaysUnmined(p: PoolState, keys: KeyTable, e: ScanEnv)
    requires PoolUnmined(p)
    ensures PoolUnmined(AfterScan(p, PoolScanOf(keys, e)))
    ensures AllInPool(Flatten(PoolReport(p, PoolScanOf(keys, e)), e.poolOrder))
  {
    GroupInPool(Accepted(keys, e.contains, Outputs(e.delivered)));
    FlattenInPool(PoolReport(p, PoolScanOf(keys, e)), e.poolOrder);
  }

  /** From a linked cache every error-free scan is clean; if the daemon serves one chain meanwhile, it leaves a linked
      cache behind. */
  lemma LinkedScanIsClean(g: Gateway, e: ScanEnv)
    requires ValidCache(g.cache) && Linked(g.cache.blocks) && ErrorFree(g, e)
    ensures CleanScan(g, e)
    ensures ServesOneChain(e.daemon) ==> Linked(Scan(g, e).cache.blocks)
  {
    UpdateCountIsExact(g.cache, Some(e.reported), e.daemon);
  }

  /** A clean scan is truthful. */
  lemma CleanScanIsTruthful(g: Gateway, e: ScanEnv)
    requires ValidCache(g.cache) && PoolUnmined(g.pool) && CleanScan(g, e)
    ensures Truthful(g, FindingsOf(g, e))
    ensures PoolUnmined(FindingsOf(g, e).pool)
  {
    UpdateKeepsShape(g.cache, Some(e.reported), e.daemon);
    RegisterAllExtends(g.keys, e.schedule);
    PoolStaysUnmined(g.pool, RegisterAll(g.keys, e.schedule), e);
    var f := FindingsOf(g, e);
    forall k | 0 <= k < f.depth
      ensures Covers(f.keys, Outputs(f.cache.blocks[k].txs))
    {
      RescannedAreCovered(g.keys, e.schedule, f.cache, f.depth, e.delivered, k);
    }
  }

  lemma SeenInWindow(seen: map<nat, seq<Tx>>, c: CacheState, h: nat)
    requires 1 <= |c.blocks| <= c.height + 1 && c.Bottom() <= h <= c.height
    ensures h in SeenAfter(seen, c) && SeenAfter(seen, c)[h] == c.blocks[c.height - h].txs
  {
  }

  /** Below the rescanned range the history did not change. */
  lemma SeenBelow(g: Gateway, f: Findings, h: nat)
    requires Truthful(g, f) && WindowSeen(g) && h < f.Lowest()
    ensures h <= ScannedTo(g)
    ensures h in SeenAfter(g.seen, f.cache) <==> h in g.seen
    ensures h in g.seen ==> SeenAfter(g.seen, f.cache)[h] == g.seen[h]
  {
    if f.cache.Bottom() <= h {
      SeenInWindow(g.seen, f.cache, h);
      assert KeptSlot(g.cache, f.cache, f.cache.height - h);
    }
  }

  /** Nothing an invoice keeps lies inside the rescanned range. */
  lemma NothingKeptInRange(g: Gateway, f: Findings, id: InvoiceId, h: nat)
    requires Truthful(g, f) && id in g.invoices && id in g.since && InvoiceOk(g, id)
    requires f.Lowest() <= h < f.Deepest()
    ensures Select(g.invoices[id].transfers, At(Some(h))) == []
  {
    assert LedgerAt(g, id, h);
    if h != g.cache.Bottom() {
      assert Expected(g, id, h) == [];
      assert |multiset(Select(g.invoices[id].transfers, At(Some(h))))| == 0;
    }
  }

  /** The invoice right after the findings were carried into it, before any recount. */
  function Carried(inv: Invoice, f: Findings): Invoice
    requires WellShaped(f)
  {
    Rescanned(inv, f.Payments(), f.Deepest(), f.cache.height)
  }

  lemma ScanSorts(g: Gateway, f: Findings, id: InvoiceId)
    requires Truthful(g, f) && id in g.invoices && id in g.since && InvoiceOk(g, id)
    ensures Sorted(Carried(g.invoices[id], f).transfers)
  {
    var inv := g.invoices[id];
    forall t | t in inv.transfers && t.height.Some?
      ensures t.height.value <= f.cache.height - f.depth || f.Deepest() <= t.height.value
    {
      if f.Lowest() <= t.height.value < f.Deepest() {
        NothingKeptInRange(g, f, id, t.height.value);
        SelectFinds(inv.transfers, t);
      }
    }
    RescannedSorted(inv, f.reports, f.poolPayments, f.cache, f.depth, f.Deepest(), f.keys, f.contains);
  }

  /** What a scan leaves at height h: the credits of the cached block if rescanned, else what was there. */
  lemma CarriedAt(g: Gateway, f: Findings, id: InvoiceId, h: nat)
    requires Truthful(g, f) && id in g.invoices && id in g.since && InvoiceOk(g, id)
    ensures multiset(Select(Carried(g.invoices[id], f).transfers, At(Some(h)))) ==
            if h < f.Lowest() then multiset(Select(g.invoices[id].transfers, At(Some(h))))
            else multiset(RescanCredits(f.cache, f.depth, 0, f.keys, id.subIndex, id.creationHeight, Some(h)))
  {
    var inv := g.invoices[id];
    RescannedAt(inv, f.reports, f.poolPayments, f.cache, f.depth, f.Deepest(), f.keys, f.contains, h);
    if h < f.Lowest() {
      assert RescanCredits(f.cache, f.depth, 0, f.keys, inv.index, inv.creationHeight, Some(h)) == [];
    } else if h < f.Deepest() {
      NothingKeptInRange(g, f, id, h);
    }
  }

  /** After the scan, the transfers at height h are what the ledger expects there. */
  ghost predicate ExpectedOk(g: Gateway, f: Findings, id: InvoiceId, h: nat)
    requires WellShaped(f) && id in g.invoices && id in g.since
  {
    var g' := Apply(g, f);
    && (OnRecord(g', id, h) ==> h in g'.seen && Covers(g'.keys, Outputs(g'.seen[h])))
    && multiset(Expected(g', id, h)) == multiset(Select(Carried(g.invoices[id], f).transfers, At(Some(h))))
  }

  lemma ExpectedBelow(g: Gateway, f: Findings, id: InvoiceId, h: nat)
    requires Truthful(g, f) && WindowSeen(g)
    requires id in g.invoices && id in g.since && InvoiceOk(g, id)
    requires h < f.Lowest()
    ensures ExpectedOk(g, f, id, h)
  {
    var g' := Apply(g, f);
    CarriedAt(g, f, id, h);
    SeenBelow(g, f, h);
    assert LedgerAt(g, id, h);
    assert OnRecord(g', id, h) <==> OnRecord(g, id, h);
    if OnRecord(g, id, h) {
      CreditsAreStable(g.keys, g'.keys, Outputs(g.seen[h]), id.subIndex);
      AcceptedIsStable(g.keys, g'.keys, f.contains, Outputs(g.seen[h]));
    }
  }

  /** Where the last-seen block is the cached one, the ledger expects what a rescan credits. */
  lemma ExpectedInWindow(g: Gateway, id: InvoiceId, h: nat, depth: nat)
    requires id in g.since && !g.firstScan
    requires depth <= |g.cache.blocks| <= g.cache.height + 1
    requires g.since[id] <= g.cache.height - depth + 1 <= h <= g.cache.height
    requires h in g.seen && g.seen[h] == g.cache.blocks[g.cache.height - h].txs
    ensures OnRecord(g, id, h) <==> id.creationHeight <= h
    ensures Expected(g, id, h) == RescanCredits(g.cache, depth, 0, g.keys, id.subIndex, id.creationHeight, Some(h))
  {
  }

  lemma ApplyInWindow(g: Gateway, f: Findings, id: InvoiceId, h: nat)
    requires Truthful(g, f) && id in g.since
    requires f.Lowest() <= h <= f.cache.height
    ensures var g' := Apply(g, f);
            && h in g'.seen && Covers(g'.keys, Outputs(g'.seen[h]))
            && Expected(g', id, h) ==
                 RescanCredits(f.cache, f.depth, 0, f.keys, id.subIndex, id.creationHeight, Some(h))
  {
    SeenInWindow(g.seen, f.cache, h);
    assert Covers(f.keys, Outputs(f.cache.blocks[f.cache.height - h].txs));
    ExpectedInWindow(Apply(g, f), id, h, f.depth);
  }

  lemma ExpectedRescanned(g: Gateway, f: Findings, id: InvoiceId, h: nat)
    requires Truthful(g, f)
    requires id in g.invoices && id in g.since && InvoiceOk(g, id)
    requires f.Lowest() <= h <= f.cache.height
    ensures ExpectedOk(g, f, id, h)
  {
    ApplyInWindow(g, f, id, h);
    CarriedAt(g, f, id, h);
  }

  lemma ExpectedAfterScan(g: Gateway, f: Findings, id: InvoiceId, h: nat)
    requires Truthful(g, f) && WindowSeen(g)
    requires id in g.invoices && id in g.since && InvoiceOk(g, id)
    ensures ExpectedOk(g, f, id, h)
  {
    if h < f.Lowest() {
      ExpectedBelow(g, f, id, h);
    } else if h <= f.cache.height {
      ExpectedRescanned(g, f, id, h);
    } else {
      CarriedAt(g, f, id, h);
      assert !OnRecord(Apply(g, f), id, h);
    }
  }

  /** The stored invoice after a scan, whether or not the recount was skipped. */
  lemma ApplyKeepsInvoice(g: Gateway, f: Findings, id: InvoiceId)
    requires Truthful(g, f) && WindowSeen(g)
    requires id in g.invoices && id in g.since && InvoiceOk(g, id)
    ensures var g' := Apply(g, f);
            && id in g'.invoices && id in g'.since && InvoiceOk(g', id)
            && SameInvoice(g'.invoices[id], Recounted(Carried(g.invoices[id], f)))
            && g'.invoices[id].currentHeight == g'.cache.height + 1
  {
    var g' := Apply(g, f);
    var inv := g.invoices[id];
    ScanSorts(g, f, id);
    RefreshedIsTotalled(inv, f.Payments(), f.Deepest(), f.cache.height);
    var stored := g'.invoices[id];
    SameTransfersIff(stored.transfers, Carried(inv, f).transfers);
    forall h: nat
      ensures LedgerAt(g', id, h)
    {
      ExpectedAfterScan(g, f, id, h);
      SelectPermutation(stored.transfers, Carried(inv, f).transfers, At(Some(h)));
    }
  }

  lemma ApplyKeepsInv(g: Gateway, f: Findings)
    requires Inv(g) && Truthful(g, f)
    ensures Inv(Apply(g, f))
  {
    var g' := Apply(g, f);
    assert g'.invoices.Keys == g.invoices.Keys;
    forall h: nat | g'.cache.Bottom() <= h <= g'.cache.height
      ensures h in g'.seen && g'.seen[h] == BlockAt(g'.cache, h).txs
    {
      SeenInWindow(g.seen, f.cache, h);
    }
    forall id | id in g'.invoices
      ensures id in g'.since && InvoiceOk(g', id)
    {
      ApplyKeepsInvoice(g, f, id);
    }
  }

  lemma ScanKeepsInv(g: Gateway, e: ScanEnv)
    requires Inv(g) && PoolUnmined(g.pool) && CleanScan(g, e)
    ensures Inv(Scan(g, e)) && PoolUnmined(Scan(g, e).pool)
  {
    CleanScanIsTruthful(g, e);
    ApplyKeepsInv(g, FindingsOf(g, e));
  }

  // ---------------------------------------------------------------------------
  // The other events keep the invariant
  // ---------------------------------------------------------------------------

  /** The invariant of an invoice only looks at these parts of the state. */
  lemma InvoiceOkFrame(g: Gateway, g': Gateway, id: InvoiceId)
    requires id in g.invoices && id in g.since && InvoiceOk(g, id)
    requires id in g'.invoices && id in g'.since
    requires g'.invoices[id] == g.invoices[id] && g'.since[id] == g.since[id]
    requires g'.cache == g.cache && g'.keys == g.keys && g'.firstScan == g.firstScan && g'.seen == g.seen
    ensures InvoiceOk(g', id)
  {
    forall h: nat
      ensures LedgerAt(g', id, h)
    {
      assert LedgerAt(g, id, h);
    }
  }

  /** A new invoice has nothing on record yet. */
  lemma FreshInvoiceOk(g: Gateway, id: InvoiceId)
    requires id in g.invoices && id in g.since && Fresh(g.invoices[id]) && g.invoices[id].Id() == id
    requires ValidCache(g.cache) && g.since[id] == g.cache.height + 1
    ensures InvoiceOk(g, id)
  {
    forall h: nat
      ensures LedgerAt(g, id, h)
    {
      assert !OnRecord(g, id, h);
    }
  }

  lemma CommitKeepsInv(g: Gateway, inv: Invoice)
    requires Inv(g) && inv.index in g.lending.drawn && Fresh(inv)
    ensures Inv(Next(g, Committed(inv)))
    ensures inv.Id() !in g.invoices
  {
    var g' := Next(g, Committed(inv));
    CommitKeepsAccount(g.lending, g.invoices.Keys, inv.Id());
    assert g'.invoices.Keys == g.invoices.Keys + {inv.Id()};
    assert WindowSeen(g) ==> WindowSeen(g');
    forall id | id in g'.invoices
      ensures InvoiceOk(g', id)
    {
      if id == inv.Id() { FreshInvoiceOk(g', id); } else { InvoiceOkFrame(g, g', id); }
    }
  }

  lemma TakeKeepsInv(g: Gateway, gone: InvoiceId)
    requires Inv(g) && gone in g.invoices
    ensures Inv(Next(g, Took(gone)))
  {
    var g' := Next(g, Took(gone));
    TakeKeepsAccount(g.lending, g.invoices.Keys, gone);
    assert g'.invoices.Keys == g.invoices.Keys - {gone};
    assert WindowSeen(g) ==> WindowSeen(g');
    forall id | id in g'.invoices
      ensures InvoiceOk(g', id)
    {
      InvoiceOkFrame(g, g', id);
    }
  }

  lemma LendingKeepsInv(g: Gateway, lending: Lending)
    requires Inv(g) && Accounted(lending, g.invoices.Keys)
    ensures Inv(g.(lending := lending))
  {
    var g' := g.(lending := lending);
    assert WindowSeen(g) ==> WindowSeen(g');
    forall id | id in g'.invoices
      ensures InvoiceOk(g', id)
    {
      InvoiceOkFrame(g, g', id);
    }
  }

  lemma NextKeepsInv(g: Gateway, ev: Event)
    requires Inv(g) && PoolUnmined(g.pool) && CanHappen(g, ev) && Trusted(g, ev)
    ensures Inv(Next(g, ev)) && PoolUnmined(Next(g, ev).pool)
  {
    var ids := g.invoices.Keys;
    match ev
    case Scanned(e) => ScanKeepsInv(g, e);
    case Drew(draw, derive) =>
      DrawKeepsAccount(g.lending, ids, draw, derive);
      LendingKeepsInv(g, Draw(g.lending, draw, derive));
    case Committed(inv) => CommitKeepsInv(g, inv);
    case Abandoned(s) =>
      AbandonKeepsAccount(g.lending, ids, s);
      LendingKeepsInv(g, Abandon(g.lending, s));
    case Took(id) => TakeKeepsInv(g, id);
    case Returned(entry) =>
      ReturnKeepsAccount(g.lending, ids, entry);
      LendingKeepsInv(g, Return(g.lending, entry));
  }

  /** What every event other than a scan leaves alone; a stored invoice is then as before, or new. */
  ghost predicate Quiet(g: Gateway, g': Gateway)
  {
    && g'.cache == g.cache && g'.pool == g.pool && g'.keys == g.keys && g'.firstScan == g.firstScan && g'.seen == g.seen
    && forall id :: id in g'.invoices ==> Untouched(g, g', id) || (id !in g.invoices && Fresh(g'.invoices[id]))
  }

  ghost predicate Untouched(g: Gateway, g': Gateway, id: InvoiceId)
    requires id in g'.invoices
  {
    && id in g.invoices && g'.invoices[id] == g.invoices[id]
    && (id in g.since ==> id in g'.since && g'.since[id] == g.since[id])
  }

  lemma OthersAreQuiet(g: Gateway, ev: Event)
    requires !ev.Scanned? && CanHappen(g, ev)
    ensures Quiet(g, Next(g, ev))
  {
    match ev
    case Drew(draw, derive) =>
    case Committed(inv) =>
    case Abandoned(s) =>
    case Took(id) =>
    case Returned(e) =>
  }
}
