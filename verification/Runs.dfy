/** Theorems about every run of the gateway. */
module Runs {
  import opened Prelude
  import opened Invoices
  import opened Transfers
  import opened Chain
  import opened BlockCaching
  import opened OutputKeys
  import opened Scanning
  import opened Subaddresses
  import opened Ledger
  import opened Upkeep

  /** Where runs start: before the first scan, with any window. Invoices kept from an earlier process must be
      settled below the window and hold no mined transfer inside it. */
  ghost predicate Startup(g: Gateway) { Inv(g) && g.firstScan && PoolUnmined(g.pool) }

  /** Any sequence of error-free scans, creations and removals, whatever the daemon serves. */
  ghost predicate ErrorFreeRun(states: seq<Gateway>, events: seq<Event>)
  {
    && |states| == |events| + 1
    && Startup(states[0])
    && forall i :: 0 <= i < |events| ==> StepAt(states, events, i)
  }

  /** ... in which the count of every scan covers what its cache update replaced. */
  ghost predicate Run(states: seq<Gateway>, events: seq<Event>)
  {
    ErrorFreeRun(states, events) && forall i :: 0 <= i < |events| ==> Trusted(states[i], events[i])
  }

  ghost predicate StepAt(states: seq<Gateway>, events: seq<Event>, i: nat)
    requires i + 1 < |states| && i < |events|
  {
    CanHappen(states[i], events[i]) && states[i + 1] == Next(states[i], events[i])
  }

  /** A gateway started on an empty store is a valid starting point, whatever its window and pool. */
  lemma EmptyStoreStarts(g: Gateway)
    requires ValidCache(g.cache) && WindowSeen(g) && g.firstScan
    requires g.invoices == map[] && g.since == map[] && g.pool.discovered == map[]
    requires Accounted(g.lending, {})
    ensures Startup(g)
  {
    assert g.invoices.Keys == {};
  }

  lemma {:induction false} RunKeepsInv(states: seq<Gateway>, events: seq<Event>, n: nat)
    requires Run(states, events) && n < |states|
    ensures Inv(states[n]) && PoolUnmined(states[n].pool)
  {
    if n > 0 {
      RunKeepsInv(states, events, n - 1);
      assert StepAt(states, events, n - 1) && Trusted(states[n - 1], events[n - 1]);
      NextKeepsInv(states[n - 1], events[n - 1]);
    }
  }

  /** In every error-free run, whatever the counts cover, transfers stay sorted and totalled and lie below what was
      scanned, and the last-seen blocks include the cached ones. */
  lemma {:induction false} RunStaysOrderly(states: seq<Gateway>, events: seq<Event>, n: nat)
    requires ErrorFreeRun(states, events) && n < |states|
    ensures AllOrderly(states[n])
  {
    if n == 0 {
      InvIsOrderly(states[0]);
    } else {
      RunStaysOrderly(states, events, n - 1);
      assert StepAt(states, events, n - 1);
      NextStaysOrderly(states[n - 1], events[n - 1]);
    }
  }

  /** In every error-free run the paid amount and the paid height are those of the invoice's own transfers: their sum,
      and the lowest height by which the mined ones meet the request. */
  lemma PaidHeightIsFirst(states: seq<Gateway>, events: seq<Event>, n: nat, id: InvoiceId)
    requires ErrorFreeRun(states, events) && n < |states| && id in states[n].invoices
    ensures var inv := states[n].invoices[id];
            && Sorted(inv.transfers)
            && inv.amountPaid == SumUntil(inv.transfers, None) == Total(inv.transfers)
            && (forall p: nat :: inv.paidHeight == Some(p) <==> FirstMet(inv.transfers, inv.amountRequested, p))
            && (inv.paidHeight.None? <==> NeverMet(inv.transfers, inv.amountRequested))
  {
    RunStaysOrderly(states, events, n);
    assert Orderly(states[n], id);
    PaidHeightIsFirstMet(states[n].invoices[id].transfers, states[n].invoices[id].amountRequested);
    TotalIsSumUntil(states[n].invoices[id].transfers);
  }

  /** What never changes about an invoice while it is stored: everything it was created with. */
  ghost predicate SameTerms(a: Invoice, b: Invoice)
  {
    && a.address == b.address && a.index == b.index && a.creationHeight == b.creationHeight
    && a.amountRequested == b.amountRequested && a.confirmationsRequired == b.confirmationsRequired
    && a.expirationHeight == b.expirationHeight && a.description == b.description
  }

  lemma NextKeepsTerms(g: Gateway, ev: Event, id: InvoiceId)
    requires CanHappen(g, ev) && id in g.invoices && id in Next(g, ev).invoices
    requires ev.Committed? ==> ev.invoice.Id() !in g.invoices
    ensures SameTerms(g.invoices[id], Next(g, ev).invoices[id])
  {
    if !ev.Scanned? {
      OthersAreQuiet(g, ev);
      assert Untouched(g, Next(g, ev), id);
    }
  }

  /** In every error-free run an invoice keeps, as long as it is stored, what it was created with. */
  lemma {:induction false} TermsNeverChange(states: seq<Gateway>, events: seq<Event>, i: nat, j: nat, id: InvoiceId)
    requires ErrorFreeRun(states, events) && i <= j < |states| && Tracked(states, id, i, j)
    ensures SameTerms(states[i].invoices[id], states[j].invoices[id])
    decreases j - i
  {
    if i < j {
      TermsNeverChange(states, events, i, j - 1, id);
      RunKeepsAccount(states, events, j - 1);
      assert StepAt(states, events, j - 1);
      NextKeepsAccount(states[j - 1], events[j - 1]);
      NextKeepsTerms(states[j - 1], events[j - 1], id);
    }
  }

  /** The daemon serves one chain during every scan among events from..to-1. */
  ghost predicate OneChainBetween(events: seq<Event>, from: nat, to: nat)
    requires to <= |events|
  {
    forall i :: from <= i < to && events[i].Scanned? ==> ServesOneChain(events[i].env.daemon)
  }

  lemma NextStaysLinked(g: Gateway, ev: Event)
    requires CanHappen(g, ev) && ValidCache(g.cache) && Linked(g.cache.blocks)
    ensures Trusted(g, ev) && ValidCache(Next(g, ev).cache)
    ensures (ev.Scanned? ==> ServesOneChain(ev.env.daemon)) ==> Linked(Next(g, ev).cache.blocks)
  {
    if ev.Scanned? {
      LinkedScanIsClean(g, ev.env);
      UpdateKeepsShape(g.cache, Some(ev.env.reported), ev.env.daemon);
    } else {
      OthersAreQuiet(g, ev);
    }
  }

  lemma {:induction false} StaysLinked(states: seq<Gateway>, events: seq<Event>, n: nat)
    requires ErrorFreeRun(states, events) && n < |states| && Linked(states[0].cache.blocks)
    requires OneChainBetween(events, 0, n)
    ensures ValidCache(states[n].cache) && Linked(states[n].cache.blocks)
  {
    if n > 0 {
      StaysLinked(states, events, n - 1);
      assert StepAt(states, events, n - 1);
      NextStaysLinked(states[n - 1], events[n - 1]);
    }
  }

  /** From a linked window, with a daemon that serves one chain during every scan but perhaps the last, the counts of
      an error-free run can be trusted. */
  lemma LinkedRunIsTrusted(states: seq<Gateway>, events: seq<Event>)
    requires ErrorFreeRun(states, events) && Linked(states[0].cache.blocks)
    requires |events| > 0 ==> OneChainBetween(events, 0, |events| - 1)
    ensures Run(states, events)
  {
    forall i | 0 <= i < |events|
      ensures Trusted(states[i], events[i])
    {
      StaysLinked(states, events, i);
      assert StepAt(states, events, i);
      NextStaysLinked(states[i], events[i]);
    }
  }

  // ---------------------------------------------------------------------------
  // Ledger refinement
  // ---------------------------------------------------------------------------

  /** The invoice was in the store in every state from..to. */
  ghost predicate Tracked(states: seq<Gateway>, id: InvoiceId, from: nat, to: nat)
    requires to < |states|
  {
    forall k :: from <= k <= to ==> id in states[k].invoices
  }

  /** The lowest height scanned for the invoice went down, or stayed, at step k. */
  ghost predicate SinceFalls(states: seq<Gateway>, id: InvoiceId, k: nat)
    requires k + 1 < |states|
  {
    id in states[k].since && id in states[k + 1].since && states[k + 1].since[id] <= states[k].since[id]
  }

  lemma {:induction false} SinceOnlyFalls(states: seq<Gateway>, id: InvoiceId, m: nat, n: nat)
    requires m <= n < |states| && id in states[m].since
    requires forall k :: m <= k < n ==> SinceFalls(states, id, k)
    ensures id in states[n].since && states[n].since[id] <= states[m].since[id]
    decreases n - m
  {
    if m < n {
      assert SinceFalls(states, id, n - 1);
      SinceOnlyFalls(states, id, m, n - 1);
    }
  }

  lemma NextSince(g: Gateway, ev: Event, id: InvoiceId)
    requires CanHappen(g, ev) && id in g.since && id in g.invoices && id in Next(g, ev).invoices
    ensures id in Next(g, ev).since && Next(g, ev).since[id] <= g.since[id]
  {
    if !ev.Scanned? {
      OthersAreQuiet(g, ev);
      assert Untouched(g, Next(g, ev), id);
    }
  }

  /** While an invoice is tracked, the lowest height scanned for it only goes down. */
  lemma StepSince(states: seq<Gateway>, events: seq<Event>, id: InvoiceId, k: nat)
    requires Run(states, events) && k < |events| && id in states[k].invoices && id in states[k + 1].invoices
    ensures SinceFalls(states, id, k)
  {
    RunKeepsInv(states, events, k);
    assert StepAt(states, events, k);
    NextSince(states[k], events[k], id);
  }

  lemma NextSeen(g: Gateway, ev: Event, h: nat)
    requires CanHappen(g, ev) && h < Next(g, ev).cache.Bottom() && h in g.seen
    ensures h in Next(g, ev).seen && Next(g, ev).seen[h] == g.seen[h]
  {
    if !ev.Scanned? { OthersAreQuiet(g, ev); }
  }

  lemma CommittedIsNew(g: Gateway, ev: Event)
    requires Inv(g) && CanHappen(g, ev)
    ensures ev.Committed? ==> ev.invoice.Id() !in g.invoices
  {
    if ev.Committed? { CommitKeepsInv(g, ev.invoice); }
  }

  /** Ledger refinement. Take any run, an invoice stored at event i with a creation height above the cache, tracked
      ever since, and any later moment after the first scan. Then, height by height, its mined transfers are exactly
      the credits of the last-seen blocks from its creation height to the cache height, all of whose outputs are
      registered, and nothing else. */
  lemma LedgerRefinement(states: seq<Gateway>, events: seq<Event>, i: nat, n: nat, h: nat)
    requires Run(states, events) && i < n < |states|
    requires events[i].Committed? && events[i].invoice.creationHeight > states[i].cache.height
    requires Tracked(states, events[i].invoice.Id(), i + 1, n)
    requires !states[n].firstScan
    ensures var g, id := states[n], events[i].invoice.Id();
            && (id.creationHeight <= h <= g.cache.height ==> h in g.seen && Covers(g.keys, Outputs(g.seen[h])))
            && multiset(Select(g.invoices[id].transfers, At(Some(h)))) ==
               multiset(if id.creationHeight <= h <= g.cache.height
                        then Credits(g.keys, Outputs(g.seen[h]), id.subIndex) else [])
  {
    var g, id := states[n], events[i].invoice.Id();
    RunKeepsInv(states, events, i);
    assert StepAt(states, events, i);
    CommittedIsNew(states[i], events[i]);
    forall k | i + 1 <= k < n
      ensures SinceFalls(states, id, k)
    {
      StepSince(states, events, id, k);
    }
    SinceOnlyFalls(states, id, i + 1, n);
    RunKeepsInv(states, events, n);
    assert InvoiceOk(g, id) && LedgerAt(g, id, h);
  }

  /** What "last seen" means: the block held at that height in the last state whose window reached it. */
  lemma {:induction false} SeenIsLastCached(states: seq<Gateway>, events: seq<Event>, m: nat, n: nat, h: nat)
    requires ErrorFreeRun(states, events) && m <= n < |states|
    requires |states[m].cache.blocks| > 0 && states[m].cache.Bottom() <= h <= states[m].cache.height
    requires forall k :: m < k <= n ==> h < states[k].cache.Bottom()
    ensures h in states[n].seen && states[n].seen[h] == BlockAt(states[m].cache, h).txs
    decreases n - m
  {
    RunStaysOrderly(states, events, n);
    if m < n {
      SeenIsLastCached(states, events, m, n - 1, h);
      assert StepAt(states, events, n - 1);
      NextSeen(states[n - 1], events[n - 1], h);
    }
  }

  lemma NextKeepsAccount(g: Gateway, ev: Event)
    requires CanHappen(g, ev) && Accounted(g.lending, g.invoices.Keys)
    ensures Accounted(Next(g, ev).lending, Next(g, ev).invoices.Keys)
    ensures ev.Committed? ==> ev.invoice.Id() !in g.invoices
  {
    var ids := g.invoices.Keys;
    match ev
    case Scanned(e) => assert Next(g, ev).invoices.Keys == ids;
    case Drew(draw, derive) => DrawKeepsAccount(g.lending, ids, draw, derive);
    case Committed(inv) =>
      CommitKeepsAccount(g.lending, ids, inv.Id());
      assert Next(g, ev).invoices.Keys == ids + {inv.Id()};
    case Abandoned(s) => AbandonKeepsAccount(g.lending, ids, s);
    case Took(id) =>
      TakeKeepsAccount(g.lending, ids, id);
      assert Next(g, ev).invoices.Keys == ids - {id};
    case Returned(entry) => ReturnKeepsAccount(g.lending, ids, entry);
  }

  lemma {:induction false} RunKeepsAccount(states: seq<Gateway>, events: seq<Event>, n: nat)
    requires ErrorFreeRun(states, events) && n < |states|
    ensures Accounted(states[n].lending, states[n].invoices.Keys)
  {
    if n > 0 {
      RunKeepsAccount(states, events, n - 1);
      assert StepAt(states, events, n - 1);
      NextKeepsAccount(states[n - 1], events[n - 1]);
    }
  }

  /** There is something to draw from, or the last index is used up. */
  predicate CanDraw(c: Subaddresses) { |c.available| > 0 || c.highest == U32_MAX }

  lemma NextCanDraw(g: Gateway, ev: Event)
    requires CanHappen(g, ev) && Accounted(g.lending, g.invoices.Keys) && CanDraw(g.lending.cache)
    ensures CanDraw(Next(g, ev).lending.cache)
    ensures ev.Drew? && Next(g, ev).lending.cache.highest < U32_MAX ==>
              |Next(g, ev).lending.cache.available| >= MIN_AVAILABLE
  {
    match ev
    case Drew(draw, derive) => TakeOutLeavesEnough(g.lending.cache, draw, derive);
    case Returned(entry) =>
      ReturnedIsFresh(g.lending, g.invoices.Keys, entry);
      AppendKeepsValid(g.lending.cache, entry);
    case _ =>
  }

  /** Allocator availability, over every run: a gateway that starts with something to draw from never draws from an
      empty range before the last minor index is used up, and every draw leaves at least a hundred. */
  lemma {:induction false} NeverDrawsFromNothing(states: seq<Gateway>, events: seq<Event>, n: nat)
    requires ErrorFreeRun(states, events) && n < |states| && |states[0].lending.cache.available| > 0
    ensures CanDraw(states[n].lending.cache)
    ensures n > 0 && events[n - 1].Drew? && states[n].lending.cache.highest < U32_MAX ==>
              |states[n].lending.cache.available| >= MIN_AVAILABLE
  {
    if n > 0 {
      NeverDrawsFromNothing(states, events, n - 1);
      RunKeepsAccount(states, events, n - 1);
      assert StepAt(states, events, n - 1);
      NextCanDraw(states[n - 1], events[n - 1]);
    }
  }

  /** Allocator disjointness, at every moment of every run: no two stored invoices share a subaddress, and a stored
      invoice's subaddress is neither available nor in a creation's or removal's hands. */
  lemma AllocatorIsDisjoint(states: seq<Gateway>, events: seq<Event>, n: nat, a: InvoiceId, b: InvoiceId)
    requires ErrorFreeRun(states, events) && n < |states|
    requires a in states[n].invoices && b in states[n].invoices
    ensures a.subIndex == b.subIndex ==> a == b
    ensures var l := states[n].lending;
            && InAccount(l.cache, a.subIndex)
            && a.subIndex !in Indices(l.cache.available) && a.subIndex !in l.drawn && a.subIndex !in l.returning
  {
    RunKeepsAccount(states, events, n);
    var g := states[n];
    var ids := g.invoices.Keys;
    if a.subIndex == b.subIndex { LiveAreDistinct(g.lending, ids, a, b); }
    if a.subIndex in Indices(g.lending.cache.available) || a.subIndex in g.lending.drawn
       || a.subIndex in g.lending.returning {
      DrawnIsNotLive(g.lending, ids, a.subIndex);
    }
    assert a in Live(ids, a.subIndex);
    assert Places(g.lending, ids, a.subIndex) >= 1;
  }

  /** The duplicate-invoice error is unreachable. */
  lemma NoDuplicateInvoice(states: seq<Gateway>, events: seq<Event>, n: nat)
    requires ErrorFreeRun(states, events) && n < |events| && events[n].Committed?
    ensures events[n].invoice.Id() !in states[n].invoices
    ensures events[n].invoice.Id() in states[n + 1].invoices
  {
    RunKeepsAccount(states, events, n);
    assert StepAt(states, events, n);
    NextKeepsAccount(states[n], events[n]);
  }

  /** No creation among the first n events fails. */
  ghost predicate NoneAbandoned(events: seq<Event>, n: nat)
    requires n <= |events|
  {
    forall i :: 0 <= i < n ==> !events[i].Abandoned?
  }

  /** Indices are lost only by creations that fail before they reach the store. */
  lemma {:induction false} NothingIsLost(states: seq<Gateway>, events: seq<Event>, n: nat)
    requires ErrorFreeRun(states, events) && n < |states| && NoneAbandoned(events, n)
    ensures states[n].lending.lost == states[0].lending.lost
  {
    if n > 0 {
      NothingIsLost(states, events, n - 1);
      RunKeepsAccount(states, events, n - 1);
      assert StepAt(states, events, n - 1);
      NextKeepsAccount(states[n - 1], events[n - 1]);
    }
  }

  /** With no failed creation, in every run that starts with no index lost, whenever no creation or removal is under way
      the available and the live indices partition 0..=highest. */
  lemma RunPartitions(states: seq<Gateway>, events: seq<Event>, n: nat, s: SubIndex)
    requires ErrorFreeRun(states, events) && n < |states| && NoneAbandoned(events, n)
    requires states[0].lending.lost == multiset{}
    requires states[n].lending.drawn == multiset{} && states[n].lending.returning == multiset{}
    ensures var g := states[n]; var free := Indices(g.lending.cache.available);
            && (InAccount(g.lending.cache, s) <==> s in free || exists id :: id in g.invoices && id.subIndex == s)
            && !(s in free && exists id :: id in g.invoices && id.subIndex == s)
  {
    NothingIsLost(states, events, n);
    RunKeepsAccount(states, events, n);
    AvailableAndLivePartition(states[n].lending, states[n].invoices.Keys, s);
  }

  // ---------------------------------------------------------------------------
  // Paid height
  // ---------------------------------------------------------------------------

  /** What the ledger expects an invoice to have received up to a height. */
  function LedgerSum(g: Gateway, id: InvoiceId, h: nat): nat
    requires id in g.since
  {
    (if h == 0 then 0 else LedgerSum(g, id, h - 1)) + Sum(Expected(g, id, h))
  }

  lemma {:induction false} SumIsLedgerSum(g: Gateway, id: InvoiceId, h: nat)
    requires id in g.invoices && id in g.since && InvoiceOk(g, id)
    ensures SumUntil(g.invoices[id].transfers, Some(h)) == LedgerSum(g, id, h)
  {
    var ts := g.invoices[id].transfers;
    assert LedgerAt(g, id, h);
    SumUntilStep(ts, h);
    SumPermutation(Select(ts, At(Some(h))), Expected(g, id, h));
    if h > 0 { SumIsLedgerSum(g, id, h - 1); }
  }

  /** `p` is the lowest height by which the ledger's cumulative mined amount meets the request. */
  ghost predicate FirstMetByLedger(g: Gateway, id: InvoiceId, requested: nat, p: nat)
    requires id in g.since
  {
    LedgerSum(g, id, p) >= requested && forall q: nat :: q < p ==> LedgerSum(g, id, q) < requested
  }

  ghost predicate NeverMetByLedger(g: Gateway, id: InvoiceId, requested: nat)
    requires id in g.since
  {
    forall p: nat :: LedgerSum(g, id, p) < requested
  }

  lemma MetByIsLedger(g: Gateway, id: InvoiceId, p: nat)
    requires id in g.invoices && id in g.since && InvoiceOk(g, id) && g.invoices[id].amountRequested > 0
    ensures MetBy(g.invoices[id].transfers, g.invoices[id].amountRequested, p) <==>
            LedgerSum(g, id, p) >= g.invoices[id].amountRequested
  {
    MetByPositive(g.invoices[id].transfers, g.invoices[id].amountRequested, p);
    SumIsLedgerSum(g, id, p);
  }

  lemma FirstMetIsLedger(g: Gateway, id: InvoiceId, p: nat)
    requires id in g.invoices && id in g.since && InvoiceOk(g, id) && g.invoices[id].amountRequested > 0
    ensures FirstMet(g.invoices[id].transfers, g.invoices[id].amountRequested, p) <==>
            FirstMetByLedger(g, id, g.invoices[id].amountRequested, p)
  {
    forall q: nat
      ensures MetBy(g.invoices[id].transfers, g.invoices[id].amountRequested, q) <==>
              LedgerSum(g, id, q) >= g.invoices[id].amountRequested
    {
      MetByIsLedger(g, id, q);
    }
  }

  lemma NeverMetIsLedger(g: Gateway, id: InvoiceId)
    requires id in g.invoices && id in g.since && InvoiceOk(g, id) && g.invoices[id].amountRequested > 0
    ensures NeverMet(g.invoices[id].transfers, g.invoices[id].amountRequested) <==>
            NeverMetByLedger(g, id, g.invoices[id].amountRequested)
  {
    var inv := g.invoices[id];
    if NeverMet(inv.transfers, inv.amountRequested) {
      forall p: nat
        ensures LedgerSum(g, id, p) < inv.amountRequested
      {
        MetByIsLedger(g, id, p);
      }
    } else {
      var p: nat :| MetBy(inv.transfers, inv.amountRequested, p);
      MetByIsLedger(g, id, p);
    }
  }

  lemma PaidHeightOfState(g: Gateway, id: InvoiceId)
    requires id in g.invoices && id in g.since && InvoiceOk(g, id) && g.invoices[id].amountRequested > 0
    ensures var inv := g.invoices[id];
            && (forall p: nat :: inv.paidHeight == Some(p) <==> FirstMetByLedger(g, id, inv.amountRequested, p))
            && (inv.paidHeight.None? <==> NeverMetByLedger(g, id, inv.amountRequested))
            && inv.amountPaid == SumUntil(inv.transfers, None)
  {
    var inv := g.invoices[id];
    PaidHeightIsFirstMet(inv.transfers, inv.amountRequested);
    forall p: nat
      ensures FirstMet(inv.transfers, inv.amountRequested, p) <==> FirstMetByLedger(g, id, inv.amountRequested, p)
    {
      FirstMetIsLedger(g, id, p);
    }
    NeverMetIsLedger(g, id);
  }

  /** Paid height is right: at every moment of every run, for a positive request, an invoice's paid height is the
      lowest height by which the ledger's cumulative mined amount meets the request; and there is none exactly when
      no height does. */
  lemma PaidHeightIsRight(states: seq<Gateway>, events: seq<Event>, n: nat, id: InvoiceId)
    requires Run(states, events) && n < |states| && id in states[n].invoices
    requires states[n].invoices[id].amountRequested > 0
    ensures id in states[n].since
    ensures var g := states[n]; var inv := g.invoices[id];
            && (forall p: nat :: inv.paidHeight == Some(p) <==> FirstMetByLedger(g, id, inv.amountRequested, p))
            && (inv.paidHeight.None? <==> NeverMetByLedger(g, id, inv.amountRequested))
            && inv.amountPaid == SumUntil(inv.transfers, None)
  {
    RunKeepsInv(states, events, n);
    PaidHeightOfState(states[n], id);
  }
}
