/** Confirmations in every error-free run that starts on an empty store (library/src/invoice.rs:99-103, 239-247). */
module Confirmations {
  import opened Prelude
  import opened Invoices
  import opened Transfers
  import opened Scanning
  import opened Ledger
  import opened Upkeep
  import opened Runs

  /** A stored invoice is as created, or was brought up to date by the last scan. */
  ghost predicate UpToDate(g: Gateway, id: InvoiceId)
    requires id in g.invoices
  {
    Fresh(g.invoices[id]) || (!g.firstScan && g.invoices[id].currentHeight == g.cache.height + 1)
  }

  ghost predicate AllUpToDate(g: Gateway)
  {
    forall id :: id in g.invoices ==> UpToDate(g, id)
  }

  lemma ScanBringsUpToDate(g: Gateway, e: ScanEnv, id: InvoiceId)
    requires AllOrderly(g) && ErrorFree(g, e) && id in g.invoices
    ensures id in Scan(g, e).invoices && UpToDate(Scan(g, e), id)
  {
    ErrorFreeIsSurveyed(g, e);
    assert Orderly(g, id);
    ApplyKeepsOrder(g, FindingsOf(g, e), id);
  }

  lemma QuietUpToDate(g: Gateway, g': Gateway)
    requires Quiet(g, g') && AllUpToDate(g)
    ensures AllUpToDate(g')
  {
    forall id | id in g'.invoices
      ensures UpToDate(g', id)
    {
      if Untouched(g, g', id) { assert UpToDate(g, id); }
    }
  }

  lemma NextUpToDate(g: Gateway, ev: Event)
    requires AllOrderly(g) && CanHappen(g, ev) && AllUpToDate(g)
    ensures AllUpToDate(Next(g, ev))
  {
    if ev.Scanned? {
      forall id | id in Next(g, ev).invoices
        ensures UpToDate(Next(g, ev), id)
      {
        ScanBringsUpToDate(g, ev.env, id);
      }
    } else {
      OthersAreQuiet(g, ev);
      QuietUpToDate(g, Next(g, ev));
    }
  }

  lemma {:induction false} RunUpToDate(states: seq<Gateway>, events: seq<Event>, n: nat)
    requires ErrorFreeRun(states, events) && n < |states| && states[0].invoices == map[]
    ensures AllUpToDate(states[n])
  {
    if n > 0 {
      RunUpToDate(states, events, n - 1);
      RunStaysOrderly(states, events, n - 1);
      assert StepAt(states, events, n - 1);
      NextUpToDate(states[n - 1], events[n - 1]);
    }
  }

  /** A mined paid height is the first to meet the request, and was scanned. */
  lemma PaidHeightWasScanned(g: Gateway, id: InvoiceId, p: nat)
    requires Orderly(g, id) && g.invoices[id].paidHeight == Some(p)
    ensures p < Horizon(g)
    ensures FirstMet(g.invoices[id].transfers, g.invoices[id].amountRequested, p)
    ensures g.invoices[id].amountPaid >= g.invoices[id].amountRequested
  {
    var inv := g.invoices[id];
    PaidHeightIsFirstMet(inv.transfers, inv.amountRequested);
    PaidHeightIsReal(inv.transfers, inv.amountRequested, p);
  }

  lemma ExactWhenUpToDate(g: Gateway, id: InvoiceId, p: nat)
    requires Orderly(g, id) && UpToDate(g, id) && g.invoices[id].paidHeight == Some(p)
    ensures var inv := g.invoices[id];
            && !g.firstScan
            && inv.currentHeight == g.cache.height + 1 > p
            && inv.Confirmations() == Some(g.cache.height + 1 - p)
  {
    PaidHeightWasScanned(g, id, p);
  }

  /** Confirmations are exact: in every error-free run from an empty store, a mined paid height is below the invoice's
      current height, so the confirmation count is their difference, at least one, with no saturation involved. */
  lemma ConfirmationsAreExact(states: seq<Gateway>, events: seq<Event>, n: nat, id: InvoiceId, p: nat)
    requires ErrorFreeRun(states, events) && n < |states| && states[0].invoices == map[]
    requires id in states[n].invoices && states[n].invoices[id].paidHeight == Some(p)
    ensures var g := states[n]; var inv := g.invoices[id];
            && !g.firstScan
            && inv.currentHeight == g.cache.height + 1 > p
            && inv.Confirmations() == Some(g.cache.height + 1 - p)
            && inv.Confirmations().value >= 1
  {
    RunStaysOrderly(states, events, n);
    RunUpToDate(states, events, n);
    var g := states[n];
    assert Orderly(g, id) && UpToDate(g, id);
    ExactWhenUpToDate(g, id, p);
  }

  /** When confirmations are counted, and from where. In every error-free run from an empty store: there is no count
      exactly while the transfers add up to less than the request; the count is zero exactly if the request is met,
          but at
      no height by mined transfers alone; and otherwise it is the number of blocks from the height at which mined
      transfers first met the request, that block included. */
  lemma ConfirmationsAre(states: seq<Gateway>, events: seq<Event>, n: nat, id: InvoiceId)
    requires ErrorFreeRun(states, events) && n < |states| && states[0].invoices == map[] && id in states[n].invoices
    ensures var g := states[n]; var inv := g.invoices[id];
            && (inv.Confirmations().None? <==> Total(inv.transfers) < inv.amountRequested)
            && (inv.Confirmations() == Some(0) <==>
                Total(inv.transfers) >= inv.amountRequested && NeverMet(inv.transfers, inv.amountRequested))
            && (forall p: nat :: FirstMet(inv.transfers, inv.amountRequested, p) ==>
                  p <= g.cache.height && inv.Confirmations() == Some(g.cache.height + 1 - p))
  {
    var inv := states[n].invoices[id];
    PaidHeightIsFirst(states, events, n, id);
    TotalIsSumUntil(inv.transfers);
    forall p: nat | FirstMet(inv.transfers, inv.amountRequested, p)
      ensures p <= states[n].cache.height && inv.Confirmations() == Some(states[n].cache.height + 1 - p)
    {
      ConfirmationsAreExact(states, events, n, id, p);
    }
    if inv.paidHeight.Some? { ConfirmationsAreExact(states, events, n, id, inv.paidHeight.value); }
  }

  /** When an invoice is confirmed: its transfers meet the request, and either no confirmation is required, or mined
      transfers met it at a height that lies deep enough. */
  lemma ConfirmedIff(states: seq<Gateway>, events: seq<Event>, n: nat, id: InvoiceId)
    requires ErrorFreeRun(states, events) && n < |states| && states[0].invoices == map[] && id in states[n].invoices
    ensures var g := states[n]; var inv := g.invoices[id];
            inv.IsConfirmed() <==>
            && Total(inv.transfers) >= inv.amountRequested
            && (inv.confirmationsRequired == 0 ||
                exists p: nat :: FirstMet(inv.transfers, inv.amountRequested, p) &&
                                 g.cache.height + 1 - p >= inv.confirmationsRequired)
  {
    var inv := states[n].invoices[id];
    ConfirmationsAre(states, events, n, id);
    PaidHeightIsFirst(states, events, n, id);
  }

  // ---------------------------------------------------------------------------
  // Stability
  // ---------------------------------------------------------------------------

  /** A scan that counts nothing at or below the paid height leaves the paid height alone. */
  lemma ApplyKeepsPaidHeight(g: Gateway, f: Findings, id: InvoiceId, p: nat)
    requires Orderly(g, id) && Surveyed(g, f) && !g.firstScan
    requires g.invoices[id].paidHeight == Some(p) && p < f.Deepest()
    ensures id in Apply(g, f).invoices
    ensures Apply(g, f).invoices[id].paidHeight == Some(p)
  {
    var inv := g.invoices[id];
    var next := Carried(inv, f);
    PaidHeightWasScanned(g, id, p);
    SameBelowDeepest(g, f, id, p);
    FirstMetByHeight(inv.transfers, next.transfers, inv.amountRequested, p);
    CarriedSorted(g, f, id);
    PaidHeightIsFirstMet(next.transfers, inv.amountRequested);
    ApplyKeepsOrder(g, f, id);
  }

  lemma SameBelowDeepest(g: Gateway, f: Findings, id: InvoiceId, p: nat)
    requires Orderly(g, id) && Surveyed(g, f) && !g.firstScan && p < f.Deepest()
    ensures SameUpTo(g.invoices[id].transfers, Carried(g.invoices[id], f).transfers, p)
  {
    var inv := g.invoices[id];
    forall k: nat | k <= p
      ensures multiset(Select(inv.transfers, At(Some(k)))) == multiset(Select(Carried(inv, f).transfers, At(Some(k))))
    {
      RescannedAt(inv, f.reports, f.poolPayments, f.cache, f.depth, f.Deepest(), f.keys, f.contains, k);
      var kept := Select(inv.transfers, At(Some(k)));
      assert RescanCredits(f.cache, f.depth, 0, f.keys, inv.index, inv.creationHeight, Some(k)) == [];
      assert kept + [] == kept;
    }
  }

  /** No scan among events i..j-1 counted a block at or below height p as replaced. */
  ghost predicate Undisturbed(states: seq<Gateway>, events: seq<Event>, i: nat, j: nat, p: nat)
    requires j <= |events| <= |states|
  {
    forall k :: i <= k < j ==> LeavesAlone(states[k], events[k], p)
  }

  ghost predicate LeavesAlone(g: Gateway, ev: Event, p: nat)
  {
    ev.Scanned? && ErrorFree(g, ev.env) ==> p < FindingsOf(g, ev.env).Deepest()
  }

  lemma NextKeepsPaidHeight(g: Gateway, ev: Event, id: InvoiceId, p: nat)
    requires AllOrderly(g) && CanHappen(g, ev) && !g.firstScan
    requires id in g.invoices && id in Next(g, ev).invoices
    requires g.invoices[id].paidHeight == Some(p) && LeavesAlone(g, ev, p)
    ensures Next(g, ev).invoices[id].paidHeight == Some(p)
    ensures SameTerms(g.invoices[id], Next(g, ev).invoices[id])
    ensures g.cache.height <= Next(g, ev).cache.height
  {
    if ev.Scanned? {
      ErrorFreeIsSurveyed(g, ev.env);
      assert Orderly(g, id);
      ApplyKeepsPaidHeight(g, FindingsOf(g, ev.env), id, p);
    } else {
      OthersAreQuiet(g, ev);
      assert Untouched(g, Next(g, ev), id);
    }
  }

  /** Confirmation stability: from the moment a mined paid height is recorded, as long as the invoice is tracked and
      no scan counts a block at or below that height as replaced, the paid height stays, the confirmations never go
      down, and a confirmed invoice stays confirmed. */
  lemma {:induction false} ConfirmationsAreStable(states: seq<Gateway>, events: seq<Event>, i: nat, j: nat,
                                                  id: InvoiceId, p: nat)
    requires ErrorFreeRun(states, events) && i <= j < |states| && states[0].invoices == map[]
    requires Tracked(states, id, i, j) && states[i].invoices[id].paidHeight == Some(p)
    requires Undisturbed(states, events, i, j, p)
    ensures var before, after := states[i].invoices[id], states[j].invoices[id];
            && after.paidHeight == Some(p)
            && SameTerms(before, after)
            && before.Confirmations().Some? && after.Confirmations().Some?
            && before.Confirmations().value <= after.Confirmations().value
            && (before.IsConfirmed() ==> after.IsConfirmed())
            && states[i].cache.height <= states[j].cache.height
    decreases j - i
  {
    ConfirmationsAreExact(states, events, i, id, p);
    if i < j {
      var k := j - 1;
      ConfirmationsAreStable(states, events, i, k, id, p);
      ConfirmationsAreExact(states, events, k, id, p);
      RunStaysOrderly(states, events, k);
      assert StepAt(states, events, k);
      assert LeavesAlone(states[k], events[k], p);
      NextKeepsPaidHeight(states[k], events[k], id, p);
      ConfirmationsAreExact(states, events, j, id, p);
    }
  }
}
