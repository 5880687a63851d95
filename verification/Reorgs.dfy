/** When an error-free scan leaves an invoice right although earlier bookkeeping went wrong: the count of the cache
    update did not cover what it replaced, or earlier scans failed after the cache had moved on. */
module Reorgs {
  import opened Prelude
  import opened Invoices
  import opened Transfers
  import opened Chain
  import opened BlockCaching
  import opened OutputKeys
  import opened Scanning
  import opened Ledger
  import opened Upkeep

  // ---------------------------------------------------------------------------
  // Scans that fail
  // ---------------------------------------------------------------------------

  /** g differs from an earlier state only in what scans that fail may change. */
  ghost predicate Behind(past: Gateway, g: Gateway)
  {
    && g.invoices == past.invoices && g.since == past.since && g.firstScan == past.firstScan
    && ValidCache(past.cache) && ValidCache(g.cache) && |g.cache.blocks| == |past.cache.blocks|
    && past.cache.height <= g.cache.height && Extends(past.keys, g.keys)
  }

  /** A sequence of scans, all of which fail. */
  ghost predicate FailedScans(states: seq<Gateway>, failures: seq<Failure>)
  {
    && |states| == |failures| + 1 && ValidCache(states[0].cache)
    && forall i :: 0 <= i < |failures| ==> FailsAt(states, failures, i)
  }

  ghost predicate FailsAt(states: seq<Gateway>, failures: seq<Failure>, i: nat)
    requires i < |failures| && i + 1 < |states|
  {
    && ValidCache(states[i].cache) && Extends(states[i].keys, failures[i].keys)
    && states[i + 1] == AfterFailure(states[i], failures[i])
  }

  lemma {:induction false} FailuresLeaveBehind(states: seq<Gateway>, failures: seq<Failure>, n: nat)
    requires FailedScans(states, failures) && n < |states|
    ensures Behind(states[0], states[n])
  {
    if n > 0 {
      FailuresLeaveBehind(states, failures, n - 1);
      assert FailsAt(states, failures, n - 1);
      UpdateKeepsShape(states[n - 1].cache, failures[n - 1].reported, failures[n - 1].daemon);
    }
  }

  // ---------------------------------------------------------------------------
  // What the next scan leaves at each height
  // ---------------------------------------------------------------------------

  ghost predicate Known(g: Gateway, id: InvoiceId) { id in g.invoices && id in g.since && InvoiceOk(g, id) }

  /** What an invoice has on record at a height, in terms of the blocks seen when it was last reconciled. */
  function OnceCredited(past: Gateway, keys: KeyTable, id: InvoiceId, h: nat): seq<nat>
    requires id in past.since
  {
    if OnRecord(past, id, h) && h in past.seen then Credits(keys, Outputs(past.seen[h]), id.subIndex) else []
  }

  lemma RecordIsOnceCredited(past: Gateway, keys: KeyTable, id: InvoiceId, h: nat)
    requires Known(past, id) && Extends(past.keys, keys)
    ensures multiset(Select(past.invoices[id].transfers, At(Some(h)))) == multiset(OnceCredited(past, keys, id, h))
  {
    assert LedgerAt(past, id, h);
    if OnRecord(past, id, h) { CreditsAreStable(past.keys, keys, Outputs(past.seen[h]), id.subIndex); }
  }

  /** Below the lowest rescanned block an invoice keeps what the block seen there when it was last reconciled credits
      it, whether or not that block is still the one in the cache. */
  lemma KeepsWhatWasThere(past: Gateway, g: Gateway, f: Findings, id: InvoiceId, h: nat)
    requires Known(past, id) && Behind(past, g) && Surveyed(g, f) && h < f.Lowest()
    ensures multiset(Select(Apply(g, f).invoices[id].transfers, At(Some(h)))) ==
            multiset(OnceCredited(past, f.keys, id, h))
  {
    var inv := g.invoices[id];
    RecordIsOnceCredited(past, f.keys, id, h);
    StoredAt(g, f, id, Some(h));
    RescannedAt(inv, f.reports, f.poolPayments, f.cache, f.depth, f.Deepest(), f.keys, f.contains, h);
    var kept := Select(inv.transfers, At(Some(h)));
    assert RescanCredits(f.cache, f.depth, 0, f.keys, inv.index, inv.creationHeight, Some(h)) == [];
    assert kept + [] == kept;
  }

  /** Nothing kept lies in the rescanned range. */
  lemma NothingKeptThere(past: Gateway, g: Gateway, f: Findings, id: InvoiceId, h: nat)
    requires Known(past, id) && Behind(past, g) && Surveyed(g, f) && f.Lowest() <= h < f.Deepest()
    ensures Select(g.invoices[id].transfers, At(Some(h))) == []
  {
    assert LedgerAt(past, id, h);
    if h != past.cache.Bottom() {
      assert Expected(past, id, h) == [];
      assert |multiset(Select(g.invoices[id].transfers, At(Some(h))))| == 0;
    }
  }

  /** From there on it holds what the cached block credits it. */
  lemma HoldsWhatIsCached(past: Gateway, g: Gateway, f: Findings, id: InvoiceId, h: nat)
    requires Known(past, id) && Behind(past, g) && Surveyed(g, f) && h >= f.Lowest()
    ensures multiset(Select(Apply(g, f).invoices[id].transfers, At(Some(h)))) ==
            multiset(RescanCredits(f.cache, f.depth, 0, f.keys, id.subIndex, id.creationHeight, Some(h)))
  {
    var inv := g.invoices[id];
    StoredAt(g, f, id, Some(h));
    RescannedAt(inv, f.reports, f.poolPayments, f.cache, f.depth, f.Deepest(), f.keys, f.contains, h);
    if h < f.Deepest() { NothingKeptThere(past, g, f, id, h); }
    var credits := RescanCredits(f.cache, f.depth, 0, f.keys, inv.index, inv.creationHeight, Some(h));
    assert [] + credits == credits;
  }

  // ---------------------------------------------------------------------------
  // What the invoice is owed there
  // ---------------------------------------------------------------------------

  /** The ledger asks about this height: it is not older than the invoice, and was scanned while it was stored, or is
      above what was. */
  predicate Due(g: Gateway, id: InvoiceId, h: nat)
    requires id in g.since
  {
    id.creationHeight <= h && g.since[id] <= h
  }

  /** What a scan of these transactions, registering their outputs first, credits a subaddress. */
  function WouldCredit(keys: KeyTable, txs: seq<Tx>, s: SubIndex): seq<nat>
  {
    Credits(RegisterAll(keys, Outputs(txs)), Outputs(txs), s)
  }

  /** What an invoice ought to have at a height: what a rescan of the block last seen there would credit it. Unlike
      Expected, this counts blocks whose outputs were never registered. */
  function Owed(g: Gateway, id: InvoiceId, h: nat): seq<nat>
    requires id in g.since
  {
    if OnRecord(g, id, h) && h in g.seen then WouldCredit(g.keys, g.seen[h], id.subIndex) else []
  }

  lemma {:induction false} AlreadyRegistered(keys: KeyTable, os: seq<TxOutput>)
    requires Covers(keys, os)
    ensures RegisterAll(keys, os) == keys
  {
    if |os| > 0 {
      assert os[|os| - 1].out.key in keys;
      assert Covers(keys, os[..|os| - 1]);
      AlreadyRegistered(keys, os[..|os| - 1]);
    }
  }

  lemma OwedRescanned(g: Gateway, f: Findings, id: InvoiceId, h: nat)
    requires id in g.since && Surveyed(g, f) && h >= f.Lowest()
    ensures Owed(Apply(g, f), id, h) ==
            RescanCredits(f.cache, f.depth, 0, f.keys, id.subIndex, id.creationHeight, Some(h))
  {
    var g' := Apply(g, f);
    if h <= f.cache.height {
      SeenInWindow(g.seen, f.cache, h);
      ExpectedInWindow(g', id, h, f.depth);
      AlreadyRegistered(f.keys, Outputs(f.cache.blocks[f.cache.height - h].txs));
    } else {
      assert !OnRecord(g', id, h);
    }
  }

  lemma OwedBelowRescan(g: Gateway, f: Findings, id: InvoiceId, h: nat)
    requires id in g.since && WellShaped(f) && h < f.Lowest()
    ensures var seen := SeenAfter(g.seen, f.cache);
            Owed(Apply(g, f), id, h) ==
            if Due(g, id, h) && h in seen then WouldCredit(f.keys, seen[h], id.subIndex) else []
  {
    assert OnRecord(Apply(g, f), id, h) <==> Due(g, id, h);
  }

  /** The invoice holds, at this height, what a rescan of the block last seen there would credit it. */
  ghost predicate RightAt(g: Gateway, id: InvoiceId, h: nat)
    requires id in g.invoices && id in g.since
  {
    multiset(Select(g.invoices[id].transfers, At(Some(h)))) == multiset(Owed(g, id, h))
  }

  /** The block now seen at a height that is due but not rescanned would credit what is on record: what the block seen
      there when the invoice was last reconciled did, or nothing if that height had not been scanned then. */
  ghost predicate CreditsAlike(past: Gateway, g: Gateway, f: Findings, id: InvoiceId, h: nat)
    requires WellShaped(f) && id in past.since && id in g.since
  {
    var seen := SeenAfter(g.seen, f.cache);
    h < f.Lowest() && Due(g, id, h) && h in seen ==>
      multiset(WouldCredit(f.keys, seen[h], id.subIndex)) == multiset(OnceCredited(past, f.keys, id, h))
  }

  /** No height on record was forgotten. */
  lemma StaysSeen(past: Gateway, g: Gateway, f: Findings, id: InvoiceId, h: nat)
    requires Known(past, id) && Behind(past, g) && past.seen.Keys <= g.seen.Keys && WellShaped(f)
    ensures OnRecord(past, id, h) ==> Due(g, id, h) && h in SeenAfter(g.seen, f.cache)
  {
    assert LedgerAt(past, id, h);
  }

  lemma RightAtIff(past: Gateway, g: Gateway, f: Findings, id: InvoiceId, h: nat)
    requires Known(past, id) && Behind(past, g) && past.seen.Keys <= g.seen.Keys && Surveyed(g, f)
    ensures RightAt(Apply(g, f), id, h) <==> CreditsAlike(past, g, f, id, h)
  {
    if h >= f.Lowest() {
      HoldsWhatIsCached(past, g, f, id, h);
      OwedRescanned(g, f, id, h);
    } else {
      KeepsWhatWasThere(past, g, f, id, h);
      OwedBelowRescan(g, f, id, h);
      StaysSeen(past, g, f, id, h);
    }
  }

  ghost predicate RightThroughout(g: Gateway, id: InvoiceId)
    requires id in g.invoices && id in g.since
  {
    forall h: nat :: RightAt(g, id, h)
  }

  ghost predicate CreditsAlikeThroughout(past: Gateway, g: Gateway, f: Findings, id: InvoiceId)
    requires WellShaped(f) && id in past.since && id in g.since
  {
    forall h: nat :: CreditsAlike(past, g, f, id, h)
  }

  lemma RightIff(past: Gateway, g: Gateway, f: Findings, id: InvoiceId)
    requires Known(past, id) && Behind(past, g) && past.seen.Keys <= g.seen.Keys && Surveyed(g, f)
    ensures RightThroughout(Apply(g, f), id) <==> CreditsAlikeThroughout(past, g, f, id)
  {
    forall h: nat
      ensures RightAt(Apply(g, f), id, h) <==> CreditsAlike(past, g, f, id, h)
    {
      RightAtIff(past, g, f, id, h);
    }
  }

  // ---------------------------------------------------------------------------
  // Exactly when the next scan leaves an invoice right
  // ---------------------------------------------------------------------------

  /** Exactly when an error-free scan of a valid state leaves an invoice right: every block that is due but was not
      rescanned would credit the invoice what is on record there, that is, what the block it replaced did. */
  lemma ErrorFreeScanIsRightIff(g: Gateway, e: ScanEnv, id: InvoiceId)
    requires Inv(g) && PoolUnmined(g.pool) && ErrorFree(g, e) && id in g.invoices
    ensures id in g.since
    ensures RightThroughout(Scan(g, e), id) <==> CreditsAlikeThroughout(g, g, FindingsOf(g, e), id)
  {
    assert Known(g, id);
    ErrorFreeIsSurveyed(g, e);
    RightIff(g, g, FindingsOf(g, e), id);
  }

  lemma {:induction false} FailuresStaySeen(states: seq<Gateway>, failures: seq<Failure>, n: nat)
    requires FailedScans(states, failures) && n < |states|
    ensures states[0].seen.Keys <= states[n].seen.Keys
  {
    if n > 0 {
      FailuresStaySeen(states, failures, n - 1);
      assert FailsAt(states, failures, n - 1);
    }
  }

  /** Exactly when the first error-free scan after any number of failed ones leaves an invoice right: every block that
      is due but was not rescanned, because it was replaced or first reached during a failed scan, would credit the
      invoice what is on record there; where nothing had been scanned before, that is nothing. */
  lemma ScanAfterFailuresIsRightIff(states: seq<Gateway>, failures: seq<Failure>, e: ScanEnv, id: InvoiceId)
    requires FailedScans(states, failures) && Inv(states[0]) && id in states[0].invoices
    requires PoolUnmined(states[|failures|].pool) && ErrorFree(states[|failures|], e)
    ensures id in states[0].since && id in states[|failures|].since && id in states[|failures|].invoices
    ensures var g := states[|failures|];
            RightThroughout(Scan(g, e), id) <==> CreditsAlikeThroughout(states[0], g, FindingsOf(g, e), id)
  {
    var g := states[|failures|];
    assert Known(states[0], id);
    FailuresLeaveBehind(states, failures, |failures|);
    FailuresStaySeen(states, failures, |failures|);
    ErrorFreeIsSurveyed(g, e);
    RightIff(states[0], g, FindingsOf(g, e), id);
  }
}
