/** Two gateways over whole runs, alike but for the filter their stores use: their invoices never differ in what was
    mined or in the height they were paid at, and differ in what is in the pool exactly when a transaction was handed
    over that one filter let through to a subaddress and the other did not. */
module FilterRuns {
  import opened Prelude
  import opened Invoices
  import opened Transfers
  import opened Chain
  import opened OutputKeys
  import opened Txpool
  import opened Storage
  import opened Scanning
  import opened Ledger
  import opened Upkeep
  import opened Runs
  import opened Filtering
  import opened Conservation
  import opened PoolRuns

  // ---------------------------------------------------------------------------
  // Lockstep
  // ---------------------------------------------------------------------------

  ghost predicate SameEvent(ev: Event, ev': Event)
  {
    if ev.Scanned? then ev'.Scanned? && SameButFilter(ev.env, ev'.env) else ev' == ev
  }

  /** Two error-free runs from one start that go through the same events, filters and hash map orders aside. */
  ghost predicate Lockstep(states: seq<Gateway>, events: seq<Event>, states': seq<Gateway>, events': seq<Event>)
  {
    && ErrorFreeRun(states, events) && ErrorFreeRun(states', events')
    && states'[0] == states[0] && |events'| == |events|
    && forall i :: 0 <= i < |events| ==> SameEvent(events[i], events'[i])
  }

  /** The same mined amounts at every height. */
  ghost predicate SameMined(a: seq<Transfer>, b: seq<Transfer>)
  {
    forall h: nat :: multiset(Select(a, At(Some(h)))) == multiset(Select(b, At(Some(h))))
  }

  ghost predicate AlikeAt(g: Gateway, g': Gateway, id: InvoiceId)
    requires id in g.invoices && id in g'.invoices
  {
    && SameMined(g.invoices[id].transfers, g'.invoices[id].transfers)
    && g'.invoices[id].index == g.invoices[id].index
    && g'.invoices[id].creationHeight == g.invoices[id].creationHeight
    && g'.invoices[id].amountRequested == g.invoices[id].amountRequested
  }

  ghost predicate Alike(g: Gateway, g': Gateway)
  {
    && g'.cache == g.cache && g'.keys == g.keys && g'.firstScan == g.firstScan && g'.lending == g.lending
    && g'.pool.known == g.pool.known && g'.invoices.Keys == g.invoices.Keys
    && forall id :: id in g.invoices ==> AlikeAt(g, g', id)
  }

  /** What the two scans have in common. */
  ghost predicate SameBlocks(f: Findings, f': Findings)
  {
    f'.cache == f.cache && f'.count == f.count && f'.depth == f.depth && f'.keys == f.keys
  }

  lemma CarriedAlike(g: Gateway, g': Gateway, f: Findings, f': Findings, id: InvoiceId, h: nat)
    requires Orderly(g, id) && Orderly(g', id) && AlikeAt(g, g', id) && SameBlocks(f, f')
    requires Surveyed(g, f) && Surveyed(g', f')
    ensures multiset(Select(Apply(g, f).invoices[id].transfers, At(Some(h)))) ==
            multiset(Select(Apply(g', f').invoices[id].transfers, At(Some(h))))
  {
    var a, b := g.invoices[id], g'.invoices[id];
    StoredAt(g, f, id, Some(h));
    StoredAt(g', f', id, Some(h));
    RescannedAt(a, f.reports, f.poolPayments, f.cache, f.depth, f.Deepest(), f.keys, f.contains, h);
    RescannedAt(b, f'.reports, f'.poolPayments, f'.cache, f'.depth, f'.Deepest(), f'.keys, f'.contains, h);
    var credits := RescanCredits(f.cache, f.depth, 0, f.keys, a.index, a.creationHeight, Some(h));
    Together(if h < f.Deepest() then Select(a.transfers, At(Some(h))) else [],
             if h < f.Deepest() then Select(b.transfers, At(Some(h))) else [], credits);
  }

  lemma Together<T>(a: seq<T>, b: seq<T>, c: seq<T>)
    requires multiset(a) == multiset(b)
    ensures multiset(a + c) == multiset(b + c)
  {
  }

  lemma ApplyAlikeAt(g: Gateway, g': Gateway, f: Findings, f': Findings, id: InvoiceId)
    requires Orderly(g, id) && Orderly(g', id) && AlikeAt(g, g', id) && SameBlocks(f, f')
    requires Surveyed(g, f) && Surveyed(g', f')
    ensures id in Apply(g, f).invoices && id in Apply(g', f').invoices && AlikeAt(Apply(g, f), Apply(g', f'), id)
  {
    forall h: nat
      ensures multiset(Select(Apply(g, f).invoices[id].transfers, At(Some(h)))) ==
              multiset(Select(Apply(g', f').invoices[id].transfers, At(Some(h))))
    {
      CarriedAlike(g, g', f, f', id, h);
    }
  }

  lemma ApplyAlike(g: Gateway, g': Gateway, f: Findings, f': Findings)
    requires AllOrderly(g) && AllOrderly(g') && Alike(g, g') && SameBlocks(f, f')
    requires Surveyed(g, f) && Surveyed(g', f') && f'.pool.known == f.pool.known
    ensures Alike(Apply(g, f), Apply(g', f'))
  {
    assert Apply(g, f).invoices.Keys == Apply(g', f').invoices.Keys;
    forall id | id in Apply(g, f).invoices
      ensures AlikeAt(Apply(g, f), Apply(g', f'), id)
    {
      assert Orderly(g, id) && Orderly(g', id) && AlikeAt(g, g', id);
      ApplyAlikeAt(g, g', f, f', id);
    }
  }

  lemma ScanAlike(g: Gateway, g': Gateway, e: ScanEnv, e': ScanEnv)
    requires AllOrderly(g) && AllOrderly(g') && Alike(g, g')
    requires ErrorFree(g, e) && ErrorFree(g', e') && SameButFilter(e, e')
    ensures Alike(Scan(g, e), Scan(g', e'))
  {
    ErrorFreeIsSurveyed(g, e);
    ErrorFreeIsSurveyed(g', e');
    ApplyAlike(g, g', FindingsOf(g, e), FindingsOf(g', e'));
  }

  /** An event other than a scan does the same to both. */
  lemma SameLending(g: Gateway, g': Gateway, ev: Event)
    requires !ev.Scanned? && CanHappen(g, ev) && CanHappen(g', ev)
    requires g'.lending == g.lending && g'.invoices.Keys == g.invoices.Keys
    ensures Next(g', ev).lending == Next(g, ev).lending
  {
    match ev
    case Drew(draw, derive) =>
    case Committed(inv) => assert inv.Id() in g.invoices <==> inv.Id() in g'.invoices;
    case Abandoned(s) =>
    case Took(id) =>
    case Returned(e) =>
  }

  /** Which invoices are stored after an event other than a scan. */
  function IdsAfter(ids: set<InvoiceId>, ev: Event): set<InvoiceId>
  {
    match ev
    case Committed(inv) => ids + {inv.Id()}
    case Took(id) => ids - {id}
    case _ => ids
  }

  lemma NextIds(g: Gateway, ev: Event)
    requires !ev.Scanned? && CanHappen(g, ev)
    ensures Next(g, ev).invoices.Keys == IdsAfter(g.invoices.Keys, ev)
    ensures forall id :: id in Next(g, ev).invoices && id !in g.invoices ==>
              ev.Committed? && Next(g, ev).invoices[id] == ev.invoice
  {
    match ev
    case Drew(draw, derive) =>
    case Committed(inv) => assert Next(g, ev).invoices.Keys == g.invoices.Keys + {inv.Id()};
    case Abandoned(s) =>
    case Took(id) => assert Next(g, ev).invoices.Keys == g.invoices.Keys - {id};
    case Returned(e) =>
  }

  lemma QuietAlike(g: Gateway, g': Gateway, n: Gateway, n': Gateway)
    requires Alike(g, g') && Quiet(g, n) && Quiet(g', n') && n'.lending == n.lending
    requires n'.invoices.Keys == n.invoices.Keys
    requires forall id :: id in n.invoices && id !in g.invoices ==> n'.invoices[id] == n.invoices[id]
    ensures Alike(n, n')
  {
    forall id | id in n.invoices
      ensures AlikeAt(n, n', id)
    {
      if id in g.invoices {
        assert AlikeAt(g, g', id) && Untouched(g, n, id) && Untouched(g', n', id);
      }
    }
  }

  lemma NextAlike(g: Gateway, g': Gateway, ev: Event, ev': Event)
    requires AllOrderly(g) && AllOrderly(g') && Alike(g, g') && SameEvent(ev, ev')
    requires CanHappen(g, ev) && CanHappen(g', ev')
    ensures Alike(Next(g, ev), Next(g', ev'))
  {
    if ev.Scanned? {
      ScanAlike(g, g', ev.env, ev'.env);
    } else {
      OthersAreQuiet(g, ev);
      OthersAreQuiet(g', ev);
      SameLending(g, g', ev);
      NextIds(g, ev);
      NextIds(g', ev);
      QuietAlike(g, g', Next(g, ev), Next(g', ev));
    }
  }

  lemma {:induction false} StaysAlike(states: seq<Gateway>, events: seq<Event>, states': seq<Gateway>,
                                      events': seq<Event>, n: nat)
    requires Lockstep(states, events, states', events') && n < |states|
    ensures Alike(states[n], states'[n])
  {
    if n > 0 {
      var m := n - 1;
      StaysAlike(states, events, states', events', m);
      RunStaysOrderly(states, events, m);
      RunStaysOrderly(states', events', m);
      assert StepAt(states, events, m) && StepAt(states', events', m) && SameEvent(events[m], events'[m]);
      NextAlike(states[m], states'[m], events[m], events'[m]);
    }
  }

  lemma SamePaidHeight(a: Invoice, b: Invoice)
    requires Sorted(a.transfers) && Sorted(b.transfers) && Totalled(a) && Totalled(b)
    requires SameMined(a.transfers, b.transfers) && a.amountRequested == b.amountRequested
    ensures a.paidHeight == b.paidHeight
  {
    PaidHeightIsFirstMet(a.transfers, a.amountRequested);
    PaidHeightIsFirstMet(b.transfers, b.amountRequested);
    if a.paidHeight.Some? {
      FirstMetByHeight(a.transfers, b.transfers, a.amountRequested, a.paidHeight.value);
    } else if b.paidHeight.Some? {
      FirstMetByHeight(b.transfers, a.transfers, a.amountRequested, b.paidHeight.value);
    }
  }

  /** Filter independence over whole runs: whatever filters the two stores use, their invoices are the same, hold the
      same mined amounts at every height, and were paid at the same height. */
  lemma MinedAgrees(states: seq<Gateway>, events: seq<Event>, states': seq<Gateway>, events': seq<Event>, n: nat,
                    id: InvoiceId)
    requires Lockstep(states, events, states', events') && n < |states|
    ensures id in states[n].invoices <==> id in states'[n].invoices
    ensures id in states[n].invoices ==>
              var a, b := states[n].invoices[id], states'[n].invoices[id];
              SameMined(a.transfers, b.transfers) && a.paidHeight == b.paidHeight
  {
    StaysAlike(states, events, states', events', n);
    RunStaysOrderly(states, events, n);
    RunStaysOrderly(states', events', n);
    if id in states[n].invoices {
      assert AlikeAt(states[n], states'[n], id) && Orderly(states[n], id) && Orderly(states'[n], id);
      SamePaidHeight(states[n].invoices[id], states'[n].invoices[id]);
    }
  }

  // ---------------------------------------------------------------------------
  // What the pool pays, by hand-over
  // ---------------------------------------------------------------------------

  /** Event k is a scan that was handed the transaction, which stayed in the pool from then until before event n. */
  ghost predicate Handed(events: seq<Event>, h: Hash, k: nat, n: nat)
    requires n <= |events|
  {
    k < n && events[k].Scanned? && h in HashesOf(events[k].env.delivered) && StayedInRun(events, h, k, n)
  }

  /** What that scan found the transaction to pay a subaddress, behind its filter. */
  function FoundToPay(states: seq<Gateway>, events: seq<Event>, k: nat, h: Hash, s: SubIndex): seq<nat>
    requires k < |events| < |states| && events[k].Scanned?
  {
    AmountsFrom(Accepted(states[k + 1].keys, events[k].env.contains, Outputs(events[k].env.delivered)), s, h)
  }

  /** A transaction stays known while it stays in the pool. */
  lemma {:induction false} HandedIsKnown(states: seq<Gateway>, events: seq<Event>, h: Hash, k: nat, n: nat)
    requires ErrorFreeRun(states, events) && n <= |events| && Handed(events, h, k, n)
    ensures h in states[n].pool.known
    decreases n
  {
    var m := n - 1;
    assert StepAt(states, events, m);
    NextPool(states[m], events[m]);
    if k < m { HandedIsKnown(states, events, h, k, m); }
    if k == m { assert h in events[m].env.hashes; }
  }

  /** It is handed over once per stay. */
  lemma HandedOnce(states: seq<Gateway>, events: seq<Event>, h: Hash, k: nat, l: nat, n: nat)
    requires ErrorFreeRun(states, events) && HonestThroughout(states, events) && n <= |events|
    requires Handed(events, h, k, n) && Handed(events, h, l, n)
    ensures k == l
  {
    if k < l {
      assert Handed(events, h, k, l);
      HandedIsKnown(states, events, h, k, l);
    } else if l < k {
      assert Handed(events, h, l, k);
      HandedIsKnown(states, events, h, l, k);
    }
  }

  /** What is remembered of a transaction pays a subaddress what its hand-over found it to pay. */
  lemma RememberedPays(states: seq<Gateway>, events: seq<Event>, n: nat, h: Hash, k: nat, s: SubIndex, c: u64)
    requires ErrorFreeRun(states, events) && HonestThroughout(states, events) && n <= |events|
    requires Handed(events, h, k, n)
    ensures GainedFrom(states[n].pool.discovered, h, s, c) == FoundToPay(states, events, k, h, s)
  {
    var m, e := states[n].pool.discovered, events[k].env;
    var found := PoolScanOf(states[k + 1].keys, e).found;
    GroupGains(Accepted(states[k + 1].keys, e.contains, Outputs(e.delivered)), h, s, c);
    if h in found {
      assert AcceptedAt(states, events, h, k, n, found[h]);
      RememberedIffAccepted(states, events, n, h, found[h]);
    } else if h in m {
      RememberedIffAccepted(states, events, n, h, m[h]);
      var l: nat :| AcceptedAt(states, events, h, l, n, m[h]);
      assert Handed(events, h, l, n);
      HandedOnce(states, events, h, k, l, n);
    }
  }

  lemma UnhandedPaysNothing(states: seq<Gateway>, events: seq<Event>, n: nat, h: Hash, s: SubIndex, c: u64)
    requires ErrorFreeRun(states, events) && HonestThroughout(states, events) && n <= |events|
    requires forall k: nat :: !Handed(events, h, k, n)
    ensures GainedFrom(states[n].pool.discovered, h, s, c) == []
  {
    var m := states[n].pool.discovered;
    if h in m {
      RememberedIffAccepted(states, events, n, h, m[h]);
      var l: nat :| AcceptedAt(states, events, h, l, n, m[h]);
      assert Handed(events, h, l, n);
    }
  }

  // ---------------------------------------------------------------------------
  // Pools that agree
  // ---------------------------------------------------------------------------

  /** From each transaction the second report pays the subaddress the same, or nothing. */
  ghost predicate PaysLess(m: map<Hash, seq<Payment>>, m': map<Hash, seq<Payment>>, s: SubIndex, c: u64)
  {
    forall h :: GainedFrom(m', h, s, c) == GainedFrom(m, h, s, c) || GainedFrom(m', h, s, c) == []
  }

  lemma {:induction false} FewerPayments(m: map<Hash, seq<Payment>>, m': map<Hash, seq<Payment>>, all: seq<Hash>,
                                         s: SubIndex, c: u64)
    requires PaysLess(m, m', s, c)
    ensures |Gained(Flatten(m', all), s, c, None)| <= |Gained(Flatten(m, all), s, c, None)|
    ensures |Gained(Flatten(m', all), s, c, None)| == |Gained(Flatten(m, all), s, c, None)| ==>
              forall h :: h in all ==> GainedFrom(m', h, s, c) == GainedFrom(m, h, s, c)
  {
    if |all| > 0 {
      var init, last := all[..|all| - 1], all[|all| - 1];
      FewerPayments(m, m', init, s, c);
      GainedConcat(Flatten(m, init), if last in m then m[last] else [], s, c, None);
      GainedConcat(Flatten(m', init), if last in m' then m'[last] else [], s, c, None);
      assert GainedFrom(m', last, s, c) == GainedFrom(m, last, s, c) || GainedFrom(m', last, s, c) == [];
      assert all == init + [last];
    }
  }

  /** Such reports add the same to an invoice exactly if they pay it the same from every transaction. */
  lemma PoolsAgreeIff(m: map<Hash, seq<Payment>>, order: seq<Hash>, m': map<Hash, seq<Payment>>, order': seq<Hash>,
                      s: SubIndex, c: u64)
    requires Enumerates(order, m) && Enumerates(order', m') && PaysLess(m, m', s, c)
    ensures SamePool(Flatten(m, order), Flatten(m', order'), s, c) <==>
            forall h :: GainedFrom(m', h, s, c) == GainedFrom(m, h, s, c)
  {
    if forall h :: GainedFrom(m', h, s, c) == GainedFrom(m, h, s, c) {
      ReportsGainAlike(m, order, m', order', s, c);
    }
    if SamePool(Flatten(m, order), Flatten(m', order'), s, c) {
      var all := JointOrder(m, order, m', order');
      FlattenOver(m, order, all);
      FlattenOver(m', order', all);
      GainedPermutation(Flatten(m, order), Flatten(m, all), s, c, None);
      GainedPermutation(Flatten(m', order'), Flatten(m', all), s, c, None);
      SameLength(Gained(Flatten(m, all), s, c, None), Gained(Flatten(m', all), s, c, None));
      FewerPayments(m, m', all, s, c);
      forall h
        ensures GainedFrom(m', h, s, c) == GainedFrom(m, h, s, c)
      {
        if h in m || h in m' { assert h in all; }
      }
    }
  }

  lemma SameLength<T>(a: seq<T>, b: seq<T>)
    requires multiset(a) == multiset(b)
    ensures |a| == |b|
  {
    assert |multiset(a)| == |a| && |multiset(b)| == |b|;
  }

  /** Behind a filter a subaddress that passes it is found to be paid all it is paid, any other nothing. */
  lemma {:induction false} FilteredAmounts(keys: KeyTable, contains: SubIndex -> bool, os: seq<TxOutput>, s: SubIndex,
                                           h: Hash)
    ensures AmountsFrom(Accepted(keys, contains, os), s, h) ==
            if contains(s) then AmountsFrom(Accepted(keys, All(), os), s, h) else []
  {
    if |os| > 0 {
      var init, last := os[..|os| - 1], os[|os| - 1];
      FilteredAmounts(keys, contains, init, s, h);
      AmountsSnoc(Accepted(keys, contains, init), last, s, h);
      AmountsSnoc(Accepted(keys, All(), init), last, s, h);
      assert Accepted(keys, contains, init) + [] == Accepted(keys, contains, init);
      assert Accepted(keys, All(), init) + [] == Accepted(keys, All(), init);
    }
  }

  /** What the transaction handed over at event k pays a subaddress, filter or no filter. */
  function PaysAtAll(states: seq<Gateway>, events: seq<Event>, k: nat, h: Hash, s: SubIndex): seq<nat>
    requires k < |events| < |states| && events[k].Scanned?
  {
    AmountsFrom(Accepted(states[k + 1].keys, All(), Outputs(events[k].env.delivered)), s, h)
  }

  /** At every scan the first filter lets through whatever the second does. */
  ghost predicate Wider(events: seq<Event>, events': seq<Event>)
    requires |events'| == |events|
  {
    forall k :: 0 <= k < |events| && events[k].Scanned? && events'[k].Scanned? ==>
      WiderAt(events[k].env, events'[k].env)
  }

  ghost predicate WiderAt(e: ScanEnv, e': ScanEnv) { forall s :: e'.contains(s) ==> e.contains(s) }

  /** The two stores are such a pair: on the same ids the range test lets through whatever the exact count does. */
  lemma RangeIsWider(invoices: InvoiceTable, invoices': InvoiceTable, s: SubIndex)
    requires invoices'.Keys == invoices.Keys
    ensures ExactFilter(invoices')(s) ==> RangeFilter(invoices)(s)
  {
    RangeTestIsOneSided(invoices, s);
    if ExactTest(invoices', s) {
      var id :| id in invoices' && id.subIndex == s;
      assert id in invoices;
    }
  }

  /** The transaction was handed over when the first filter let the subaddress through and the second did not, and pays
      it something. */
  ghost predicate Slipped(states: seq<Gateway>, events: seq<Event>, events': seq<Event>, h: Hash, k: nat, n: nat,
                          s: SubIndex)
    requires n <= |events| == |events'| < |states|
  {
    && Handed(events, h, k, n) && events'[k].Scanned?
    && events[k].env.contains(s) && !events'[k].env.contains(s)
    && PaysAtAll(states, events, k, h, s) != []
  }

  /** Transaction by transaction: the two pools pay the same, or the second nothing, the latter if it slipped through.
      */
  lemma PoolsByHandOver(states: seq<Gateway>, events: seq<Event>, states': seq<Gateway>, events': seq<Event>, n: nat,
                        h: Hash, k: nat, s: SubIndex, c: u64)
    requires Lockstep(states, events, states', events') && n <= |events| && Wider(events, events')
    requires HonestThroughout(states, events) && HonestThroughout(states', events')
    requires Handed(events, h, k, n)
    ensures var a := GainedFrom(states[n].pool.discovered, h, s, c);
            var b := GainedFrom(states'[n].pool.discovered, h, s, c);
            && (b == a || b == [])
            && (b != a <==> Slipped(states, events, events', h, k, n, s))
  {
    var e, e', keys := events[k].env, events'[k].env, states[k + 1].keys;
    assert SameEvent(events[k], events'[k]) && WiderAt(e, e');
    assert Handed(events', h, k, n) by { SameHandOver(events, events', h, k, n); }
    assert states'[k + 1].keys == keys by { StaysAlike(states, events, states', events', k + 1); }
    assert GainedFrom(states[n].pool.discovered, h, s, c) == FoundToPay(states, events, k, h, s) by {
      RememberedPays(states, events, n, h, k, s, c);
    }
    assert GainedFrom(states'[n].pool.discovered, h, s, c) == FoundToPay(states', events', k, h, s) by {
      RememberedPays(states', events', n, h, k, s, c);
    }
    ByFilter(keys, e.contains, e'.contains, Outputs(e.delivered), s, h);
  }

  lemma ByFilter(keys: KeyTable, contains: SubIndex -> bool, contains': SubIndex -> bool, os: seq<TxOutput>,
                 s: SubIndex, h: Hash)
    requires contains'(s) ==> contains(s)
    ensures var a := AmountsFrom(Accepted(keys, contains, os), s, h);
            var b := AmountsFrom(Accepted(keys, contains', os), s, h);
            && (b == a || b == [])
            && (b != a <==> contains(s) && !contains'(s) && AmountsFrom(Accepted(keys, All(), os), s, h) != [])
  {
    FilteredAmounts(keys, contains, os, s, h);
    FilteredAmounts(keys, contains', os, s, h);
  }

  lemma SameHandOver(events: seq<Event>, events': seq<Event>, h: Hash, k: nat, n: nat)
    requires n <= |events| == |events'| && forall i :: 0 <= i < |events| ==> SameEvent(events[i], events'[i])
    ensures Handed(events, h, k, n) <==> Handed(events', h, k, n)
  {
    forall j | 0 <= j < n
      ensures events[j].Scanned? <==> events'[j].Scanned?
      ensures events[j].Scanned? ==> events'[j].env.hashes == events[j].env.hashes &&
                                     events'[j].env.delivered == events[j].env.delivered
    {
      assert SameEvent(events[j], events'[j]);
    }
  }

  ghost predicate SlippedOnce(states: seq<Gateway>, events: seq<Event>, events': seq<Event>, h: Hash, n: nat,
                              s: SubIndex)
    requires n <= |events| == |events'| < |states|
  {
    exists k: nat :: Slipped(states, events, events', h, k, n, s)
  }

  lemma PoolsAt(states: seq<Gateway>, events: seq<Event>, states': seq<Gateway>, events': seq<Event>, n: nat, h: Hash,
                s: SubIndex, c: u64)
    requires Lockstep(states, events, states', events') && n <= |events| && Wider(events, events')
    requires HonestThroughout(states, events) && HonestThroughout(states', events')
    ensures var a := GainedFrom(states[n].pool.discovered, h, s, c);
            var b := GainedFrom(states'[n].pool.discovered, h, s, c);
            && (b == a || b == [])
            && (b != a <==> SlippedOnce(states, events, events', h, n, s))
  {
    if k: nat :| Handed(events, h, k, n) {
      PoolsByHandOver(states, events, states', events', n, h, k, s, c);
      if l: nat :| Slipped(states, events, events', h, l, n, s) { HandedOnce(states, events, h, k, l, n); }
    } else {
      forall k: nat
        ensures !Handed(events', h, k, n)
      {
        SameHandOver(events, events', h, k, n);
      }
      UnhandedPaysNothing(states, events, n, h, s, c);
      UnhandedPaysNothing(states', events', n, h, s, c);
    }
  }

  /** After a scan an invoice's pool transfers are what the remembered pool pays its subaddress, in whatever order. */
  lemma PoolPart(states: seq<Gateway>, events: seq<Event>, n: nat, id: InvoiceId) returns (order: seq<Hash>)
    requires ErrorFreeRun(states, events) && HonestThroughout(states, events)
    requires 0 < n <= |events| && events[n - 1].Scanned? && id in states[n].invoices
    ensures Enumerates(order, states[n].pool.discovered)
    ensures multiset(Select(states[n].invoices[id].transfers, At(None))) ==
            multiset(Gained(Flatten(states[n].pool.discovered, order), id.subIndex, id.creationHeight, None))
  {
    var g, e := states[n - 1], events[n - 1].env;
    assert AllOrderly(g) by { RunStaysOrderly(states, events, n - 1); }
    assert PoolBacked(g.pool, g.keys) by { RunKeepsPoolInv(states, events, n - 1); }
    assert StepAt(states, events, n - 1) && HonestAt(g, events[n - 1]);
    order := e.poolOrder;
    ScanPoolPart(g, e, id);
  }

  lemma ScanPoolPart(g: Gateway, e: ScanEnv, id: InvoiceId)
    requires AllOrderly(g) && ErrorFree(g, e) && PoolBacked(g.pool, g.keys) && HonestDelivery(g.pool, e)
    requires id in g.invoices
    ensures Enumerates(e.poolOrder, Scan(g, e).pool.discovered)
    ensures id in Scan(g, e).invoices
    ensures multiset(Select(Scan(g, e).invoices[id].transfers, At(None))) ==
            multiset(Gained(Flatten(Scan(g, e).pool.discovered, e.poolOrder), id.subIndex, id.creationHeight, None))
  {
    var f, inv := FindingsOf(g, e), g.invoices[id];
    ErrorFreeIsSurveyed(g, e);
    ScanPoolFacts(g, e);
    assert Orderly(g, id);
    StoredAt(g, f, id, None);
    RescannedInPool(inv, f.reports, f.poolPayments, f.cache, f.depth, f.Deepest(), f.keys, f.contains);
  }

  /** What the wider filter adds over whole runs: after a scan the two gateways' pool transfers for an invoice agree
      if and only if no transaction still in the pool was handed over when the wider filter let the invoice's
      subaddress through, the narrower did not, and the transaction pays it. */
  lemma PoolAgreesIff(states: seq<Gateway>, events: seq<Event>, states': seq<Gateway>, events': seq<Event>, n: nat,
                      id: InvoiceId)
    requires Lockstep(states, events, states', events') && Wider(events, events')
    requires HonestThroughout(states, events) && HonestThroughout(states', events')
    requires 0 < n <= |events| && events[n - 1].Scanned? && id in states[n].invoices
    ensures id in states'[n].invoices
    ensures multiset(Select(states[n].invoices[id].transfers, At(None))) ==
            multiset(Select(states'[n].invoices[id].transfers, At(None))) <==>
            forall h: Hash :: !SlippedOnce(states, events, events', h, n, id.subIndex)
  {
    var s, c := id.subIndex, id.creationHeight;
    StaysAlike(states, events, states', events', n);
    assert SameEvent(events[n - 1], events'[n - 1]);
    var order := PoolPart(states, events, n, id);
    var order' := PoolPart(states', events', n, id);
    var m, m' := states[n].pool.discovered, states'[n].pool.discovered;
    forall h: Hash
      ensures GainedFrom(m', h, s, c) == GainedFrom(m, h, s, c) || GainedFrom(m', h, s, c) == []
      ensures GainedFrom(m', h, s, c) != GainedFrom(m, h, s, c) <==> SlippedOnce(states, events, events', h, n, s)
    {
      PoolsAt(states, events, states', events', n, h, s, c);
    }
    PoolsAgreeIff(m, order, m', order', s, c);
  }
}
