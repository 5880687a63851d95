/** Two concrete histories in which the bookkeeping goes wrong, each with the ten-block window the gateway uses
    (library/src/payment_gateway.rs:35): a restart that counts a payment twice, and a chain that switches in the middle
    of a repair and leaves behind a payment that no longer exists. */
module Counterexamples {
  import opened Prelude
  import opened Invoices
  import opened Transfers
  import opened Chain
  import opened BlockCaching
  import opened OutputKeys
  import opened Txpool
  import opened Storage
  import opened Scanning
  import opened Subaddresses
  import opened Ledger
  import opened Upkeep
  import opened Runs
  import opened Reorgs

  const CACHE_SIZE: nat := 10

  /** The one payment of both histories: 7 piconeros to subaddress s. */
  function TheTx(s: SubIndex): Tx { Tx(1, 0, [OwnedOutput(1, 0, s, Some(7))]) }

  function TheOutput(s: SubIndex): TxOutput { TxOutput(1, OwnedOutput(1, 0, s, Some(7))) }

  lemma OutputsOfTheTx(s: SubIndex)
    ensures Outputs([TheTx(s)]) == [TheOutput(s)]
  {
    assert [TheTx(s)][..0] == [];
    assert InTx(1, TheTx(s).owned) == [TheOutput(s)];
  }

  /** Ten blocks down from a height. */
  function Window(top: nat, daemonHeight: u64, block: nat -> Block): CacheState
    requires top >= 9
  {
    CacheState(top, daemonHeight, seq(CACHE_SIZE, i requires 0 <= i < CACHE_SIZE => block(top - i)))
  }

  /** A restarted gateway with one stored invoice, an empty pool and nothing scanned yet. */
  function Restarted(c: CacheState, inv: Invoice, keys: KeyTable, lending: Lending): Gateway
    requires 1 <= |c.blocks| <= c.height + 1
  {
    Gateway(c, PoolState(map[], map[]), map[inv.Id() := inv], keys, true, lending, SeenAfter(map[], c),
            map[inv.Id() := c.height + 1])
  }

  /** Only slot k of the cache, if it has one, holds transactions: the payment. */
  ghost predicate OnlyAt(c: CacheState, k: nat, s: SubIndex)
  {
    forall i :: 0 <= i < |c.blocks| ==> c.blocks[i].txs == if i == k then [TheTx(s)] else []
  }

  /** What the scan of slots down to `depth` reports then. */
  function Report(c: CacheState, depth: nat, k: nat, s: SubIndex): seq<seq<Payment>>
    requires depth <= |c.blocks| <= c.height + 1
  {
    seq(depth, i requires 0 <= i < depth => if i == k then [Payment(s, Transfer(7, Some(c.height - i)))] else [])
  }

  function Found(depth: nat, k: nat, s: SubIndex): seq<TxOutput> { if k < depth then [TheOutput(s)] else [] }

  /** The environment of a scan with an empty pool that finds only that. */
  function Env(g: Gateway, reported: u64, daemon: Daemon, c: CacheState, depth: nat, k: nat, s: SubIndex): ScanEnv
    requires depth <= |c.blocks| <= c.height + 1
  {
    ScanEnv(reported, daemon, {}, [], RangeFilter(g.invoices), Found(depth, k, s), Report(c, depth, k, s), [])
  }

  lemma {:induction false} OutputsFound(c: CacheState, depth: nat, i: nat, k: nat, s: SubIndex)
    requires depth <= |c.blocks| && OnlyAt(c, k, s)
    ensures BlocksOutputs(c, depth, i) == if i <= k < depth then [TheOutput(s)] else []
    decreases depth - i
  {
    if i < depth {
      OutputsFound(c, depth, i + 1, k, s);
      OutputsOfTheTx(s);
    }
  }

  lemma {:induction false} ReportFound(c: CacheState, depth: nat, i: nat, k: nat, s: SubIndex)
    requires depth <= |c.blocks| <= c.height + 1
    ensures BlocksReport(Report(c, depth, k, s), depth, i) ==
            if i <= k < depth then [Payment(s, Transfer(7, Some(c.height - k)))] else []
    decreases depth - i
  {
    if i < depth { ReportFound(c, depth, i + 1, k, s); }
  }

  lemma SlotReport(c: CacheState, i: nat, k: nat, s: SubIndex, keys: KeyTable, contains: SubIndex -> bool)
    requires i < |c.blocks| <= c.height + 1 && OnlyAt(c, k, s)
    requires contains(s) && (i == k ==> Owns(keys, TheOutput(s)))
    ensures SlotFindings(c, i, keys, contains) == if i == k then [Payment(s, Transfer(7, Some(c.height - i)))] else []
  {
    if i == k {
      var os := [TheOutput(s)];
      OutputsOfTheTx(s);
      assert os[..|os| - 1] == [];
      assert Accepted(keys, contains, os) == os;
    } else {
      assert Outputs(c.blocks[i].txs) == [];
    }
  }

  lemma ReportIsFaithful(c: CacheState, depth: nat, k: nat, s: SubIndex, keys: KeyTable, contains: SubIndex -> bool)
    requires depth <= |c.blocks| <= c.height + 1 && OnlyAt(c, k, s)
    requires contains(s) && (k < depth ==> Owns(keys, TheOutput(s)))
    ensures Faithful(Report(c, depth, k, s), c, depth, keys, contains)
  {
    forall i | 0 <= i < depth
      ensures Report(c, depth, k, s)[i] == SlotFindings(c, i, keys, contains)
    {
      SlotReport(c, i, k, s, keys, contains);
    }
  }

  lemma RegistersTheOutput(keys: KeyTable, s: SubIndex)
    ensures RegisterAll(keys, [TheOutput(s)]) == Register(keys, TheOutput(s)) && RegisterAll(keys, []) == keys
  {
    assert [TheOutput(s)][..0] == [];
  }

  /** What a state must be like for such a scan: an empty pool, the subaddress live, its key free or its own. */
  ghost predicate Ready(g: Gateway, s: SubIndex)
  {
    && g.pool == PoolState(map[], map[]) && ValidCache(g.cache)
    && (exists id :: id in g.invoices && id.subIndex == s)
    && (1 !in g.keys || g.keys[1] == OutputId(1, 0))
  }

  /** What such a scan has in hand. */
  function EnvFindings(g: Gateway, c: CacheState, count: nat, depth: nat, k: nat, s: SubIndex): Findings
    requires depth <= |c.blocks| <= c.height + 1
  {
    Findings(c, count, depth, RegisterAll(g.keys, Found(depth, k, s)), RangeFilter(g.invoices), Report(c, depth, k, s),
             g.pool, [])
  }

  lemma EnvFindingsAre(g: Gateway, reported: u64, daemon: Daemon, c: CacheState, count: nat, depth: nat, k: nat,
                       s: SubIndex)
    requires Ready(g, s) && UpdateCache(g.cache, Some(reported), daemon) == CacheUpdate(c, Some(count))
    requires depth == Depth(g.firstScan, CacheUpdate(c, Some(count))) && count <= depth <= |c.blocks| && ValidCache(c)
    ensures var e := Env(g, reported, daemon, c, depth, k, s);
            && FindingsOf(g, e) == EnvFindings(g, c, count, depth, k, s)
            && PoolReport(g.pool, PoolScanOf(FindingsOf(g, e).keys, e)) == map[]
  {
    var e := Env(g, reported, daemon, c, depth, k, s);
    var keys := RegisterAll(g.keys, Found(depth, k, s));
    assert Outputs(e.delivered) == [] && Accepted(keys, e.contains, []) == [];
    assert PoolScanOf(keys, e) == PoolScan({}, [], map[]);
    assert UpdatePool(g.pool, {}, []) == g.pool;
  }

  lemma FoundIsScannable(g: Gateway, depth: nat, k: nat, s: SubIndex)
    requires Ready(g, s)
    ensures var keys := RegisterAll(g.keys, Found(depth, k, s));
            && Scannable(Found(depth, k, s), keys, RangeFilter(g.invoices))
            && (k < depth ==> Owns(keys, TheOutput(s)))
  {
    RegistersTheOutput(g.keys, s);
  }

  lemma EnvScansWell(g: Gateway, reported: u64, daemon: Daemon, c: CacheState, depth: nat, k: nat, s: SubIndex)
    requires Ready(g, s) && depth <= |c.blocks| && ValidCache(c) && OnlyAt(c, k, s)
    ensures var e := Env(g, reported, daemon, c, depth, k, s);
            var keys := RegisterAll(g.keys, Found(depth, k, s));
            && e.schedule == ScannedOutputs(c, depth, e.delivered)
            && Scannable(e.schedule, keys, e.contains) && CoversLive(e.contains, g.invoices)
            && Faithful(e.reports, c, depth, keys, e.contains)
  {
    var keys := RegisterAll(g.keys, Found(depth, k, s));
    OutputsFound(c, depth, 0, k, s);
    assert Outputs([]) == [] && Found(depth, k, s) == BlocksOutputs(c, depth, 0) + [];
    FoundIsScannable(g, depth, k, s);
    TestsCoverLive(g.invoices);
    ReportIsFaithful(c, depth, k, s, keys, RangeFilter(g.invoices));
  }

  lemma EnvIsErrorFree(g: Gateway, reported: u64, daemon: Daemon, c: CacheState, count: nat, depth: nat, k: nat,
                       s: SubIndex)
    requires Ready(g, s) && UpdateCache(g.cache, Some(reported), daemon) == CacheUpdate(c, Some(count))
    requires depth == Depth(g.firstScan, CacheUpdate(c, Some(count))) && count <= depth <= |c.blocks| && ValidCache(c)
    requires OnlyAt(c, k, s)
    ensures var e := Env(g, reported, daemon, c, depth, k, s);
            ErrorFree(g, e) && FindingsOf(g, e) == EnvFindings(g, c, count, depth, k, s)
  {
    var e := Env(g, reported, daemon, c, depth, k, s);
    EnvFindingsAre(g, reported, daemon, c, count, depth, k, s);
    EnvScansWell(g, reported, daemon, c, depth, k, s);
    ErrorFreeWhen(g, e, FindingsOf(g, e));
  }

  // ---------------------------------------------------------------------------
  // A restart counts a payment twice
  // ---------------------------------------------------------------------------

  /** One chain: block h has hash 100 + h and links to 99 + h; the block at `paid` holds the payment. */
  function SteadyBlock(h: nat, paid: nat, s: SubIndex): Block
  {
    Block(100 + h, h, 99 + h, if h == paid then [TheTx(s)] else [])
  }

  function SteadyChain(paid: nat, s: SubIndex): Daemon
  {
    (h: nat) => Some(Fetched(SteadyBlock(h, paid, s).hash, SteadyBlock(h, paid, s).prevId, SteadyBlock(h, paid, s).txs))
  }

  function SteadyWindow(top: nat, daemonHeight: u64, paid: nat, s: SubIndex): CacheState
    requires top >= 9
  {
    Window(top, daemonHeight, (h: nat) => SteadyBlock(h, paid, s))
  }

  lemma SteadyUpdate(top: nat, before: u64, reported: u64, paid: nat, s: SubIndex)
    requires 9 <= top < reported - 1
    ensures UpdateCache(SteadyWindow(top, before, paid, s), Some(reported), SteadyChain(paid, s)) ==
            CacheUpdate(SteadyWindow(top + 1, reported, paid, s), Some(1))
  {
    var c := SteadyWindow(top, before, paid, s).(daemonHeight := reported);
    var c' := Advance(c, SteadyChain(paid, s)(top + 1).value);
    assert c'.blocks == SteadyWindow(top + 1, reported, paid, s).blocks;
    RepairOfLinked(c'.blocks, top + 1, SteadyChain(paid, s), 0, 0);
  }

  /** The invoice as the earlier process stored it: 7 of 10 paid, at height 4, scanned up to height 10. */
  function PartlyPaid(s: SubIndex): Invoice
  {
    Invoices.NewInvoice(Text(""), s, 1, 10, 1, 1, Text("")).(
      transfers := [Transfer(7, Some(4))], amountPaid := 7, currentHeight := 11)
  }

  function RestartedGateway(s: SubIndex, lending: Lending): Gateway
  {
    Restarted(SteadyWindow(9, 11, 4, s), PartlyPaid(s), map[1 := OutputId(1, 0)], lending)
  }

  function RestartEnv(s: SubIndex, lending: Lending): ScanEnv
  {
    Env(RestartedGateway(s, lending), 11, SteadyChain(4, s), SteadyWindow(10, 11, 4, s), 10, 6, s)
  }

  lemma SteadyFacts(top: nat, daemonHeight: u64, paid: nat, s: SubIndex)
    requires top >= 9 && top >= paid
    ensures var c := SteadyWindow(top, daemonHeight, paid, s);
            ValidCache(c) && Linked(c.blocks) && OnlyAt(c, top - paid, s)
  {
  }

  lemma RestartedIsReady(s: SubIndex, lending: Lending)
    ensures Ready(RestartedGateway(s, lending), s)
  {
    SteadyFacts(9, 11, 4, s);
    assert PartlyPaid(s).Id() in RestartedGateway(s, lending).invoices;
  }

  lemma RestartIsErrorFree(s: SubIndex, lending: Lending)
    ensures var g, e := RestartedGateway(s, lending), RestartEnv(s, lending);
            && ErrorFree(g, e)
            && FindingsOf(g, e) == EnvFindings(g, SteadyWindow(10, 11, 4, s), 1, 10, 6, s)
  {
    SteadyUpdate(9, 11, 11, 4, s);
    SteadyFacts(10, 11, 4, s);
    RestartedIsReady(s, lending);
    EnvIsErrorFree(RestartedGateway(s, lending), 11, SteadyChain(4, s), SteadyWindow(10, 11, 4, s), 1, 10, 6, s);
  }

  lemma RestartIsClean(s: SubIndex, lending: Lending)
    ensures CleanScan(RestartedGateway(s, lending), RestartEnv(s, lending))
    ensures var g := RestartedGateway(s, lending);
            Scan(g, RestartEnv(s, lending)) == Apply(g, EnvFindings(g, SteadyWindow(10, 11, 4, s), 1, 10, 6, s))
  {
    RestartIsErrorFree(s, lending);
    SteadyFacts(9, 11, 4, s);
    LinkedScanIsClean(RestartedGateway(s, lending), RestartEnv(s, lending));
  }

  /** The invoice has recorded 14, yet the only payment to it in sight is the one of 7 in block 4. */
  ghost predicate PaidTwice(g: Gateway, s: SubIndex)
  {
    && PartlyPaid(s).Id() in g.invoices && g.invoices[PartlyPaid(s).Id()].amountPaid == 14
    && 4 in g.seen && Credits(g.keys, Outputs(g.seen[4]), s) == [7]
    && forall h: nat :: h in g.seen && h != 4 ==> Outputs(g.seen[h]) == []
  }

  /** A first scan from where the gateway starts when height 10 was scanned last, with one linked chain throughout. */
  ghost predicate AboutToScan(g: Gateway, e: ScanEnv)
  {
    && g.firstScan && |g.cache.blocks| == CACHE_SIZE && Linked(g.cache.blocks) && ServesOneChain(e.daemon)
    && g.cache.height == StartHeight(Some(10), None, e.reported, CACHE_SIZE)
  }

  lemma RestartSetting(s: SubIndex, lending: Lending)
    ensures AboutToScan(RestartedGateway(s, lending), RestartEnv(s, lending))
  {
    SteadyFacts(9, 11, 4, s);
  }

  lemma OnlyBlockFour(top: nat, daemonHeight: u64, s: SubIndex, seen: map<nat, seq<Tx>>, h: nat)
    requires 9 <= top && h in SeenAfter(seen, SteadyWindow(top, daemonHeight, 4, s)) && h != 4
    requires h in seen ==> Outputs(seen[h]) == []
    ensures Outputs(SeenAfter(seen, SteadyWindow(top, daemonHeight, 4, s))[h]) == []
  {
    var c := SteadyWindow(top, daemonHeight, 4, s);
    if c.Bottom() <= h <= c.height {
      SeenInWindow(seen, c, h);
      assert c.blocks[c.height - h] == SteadyBlock(h, 4, s);
    }
  }

  lemma RestartPays(s: SubIndex, lending: Lending)
    ensures var g := RestartedGateway(s, lending);
            var g' := Apply(g, EnvFindings(g, SteadyWindow(10, 11, 4, s), 1, 10, 6, s));
            PartlyPaid(s).Id() in g'.invoices && g'.invoices[PartlyPaid(s).Id()].amountPaid == 14
  {
    PaymentsOfRestart(RestartedGateway(s, lending), s);
    DoubledPayment(PartlyPaid(s), Payment(s, Transfer(7, Some(4))), 10);
  }

  lemma RestartSees(s: SubIndex, lending: Lending)
    ensures var g := RestartedGateway(s, lending);
            var seen := SeenAfter(g.seen, SteadyWindow(10, 11, 4, s));
            && 4 in seen && seen[4] == [TheTx(s)]
            && forall h: nat :: h in seen && h != 4 ==> Outputs(seen[h]) == []
  {
    var g := RestartedGateway(s, lending);
    SeenInWindow(g.seen, SteadyWindow(10, 11, 4, s), 4);
    forall h: nat | h in SeenAfter(g.seen, SteadyWindow(10, 11, 4, s)) && h != 4
      ensures Outputs(SeenAfter(g.seen, SteadyWindow(10, 11, 4, s))[h]) == []
    {
      if h in g.seen { OnlyBlockFour(9, 11, s, map[], h); }
      OnlyBlockFour(10, 11, s, g.seen, h);
    }
  }

  lemma RestartOutcome(s: SubIndex, lending: Lending)
    ensures var g := RestartedGateway(s, lending);
            PaidTwice(Apply(g, EnvFindings(g, SteadyWindow(10, 11, 4, s), 1, 10, 6, s)), s)
  {
    RestartPays(s, lending);
    RestartSees(s, lending);
    RegistersTheOutput(RestartedGateway(s, lending).keys, s);
    CreditOfTheTx(RegisterAll(RestartedGateway(s, lending).keys, [TheOutput(s)]), s);
  }

  /** A restart that goes wrong. The earlier process scanned up to height 10 and recorded the payment of 7 in block 4.
      The gateway restarts at height 9, as it always does, one below what was scanned; its first scan advances to 10
      and drops transfers from 10 on, but rescans the whole window, block 4 included: 14 is recorded where the chain
      pays 7. */
  lemma RestartCanDoubleATransfer(s: SubIndex, lending: Lending)
    ensures var g, e := RestartedGateway(s, lending), RestartEnv(s, lending);
            AboutToScan(g, e) && CleanScan(g, e) && PaidTwice(Scan(g, e), s)
  {
    RestartSetting(s, lending);
    RestartIsClean(s, lending);
    RestartOutcome(s, lending);
  }

  lemma PaymentsOfRestart(g: Gateway, s: SubIndex)
    ensures EnvFindings(g, SteadyWindow(10, 11, 4, s), 1, 10, 6, s).Payments() == [Payment(s, Transfer(7, Some(4)))]
  {
    ReportFound(SteadyWindow(10, 11, 4, s), 10, 0, 6, s);
    var ps := [Payment(s, Transfer(7, Some(4)))];
    assert ps + [] == ps;
  }

  lemma CreditOfTheTx(keys: KeyTable, s: SubIndex)
    requires Owns(keys, TheOutput(s))
    ensures Credits(keys, Outputs([TheTx(s)]), s) == [7]
  {
    OutputsOfTheTx(s);
    assert [TheOutput(s)][..0] == [];
  }

  /** An invoice that keeps a transfer and is handed the same payment again counts it twice. */
  lemma DoubledPayment(inv: Invoice, p: Payment, deepest: nat)
    requires inv.creationHeight == 1 && inv.transfers == [p.transfer] && inv.index == p.subIndex
    requires p.transfer.height.Some? && 1 <= p.transfer.height.value < deepest
    ensures Refreshed(inv, [p], deepest, deepest).amountPaid == 2 * p.transfer.amount
  {
    var next := Rescanned(inv, [p], deepest, deepest);
    AddedOne(p, inv.index, 1);
    RetainedOne(p.transfer, deepest);
    assert next.transfers == [p.transfer] + [p.transfer];
    SameTransfersIff(next.transfers, inv.transfers);
    assert |multiset(next.transfers)| == 2 && |multiset(inv.transfers)| == 1;
    TallyTwo(p.transfer, p.transfer, inv.amountRequested);
  }

  lemma RetainedOne(t: Transfer, deepest: nat)
    requires t.height.Some? && t.height.value < deepest
    ensures Retained([t], deepest) == [t]
  {
    assert [t][..|[t]| - 1] == [];
  }

  lemma TallyTwo(t: Transfer, u: Transfer, requested: nat)
    ensures Tally([t] + [u], requested).paid == t.amount + u.amount
  {
    var both := [t] + [u];
    assert both[..|both| - 1] == [t] && both[|both| - 1] == u;
    assert [t][..|[t]| - 1] == [];
    assert Tally([t], requested).paid == t.amount;
  }

  // ---------------------------------------------------------------------------
  // A chain that switches in the middle of a repair
  // ---------------------------------------------------------------------------

  function OldBlock(h: nat): Block { Block(100 + h, h, 99 + h, []) }

  function OldWindow(): CacheState { Window(11, 12, (h: nat) => OldBlock(h)) }

  /** What the daemon serves during the first update: two blocks of a new fork, and then, the chain having switched,
      block 10 of another one, which holds the payment. */
  function SwitchingChain(s: SubIndex): Daemon
  {
    (h: nat) =>
      if h == 12 then Some(Fetched(212, 211, []))
      else if h == 11 then Some(Fetched(211, 210, []))
      else if h == 10 then Some(Fetched(310, 109, [TheTx(s)]))
      else None
  }

  /** What it serves from then on: the first fork, without any payment. */
  function SettledChain(): Daemon
  {
    (h: nat) =>
      if h > 13 then None
      else if h > 10 then Some(Fetched(200 + h, 199 + h, []))
      else if h == 10 then Some(Fetched(210, 109, []))
      else Some(Fetched(100 + h, 99 + h, []))
  }

  /** The cache after the first update: 211 does not link to 310. */
  function BrokenWindow(s: SubIndex): CacheState
  {
    Window(12, 13, (h: nat) =>
      if h == 12 then Block(212, 12, 211, [])
      else if h == 11 then Block(211, 11, 210, [])
      else if h == 10 then Block(310, 10, 109, [TheTx(s)])
      else OldBlock(h))
  }

  function SettledWindow(): CacheState
  {
    Window(13, 14, (h: nat) =>
      if h > 10 then Block(200 + h, h, 199 + h, []) else if h == 10 then Block(210, 10, 109, []) else OldBlock(h))
  }

  lemma FirstUpdate(s: SubIndex)
    ensures UpdateCache(OldWindow(), Some(13), SwitchingChain(s)) == CacheUpdate(BrokenWindow(s), Some(3))
  {
    var d := SwitchingChain(s);
    var c := Advance(OldWindow().(daemonHeight := 13), d(12).value);
    var b1 := c.blocks[1 := Block(211, 11, 210, [])];
    var b2 := b1[2 := Block(310, 10, 109, [TheTx(s)])];
    assert c.blocks[1] == OldBlock(11) && b1[2] == OldBlock(10);
    assert !LinkAt(c.blocks, 0) && !LinkAt(b1, 1);
    assert Cached(d(12 - 1 - 0).value, 11) == b1[1] && Cached(d(12 - 1 - 1).value, 10) == b2[2];
    assert RepairFrom(c.blocks, 12, d, 0, 0) == RepairFrom(b1, 12, d, 1, 2);
    assert RepairFrom(b1, 12, d, 1, 2) == RepairFrom(b2, 12, d, 2, 3);
    assert b2 == BrokenWindow(s).blocks;
    RepairOfLinked(b2, 12, d, 2, 3);
  }

  /** The second update replaces block 10, in slot 3, and reports 2. */
  lemma SecondUpdate(s: SubIndex)
    ensures UpdateCache(BrokenWindow(s), Some(14), SettledChain()) == CacheUpdate(SettledWindow(), Some(2))
  {
    var d := SettledChain();
    var c := Advance(BrokenWindow(s).(daemonHeight := 14), d(13).value);
    var b := c.blocks[3 := Block(210, 10, 109, [])];
    assert LinkAt(c.blocks, 0) && LinkAt(c.blocks, 1) && !LinkAt(c.blocks, 2);
    assert RepairFrom(c.blocks, 13, d, 0, 0) == RepairFrom(c.blocks, 13, d, 1, 0);
    assert RepairFrom(c.blocks, 13, d, 1, 0) == RepairFrom(c.blocks, 13, d, 2, 0);
    assert RepairFrom(c.blocks, 13, d, 2, 0) == RepairFrom(b, 13, d, 3, 2);
    assert b == SettledWindow().blocks;
    RepairOfLinked(b, 13, d, 3, 2);
  }

  function UnpaidInvoice(s: SubIndex): Invoice { Invoices.NewInvoice(Text(""), s, 10, 7, 1, 1000, Text("")) }

  function UnpaidGateway(s: SubIndex, lending: Lending): Gateway
  {
    Restarted(OldWindow(), UnpaidInvoice(s), map[], lending)
  }

  function SwitchingEnv(s: SubIndex, lending: Lending): ScanEnv
  {
    Env(UnpaidGateway(s, lending), 13, SwitchingChain(s), BrokenWindow(s), 10, 2, s)
  }

  /** The state after the first scan. */
  function MisledGateway(s: SubIndex, lending: Lending): Gateway
  {
    Apply(UnpaidGateway(s, lending), EnvFindings(UnpaidGateway(s, lending), BrokenWindow(s), 3, 10, 2, s))
  }

  function SettledEnv(s: SubIndex, lending: Lending): ScanEnv
  {
    Env(MisledGateway(s, lending), 14, SettledChain(), SettledWindow(), 2, 10, s)
  }

  /** ... and after the second. */
  function WrongGateway(s: SubIndex, lending: Lending): Gateway
  {
    Apply(MisledGateway(s, lending), EnvFindings(MisledGateway(s, lending), SettledWindow(), 2, 2, 10, s))
  }

  lemma WindowFacts(s: SubIndex)
    ensures ValidCache(OldWindow()) && Linked(OldWindow().blocks)
    ensures ValidCache(BrokenWindow(s)) && OnlyAt(BrokenWindow(s), 2, s)
    ensures ValidCache(SettledWindow()) && OnlyAt(SettledWindow(), 10, s)
  {
  }

  lemma UnpaidStarts(s: SubIndex, lending: Lending)
    requires Accounted(lending, {UnpaidInvoice(s).Id()})
    ensures Startup(UnpaidGateway(s, lending)) && Ready(UnpaidGateway(s, lending), s)
  {
    var g := UnpaidGateway(s, lending);
    var id := UnpaidInvoice(s).Id();
    WindowFacts(s);
    assert g.invoices.Keys == {id} && id in g.invoices;
    forall h: nat | g.cache.Bottom() <= h <= g.cache.height
      ensures h in g.seen && g.seen[h] == BlockAt(g.cache, h).txs
    {
      SeenInWindow(map[], g.cache, h);
    }
    FreshInvoiceOk(g, id);
  }

  lemma FirstScan(s: SubIndex, lending: Lending)
    requires Accounted(lending, {UnpaidInvoice(s).Id()})
    ensures ErrorFree(UnpaidGateway(s, lending), SwitchingEnv(s, lending))
    ensures Scan(UnpaidGateway(s, lending), SwitchingEnv(s, lending)) == MisledGateway(s, lending)
  {
    UnpaidStarts(s, lending);
    WindowFacts(s);
    FirstUpdate(s);
    EnvIsErrorFree(UnpaidGateway(s, lending), 13, SwitchingChain(s), BrokenWindow(s), 3, 10, 2, s);
  }

  lemma MisledIsValid(s: SubIndex, lending: Lending)
    requires Accounted(lending, {UnpaidInvoice(s).Id()})
    ensures Inv(MisledGateway(s, lending)) && PoolUnmined(MisledGateway(s, lending).pool)
  {
    FirstScan(s, lending);
    UnpaidStarts(s, lending);
    WindowFacts(s);
    LinkedScanIsClean(UnpaidGateway(s, lending), SwitchingEnv(s, lending));
    ScanKeepsInv(UnpaidGateway(s, lending), SwitchingEnv(s, lending));
  }

  lemma MisledFacts(s: SubIndex, lending: Lending)
    ensures var g := MisledGateway(s, lending);
            && Ready(g, s) && !g.firstScan && UnpaidInvoice(s).Id() in g.invoices && Owns(g.keys, TheOutput(s))
            && 10 in g.seen && g.seen[10] == [TheTx(s)]
            && UnpaidInvoice(s).Id() in g.since && OnRecord(g, UnpaidInvoice(s).Id(), 10)
  {
    var g := UnpaidGateway(s, lending);
    WindowFacts(s);
    assert UnpaidInvoice(s).Id() in MisledGateway(s, lending).invoices;
    RegistersTheOutput(g.keys, s);
    SeenInWindow(g.seen, BrokenWindow(s), 10);
  }

  lemma SecondScan(s: SubIndex, lending: Lending)
    ensures ErrorFree(MisledGateway(s, lending), SettledEnv(s, lending))
    ensures FindingsOf(MisledGateway(s, lending), SettledEnv(s, lending)) ==
            EnvFindings(MisledGateway(s, lending), SettledWindow(), 2, 2, 10, s)
    ensures Scan(MisledGateway(s, lending), SettledEnv(s, lending)) == WrongGateway(s, lending)
  {
    MisledFacts(s, lending);
    WindowFacts(s);
    SecondUpdate(s);
    EnvIsErrorFree(MisledGateway(s, lending), 14, SettledChain(), SettledWindow(), 2, 2, 10, s);
  }

  /** The invoice holds a transfer of 7 at height 10, though no block last seen at any height pays anything. */
  ghost predicate PaidByNothing(g: Gateway, s: SubIndex)
  {
    && UnpaidInvoice(s).Id() in g.invoices
    && multiset(Select(g.invoices[UnpaidInvoice(s).Id()].transfers, At(Some(10)))) == multiset{7}
    && 10 in g.seen && forall h: nat :: h in g.seen ==> Outputs(g.seen[h]) == []
  }

  lemma NothingSeen(s: SubIndex, lending: Lending, h: nat)
    requires h in WrongGateway(s, lending).seen
    ensures WrongGateway(s, lending).seen[h] == []
  {
    var seen := UnpaidGateway(s, lending).seen;
    var after := SeenAfter(seen, BrokenWindow(s));
    if SettledWindow().Bottom() <= h <= 13 {
      SeenInWindow(after, SettledWindow(), h);
    } else if BrokenWindow(s).Bottom() <= h <= 12 {
      SeenInWindow(seen, BrokenWindow(s), h);
    } else {
      SeenInWindow(map[], OldWindow(), h);
    }
  }

  lemma MisledIsSurveyed(s: SubIndex, lending: Lending)
    requires Accounted(lending, {UnpaidInvoice(s).Id()})
    ensures Known(MisledGateway(s, lending), UnpaidInvoice(s).Id())
    ensures Surveyed(MisledGateway(s, lending), EnvFindings(MisledGateway(s, lending), SettledWindow(), 2, 2, 10, s))
  {
    MisledIsValid(s, lending);
    MisledFacts(s, lending);
    SecondScan(s, lending);
    ErrorFreeIsSurveyed(MisledGateway(s, lending), SettledEnv(s, lending));
  }

  lemma WrongTransfers(s: SubIndex, lending: Lending)
    requires Accounted(lending, {UnpaidInvoice(s).Id()})
    ensures var g, id := WrongGateway(s, lending), UnpaidInvoice(s).Id();
            id in g.invoices && multiset(Select(g.invoices[id].transfers, At(Some(10)))) == multiset{7}
  {
    var g, id := MisledGateway(s, lending), UnpaidInvoice(s).Id();
    var f := EnvFindings(g, SettledWindow(), 2, 2, 10, s);
    MisledFacts(s, lending);
    MisledIsSurveyed(s, lending);
    KeepsWhatWasThere(g, g, f, id, 10);
    RegistersTheOutput(g.keys, s);
    CreditOfTheTx(f.keys, s);
  }

  lemma WrongOutcome(s: SubIndex, lending: Lending)
    requires Accounted(lending, {UnpaidInvoice(s).Id()})
    ensures PaidByNothing(WrongGateway(s, lending), s)
  {
    WrongTransfers(s, lending);
    SeenInWindow(MisledGateway(s, lending).seen, SettledWindow(), 10);
    forall h: nat | h in WrongGateway(s, lending).seen
      ensures Outputs(WrongGateway(s, lending).seen[h]) == []
    {
      NothingSeen(s, lending, h);
    }
  }

  lemma TwoScans(g0: Gateway, g1: Gateway, g2: Gateway, e1: ScanEnv, e2: ScanEnv)
    requires Startup(g0) && ErrorFree(g0, e1) && g1 == Scan(g0, e1) && ErrorFree(g1, e2) && g2 == Scan(g1, e2)
    ensures ErrorFreeRun([g0, g1, g2], [Event.Scanned(e1), Event.Scanned(e2)])
  {
    ScanSteps(g0, e1);
    ScanSteps(g1, e2);
    TwoSteps(g0, g1, g2, Event.Scanned(e1), Event.Scanned(e2));
  }

  lemma TwoSteps(g0: Gateway, g1: Gateway, g2: Gateway, a: Event, b: Event)
    requires Startup(g0) && CanHappen(g0, a) && g1 == Next(g0, a) && CanHappen(g1, b) && g2 == Next(g1, b)
    ensures ErrorFreeRun([g0, g1, g2], [a, b])
  {
    var states, events := [g0, g1, g2], [a, b];
    forall i | 0 <= i < |events|
      ensures StepAt(states, events, i)
    {
      if i == 0 { assert states[i] == g0 && states[i + 1] == g1; } else { assert states[i] ==
          g1 && states[i + 1] == g2; }
    }
  }

  lemma ScanSteps(g: Gateway, e: ScanEnv)
    requires ErrorFree(g, e)
    ensures CanHappen(g, Event.Scanned(e)) && Next(g, Event.Scanned(e)) == Scan(g, e)
  {
  }

  lemma SwitchRuns(s: SubIndex, lending: Lending)
    requires Accounted(lending, {UnpaidInvoice(s).Id()})
    ensures ErrorFreeRun([UnpaidGateway(s, lending), MisledGateway(s, lending), WrongGateway(s, lending)],
                         [Event.Scanned(SwitchingEnv(s, lending)), Event.Scanned(SettledEnv(s, lending))])
  {
    var g0, g1, g2 := UnpaidGateway(s, lending), MisledGateway(s, lending), WrongGateway(s, lending);
    assert Startup(g0) by { UnpaidStarts(s, lending); }
    assert ErrorFree(g0, SwitchingEnv(s, lending)) && g1 == Scan(g0, SwitchingEnv(s, lending)) by {
      FirstScan(s, lending);
    }
    assert ErrorFree(g1, SettledEnv(s, lending)) && g2 == Scan(g1, SettledEnv(s, lending)) by {
      SecondScan(s, lending);
    }
    TwoScans(g0, g1, g2, SwitchingEnv(s, lending), SettledEnv(s, lending));
  }

  lemma SwitchSetting(s: SubIndex, lending: Lending)
    ensures Linked(UnpaidGateway(s, lending).cache.blocks) && ServesOneChain(SettledEnv(s, lending).daemon)
  {
    WindowFacts(s);
  }

  /** A run of two error-free scans that ends with a wrong ledger. It starts from a linked window and an unpaid invoice.
      During the first scan the chain switches while the walk repairs a fork, so that the repair ends with a block of a
      third fork, which pays the invoice. The second scan meets one chain, replaces that block, but does not count it:
      the payment stays on record though the chain does not hold it. */
  lemma SwitchLeavesAWrongLedger(s: SubIndex, lending: Lending) returns (states: seq<Gateway>, events: seq<Event>)
    requires Accounted(lending, {UnpaidInvoice(s).Id()})
    ensures ErrorFreeRun(states, events) && |events| == 2 && events[1].Scanned?
    ensures Linked(states[0].cache.blocks) && ServesOneChain(events[1].env.daemon)
    ensures PaidByNothing(states[2], s)
  {
    SwitchRuns(s, lending);
    SwitchSetting(s, lending);
    WrongOutcome(s, lending);
    states := [UnpaidGateway(s, lending), MisledGateway(s, lending), WrongGateway(s, lending)];
    events := [Event.Scanned(SwitchingEnv(s, lending)), Event.Scanned(SettledEnv(s, lending))];
  }

  // ---------------------------------------------------------------------------
  // A failed scan loses a payment
  // ---------------------------------------------------------------------------

  /** A gateway that has scanned up to height 12 of a chain whose block 13 will pay. */
  function WaitingGateway(s: SubIndex, lending: Lending): Gateway
  {
    Restarted(SteadyWindow(12, 13, 13, s), UnpaidInvoice(s), map[], lending).(firstScan := false)
  }

  /** The scan that advances the cache to block 13 and then fails, its request for the pool unanswered. */
  function PoolUnanswered(s: SubIndex): Failure
  {
    Failure(Some(14), SteadyChain(13, s), map[], PoolState(map[], map[]))
  }

  function PassedOver(s: SubIndex, lending: Lending): Gateway
    requires ValidCache(WaitingGateway(s, lending).cache)
  {
    AfterFailure(WaitingGateway(s, lending), PoolUnanswered(s))
  }

  lemma WaitingIsValid(s: SubIndex, lending: Lending)
    requires Accounted(lending, {UnpaidInvoice(s).Id()})
    ensures Inv(WaitingGateway(s, lending)) && Linked(WaitingGateway(s, lending).cache.blocks)
  {
    var g := WaitingGateway(s, lending);
    var id := UnpaidInvoice(s).Id();
    assert g.cache.blocks == Window(12, 13, (h: nat) => SteadyBlock(h, 13, s)).blocks;
    assert g.invoices.Keys == {id} && id in g.invoices;
    forall h: nat | g.cache.Bottom() <= h <= g.cache.height
      ensures h in g.seen && g.seen[h] == BlockAt(g.cache, h).txs
    {
      SeenInWindow(map[], g.cache, h);
    }
    FreshInvoiceOk(g, id);
  }

  lemma PassedOverFacts(s: SubIndex, lending: Lending)
    requires ValidCache(WaitingGateway(s, lending).cache)
    ensures var g := PassedOver(s, lending);
            && g.cache == SteadyWindow(13, 14, 13, s) && !g.firstScan && Ready(g, s)
            && g.keys == map[] && g.invoices == WaitingGateway(s, lending).invoices
            && g.since == WaitingGateway(s, lending).since
            && g.seen == SeenAfter(WaitingGateway(s, lending).seen, SteadyWindow(13, 14, 13, s))
  {
    SteadyUpdate(12, 13, 14, 13, s);
    SteadyFacts(13, 14, 13, s);
    assert UnpaidInvoice(s).Id() in PassedOver(s, lending).invoices;
  }

  /** The next scan, of block 14 alone. */
  function NextEnv(s: SubIndex, lending: Lending): ScanEnv
    requires ValidCache(WaitingGateway(s, lending).cache)
  {
    Env(PassedOver(s, lending), 15, SteadyChain(13, s), SteadyWindow(14, 15, 13, s), 1, 1, s)
  }

  lemma NextScanIsClean(s: SubIndex, lending: Lending)
    requires ValidCache(WaitingGateway(s, lending).cache)
    ensures CleanScan(PassedOver(s, lending), NextEnv(s, lending))
    ensures FindingsOf(PassedOver(s, lending), NextEnv(s, lending)) ==
            EnvFindings(PassedOver(s, lending), SteadyWindow(14, 15, 13, s), 1, 1, 1, s)
  {
    PassedOverFacts(s, lending);
    SteadyUpdate(13, 14, 15, 13, s);
    SteadyFacts(14, 15, 13, s);
    SteadyFacts(13, 14, 13, s);
    EnvIsErrorFree(PassedOver(s, lending), 15, SteadyChain(13, s), SteadyWindow(14, 15, 13, s), 1, 1, 1, s);
    LinkedScanIsClean(PassedOver(s, lending), NextEnv(s, lending));
  }

  /** The invoice has nothing on record at height 13, though the block seen there pays it 7 once it is registered. */
  ghost predicate Missed(g: Gateway, s: SubIndex)
  {
    && UnpaidInvoice(s).Id() in g.invoices
    && Select(g.invoices[UnpaidInvoice(s).Id()].transfers, At(Some(13))) == []
    && 13 in g.seen && g.seen[13] == [TheTx(s)]
    && WouldCredit(g.keys, g.seen[13], s) == [7]
  }

  lemma MissedTransfers(s: SubIndex, lending: Lending)
    requires Accounted(lending, {UnpaidInvoice(s).Id()}) && ValidCache(WaitingGateway(s, lending).cache)
    ensures var g := PassedOver(s, lending);
            var g' := Apply(g, EnvFindings(g, SteadyWindow(14, 15, 13, s), 1, 1, 1, s));
            && UnpaidInvoice(s).Id() in g'.invoices
            && Select(g'.invoices[UnpaidInvoice(s).Id()].transfers, At(Some(13))) == []
  {
    var past, g, id := WaitingGateway(s, lending), PassedOver(s, lending), UnpaidInvoice(s).Id();
    var f := EnvFindings(g, SteadyWindow(14, 15, 13, s), 1, 1, 1, s);
    assert Known(past, id) by { WaitingIsValid(s, lending); }
    assert Surveyed(g, f) by {
      NextScanIsClean(s, lending);
      PassedOverFacts(s, lending);
      SteadyFacts(13, 14, 13, s);
      ErrorFreeIsSurveyed(g, NextEnv(s, lending));
    }
    assert Behind(past, g) by {
      PassedOverFacts(s, lending);
      SteadyFacts(13, 14, 13, s);
    }
    KeepsWhatWasThere(past, g, f, id, 13);
    assert !OnRecord(past, id, 13);
    assert |multiset(Select(Apply(g, f).invoices[id].transfers, At(Some(13))))| == 0;
  }

  lemma MissedBlock(s: SubIndex, lending: Lending)
    requires ValidCache(WaitingGateway(s, lending).cache)
    ensures var g := PassedOver(s, lending);
            var g' := Apply(g, EnvFindings(g, SteadyWindow(14, 15, 13, s), 1, 1, 1, s));
            13 in g'.seen && g'.seen[13] == [TheTx(s)] && WouldCredit(g'.keys, g'.seen[13], s) == [7]
  {
    PassedOverFacts(s, lending);
    SeenInWindow(PassedOver(s, lending).seen, SteadyWindow(14, 15, 13, s), 13);
    assert SteadyWindow(14, 15, 13, s).blocks[1] == SteadyBlock(13, 13, s);
    OutputsOfTheTx(s);
    RegistersTheOutput(map[], s);
    CreditOfTheTx(RegisterAll(map[], [TheOutput(s)]), s);
  }

  lemma OneFailure(g: Gateway, x: Failure)
    requires ValidCache(g.cache) && Extends(g.keys, x.keys)
    ensures FailedScans([g, AfterFailure(g, x)], [x])
  {
    assert FailsAt([g, AfterFailure(g, x)], [x], 0);
  }

  lemma MissedOutcome(s: SubIndex, lending: Lending)
    requires Accounted(lending, {UnpaidInvoice(s).Id()}) && ValidCache(WaitingGateway(s, lending).cache)
    ensures ErrorFree(PassedOver(s, lending), NextEnv(s, lending))
    ensures Missed(Scan(PassedOver(s, lending), NextEnv(s, lending)), s)
  {
    NextScanIsClean(s, lending);
    assert Missed(Apply(PassedOver(s, lending),
                        EnvFindings(PassedOver(s, lending), SteadyWindow(14, 15, 13, s), 1, 1, 1, s)), s) by {
      MissedTransfers(s, lending);
      MissedBlock(s, lending);
    }
  }

  /** A gateway in order, with a linked cache. */
  ghost predicate Healthy(g: Gateway) { Inv(g) && Linked(g.cache.blocks) }

  /** A clean scan against one chain that misses the payment. */
  ghost predicate ScanMisses(g: Gateway, e: ScanEnv, s: SubIndex)
  {
    ServesOneChain(e.daemon) && CleanScan(g, e) && Missed(Scan(g, e), s)
  }

  lemma NextScanMisses(s: SubIndex, lending: Lending)
    requires Accounted(lending, {UnpaidInvoice(s).Id()}) && ValidCache(WaitingGateway(s, lending).cache)
    ensures ScanMisses(PassedOver(s, lending), NextEnv(s, lending), s)
  {
    var g, e := PassedOver(s, lending), NextEnv(s, lending);
    assert ServesOneChain(e.daemon) by { NextDaemon(s, lending); }
    assert CleanScan(g, e) by { NextScanIsClean(s, lending); }
    assert Missed(Scan(g, e), s) by { MissedOutcome(s, lending); }
    MissesWhen(g, e, s);
  }

  lemma NextDaemon(s: SubIndex, lending: Lending)
    requires ValidCache(WaitingGateway(s, lending).cache)
    ensures ServesOneChain(NextEnv(s, lending).daemon)
  {
    assert NextEnv(s, lending).daemon == SteadyChain(13, s);
  }

  lemma MissesWhen(g: Gateway, e: ScanEnv, s: SubIndex)
    requires ServesOneChain(e.daemon) && CleanScan(g, e) && Missed(Scan(g, e), s)
    ensures ScanMisses(g, e, s)
  {
  }

  /** A failed scan loses a payment for good. The gateway is in order and linked, the daemon serves one chain
      throughout. One scan advances the cache to block 13, which pays the invoice, and then fails because the daemon
      does not answer about the pool. The next scan meets no error and its count covers what it replaced, yet block 13
      is never scanned. */
  lemma FailedScanLosesAPayment(s: SubIndex, lending: Lending)
    returns (states: seq<Gateway>, failures: seq<Failure>, e: ScanEnv)
    requires Accounted(lending, {UnpaidInvoice(s).Id()})
    ensures FailedScans(states, failures) && |failures| == 1 && ServesOneChain(failures[0].daemon)
    ensures Healthy(states[0]) && ScanMisses(states[1], e, s)
  {
    WaitingIsValid(s, lending);
    var g, x := WaitingGateway(s, lending), PoolUnanswered(s);
    OneFailure(g, x);
    assert ScanMisses(AfterFailure(g, x), NextEnv(s, lending), s) by { NextScanMisses(s, lending); }
    states, failures, e := [g, AfterFailure(g, x)], [x], NextEnv(s, lending);
  }
}
