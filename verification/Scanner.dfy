/** The scanner as it runs: the loops over transactions, blocks and invoices, each proved against the functions the
    theorems are about (library/src/scanner.rs:102-454). The block scan and the pool scan run one after the other
    here; Concurrency carries every interleaving of them to the same ledger machine. */
module Scanner {
  import opened Prelude
  import opened Invoices
  import opened Transfers
  import opened Chain
  import opened BlockCaching
  import opened OutputKeys
  import opened Txpool
  import opened Storage
  import opened Scanning
  import opened Publishing
  import L = Ledger

  // ---------------------------------------------------------------------------
  // One invoice
  // ---------------------------------------------------------------------------

  /** Drop the transfers in or after the deepest block update. */
  method Retain(ts: seq<Transfer>, deepest: nat) returns (kept: seq<Transfer>)
    ensures kept == Retained(ts, deepest)
  {
    kept := [];
    for i := 0 to |ts|
      invariant kept == Retained(ts[..i], deepest)
    {
      assert ts[..i + 1][..i] == ts[..i];
      if CompareByHeight(ts[i], Transfer(0, Some(deepest))) == Less {
        kept := kept + [ts[i]];
      }
    }
    assert ts[..|ts|] == ts;
  }

  /** Push the payments that belong to the invoice. */
  method Push(ts: seq<Transfer>, ps: seq<Payment>, s: SubIndex, creationHeight: u64) returns (r: seq<Transfer>)
    ensures r == ts + Added(ps, s, creationHeight)
  {
    r := ts;
    for i := 0 to |ps|
      invariant r == ts + Added(ps[..i], s, creationHeight)
    {
      assert ps[..i + 1][..i] == ps[..i];
      if ps[i].subIndex == s
         && CompareByHeight(ps[i].transfer, Transfer(0, Some(JustBefore(creationHeight)))) == Greater {
        r := r + [ps[i].transfer];
      }
    }
    assert ps[..|ps|] == ps;
  }

  method UpdateOne(before: Invoice, ps: seq<Payment>, deepest: nat, height: nat) returns (r: Option<Invoice>)
    ensures r == UpdatedInvoice(before, ps, deepest, height)
  {
    var kept := Retain(before.transfers, deepest);
    var transfers := Push(kept, ps, before.index, before.creationHeight);
    var invoice := before.(transfers := transfers);
    if invoice.currentHeight != height + 1 {
      invoice := invoice.(currentHeight := height + 1);
    }
    var same := InvoicesEqual(invoice, before);
    if same { return None; }
    var paid, paidHeight := Recount(transfers, before.amountRequested);
    return Some(invoice.(amountPaid := paid, paidHeight := paidHeight));
  }

  // ---------------------------------------------------------------------------
  // Outputs of lists of transactions
  // ---------------------------------------------------------------------------

  lemma {:induction false} OutputsSnoc(txs: seq<Tx>, i: nat)
    requires i < |txs|
    ensures txs[i].unlockTime == 0 ==> Outputs(txs[..i + 1]) == Outputs(txs[..i]) + InTx(txs[i].hash, txs[i].owned)
    ensures txs[i].unlockTime != 0 ==> Outputs(txs[..i + 1]) == Outputs(txs[..i])
    ensures Outputs(txs) == Outputs(txs[..i + 1]) + Outputs(txs[i + 1..])
  {
    assert txs[..i + 1][..i] == txs[..i];
    assert txs == txs[..i + 1] + txs[i + 1..];
    OutputsAppend(txs[..i + 1], txs[i + 1..]);
  }

  lemma {:induction false} OutputsAppend(a: seq<Tx>, b: seq<Tx>)
    ensures Outputs(a + b) == Outputs(a) + Outputs(b)
  {
    if |b| == 0 {
      assert a + b == a;
    } else {
      assert (a + b)[..|a + b| - 1] == a + b[..|b| - 1];
      OutputsAppend(a, b[..|b| - 1]);
    }
  }

  // ---------------------------------------------------------------------------
  // Transactions
  // ---------------------------------------------------------------------------

  /** Is the key unique to this output? The first output seen with it says yes, from then on only that one. */
  method OutputKeyIsUnique(store: InMemory, o: TxOutput) returns (r: Result<bool, ScanError>)
    modifies store`outputKeys
    ensures o.out.index >= 256 ==> r == Err(OutputIndexTooLarge) && store.outputKeys == old(store.outputKeys)
    ensures o.out.index < 256 && o.out.key in old(store.outputKeys) ==>
              && store.outputKeys == old(store.outputKeys)
              && r == Ok(old(store.outputKeys)[o.out.key] == OutputId(o.txHash, o.out.index))
    ensures o.out.index < 256 && o.out.key !in old(store.outputKeys) ==>
              && store.outputKeys == old(store.outputKeys)[o.out.key := OutputId(o.txHash, o.out.index)]
              && r == Ok(true)
  {
    if o.out.index >= 256 { return Err(OutputIndexTooLarge); }
    var id := OutputId(o.txHash, o.out.index);
    var stored := store.OutputKeyId(o.out.key);
    if stored.Some? {
      if stored.value != id { return Ok(false); }
    } else {
      var inserted := store.InsertOutputKey(o.out.key, id);
    }
    return Ok(true);
  }

  /** Judge one output; it is found if it owns its key and pays a tracked subaddress. */
  method ScanOne(store: InMemory, o: TxOutput, found: seq<TxOutput>) returns (r: Result<seq<TxOutput>, ScanError>)
    modifies store`outputKeys
    ensures Scanned(store.outputKeys, r) == ScanOutput(old(store.outputKeys), RangeFilter(store.invoices), found, o)
  {
    var unique := OutputKeyIsUnique(store, o);
    if unique.Err? { return Err(unique.error); }
    if !unique.value { return Ok(found); }
    if RangeTest(store.invoices, o.out.subIndex) {
      if o.out.amount.None? { return Err(Unblind(o.out.subIndex)); }
      return Ok(found + [o]);
    }
    return Ok(found);
  }

  method ScanTransactions(store: InMemory, txs: seq<Tx>) returns (r: Result<seq<TxOutput>, ScanError>)
    modifies store`outputKeys
    ensures Scanned(store.outputKeys, r) ==
            ScanOutputs(old(store.outputKeys), RangeFilter(store.invoices), Outputs(txs))
  {
    var found: seq<TxOutput> := [];
    ghost var keys := store.outputKeys;
    ghost var contains := RangeFilter(store.invoices);
    for i := 0 to |txs|
      invariant store.invoices == old(store.invoices)
      invariant ScanOutputs(keys, contains, Outputs(txs[..i])) == Scanned(store.outputKeys, Ok(found))
    {
      OutputsSnoc(txs, i);
      if txs[i].unlockTime == 0 {
        r := ScanOwned(store, txs[i].hash, txs[i].owned, keys, Outputs(txs[..i]), found);
        if r.Err? {
          ScanErrorStays(keys, contains, Outputs(txs[..i + 1]), Outputs(txs[i + 1..]));
          return;
        }
        found := r.value;
      }
    }
    assert txs[..|txs|] == txs;
    return Ok(found);
  }

  /** The inner loop: the owned outputs of one transaction. */
  method ScanOwned(store: InMemory, hash: Hash, owned: seq<OwnedOutput>, ghost keys: KeyTable,
                   ghost done: seq<TxOutput>, found: seq<TxOutput>) returns (r: Result<seq<TxOutput>, ScanError>)
    requires ScanOutputs(keys, RangeFilter(store.invoices), done) == Scanned(store.outputKeys, Ok(found))
    modifies store`outputKeys
    ensures Scanned(store.outputKeys, r) == ScanOutputs(keys, RangeFilter(store.invoices), done + InTx(hash, owned))
  {
    ghost var contains := RangeFilter(store.invoices);
    ghost var os := InTx(hash, owned);
    var sofar := found;
    assert done + os[..0] == done;
    for j := 0 to |owned|
      invariant store.invoices == old(store.invoices)
      invariant ScanOutputs(keys, contains, done + os[..j]) == Scanned(store.outputKeys, Ok(sofar))
    {
      r := ScanOne(store, TxOutput(hash, owned[j]), sofar);
      ScanStep(keys, contains, done, os, j);
      if r.Err? { return; }
      sofar := r.value;
    }
    assert os[..|owned|] == os;
    return Ok(sofar);
  }

  /** One more output: the scan of the prefix takes one step, and if that fails the whole scan fails with it. */
  lemma ScanStep(keys: KeyTable, contains: SubIndex -> bool, done: seq<TxOutput>, os: seq<TxOutput>, j: nat)
    requires j < |os| && ScanOutputs(keys, contains, done + os[..j]).found.Ok?
    ensures var before := ScanOutputs(keys, contains, done + os[..j]);
            var after := ScanOutput(before.keys, contains, before.found.value, os[j]);
            && ScanOutputs(keys, contains, done + os[..j + 1]) == after
            && (after.found.Err? ==> ScanOutputs(keys, contains, done + os) == after)
  {
    var next := done + os[..j + 1];
    assert next[..|next| - 1] == done + os[..j] && next[|next| - 1] == os[j];
    assert done + os == next + os[j + 1..];
    if ScanOutputs(keys, contains, next).found.Err? {
      ScanErrorStays(keys, contains, next, os[j + 1..]);
    }
  }

  // ---------------------------------------------------------------------------
  // Blocks and pool
  // ---------------------------------------------------------------------------

  /** What a scan of some slots found, slot by slot, as any later key table judges it. */
  ghost predicate FoundInSlots(reports: seq<seq<Payment>>, c: CacheState, from: nat, depth: nat, keys: KeyTable,
                               contains: SubIndex -> bool)
    requires depth <= |c.blocks| <= c.height + 1
  {
    && |reports| == depth
    && forall i :: from <= i < depth ==> FoundInSlot(reports[i], c, i, keys, contains)
  }

  ghost predicate FoundInSlot(report: seq<Payment>, c: CacheState, i: nat, keys: KeyTable, contains: SubIndex -> bool)
    requires i < |c.blocks| <= c.height + 1
  {
    && Covers(keys, Outputs(c.blocks[i].txs))
    && Scannable(Outputs(c.blocks[i].txs), keys, contains)
    && report == SlotFindings(c, i, keys, contains)
  }

  lemma ScannableStays(os: seq<TxOutput>, keys: KeyTable, later: KeyTable, contains: SubIndex -> bool)
    requires Covers(keys, os) && Extends(keys, later) && Scannable(os, keys, contains)
    ensures Scannable(os, later, contains)
  {
    forall i | 0 <= i < |os|
      ensures Owns(later, os[i]) ==> Owns(keys, os[i])
    {
      assert os[i].out.key in keys;
    }
  }

  lemma SlotStaysFound(report: seq<Payment>, c: CacheState, i: nat, keys: KeyTable, later: KeyTable,
                       contains: SubIndex -> bool)
    requires i < |c.blocks| <= c.height + 1
    requires FoundInSlot(report, c, i, keys, contains) && Extends(keys, later)
    ensures FoundInSlot(report, c, i, later, contains)
  {
    AcceptedIsStable(keys, later, contains, Outputs(c.blocks[i].txs));
    ScannableStays(Outputs(c.blocks[i].txs), keys, later, contains);
  }

  lemma SlotsStayFound(reports: seq<seq<Payment>>, c: CacheState, from: nat, depth: nat, keys: KeyTable,
                       later: KeyTable, contains: SubIndex -> bool)
    requires depth <= |c.blocks| <= c.height + 1
    requires FoundInSlots(reports, c, from, depth, keys, contains) && Extends(keys, later)
    ensures FoundInSlots(reports, c, from, depth, later, contains)
  {
    forall i | from <= i < depth
      ensures FoundInSlot(reports[i], c, i, later, contains)
    {
      SlotStaysFound(reports[i], c, i, keys, later, contains);
    }
  }

  lemma {:induction false} BlocksOutputsSplit(c: CacheState, depth: nat, i: nat, j: nat)
    requires j <= i <= depth <= |c.blocks|
    ensures L.BlocksOutputs(c, depth, j) == L.BlocksOutputs(c, depth, i) + L.BlocksOutputs(c, i, j)
    decreases i - j
  {
    if j < i { BlocksOutputsSplit(c, depth, i, j + 1); }
  }

  /** How far the block scan has come: slots depth-1 down to i are scanned without error. */
  ghost predicate ScannedDownTo(start: KeyTable, contains: SubIndex -> bool, c: CacheState, depth: nat, i: nat,
                                keys: KeyTable)
    requires depth <= |c.blocks|
  {
    var s := ScanOutputs(start, contains, L.BlocksOutputs(c, depth, i));
    s.found.Ok? && s.keys == keys && keys == RegisterAll(start, L.BlocksOutputs(c, depth, i))
  }

  /** Scan one more slot: on to the next, or out with its error. */
  lemma NextSlot(start: KeyTable, contains: SubIndex -> bool, c: CacheState, depth: nat, i: nat, before: KeyTable)
    requires i < depth <= |c.blocks| && ScannedDownTo(start, contains, c, depth, i + 1, before)
    ensures var s := ScanOutputs(before, contains, Outputs(c.blocks[i].txs));
            && (s.found.Ok? ==> ScannedDownTo(start, contains, c, depth, i, s.keys))
            && (s.found.Err? ==> ScanOutputs(start, contains, L.BlocksOutputs(c, depth, 0)) == s)
  {
    var above, os := L.BlocksOutputs(c, depth, i + 1), Outputs(c.blocks[i].txs);
    ScanConcat(start, contains, above, os);
    if ScanOutputs(before, contains, os).found.Err? {
      ScanErrorStays(start, contains, above + os, L.BlocksOutputs(c, i, 0));
      BlocksOutputsSplit(c, depth, i, 0);
    } else {
      ScanOkIff(start, contains, above + os, RegisterAll(start, above + os));
    }
  }

  /** Scan slots depth-1 down to 0, oldest block first: one scan of all their outputs. */
  method ScanBlocks(store: InMemory, c: CacheState, depth: nat)
    returns (r: Result<seq<Payment>, ScanError>, ghost reports: seq<seq<Payment>>)
    requires depth <= |c.blocks| <= c.height + 1
    modifies store`outputKeys
    ensures var s := ScanOutputs(old(store.outputKeys), RangeFilter(store.invoices), L.BlocksOutputs(c, depth, 0));
            && store.outputKeys == s.keys && (r.Ok? <==> s.found.Ok?) && (r.Err? ==> r.error == s.found.error)
    ensures r.Ok? ==>
              && store.outputKeys == RegisterAll(old(store.outputKeys), L.BlocksOutputs(c, depth, 0))
              && FoundInSlots(reports, c, 0, depth, store.outputKeys, RangeFilter(store.invoices))
              && r.value == BlocksReport(reports, depth, 0)
  {
    var transfers: seq<Payment> := [];
    reports := seq(depth, k => []);
    ghost var contains := RangeFilter(store.invoices);
    for i := depth downto 0
      invariant store.invoices == old(store.invoices)
      invariant ScannedDownTo(old(store.outputKeys), contains, c, depth, i, store.outputKeys)
      invariant FoundInSlots(reports, c, i, depth, store.outputKeys, contains)
      invariant transfers == BlocksReport(reports, depth, i)
    {
      ghost var before := store.outputKeys;
      var found := ScanTransactions(store, c.blocks[i].txs);
      NextSlot(old(store.outputKeys), contains, c, depth, i, before);
      if found.Err? { return Err(found.error), reports; }
      var report := AsPayments(found.value, Some(c.height - i));
      transfers := transfers + report;
      ghost var previous := reports;
      reports := reports[i := report];
      ScanSlot(before, contains, c, depth, i, previous, reports, store.outputKeys);
    }
    return Ok(transfers), reports;
  }

  lemma {:induction false} ReportBelow(r: seq<seq<Payment>>, q: seq<seq<Payment>>, depth: nat, i: nat)
    requires depth <= |r| && depth <= |q| && forall k :: i <= k < depth ==> r[k] == q[k]
    ensures BlocksReport(r, depth, i) == BlocksReport(q, depth, i)
    decreases depth - i
  {
    if i < depth { ReportBelow(r, q, depth, i + 1); }
  }

  /** The step of the block loop. */
  lemma ScanSlot(before: KeyTable, contains: SubIndex -> bool, c: CacheState, depth: nat, i: nat,
                 previous: seq<seq<Payment>>, reports: seq<seq<Payment>>, keys: KeyTable)
    requires i < depth <= |c.blocks| <= c.height + 1
    requires FoundInSlots(previous, c, i + 1, depth, before, contains)
    requires var r := ScanOutputs(before, contains, Outputs(c.blocks[i].txs));
             && r.found.Ok? && r.keys == keys
             && reports == previous[i := AsPayments(r.found.value, Some(c.height - i))]
    ensures FoundInSlots(reports, c, i, depth, keys, contains)
    ensures BlocksReport(reports, depth, i) == BlocksReport(previous, depth, i + 1) + reports[i]
  {
    var os := Outputs(c.blocks[i].txs);
    ScanFindsOwners(before, contains, os, keys);
    ScanOkIff(before, contains, os, keys);
    RegisterAllExtends(before, os);
    SlotsStayFound(previous, c, i + 1, depth, before, keys, contains);
    ReportBelow(reports, previous, depth, i + 1);
    assert FoundInSlot(reports[i], c, i, keys, contains);
    forall k | i <= k < depth
      ensures FoundInSlot(reports[k], c, k, keys, contains)
    {
      if k > i { assert reports[k] == previous[k] && FoundInSlot(previous[k], c, k, keys, contains); }
    }
  }

  /** List the keys of a map, in the order a hash map happens to yield them. */
  method KeysOf<V>(m: map<Hash, V>) returns (hs: seq<Hash>)
    ensures Enumerates(hs, m)
  {
    hs := [];
    var rest := m.Keys;
    while rest != {}
      invariant rest <= m.Keys
      invariant forall h :: h in hs <==> h in m && h !in rest
      invariant forall i, j :: 0 <= i < j < |hs| ==> hs[i] != hs[j]
    {
      var h :| h in rest;
      rest := rest - {h};
      hs := hs + [h];
    }
  }

  method FlattenFrom(m: map<Hash, seq<Payment>>, hs: seq<Hash>) returns (ps: seq<Payment>)
    ensures ps == Flatten(m, hs)
  {
    ps := [];
    for i := 0 to |hs|
      invariant ps == Flatten(m, hs[..i])
    {
      assert hs[..i + 1][..i] == hs[..i];
      if hs[i] in m { ps := ps + m[hs[i]]; }
    }
    assert hs[..|hs|] == hs;
  }

  /** Scan what is new in the pool; hand back that and what is remembered, then remember that too. */
  method ScanTxpool(store: InMemory, pool: TxpoolCache, newTransactions: seq<Tx>)
    returns (r: Result<seq<Payment>, ScanError>, order: seq<Hash>)
    modifies store`outputKeys, pool`discoveredTransfers
    ensures var s := ScanOutputs(old(store.outputKeys), RangeFilter(store.invoices), Outputs(newTransactions));
            && store.outputKeys == s.keys && (r.Ok? <==> s.found.Ok?) && (r.Err? ==> r.error == s.found.error)
    ensures r.Ok? ==>
              && store.outputKeys == RegisterAll(old(store.outputKeys), Outputs(newTransactions))
              && Scannable(Outputs(newTransactions), store.outputKeys, RangeFilter(store.invoices))
              && var found := Group(Accepted(store.outputKeys, RangeFilter(store.invoices), Outputs(newTransactions)));
              && Enumerates(order, Reported(old(pool.State()), found))
              && r.value == Flatten(Reported(old(pool.State()), found), order)
              && pool.State() == Remember(old(pool.State()), found)
    ensures r.Err? ==> pool.State() == old(pool.State())
  {
    order := [];
    var discovered := pool.discoveredTransfers;
    ghost var keys := store.outputKeys;
    var received := ScanTransactions(store, newTransactions);
    if received.Err? { return Err(received.error), order; }
    ScanFindsOwners(keys, RangeFilter(store.invoices), Outputs(newTransactions), store.outputKeys);
    ScanOkIff(keys, RangeFilter(store.invoices), Outputs(newTransactions), store.outputKeys);
    var newTransfers := Group(received.value);
    var transfers := newTransfers + discovered;
    pool.InsertTransfers(newTransfers);
    order := KeysOf(transfers);
    var flat := FlattenFrom(transfers, order);
    return Ok(flat), order;
  }

  // ---------------------------------------------------------------------------
  // Invoices
  // ---------------------------------------------------------------------------

  /** `u` is a stored invoice as the update changes it. */
  ghost predicate IsChange(u: Invoice, invoices: InvoiceTable, ps: seq<Payment>, deepest: nat, height: nat)
  {
    u.Id() in invoices && UpdatedInvoice(invoices[u.Id()], ps, deepest, height) == Some(u)
  }

  /** If the update changes the invoice stored under `id`, the changed invoice is in the list. */
  ghost predicate Listed(updated: seq<Invoice>, id: InvoiceId, invoices: InvoiceTable, ps: seq<Payment>, deepest: nat,
                         height: nat)
    requires id in invoices
  {
    var u := UpdatedInvoice(invoices[id], ps, deepest, height);
    u.Some? ==> u.value in updated
  }

  /** `updated` lists exactly the invoices of `ids` that an update changes, as changed. */
  ghost predicate ChangedAmong(updated: seq<Invoice>, invoices: InvoiceTable, ids: set<InvoiceId>, ps: seq<Payment>,
                               deepest: nat, height: nat)
    requires ids <= invoices.Keys
  {
    && (forall i :: 0 <= i < |updated| ==>
          IsChange(updated[i], invoices, ps, deepest, height) && updated[i].Id() in ids)
    && DifferentIds(updated)
    && (forall id :: id in ids ==> Listed(updated, id, invoices, ps, deepest, height))
  }

  lemma ListedGrows(previous: seq<Invoice>, updated: seq<Invoice>, id: InvoiceId, invoices: InvoiceTable,
                    ids: set<InvoiceId>, ps: seq<Payment>, deepest: nat, height: nat)
    requires WellFiled(invoices) && ids <= invoices.Keys && id in invoices && id !in ids
    requires ChangedAmong(previous, invoices, ids, ps, deepest, height)
    requires var u := UpdatedInvoice(invoices[id], ps, deepest, height);
             updated == if u.Some? then previous + [u.value] else previous
    ensures ChangedAmong(updated, invoices, ids + {id}, ps, deepest, height)
  {
    forall i | 0 <= i < |updated|
      ensures IsChange(updated[i], invoices, ps, deepest, height)
    {
      if i == |previous| { assert updated[i].Id() == invoices[id].Id(); }
    }
    forall other | other in ids + {id}
      ensures Listed(updated, other, invoices, ps, deepest, height)
    {
      if other in ids { assert Listed(previous, other, invoices, ps, deepest, height); }
    }
  }

  /** Go through the stored invoices, collecting those that change. */
  method UpdateInvoices(invoices: InvoiceTable, ps: seq<Payment>, blocksUpdated: nat, height: nat)
    returns (updated: seq<Invoice>)
    requires WellFiled(invoices) && blocksUpdated <= height + 1
    ensures ChangedAmong(updated, invoices, invoices.Keys, ps, height - blocksUpdated + 1, height)
  {
    updated := [];
    var deepest := height - blocksUpdated + 1;
    var rest := invoices.Keys;
    ghost var done: set<InvoiceId> := {};
    while rest != {}
      invariant rest + done == invoices.Keys && rest !! done
      invariant ChangedAmong(updated, invoices, done, ps, deepest, height)
    {
      var id :| id in rest;
      ghost var previous := updated;
      var changed := UpdateOne(invoices[id], ps, deepest, height);
      if changed.Some? { updated := updated + [changed.value]; }
      ListedGrows(previous, updated, id, invoices, done, ps, deepest, height);
      rest, done := rest - {id}, done + {id};
    }
    assert done == invoices.Keys;
  }

  /** What the store holds once every change is saved. */
  ghost predicate AllRefreshed(after: InvoiceTable, before: InvoiceTable, ps: seq<Payment>, deepest: nat, height: nat)
  {
    && after.Keys == before.Keys
    && forall id :: id in before ==> after[id] == Refreshed(before[id], ps, deepest, height)
  }

  /** The table once the invoices `us` have been saved in turn; only those still stored are. */
  function Saved(invoices: InvoiceTable, us: seq<Invoice>): (r: InvoiceTable)
    ensures r.Keys == invoices.Keys
  {
    if |us| == 0 then invoices
    else
      var before, last := Saved(invoices, us[..|us| - 1]), us[|us| - 1];
      if last.Id() in before then before[last.Id() := last] else before
  }

  ghost predicate Mentions(us: seq<Invoice>, id: InvoiceId) { exists i :: 0 <= i < |us| && us[i].Id() == id }

  ghost predicate TakenFrom(us: seq<Invoice>, t: InvoiceTable)
  {
    forall i :: 0 <= i < |us| ==> us[i].Id() in t && t[us[i].Id()] == us[i]
  }

  /** Saving entries of a table turns exactly the saved ids into that table's entries. */
  lemma {:induction false} SavedAt(before: InvoiceTable, after: InvoiceTable, us: seq<Invoice>, id: InvoiceId)
    requires after.Keys == before.Keys && TakenFrom(us, after) && id in before
    ensures Saved(before, us)[id] == if Mentions(us, id) then after[id] else before[id]
  {
    if |us| > 0 {
      var init, last := us[..|us| - 1], us[|us| - 1];
      assert forall i :: 0 <= i < |init| ==> init[i] == us[i];
      SavedAt(before, after, init, id);
      assert Mentions(us, id) <==> Mentions(init, id) || last.Id() == id by {
        if Mentions(init, id) { var i :| 0 <= i < |init| && init[i].Id() == id; assert us[i].Id() == id; }
        if last.Id() == id { assert us[|us| - 1].Id() == id; }
      }
    }
  }

  /** An invoice the update changes is listed; one it does not change stays as it is. */
  lemma MentionedAsRefreshed(before: InvoiceTable, us: seq<Invoice>, ps: seq<Payment>, deepest: nat, height: nat,
                             id: InvoiceId)
    requires WellFiled(before) && ChangedAmong(us, before, before.Keys, ps, deepest, height)
    requires id in before
    ensures Mentions(us, id) <==> Refreshed(before[id], ps, deepest, height) != before[id]
  {
    var u := UpdatedInvoice(before[id], ps, deepest, height);
    UpdatedIsDifferent(before[id], ps, deepest, height);
    if Mentions(us, id) {
      var i :| 0 <= i < |us| && us[i].Id() == id;
      assert IsChange(us[i], before, ps, deepest, height);
    }
    if u.Some? {
      assert Listed(us, id, before, ps, deepest, height);
      var j :| 0 <= j < |us| && us[j] == u.value;
      assert us[j].Id() == before[id].Id() == id;
    }
  }

  lemma ChangesAreRefreshed(before: InvoiceTable, after: InvoiceTable, us: seq<Invoice>, ps: seq<Payment>, deepest: nat,
                            height: nat)
    requires WellFiled(before) && ChangedAmong(us, before, before.Keys, ps, deepest, height)
    requires AllRefreshed(after, before, ps, deepest, height)
    ensures TakenFrom(us, after)
  {
    forall i | 0 <= i < |us|
      ensures us[i].Id() in after && after[us[i].Id()] == us[i]
    {
      assert IsChange(us[i], before, ps, deepest, height);
    }
  }

  /** Saving what changed refreshes the whole table. */
  lemma SavedIsRefreshed(before: InvoiceTable, saved: InvoiceTable, us: seq<Invoice>, ps: seq<Payment>, deepest: nat,
                         height: nat)
    requires WellFiled(before) && ChangedAmong(us, before, before.Keys, ps, deepest, height)
    requires saved == Saved(before, us)
    ensures AllRefreshed(saved, before, ps, deepest, height)
  {
    var after: InvoiceTable := map id | id in before :: Refreshed(before[id], ps, deepest, height);
    ChangesAreRefreshed(before, after, us, ps, deepest, height);
    forall id | id in before
      ensures saved[id] == Refreshed(before[id], ps, deepest, height)
    {
      SavedAt(before, after, us, id);
      MentionedAsRefreshed(before, us, ps, deepest, height, id);
    }
  }

  /** Save the changed invoices one at a time, and publish each. */
  method SaveUpdates(store: InMemory, publisher: Publisher, updated: seq<Invoice>, open: nat -> Openness)
    requires store.Valid() && publisher.Valid()
    modifies store`invoices, publisher
    ensures store.Valid() && store.invoices == Saved(old(store.invoices), updated)
    ensures publisher.Since(old(publisher.State()), old(publisher.sent), updated, open)
  {
    for k := 0 to |updated|
      invariant store.Valid() && store.invoices == Saved(old(store.invoices), updated[..k])
      invariant publisher.Since(old(publisher.State()), old(publisher.sent), updated[..k], open)
    {
      assert updated[..k + 1][..k] == updated[..k];
      PublishesNext(publisher.State(), publisher.sent, old(publisher.State()), old(publisher.sent), updated, k, open);
      var previous := store.UpdateInvoice(updated[k]);
      var tried := publisher.SendUpdates(updated[k], open(k));
    }
    assert updated[..|updated|] == updated;
  }

  /** The list holds exactly the invoices that changed, each once and as it is stored afterwards. */
  ghost predicate ListsChanges(us: seq<Invoice>, before: InvoiceTable, after: InvoiceTable)
  {
    && TakenFrom(us, after) && DifferentIds(us)
    && (forall id :: id in before && id in after ==> (Mentions(us, id) <==> after[id] != before[id]))
  }

  lemma ChangesAreListed(before: InvoiceTable, after: InvoiceTable, us: seq<Invoice>, ps: seq<Payment>, deepest: nat,
                         height: nat)
    requires WellFiled(before) && ChangedAmong(us, before, before.Keys, ps, deepest, height)
    requires AllRefreshed(after, before, ps, deepest, height)
    ensures ListsChanges(us, before, after)
  {
    ChangesAreRefreshed(before, after, us, ps, deepest, height);
    forall id | id in before && id in after
      ensures Mentions(us, id) <==> after[id] != before[id]
    {
      MentionedAsRefreshed(before, us, ps, deepest, height, id);
    }
  }

  /** What a scan delivers is its changes: each delivery is of an invoice that changed, as it is stored afterwards, and
      each such invoice goes to the senders registered for it and to the global ones left by then. */
  ghost predicate DeliversChanges(sent: seq<Delivery>, earlier: seq<Delivery>, us: seq<Invoice>, before: InvoiceTable,
                                  after: InvoiceTable, x: Subscriptions, open: nat -> Openness)
  {
    && earlier <= sent
    && var log := sent[|earlier|..];
    && (forall i :: 0 <= i < |log| ==> IsNews(log[i].invoice, before, after))
    && (forall k, to :: 0 <= k < |us| ==> multiset(log)[Delivery(to, us[k])] == TimesReceived(x, us, open, k, to))
  }

  /** The invoice as it is stored now, different from what was stored under its id. */
  ghost predicate IsNews(inv: Invoice, before: InvoiceTable, after: InvoiceTable)
  {
    inv.Id() in before && inv.Id() in after && inv == after[inv.Id()] && inv != before[inv.Id()]
  }

  lemma AllIsNews(us: seq<Invoice>, before: InvoiceTable, after: InvoiceTable, x: Subscriptions, open: nat -> Openness,
                  d: Delivery)
    requires before.Keys == after.Keys && ListsChanges(us, before, after) && d in SentAll(x, us, open)
    ensures IsNews(d.invoice, before, after)
  {
    if d.invoice !in us { NothingElseSent(x, us, open, d); }
    var k :| 0 <= k < |us| && us[k] == d.invoice;
    assert Mentions(us, us[k].Id());
  }

  lemma ChangesAreDelivered(y: Subscriptions, sent: seq<Delivery>, earlier: seq<Delivery>, us: seq<Invoice>,
                            before: InvoiceTable, after: InvoiceTable, x: Subscriptions, open: nat -> Openness)
    requires HasPublished(y, sent, x, earlier, us, open)
    requires before.Keys == after.Keys && ListsChanges(us, before, after)
    ensures DeliversChanges(sent, earlier, us, before, after, x, open)
  {
    var log := SentAll(x, us, open);
    assert sent[|earlier|..] == log;
    forall i | 0 <= i < |log|
      ensures IsNews(log[i].invoice, before, after)
    {
      AllIsNews(us, before, after, x, open, log[i]);
    }
    forall k, to | 0 <= k < |us|
      ensures multiset(log)[Delivery(to, us[k])] == TimesReceived(x, us, open, k, to)
    {
      SentAllCount(x, us, open, k, to);
    }
  }

  // ---------------------------------------------------------------------------
  // The whole scan
  // ---------------------------------------------------------------------------

  lemma {:induction false} BlocksScannable(reports: seq<seq<Payment>>, c: CacheState, depth: nat, i: nat,
                                           keys: KeyTable, contains: SubIndex -> bool)
    requires depth <= |c.blocks| <= c.height + 1 && FoundInSlots(reports, c, 0, depth, keys, contains)
    ensures Scannable(L.BlocksOutputs(c, depth, i), keys, contains)
    decreases depth - i
  {
    if i < depth {
      BlocksScannable(reports, c, depth, i + 1, keys, contains);
      assert FoundInSlot(reports[i], c, i, keys, contains);
    }
  }

  /** What the block scan and then the pool scan leave behind: every output registered, every slot's report right,
      nothing that should have failed. */
  ghost predicate Gathered(keys: KeyTable, before: KeyTable, contains: SubIndex -> bool, c: CacheState, depth: nat,
                           delivered: seq<Tx>, reports: seq<seq<Payment>>)
    requires depth <= |c.blocks| <= c.height + 1
  {
    && keys == RegisterAll(before, L.ScannedOutputs(c, depth, delivered))
    && FoundInSlots(reports, c, 0, depth, keys, contains)
    && Scannable(Outputs(delivered), keys, contains)
  }

  lemma ThenThePool(before: KeyTable, midway: KeyTable, contains: SubIndex -> bool, c: CacheState, depth: nat,
                    delivered: seq<Tx>, reports: seq<seq<Payment>>)
    requires depth <= |c.blocks| <= c.height + 1
    requires midway == RegisterAll(before, L.BlocksOutputs(c, depth, 0))
    requires FoundInSlots(reports, c, 0, depth, midway, contains)
    requires Scannable(Outputs(delivered), RegisterAll(midway, Outputs(delivered)), contains)
    ensures Gathered(RegisterAll(midway, Outputs(delivered)), before, contains, c, depth, delivered, reports)
  {
    var keys := RegisterAll(midway, Outputs(delivered));
    RegisterAllExtends(midway, Outputs(delivered));
    RegisterAllConcat(before, L.BlocksOutputs(c, depth, 0), Outputs(delivered));
    SlotsStayFound(reports, c, 0, depth, midway, keys, contains);
  }

  /** Everything a sequential scan has in hand when it turns to the invoices. */
  function SequentialFindings(g: L.Gateway, e: L.ScanEnv, c: CacheState, count: nat, depth: nat,
                              keys: KeyTable): L.Findings
  {
    var pool := L.PoolScanOf(keys, e);
    L.Findings(c, count, depth, keys, e.contains, e.reports, AfterScan(g.pool, pool),
               Flatten(L.PoolReport(g.pool, pool), e.poolOrder))
  }

  /** The cache update of a sequential scan. */
  ghost predicate Prepared(g: L.Gateway, e: L.ScanEnv, c: CacheState, count: nat, depth: nat)
  {
    && ValidCache(g.cache)
    && UpdateCache(g.cache, Some(e.reported), e.daemon) == CacheUpdate(c, Some(count))
    && depth == L.Depth(g.firstScan, CacheUpdate(c, Some(count))) && count <= depth
  }

  /** The registration and the pool scan of a sequential scan. */
  ghost predicate Performed(g: L.Gateway, e: L.ScanEnv, c: CacheState, depth: nat, keys: KeyTable)
  {
    && ValidCache(c) && depth <= |c.blocks|
    && e.contains == RangeFilter(g.invoices) && e.schedule == L.ScannedOutputs(c, depth, e.delivered)
    && Gathered(keys, g.keys, e.contains, c, depth, e.delivered, e.reports)
    && Enumerates(e.poolOrder, L.PoolReport(g.pool, L.PoolScanOf(keys, e)))
  }

  lemma FindingsAreSequential(g: L.Gateway, e: L.ScanEnv, c: CacheState, count: nat, depth: nat, keys: KeyTable)
    requires Prepared(g, e, c, count, depth) && Performed(g, e, c, depth, keys)
    ensures L.FindingsOf(g, e) == SequentialFindings(g, e, c, count, depth, keys)
  {
  }

  lemma ScannableBoth(a: seq<TxOutput>, b: seq<TxOutput>, keys: KeyTable, contains: SubIndex -> bool)
    requires Scannable(a, keys, contains) && Scannable(b, keys, contains)
    ensures Scannable(a + b, keys, contains)
  {
  }

  /** A sequential scan that ends without error is an error-free scan of the ledger machine. */
  lemma SequentialIsErrorFree(g: L.Gateway, e: L.ScanEnv, c: CacheState, count: nat, depth: nat, keys: KeyTable)
    requires Prepared(g, e, c, count, depth) && Performed(g, e, c, depth, keys)
    ensures L.ErrorFree(g, e)
  {
    FindingsAreSequential(g, e, c, count, depth, keys);
    TestsCoverLive(g.invoices);
    BlocksScannable(e.reports, c, depth, 0, keys, e.contains);
    ScannableBoth(L.BlocksOutputs(c, depth, 0), Outputs(e.delivered), keys, e.contains);
    SlotsAreFaithful(e.reports, c, depth, keys, e.contains);
    L.ErrorFreeWhen(g, e, SequentialFindings(g, e, c, count, depth, keys));
  }

  lemma SlotsAreFaithful(reports: seq<seq<Payment>>, c: CacheState, depth: nat, keys: KeyTable,
                         contains: SubIndex -> bool)
    requires depth <= |c.blocks| <= c.height + 1 && FoundInSlots(reports, c, 0, depth, keys, contains)
    ensures Faithful(reports, c, depth, keys, contains)
  {
    forall i | 0 <= i < depth
      ensures FaithfulSlot(reports[i], c, i, keys, contains)
    {
      assert FoundInSlot(reports[i], c, i, keys, contains);
    }
  }

  /** The parts of the gateway's state that the scanner stores. */
  ghost predicate Holds(g: L.Gateway, cache: CacheState, pool: PoolState, invoices: InvoiceTable, keys: KeyTable,
                        firstScan: bool)
  {
    g.cache == cache && g.pool == pool && g.invoices == invoices && g.keys == keys && g.firstScan == firstScan
  }

  /** The invoices are those of g with the findings carried into them. */
  ghost predicate SettledAs(g: L.Gateway, f: L.Findings, invoices: InvoiceTable)
  {
    && L.WellShaped(f)
    && AllRefreshed(invoices, g.invoices, f.Payments(), f.Deepest(), f.cache.height)
  }

  lemma SavedIsSettled(g: L.Gateway, f: L.Findings, us: seq<Invoice>)
    requires WellFiled(g.invoices) && L.WellShaped(f)
    requires ChangedAmong(us, g.invoices, g.invoices.Keys, f.Payments(), f.Deepest(), f.cache.height)
    ensures var saved := Saved(g.invoices, us); SettledAs(g, f, saved) && ListsChanges(us, g.invoices, saved)
  {
    var saved := Saved(g.invoices, us);
    SavedIsRefreshed(g.invoices, saved, us, f.Payments(), f.Deepest(), f.cache.height);
    ChangesAreListed(g.invoices, saved, us, f.Payments(), f.Deepest(), f.cache.height);
  }

  /** The invoices that the findings change; saving them settles the findings. */
  method Changes(invoices: InvoiceTable, payments: seq<Payment>, blocksUpdated: nat, height: nat, ghost g: L.Gateway,
                 ghost f: L.Findings) returns (updated: seq<Invoice>)
    requires invoices == g.invoices && WellFiled(invoices) && blocksUpdated <= height + 1
    requires L.WellShaped(f) && f.cache.height == height && f.count == blocksUpdated && f.Payments() == payments
    ensures var saved := Saved(invoices, updated); SettledAs(g, f, saved) && ListsChanges(updated, g.invoices, saved)
  {
    updated := UpdateInvoices(invoices, payments, blocksUpdated, height);
    assert height - blocksUpdated + 1 == f.Deepest();
    SavedIsSettled(g, f, updated);
  }

  lemma ApplyHolds(g: L.Gateway, f: L.Findings, invoices: InvoiceTable)
    requires SettledAs(g, f, invoices)
    ensures Holds(L.Apply(g, f), f.cache, f.pool, invoices, f.keys, false)
  {
    assert L.Apply(g, f).invoices == invoices;
  }

  /** What a sequential scan leaves in the store and the caches is what the ledger machine's scan leaves. */
  lemma SequentialScan(g: L.Gateway, e: L.ScanEnv, c: CacheState, count: nat, depth: nat, keys: KeyTable,
                       invoices: InvoiceTable)
    requires Prepared(g, e, c, count, depth) && Performed(g, e, c, depth, keys)
    requires SettledAs(g, SequentialFindings(g, e, c, count, depth, keys), invoices)
    ensures L.ErrorFree(g, e)
    ensures Holds(L.Scan(g, e), c, AfterScan(g.pool, L.PoolScanOf(keys, e)), invoices, keys, false)
  {
    SequentialIsErrorFree(g, e, c, count, depth, keys);
    FindingsAreSequential(g, e, c, count, depth, keys);
    ApplyHolds(g, L.FindingsOf(g, e), invoices);
  }

  /** The daemon's answer to the request for new pool transactions. */
  function Fetch(p: PoolState, hashes: Option<set<Hash>>, fetch: set<Hash> -> Option<seq<Tx>>): Option<seq<Tx>>
  {
    if hashes.None? then None else fetch(hashes.value - p.known.Keys)
  }

  /** Both cache updates succeed. */
  predicate CachesUpdate(u: CacheUpdate, p: PoolState, hashes: Option<set<Hash>>, fetch: set<Hash> -> Option<seq<Tx>>)
  {
    u.count.Some? && Fetch(p, hashes, fetch).Some?
  }

  function BlocksScan(keys: KeyTable, contains: SubIndex -> bool, c: CacheState, depth: nat): Scanned
    requires depth <= |c.blocks|
  {
    ScanOutputs(keys, contains, L.BlocksOutputs(c, depth, 0))
  }

  /** Both scans succeed: no output index above 255, and nothing to be credited that cannot be unblinded. */
  predicate OutputsScan(g: L.Gateway, c: CacheState, depth: nat, delivered: seq<Tx>)
    requires depth <= |c.blocks|
  {
    var inBlocks := BlocksScan(g.keys, RangeFilter(g.invoices), c, depth);
    inBlocks.found.Ok? && ScanOutputs(inBlocks.keys, RangeFilter(g.invoices), Outputs(delivered)).found.Ok?
  }

  /** When a scan succeeds. */
  predicate Succeeds(g: L.Gateway, reported: Option<u64>, daemon: Daemon, hashes: Option<set<Hash>>,
                     fetch: set<Hash> -> Option<seq<Tx>>)
    requires 1 <= |g.cache.blocks| <= g.cache.height + 1
  {
    var u := UpdateCache(g.cache, reported, daemon);
    && CachesUpdate(u, g.pool, hashes, fetch)
    && L.Depth(g.firstScan, u) <= |u.cache.blocks|
    && OutputsScan(g, u.cache, L.Depth(g.firstScan, u), Fetch(g.pool, hashes, fetch).value)
  }

  class Scanner {
    const store: InMemory
    const blockCache: BlockCache
    const txpoolCache: TxpoolCache
    const publisher: Publisher
    var firstScan: bool

    /** The object holds the state g (whose history components it does not store). */
    ghost predicate Represents(g: L.Gateway)
      reads this, store, blockCache, txpoolCache
    {
      && Holds(g, blockCache.State(), txpoolCache.State(), store.invoices, store.outputKeys, firstScan)
      && store.Valid()
    }

    constructor (store: InMemory, blockCache: BlockCache, txpoolCache: TxpoolCache, publisher: Publisher)
      ensures this.store == store && this.blockCache == blockCache && this.txpoolCache == txpoolCache
      ensures this.publisher == publisher && firstScan
    {
      this.store, this.blockCache, this.txpoolCache, this.publisher := store, blockCache, txpoolCache, publisher;
      this.firstScan := true;
    }

    /** Advance the block cache, then bring the pool cache up to date: how many blocks were updated, and the new pool
        transactions. If either update fails, so does this, and the block cache may have advanced all the same. */
    method UpdateCaches(reported: Option<u64>, daemon: Daemon, hashes: Option<set<Hash>>,
                        fetch: set<Hash> -> Option<seq<Tx>>) returns (r: Option<(nat, seq<Tx>)>)
      requires blockCache.Valid()
      modifies blockCache, txpoolCache
      ensures blockCache.Valid()
      ensures var u := UpdateCache(old(blockCache.State()), reported, daemon);
              && blockCache.State() == u.cache
              && (r.Some? <==> CachesUpdate(u, old(txpoolCache.State()), hashes, fetch))
              && (r.Some? ==> r.value.0 == u.count.value)
              && (r.Some? ==> Some(r.value.1) == Fetch(old(txpoolCache.State()), hashes, fetch))
      ensures r.Some? ==> txpoolCache.State() == UpdatePool(old(txpoolCache.State()), hashes.value, r.value.1)
    {
      var count := blockCache.Update(reported, daemon);
      if count.None? { return None; }
      if hashes.None? { return None; }
      var delivered := txpoolCache.Update(hashes.value, fetch);
      if delivered.None? { return None; }
      return Some((count.value, delivered.value));
    }

    /** Scan the blocks the update replaced (all of them the first time) and what is new in the pool. Both scans run to
        their end, even if one fails. */
    method ScanThem(depth: nat, delivered: seq<Tx>)
      returns (r: Result<seq<Payment>, ScanError>, ghost reports: seq<seq<Payment>>, order: seq<Hash>)
      requires blockCache.Valid() && depth <= |blockCache.blocks|
      modifies store`outputKeys, txpoolCache`discoveredTransfers
      ensures var inBlocks := BlocksScan(old(store.outputKeys), RangeFilter(store.invoices), blockCache.State(), depth);
              var inPool := ScanOutputs(inBlocks.keys, RangeFilter(store.invoices), Outputs(delivered));
              && store.outputKeys == inPool.keys
              && (r.Ok? <==> inBlocks.found.Ok? && inPool.found.Ok?)
              && (r.Err? ==> r.error == if inBlocks.found.Err? then inBlocks.found.error else inPool.found.error)
      ensures r.Ok? ==>
                && Gathered(store.outputKeys, old(store.outputKeys), RangeFilter(store.invoices), blockCache.State(),
                            depth, delivered, reports)
                && var found := Group(Accepted(store.outputKeys, RangeFilter(store.invoices), Outputs(delivered)));
                && Enumerates(order, Reported(old(txpoolCache.State()), found))
                && r.value == AllPayments(reports, depth, Flatten(Reported(old(txpoolCache.State()), found), order))
                && txpoolCache.State() == Remember(old(txpoolCache.State()), found)
    {
      var inBlocks, inPool;
      inBlocks, reports := ScanBlocks(store, blockCache.State(), depth);
      ghost var midway := store.outputKeys;
      inPool, order := ScanTxpool(store, txpoolCache, delivered);
      if inBlocks.Err? { return Err(inBlocks.error), reports, order; }
      if inPool.Err? { return Err(inPool.error), reports, order; }
      ThenThePool(old(store.outputKeys), midway, RangeFilter(store.invoices), blockCache.State(), depth, delivered,
                  reports);
      return Ok(inBlocks.value + inPool.value), reports, order;
    }

    /** Carry the findings into the invoices; save and publish those that change. */
    method Settle(payments: seq<Payment>, blocksUpdated: nat, open: nat -> Openness, ghost g: L.Gateway,
                  ghost f: L.Findings) returns (updated: seq<Invoice>)
      requires store.Valid() && publisher.Valid() && store.invoices == g.invoices
      requires blocksUpdated <= blockCache.height + 1
      requires L.WellShaped(f) && f.cache == blockCache.State() && f.count == blocksUpdated && f.Payments() == payments
      modifies store`invoices, publisher
      ensures store.Valid() && SettledAs(g, f, store.invoices) && ListsChanges(updated, g.invoices, store.invoices)
      ensures publisher.Since(old(publisher.State()), old(publisher.sent), updated, open)
    {
      updated := Changes(store.invoices, payments, blocksUpdated, blockCache.height, g, f);
      SaveUpdates(store, publisher, updated, open);
    }

    /** The two scans, told as the ledger tells it. */
    method ScanFrom(ghost g: L.Gateway, ghost e0: L.ScanEnv, ghost count: nat, depth: nat, delivered: seq<Tx>)
      returns (r: Result<seq<Payment>, ScanError>, ghost e: L.ScanEnv)
      requires blockCache.Valid() && depth <= |blockCache.blocks|
      requires store.invoices == g.invoices && store.outputKeys == g.keys
      requires txpoolCache.State() == UpdatePool(g.pool, e0.hashes, delivered)
      modifies store`outputKeys, txpoolCache`discoveredTransfers
      ensures e.reported == e0.reported && e.daemon == e0.daemon && Extends(g.keys, store.outputKeys)
      ensures r.Ok? <==> OutputsScan(g, blockCache.State(), depth, delivered)
      ensures r.Ok? ==>
                && Performed(g, e, blockCache.State(), depth, store.outputKeys)
                && txpoolCache.State() == AfterScan(g.pool, L.PoolScanOf(store.outputKeys, e))
                && depth <= |e.reports|
                && r.value == SequentialFindings(g, e, blockCache.State(), count, depth, store.outputKeys).Payments()
    {
      ghost var reports;
      var order;
      ghost var inBlocks := BlocksScan(g.keys, RangeFilter(g.invoices), blockCache.State(), depth);
      ScanExtends(g.keys, RangeFilter(g.invoices), L.BlocksOutputs(blockCache.State(), depth, 0));
      ScanExtends(inBlocks.keys, RangeFilter(g.invoices), Outputs(delivered));
      r, reports, order := ScanThem(depth, delivered);
      e := e0.(delivered := delivered, contains := RangeFilter(g.invoices),
               schedule := L.ScannedOutputs(blockCache.State(), depth, delivered), reports := reports,
               poolOrder := order);
    }

    /** Once the caches are up to date: scan, then settle. On an error no invoice and no height is stored. */
    method ScanAndSettle(ghost g: L.Gateway, ghost e0: L.ScanEnv, count: nat, depth: nat, delivered: seq<Tx>,
                         open: nat -> Openness) returns (ok: bool, updated: seq<Invoice>, ghost e: L.ScanEnv)
      requires store.Valid() && blockCache.Valid() && publisher.Valid()
      requires count <= depth <= |blockCache.blocks|
      requires store.invoices == g.invoices && store.outputKeys == g.keys
      requires txpoolCache.State() == UpdatePool(g.pool, e0.hashes, delivered)
      modifies this`firstScan, store, txpoolCache`discoveredTransfers, publisher
      ensures store.Valid() && e.reported == e0.reported && e.daemon == e0.daemon
      ensures Extends(g.keys, store.outputKeys)
      ensures ok <==> OutputsScan(g, blockCache.State(), depth, delivered)
      ensures ok ==> !firstScan && store.height == Some(blockCache.height)
      ensures ok ==> Performed(g, e, blockCache.State(), depth, store.outputKeys)
      ensures ok ==> txpoolCache.State() == AfterScan(g.pool, L.PoolScanOf(store.outputKeys, e))
      ensures ok ==>
                var f := SequentialFindings(g, e, blockCache.State(), count, depth, store.outputKeys);
                SettledAs(g, f, store.invoices)
      ensures ok ==> ListsChanges(updated, g.invoices, store.invoices)
      ensures !ok ==> updated == [] && firstScan == old(firstScan) && store.invoices == g.invoices
      ensures !ok ==> store.height == old(store.height)
      ensures publisher.Since(old(publisher.State()), old(publisher.sent), updated, open)
    {
      var payments;
      payments, e := ScanFrom(g, e0, count, depth, delivered);
      if payments.Err? { return false, [], e; }
      firstScan := false;
      ghost var f := SequentialFindings(g, e, blockCache.State(), count, depth, store.outputKeys);
      updated := Settle(payments.value, count, open, g, f);
      var previous := store.UpsertHeight(blockCache.height);
      ok := true;
    }

    /** One scan. It succeeds exactly if both cache updates and both scans do; the new state is then the ledger
        machine's, the scanned height is stored, and exactly the invoices that changed are published, each once and as
        it is stored. If it fails, no invoice changes and nothing is published, but the block cache stays updated: the
        number of blocks that changed is lost. */
    method Scan(ghost g: L.Gateway, reported: Option<u64>, daemon: Daemon, hashes: Option<set<Hash>>,
                fetch: set<Hash> -> Option<seq<Tx>>, open: nat -> Openness)
      returns (ok: bool, updated: seq<Invoice>, ghost e: L.ScanEnv)
      requires Represents(g) && ValidCache(g.cache) && publisher.Valid()
      modifies this, store, blockCache, txpoolCache, publisher
      ensures ok <==> Succeeds(g, reported, daemon, hashes, fetch)
      ensures ok ==> L.ErrorFree(g, e) && Represents(L.Scan(g, e)) && e.daemon == daemon && Some(e.reported) == reported
      ensures ok ==> store.height == Some(blockCache.height) && ListsChanges(updated, g.invoices, store.invoices)
      ensures publisher.Since(old(publisher.State()), old(publisher.sent), updated, open)
      ensures ok ==> DeliversChanges(publisher.sent, old(publisher.sent), updated, g.invoices, store.invoices,
                                     old(publisher.State()), open)
      ensures !ok ==> publisher.sent == old(publisher.sent)
      ensures !ok ==> updated == [] && store.height == old(store.height) && Extends(g.keys, store.outputKeys)
      ensures !ok ==>
                Represents(L.AfterFailure(g, L.Failure(reported, daemon, store.outputKeys, txpoolCache.State())))
    {
      ok, updated := false, [];
      e := L.ScanEnv(0, daemon, {}, [], RangeFilter(g.invoices), [], [], []);
      UpdateKeepsShape(g.cache, reported, daemon);
      UpdateCountFits(g.cache, reported, daemon);
      var caches := UpdateCaches(reported, daemon, hashes, fetch);
      if caches.None? { return; }
      var (count, delivered) := caches.value;
      var depth := if firstScan then |blockCache.blocks| else count;
      e := e.(reported := reported.value, hashes := hashes.value);
      ok, updated, e := ScanAndSettle(g, e, count, depth, delivered, open);
      if ok {
        SequentialScan(g, e, blockCache.State(), count, depth, store.outputKeys, store.invoices);
        ChangesAreDelivered(publisher.State(), publisher.sent, old(publisher.sent), updated, g.invoices,
                            store.invoices, old(publisher.State()), open);
      }
    }
  }
}
