/** What one scan does to one invoice: drop the transfers at or above the deepest changed block, add what the
    rescan and the pool found, recount if anything changed (library/src/scanner.rs:176-316). */
module Scanning {
  import opened Prelude
  import opened Invoices
  import opened Transfers
  import opened Chain
  import opened BlockCaching
  import opened OutputKeys
  import opened Txpool

  // ---------------------------------------------------------------------------
  // Updating an invoice
  // ---------------------------------------------------------------------------

  /** The transfers strictly older than the deepest changed block. */
  function Retained(ts: seq<Transfer>, deepest: nat): seq<Transfer>
  {
    if |ts| == 0 then []
    else
      var last := ts[|ts| - 1];
      Retained(ts[..|ts| - 1], deepest) +
      (if CompareByHeight(last, Transfer(0, Some(deepest))) == Less then [last] else [])
  }

  /** One below the creation height, in 64 bits: for a creation height of 0 the subtraction wraps around. */
  function JustBefore(creationHeight: u64): u64 { if creationHeight == 0 then U64_LIMIT - 1 else creationHeight - 1 }

  /** The payment is to this subaddress, and not older than the invoice. */
  predicate Belongs(p: Payment, s: SubIndex, creationHeight: u64)
  {
    p.subIndex == s && CompareByHeight(p.transfer, Transfer(0, Some(JustBefore(creationHeight)))) == Greater
  }

  function Added(ps: seq<Payment>, s: SubIndex, creationHeight: u64): seq<Transfer>
  {
    if |ps| == 0 then []
    else
      var last := ps[|ps| - 1];
      Added(ps[..|ps| - 1], s, creationHeight) + (if Belongs(last, s, creationHeight) then [last.transfer] else [])
  }

  /** The invoice with its transfers and height brought up to date, totals still as they were. */
  function Rescanned(inv: Invoice, ps: seq<Payment>, deepest: nat, height: nat): Invoice
  {
    inv.(transfers := Retained(inv.transfers, deepest) + Added(ps, inv.index, inv.creationHeight),
         currentHeight := height + 1)
  }

  function Recounted(inv: Invoice): Invoice
  {
    var t := Tally(inv.transfers, inv.amountRequested);
    inv.(amountPaid := t.paid, paidHeight := t.paidHeight)
  }

  /** None when nothing changed: the stored invoice is then left as it is. */
  function UpdatedInvoice(inv: Invoice, ps: seq<Payment>, deepest: nat, height: nat): Option<Invoice>
  {
    var next := Rescanned(inv, ps, deepest, height);
    if SameInvoice(next, inv) then None else Some(Recounted(next))
  }

  /** What is stored afterwards. */
  function Refreshed(inv: Invoice, ps: seq<Payment>, deepest: nat, height: nat): Invoice
  {
    match UpdatedInvoice(inv, ps, deepest, height)
    case None => inv
    case Some(next) => next
  }

  /** An update that is not skipped changes the invoice. */
  lemma UpdatedIsDifferent(inv: Invoice, ps: seq<Payment>, deepest: nat, height: nat)
    ensures Refreshed(inv, ps, deepest, height) != inv <==> UpdatedInvoice(inv, ps, deepest, height).Some?
  {
    SameTransfersIff(Rescanned(inv, ps, deepest, height).transfers, inv.transfers);
  }

  /** Totals agree with a full recount. */
  predicate Totalled(inv: Invoice)
  {
    Tallied(inv.amountPaid, inv.paidHeight) == Tally(inv.transfers, inv.amountRequested)
  }

  /** Skipping the recount is sound: whichever way the update goes, the stored totals are those a full recount of
      the new transfers gives, and the stored transfers are those transfers up to order. */
  lemma RefreshedIsTotalled(inv: Invoice, ps: seq<Payment>, deepest: nat, height: nat)
    requires Totalled(inv)
    requires Sorted(inv.transfers) && Sorted(Rescanned(inv, ps, deepest, height).transfers)
    ensures var next := Rescanned(inv, ps, deepest, height);
            var stored := Refreshed(inv, ps, deepest, height);
            && Totalled(stored) && Sorted(stored.transfers)
            && SameInvoice(stored, Recounted(next))
            && stored.currentHeight == height + 1
  {
    var next := Rescanned(inv, ps, deepest, height);
    SameTransfersIff(next.transfers, next.transfers);
    if SameInvoice(next, inv) {
      SameTransfersIff(next.transfers, inv.transfers);
      SameTransfersIff(inv.transfers, next.transfers);
      TallyIgnoresOrder(inv.transfers, next.transfers, inv.amountRequested);
    }
  }

  // ---------------------------------------------------------------------------
  // Facts about retained and added transfers
  // ---------------------------------------------------------------------------

  lemma {:induction false} RetainedAt(ts: seq<Transfer>, deepest: nat, h: Option<nat>)
    ensures Select(Retained(ts, deepest), At(h)) ==
            if h.Some? && h.value < deepest then Select(ts, At(h)) else []
  {
    if |ts| > 0 {
      var last := ts[|ts| - 1];
      RetainedAt(ts[..|ts| - 1], deepest, h);
      SelectConcat(Retained(ts[..|ts| - 1], deepest),
                   if CompareByHeight(last, Transfer(0, Some(deepest))) == Less then [last] else [], At(h));
      SelectOne(last, At(h));
    }
  }

  lemma {:induction false} RetainedFacts(ts: seq<Transfer>, deepest: nat)
    requires Sorted(ts)
    ensures Sorted(Retained(ts, deepest))
    ensures forall i :: 0 <= i < |Retained(ts, deepest)| ==>
              var t := Retained(ts, deepest)[i]; t in ts && t.height.Some? && t.height.value < deepest
  {
    if |ts| > 0 {
      var init, last := ts[..|ts| - 1], ts[|ts| - 1];
      RetainedFacts(init, deepest);
      var r := Retained(init, deepest);
      forall i | 0 <= i < |r|
        ensures CompareByHeight(r[i], last) != Greater
      {
        assert r[i] in init;
        var k :| 0 <= k < |init| && init[k] == r[i];
        assert CompareByHeight(ts[k], ts[|ts| - 1]) != Greater;
      }
    }
  }

  lemma {:induction false} AddedConcat(a: seq<Payment>, b: seq<Payment>, s: SubIndex, creationHeight: u64)
    ensures Added(a + b, s, creationHeight) == Added(a, s, creationHeight) + Added(b, s, creationHeight)
  {
    if |b| == 0 {
      assert a + b == a;
    } else {
      assert (a + b)[..|a + b| - 1] == a + b[..|b| - 1];
      AddedConcat(a, b[..|b| - 1], s, creationHeight);
    }
  }

  lemma {:induction false} AddedPermutation(a: seq<Payment>, b: seq<Payment>, s: SubIndex, creationHeight: u64)
    requires multiset(a) == multiset(b)
    ensures multiset(Added(a, s, creationHeight)) == multiset(Added(b, s, creationHeight))
    decreases |a|
  {
    if |a| == 0 {
      assert |multiset(b)| == 0;
      assert b == [];
    } else {
      var k := FindLast(a, b);
      AddedPermutation(a[..|a| - 1], RemoveAt(b, k), s, creationHeight);
      assert b == b[..k] + [b[k]] + b[k + 1..];
      AddedConcat(b[..k], b[k + 1..], s, creationHeight);
      AddedConcat(b[..k], [b[k]], s, creationHeight);
      AddedConcat(b[..k] + [b[k]], b[k + 1..], s, creationHeight);
    }
  }

  /** The amounts the payments add to an invoice at one height (no height: in the pool). */
  function Gained(ps: seq<Payment>, s: SubIndex, creationHeight: u64, h: Option<nat>): seq<nat>
  {
    Select(Added(ps, s, creationHeight), At(h))
  }

  lemma GainedConcat(a: seq<Payment>, b: seq<Payment>, s: SubIndex, creationHeight: u64, h: Option<nat>)
    ensures Gained(a + b, s, creationHeight, h) == Gained(a, s, creationHeight, h) + Gained(b, s, creationHeight, h)
  {
    AddedConcat(a, b, s, creationHeight);
    SelectConcat(Added(a, s, creationHeight), Added(b, s, creationHeight), At(h));
  }

  lemma GainedBoth(a: seq<Payment>, b: seq<Payment>, s: SubIndex, creationHeight: u64, h: Option<nat>,
                   x: seq<nat>, y: seq<nat>)
    requires multiset(Gained(a, s, creationHeight, h)) == multiset(x)
    requires multiset(Gained(b, s, creationHeight, h)) == multiset(y)
    ensures multiset(Gained(a + b, s, creationHeight, h)) == multiset(x + y)
  {
    GainedConcat(a, b, s, creationHeight, h);
  }

  lemma GainedOne(p: Payment, s: SubIndex, creationHeight: u64, h: Option<nat>)
    ensures Gained([p], s, creationHeight, h) ==
            if Belongs(p, s, creationHeight) && p.transfer.height == h then [p.transfer.amount] else []
  {
    AddedOne(p, s, creationHeight);
    SelectOne(p.transfer, At(h));
  }

  lemma GainedPermutation(a: seq<Payment>, b: seq<Payment>, s: SubIndex, creationHeight: u64, h: Option<nat>)
    requires multiset(a) == multiset(b)
    ensures multiset(Gained(a, s, creationHeight, h)) == multiset(Gained(b, s, creationHeight, h))
  {
    AddedPermutation(a, b, s, creationHeight);
    SelectPermutation(Added(a, s, creationHeight), Added(b, s, creationHeight), At(h));
  }

  /** Every added transfer is the transfer of some payment to the subaddress. */
  lemma {:induction false} AddedFrom(ps: seq<Payment>, s: SubIndex, creationHeight: u64)
    ensures forall t :: t in Added(ps, s, creationHeight) ==> Payment(s, t) in ps
  {
    if |ps| > 0 { AddedFrom(ps[..|ps| - 1], s, creationHeight); }
  }

  lemma AddedOne(p: Payment, s: SubIndex, creationHeight: u64)
    ensures Added([p], s, creationHeight) == if Belongs(p, s, creationHeight) then [p.transfer] else []
  {
    assert [p][..|[p]| - 1] == [];
  }

  // ---------------------------------------------------------------------------
  // What the rescan of the blocks reports
  // ---------------------------------------------------------------------------

  function AsPayments(os: seq<TxOutput>, height: Option<nat>): seq<Payment>
  {
    seq(|os|, i requires 0 <= i < |os| => Payment(os[i].out.subIndex, Transfer(os[i].Amount(), height)))
  }

  /** What the scan of slot i finds, before the hash map it is kept in reorders it. */
  function SlotFindings(c: CacheState, i: nat, keys: KeyTable, contains: SubIndex -> bool): seq<Payment>
    requires i < |c.blocks| <= c.height + 1
  {
    AsPayments(Accepted(keys, contains, Outputs(c.blocks[i].txs)), Some(c.height - i))
  }

  /** reports[i] is what the scan of slot i hands back: its findings, in whatever order the hash map yields. */
  ghost predicate Faithful(reports: seq<seq<Payment>>, c: CacheState, depth: nat, keys: KeyTable,
                           contains: SubIndex -> bool)
    requires depth <= |c.blocks| <= c.height + 1
  {
    && depth <= |reports|
    && forall i :: 0 <= i < depth ==> FaithfulSlot(reports[i], c, i, keys, contains)
  }

  ghost predicate FaithfulSlot(report: seq<Payment>, c: CacheState, i: nat, keys: KeyTable, contains: SubIndex -> bool)
    requires i < |c.blocks| <= c.height + 1
  {
    multiset(report) == multiset(SlotFindings(c, i, keys, contains))
  }

  /** The reports of slots depth-1 down to i, oldest block first. */
  function BlocksReport(reports: seq<seq<Payment>>, depth: nat, i: nat): seq<Payment>
    requires depth <= |reports|
    decreases depth - i
  {
    if i >= depth then [] else BlocksReport(reports, depth, i + 1) + reports[i]
  }

  /** The amounts that outputs owning their key pay to a subaddress: the reference the ledger is held to. */
  function Credits(keys: KeyTable, os: seq<TxOutput>, s: SubIndex): seq<nat>
  {
    if |os| == 0 then []
    else
      var last := os[|os| - 1];
      Credits(keys, os[..|os| - 1], s) + (if Owns(keys, last) && last.out.subIndex == s then [last.Amount()] else [])
  }

  lemma {:induction false} CreditsAreStable(keys: KeyTable, later: KeyTable, os: seq<TxOutput>, s: SubIndex)
    requires Extends(keys, later) && Covers(keys, os)
    ensures Credits(later, os, s) == Credits(keys, os, s)
  {
    if |os| > 0 {
      assert os[|os| - 1].out.key in keys;
      assert Covers(keys, os[..|os| - 1]);
      CreditsAreStable(keys, later, os[..|os| - 1], s);
    }
  }

  lemma AsPaymentsSnoc(os: seq<TxOutput>, o: TxOutput, height: Option<nat>)
    ensures AsPayments(os + [o], height) ==
            AsPayments(os, height) + [Payment(o.out.subIndex, Transfer(o.Amount(), height))]
  {
  }

  lemma GainedFromOutput(before: seq<TxOutput>, o: TxOutput, height: nat, s: SubIndex, creationHeight: u64)
    requires 1 <= creationHeight <= height
    ensures Gained(AsPayments(before + [o], Some(height)), s, creationHeight, Some(height)) ==
            Gained(AsPayments(before, Some(height)), s, creationHeight, Some(height)) +
            (if o.out.subIndex == s then [o.Amount()] else [])
  {
    var p := Payment(o.out.subIndex, Transfer(o.Amount(), Some(height)));
    AsPaymentsSnoc(before, o, Some(height));
    GainedConcat(AsPayments(before, Some(height)), [p], s, creationHeight, Some(height));
    GainedOne(p, s, creationHeight, Some(height));
    assert Belongs(p, s, creationHeight) <==> o.out.subIndex == s;
  }

  lemma {:induction false} AcceptedCredits(keys: KeyTable, contains: SubIndex -> bool, os: seq<TxOutput>, height: nat,
                                           s: SubIndex, creationHeight: u64)
    requires contains(s) && 1 <= creationHeight <= height
    ensures Gained(AsPayments(Accepted(keys, contains, os), Some(height)), s, creationHeight, Some(height)) ==
            Credits(keys, os, s)
  {
    if |os| > 0 {
      var init, last := os[..|os| - 1], os[|os| - 1];
      AcceptedCredits(keys, contains, init, height, s, creationHeight);
      var before := Accepted(keys, contains, init);
      if Owns(keys, last) && contains(last.out.subIndex) {
        GainedFromOutput(before, last, height, s, creationHeight);
      } else {
        assert Accepted(keys, contains, os) == before;
      }
    }
  }

  /** Payments at one height add nothing at another, or to an invoice created later. */
  lemma GainedElsewhere(ps: seq<Payment>, height: Option<nat>, s: SubIndex, creationHeight: u64, h: Option<nat>)
    requires creationHeight >= 1
    requires forall p :: p in ps ==> p.transfer.height == height
    requires h != height || (height.Some? && height.value < creationHeight)
    ensures Gained(ps, s, creationHeight, h) == []
  {
    var ts := Added(ps, s, creationHeight);
    AddedFrom(ps, s, creationHeight);
    if h != height {
      forall i | 0 <= i < |ts|
        ensures !At(h)(ts[i])
      {
        assert Payment(s, ts[i]) in ps;
      }
      SelectNone(ts, At(h));
    } else {
      AddedNone(ps, s, creationHeight);
    }
  }

  lemma {:induction false} AddedNone(ps: seq<Payment>, s: SubIndex, creationHeight: u64)
    requires creationHeight >= 1
    requires forall p :: p in ps ==> p.transfer.height.Some? && p.transfer.height.value < creationHeight
    ensures Added(ps, s, creationHeight) == []
  {
    if |ps| > 0 {
      assert ps[|ps| - 1] in ps;
      AddedNone(ps[..|ps| - 1], s, creationHeight);
    }
  }

  /** What a block at `height` credits to an invoice at height h. */
  function CreditsAt(keys: KeyTable, txs: seq<Tx>, height: nat, s: SubIndex, creationHeight: u64,
                     h: Option<nat>): seq<nat>
  {
    if h == Some(height) && creationHeight <= height then Credits(keys, Outputs(txs), s) else []
  }

  lemma SlotCredits(report: seq<Payment>, c: CacheState, i: nat, keys: KeyTable, contains: SubIndex -> bool,
                    s: SubIndex, creationHeight: u64, h: Option<nat>)
    requires i < |c.blocks| <= c.height + 1
    requires contains(s) && creationHeight >= 1
    requires FaithfulSlot(report, c, i, keys, contains)
    ensures multiset(Gained(report, s, creationHeight, h)) ==
            multiset(CreditsAt(keys, c.blocks[i].txs, c.height - i, s, creationHeight, h))
  {
    GainedPermutation(report, SlotFindings(c, i, keys, contains), s, creationHeight, h);
    FindingsCredits(c, i, keys, contains, s, creationHeight, h);
  }

  lemma FindingsCredits(c: CacheState, i: nat, keys: KeyTable, contains: SubIndex -> bool,
                        s: SubIndex, creationHeight: u64, h: Option<nat>)
    requires i < |c.blocks| <= c.height + 1
    requires contains(s) && creationHeight >= 1
    ensures Gained(SlotFindings(c, i, keys, contains), s, creationHeight, h) ==
            CreditsAt(keys, c.blocks[i].txs, c.height - i, s, creationHeight, h)
  {
    if h == Some(c.height - i) && creationHeight <= c.height - i {
      AcceptedCredits(keys, contains, Outputs(c.blocks[i].txs), c.height - i, s, creationHeight);
    } else {
      GainedElsewhere(SlotFindings(c, i, keys, contains), Some(c.height - i), s, creationHeight, h);
    }
  }

  /** The height is one of slots depth-1..i of the cache, and not older than the invoice. */
  predicate InRescan(c: CacheState, depth: nat, i: nat, creationHeight: u64, h: Option<nat>)
  {
    h.Some? && c.height - depth < h.value <= c.height - i && creationHeight <= h.value
  }

  function RescanCredits(c: CacheState, depth: nat, i: nat, keys: KeyTable, s: SubIndex, creationHeight: u64,
                         h: Option<nat>): seq<nat>
    requires depth <= |c.blocks|
  {
    if InRescan(c, depth, i, creationHeight, h) then Credits(keys, Outputs(c.blocks[c.height - h.value].txs), s) else []
  }

  lemma RescanCreditsStep(c: CacheState, depth: nat, i: nat, keys: KeyTable, s: SubIndex, creationHeight: u64,
                          h: Option<nat>)
    requires i < depth <= |c.blocks| <= c.height + 1
    ensures RescanCredits(c, depth, i, keys, s, creationHeight, h) ==
            RescanCredits(c, depth, i + 1, keys, s, creationHeight, h) +
            CreditsAt(keys, c.blocks[i].txs, c.height - i, s, creationHeight, h)
  {
    if h == Some(c.height - i) {
      assert RescanCredits(c, depth, i + 1, keys, s, creationHeight, h) == [];
    }
  }

  /** Height by height, the rescan adds to an invoice exactly the credits of the cached block at that height. */
  lemma {:induction false} BlocksReportCredits(reports: seq<seq<Payment>>, c: CacheState, depth: nat, i: nat,
                                               keys: KeyTable, contains: SubIndex -> bool,
                                               s: SubIndex, creationHeight: u64, h: Option<nat>)
    requires depth <= |c.blocks| <= c.height + 1
    requires contains(s) && creationHeight >= 1 && Faithful(reports, c, depth, keys, contains)
    ensures multiset(Gained(BlocksReport(reports, depth, i), s, creationHeight, h)) ==
            multiset(RescanCredits(c, depth, i, keys, s, creationHeight, h))
    decreases depth - i
  {
    if i < depth {
      BlocksReportCredits(reports, c, depth, i + 1, keys, contains, s, creationHeight, h);
      SlotCredits(reports[i], c, i, keys, contains, s, creationHeight, h);
      RescanCreditsStep(c, depth, i, keys, s, creationHeight, h);
      GainedBoth(BlocksReport(reports, depth, i + 1), reports[i], s, creationHeight, h,
                 RescanCredits(c, depth, i + 1, keys, s, creationHeight, h),
                 CreditsAt(keys, c.blocks[i].txs, c.height - i, s, creationHeight, h));
    }
  }

  /** Oldest first. */
  ghost predicate InOrder(ps: seq<Payment>)
  {
    forall k, l :: 0 <= k < l < |ps| ==> CompareByHeight(ps[k].transfer, ps[l].transfer) != Greater
  }

  /** Every payment was mined above `low` and at or below `high`. */
  ghost predicate MinedWithin(ps: seq<Payment>, low: int, high: int)
  {
    forall p :: p in ps ==> p.transfer.height.Some? && low < p.transfer.height.value <= high
  }

  lemma InOrderConcat(a: seq<Payment>, b: seq<Payment>, low: int, middle: int, high: int)
    requires InOrder(a) && InOrder(b)
    requires MinedWithin(a, low, middle) && MinedWithin(b, middle, high) && low <= middle <= high
    ensures InOrder(a + b) && MinedWithin(a + b, low, high)
  {
    var all := a + b;
    forall k, l | 0 <= k < l < |all|
      ensures CompareByHeight(all[k].transfer, all[l].transfer) != Greater
    {
      if k < |a| <= l {
        assert all[k] == a[k] && a[k] in a;
        assert all[l] == b[l - |a|] && b[l - |a|] in b;
      }
    }
  }

  lemma SlotInOrder(report: seq<Payment>, c: CacheState, i: nat, keys: KeyTable, contains: SubIndex -> bool)
    requires i < |c.blocks| <= c.height + 1
    requires FaithfulSlot(report, c, i, keys, contains)
    ensures InOrder(report) && MinedWithin(report, c.height - i - 1, c.height - i)
  {
    forall p | p in report
      ensures p.transfer.height == Some(c.height - i)
    {
      assert p in multiset(report);
      assert p in SlotFindings(c, i, keys, contains);
    }
    forall k | 0 <= k < |report|
      ensures report[k].transfer.height == Some(c.height - i)
    {
      assert report[k] in report;
    }
  }

  /** A rescan reports its findings oldest first, all within the rescanned heights. */
  lemma {:induction false} BlocksReportInOrder(reports: seq<seq<Payment>>, c: CacheState, depth: nat, i: nat,
                                               keys: KeyTable, contains: SubIndex -> bool)
    requires depth <= |c.blocks| <= c.height + 1 && Faithful(reports, c, depth, keys, contains)
    ensures InOrder(BlocksReport(reports, depth, i))
    ensures MinedWithin(BlocksReport(reports, depth, i), c.height - depth, c.height - i)
    decreases depth - i
  {
    if i < depth {
      BlocksReportInOrder(reports, c, depth, i + 1, keys, contains);
      SlotInOrder(reports[i], c, i, keys, contains);
      InOrderConcat(BlocksReport(reports, depth, i + 1), reports[i],
                    c.height - depth, c.height - i - 1, c.height - i);
    }
  }

  /** Payments in height order stay in height order when only one invoice's are kept. */
  lemma {:induction false} AddedSorted(ps: seq<Payment>, s: SubIndex, creationHeight: u64)
    requires InOrder(ps)
    ensures Sorted(Added(ps, s, creationHeight))
  {
    if |ps| > 0 {
      var init := ps[..|ps| - 1];
      AddedSorted(init, s, creationHeight);
      AddedFrom(init, s, creationHeight);
      var before := Added(init, s, creationHeight);
      forall i | 0 <= i < |before|
        ensures CompareByHeight(before[i], ps[|ps| - 1].transfer) != Greater
      {
        assert Payment(s, before[i]) in init;
        var k :| 0 <= k < |init| && init[k] == Payment(s, before[i]);
        assert CompareByHeight(ps[k].transfer, ps[|ps| - 1].transfer) != Greater;
      }
    }
  }

  // ---------------------------------------------------------------------------
  // The pool's part
  // ---------------------------------------------------------------------------

  /** The entries of a map of pool findings, in some order of its keys. */
  function Flatten(m: map<Hash, seq<Payment>>, hashes: seq<Hash>): seq<Payment>
  {
    if |hashes| == 0 then []
    else
      Flatten(m, hashes[..|hashes| - 1]) +
      (if hashes[|hashes| - 1] in m then m[hashes[|hashes| - 1]] else [])
  }

  /** `hashes` lists the keys of m, each once. */
  ghost predicate Enumerates<V>(hashes: seq<Hash>, m: map<Hash, V>)
  {
    && (forall h :: h in hashes <==> h in m)
    && forall i, j :: 0 <= i < j < |hashes| ==> hashes[i] != hashes[j]
  }

  lemma {:induction false} FlattenConcat(m: map<Hash, seq<Payment>>, a: seq<Hash>, b: seq<Hash>)
    ensures Flatten(m, a + b) == Flatten(m, a) + Flatten(m, b)
  {
    if |b| == 0 {
      assert a + b == a;
    } else {
      assert (a + b)[..|a + b| - 1] == a + b[..|b| - 1];
      FlattenConcat(m, a, b[..|b| - 1]);
    }
  }

  lemma {:induction false} FlattenPermutation(m: map<Hash, seq<Payment>>, a: seq<Hash>, b: seq<Hash>)
    requires multiset(a) == multiset(b)
    ensures multiset(Flatten(m, a)) == multiset(Flatten(m, b))
    decreases |a|
  {
    if |a| == 0 {
      assert |multiset(b)| == 0;
      assert b == [];
    } else {
      var k := FindLast(a, b);
      FlattenPermutation(m, a[..|a| - 1], RemoveAt(b, k));
      assert b == b[..k] + [b[k]] + b[k + 1..] && a == a[..|a| - 1] + [b[k]];
      FlattenConcat(m, a[..|a| - 1], [b[k]]);
      FlattenConcat(m, b[..k], b[k + 1..]);
      FlattenConcat(m, b[..k], [b[k]]);
      FlattenConcat(m, b[..k] + [b[k]], b[k + 1..]);
    }
  }

  lemma {:induction false} EnumerationsAgree<V>(a: seq<Hash>, b: seq<Hash>, m: map<Hash, V>)
    requires Enumerates(a, m) && Enumerates(b, m)
    ensures multiset(a) == multiset(b)
  {
    forall h: Hash
      ensures multiset(a)[h] == multiset(b)[h]
    {
      OnceOrNever(a, h);
      OnceOrNever(b, h);
    }
  }

  lemma {:induction false} OnceOrNever(a: seq<Hash>, h: Hash)
    requires forall i, j :: 0 <= i < j < |a| ==> a[i] != a[j]
    ensures multiset(a)[h] == if h in a then 1 else 0
  {
    if |a| > 0 {
      var init := a[..|a| - 1];
      OnceOrNever(init, h);
      assert a == init + [a[|a| - 1]];
    }
  }

  ghost predicate AllInPool(ps: seq<Payment>)
  {
    forall i :: 0 <= i < |ps| ==> ps[i].transfer.height.None?
  }

  lemma {:induction false} FlattenInPool(m: map<Hash, seq<Payment>>, hashes: seq<Hash>)
    requires forall h :: h in m ==> AllInPool(m[h])
    ensures AllInPool(Flatten(m, hashes))
  {
    if |hashes| > 0 { FlattenInPool(m, hashes[..|hashes| - 1]); }
  }

  lemma {:induction false} GroupInPool(found: seq<TxOutput>)
    ensures forall h :: h in Group(found) ==> AllInPool(Group(found)[h])
  {
    if |found| > 0 { GroupInPool(found[..|found| - 1]); }
  }

  lemma {:induction false} GroupKeys(found: seq<TxOutput>)
    ensures forall h :: h in Group(found) <==> exists i :: 0 <= i < |found| && found[i].txHash == h
  {
    if |found| > 0 {
      var init := found[..|found| - 1];
      GroupKeys(init);
      forall h
        ensures h in Group(found) <==> exists i :: 0 <= i < |found| && found[i].txHash == h
      {
        if h in Group(init) {
          var i :| 0 <= i < |init| && init[i].txHash == h;
          assert found[i].txHash == h;
        }
        if i :| 0 <= i < |found| && found[i].txHash == h {
          assert i < |init| ==> init[i].txHash == h;
        }
        assert found[|found| - 1].txHash in Group(found);
      }
    }
  }

  // ---------------------------------------------------------------------------
  // The rescanned invoice as a whole
  // ---------------------------------------------------------------------------

  /** What a scan hands to the invoice update: the blocks' reports, then the pool's. */
  function AllPayments(reports: seq<seq<Payment>>, depth: nat, pool: seq<Payment>): seq<Payment>
    requires depth <= |reports|
  {
    BlocksReport(reports, depth, 0) + pool
  }

  /** Height by height: what was there strictly below the deepest change, plus what the rescan credits. */
  lemma RescannedAt(inv: Invoice, reports: seq<seq<Payment>>, pool: seq<Payment>, c: CacheState, depth: nat,
                    deepest: nat, keys: KeyTable, contains: SubIndex -> bool, h: nat)
    requires depth <= |c.blocks| <= c.height + 1
    requires contains(inv.index) && inv.creationHeight >= 1
    requires Faithful(reports, c, depth, keys, contains) && AllInPool(pool)
    ensures var next := Rescanned(inv, AllPayments(reports, depth, pool), deepest, c.height);
            multiset(Select(next.transfers, At(Some(h)))) ==
            multiset((if h < deepest then Select(inv.transfers, At(Some(h))) else []) +
                     RescanCredits(c, depth, 0, keys, inv.index, inv.creationHeight, Some(h)))
  {
    var s, created := inv.index, inv.creationHeight;
    var blocks := BlocksReport(reports, depth, 0);
    SelectConcat(Retained(inv.transfers, deepest), Added(blocks + pool, s, created), At(Some(h)));
    RetainedAt(inv.transfers, deepest, Some(h));
    BlocksReportCredits(reports, c, depth, 0, keys, contains, s, created, Some(h));
    GainedElsewhere(pool, None, s, created, Some(h));
    GainedConcat(blocks, pool, s, created, Some(h));
    assert Gained(blocks, s, created, Some(h)) + [] == Gained(blocks, s, created, Some(h));
  }

  /** In the pool: exactly the pool report's payments to this invoice. */
  lemma RescannedInPool(inv: Invoice, reports: seq<seq<Payment>>, pool: seq<Payment>, c: CacheState, depth: nat,
                        deepest: nat, keys: KeyTable, contains: SubIndex -> bool)
    requires depth <= |c.blocks| <= c.height + 1 && inv.creationHeight >= 1
    requires contains(inv.index)
    requires Faithful(reports, c, depth, keys, contains)
    ensures var next := Rescanned(inv, AllPayments(reports, depth, pool), deepest, c.height);
            multiset(Select(next.transfers, At(None))) ==
            multiset(Gained(pool, inv.index, inv.creationHeight, None))
  {
    var s, created := inv.index, inv.creationHeight;
    var blocks := BlocksReport(reports, depth, 0);
    SelectConcat(Retained(inv.transfers, deepest), Added(blocks + pool, s, created), At(None));
    RetainedAt(inv.transfers, deepest, None);
    BlocksReportCredits(reports, c, depth, 0, keys, contains, s, created, None);
    assert RescanCredits(c, depth, 0, keys, s, created, None) == [];
    GainedConcat(blocks, pool, s, created, None);
    assert |Gained(blocks, s, created, None)| == |multiset(Gained(blocks, s, created, None))| == 0;
  }

  lemma SortedConcat(a: seq<Transfer>, b: seq<Transfer>)
    requires Sorted(a) && Sorted(b)
    requires forall t, u :: t in a && u in b ==> CompareByHeight(t, u) != Greater
    ensures Sorted(a + b)
  {
    var ab := a + b;
    forall i, j | 0 <= i < j < |ab|
      ensures CompareByHeight(ab[i], ab[j]) != Greater
    {
      if i < |a| <= j {
        assert a[i] in a && b[j - |a|] in b;
      }
    }
  }

  lemma PoolInOrder(blocks: seq<Payment>, pool: seq<Payment>)
    requires InOrder(blocks) && AllInPool(pool)
    ensures InOrder(blocks + pool)
  {
  }

  /** Transfers stay height-sorted, provided none was kept inside the rescanned range. */
  lemma RescannedSorted(inv: Invoice, reports: seq<seq<Payment>>, pool: seq<Payment>, c: CacheState, depth: nat,
                        deepest: nat, keys: KeyTable, contains: SubIndex -> bool)
    requires depth <= |c.blocks| <= c.height + 1 && inv.creationHeight >= 1
    requires Faithful(reports, c, depth, keys, contains) && AllInPool(pool)
    requires Sorted(inv.transfers)
    requires forall t :: t in inv.transfers && t.height.Some? ==>
               t.height.value <= c.height - depth || deepest <= t.height.value
    ensures Sorted(Rescanned(inv, AllPayments(reports, depth, pool), deepest, c.height).transfers)
  {
    var kept := Retained(inv.transfers, deepest);
    var blocks := BlocksReport(reports, depth, 0);
    var added := Added(blocks + pool, inv.index, inv.creationHeight);
    RetainedFacts(inv.transfers, deepest);
    BlocksReportInOrder(reports, c, depth, 0, keys, contains);
    PoolInOrder(blocks, pool);
    AddedSorted(blocks + pool, inv.index, inv.creationHeight);
    AddedFrom(blocks + pool, inv.index, inv.creationHeight);
    forall t, u | t in kept && u in added
      ensures CompareByHeight(t, u) != Greater
    {
      var i :| 0 <= i < |kept| && kept[i] == t;
      assert Payment(inv.index, u) in blocks + pool;
      assert Payment(inv.index, u) in blocks || Payment(inv.index, u) in pool;
    }
    SortedConcat(kept, added);
  }
}
