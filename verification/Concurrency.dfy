/** The block scan and the pool scan as they run, side by side: any interleaving of their store operations that finishes
    without error is an error-free scan of the ledger machine (library/src/scanner.rs:110-113). */
module Concurrency {
  import opened Prelude
  import opened Invoices
  import opened Chain
  import opened BlockCaching
  import opened OutputKeys
  import opened Txpool
  import opened Storage
  import opened Scanning
  import opened Ledger

  /** The outputs of a list that were judged unique and pass the filter: what a scan hands back. */
  function JudgedUnique(vs: seq<Verdict>, contains: SubIndex -> bool, os: seq<TxOutput>): seq<TxOutput>
  {
    if |os| == 0 then []
    else
      var last := os[|os| - 1];
      JudgedUnique(vs, contains, os[..|os| - 1]) +
      (if Verdict(last, true) in vs && contains(last.out.subIndex) then [last] else [])
  }

  /** Once all of them are judged, those are the ones that own their key in the final table. */
  lemma {:induction false} JudgedIsAccepted(vs: seq<Verdict>, keys: KeyTable, contains: SubIndex -> bool,
                                            os: seq<TxOutput>)
    requires forall i :: 0 <= i < |vs| ==> VerdictHolds(keys, vs[i])
    requires forall o :: o in os ==> o in Judged(vs)
    ensures JudgedUnique(vs, contains, os) == Accepted(keys, contains, os)
  {
    if |os| > 0 {
      var init, last := os[..|os| - 1], os[|os| - 1];
      assert forall o :: o in init ==> o in os;
      JudgedIsAccepted(vs, keys, contains, init);
      assert last in os;
      var i :| 0 <= i < |vs| && Judged(vs)[i] == last;
      assert VerdictHolds(keys, vs[i]) && vs[i] == Verdict(last, Owns(keys, last));
    }
  }

  /** The reports of the two scans: for each slot, and for the pool, the outputs judged unique that pass the filter, in
      whatever order hash maps yield. */
  ghost predicate ReportsVerdicts(e: ScanEnv, vs: seq<Verdict>, c: CacheState, depth: nat, p: PoolState)
    requires depth <= |c.blocks| <= c.height + 1
  {
    && depth <= |e.reports|
    && (forall i :: 0 <= i < depth ==> SlotVerdicts(e, vs, c, i))
    && Enumerates(e.poolOrder, PoolReport(p, PoolScan(e.hashes, e.delivered,
                                                      Group(JudgedUnique(vs, e.contains, Outputs(e.delivered))))))
  }

  ghost predicate SlotVerdicts(e: ScanEnv, vs: seq<Verdict>, c: CacheState, i: nat)
    requires i < |c.blocks| <= c.height + 1 && i < |e.reports|
  {
    multiset(e.reports[i]) ==
    multiset(AsPayments(JudgedUnique(vs, e.contains, Outputs(c.blocks[i].txs)), Some(c.height - i)))
  }

  /** The two scans were started, in either order, and have finished without error. */
  ghost predicate BothFinished(s: Shared, c: CacheState, depth: nat, delivered: seq<Tx>)
    requires depth <= |c.blocks|
  {
    && (s.started == BlocksOutputs(c, depth, 0) + Outputs(delivered) ||
        s.started == Outputs(delivered) + BlocksOutputs(c, depth, 0))
    && Finished(s)
  }

  lemma AllJudged(states: seq<Shared>, actions: seq<Action>, c: CacheState, depth: nat, delivered: seq<Tx>)
    requires Interleaving(states, actions) && depth <= |c.blocks|
    requires BothFinished(states[|actions|], c, depth, delivered)
    ensures var s := states[|actions|];
            && multiset(Judged(s.verdicts)) == multiset(ScannedOutputs(c, depth, delivered))
            && s.keys == RegisterAll(states[0].keys, Judged(s.verdicts))
            && (forall i :: 0 <= i < |s.verdicts| ==> VerdictHolds(s.keys, s.verdicts[i]))
            && Scannable(Judged(s.verdicts), s.keys, states[0].contains)
  {
    var s := states[|actions|];
    var order := InterleavingIsSequential(states, actions);
    assert order == Judged(s.verdicts);
    forall i | 0 <= i < |s.verdicts|
      ensures VerdictHolds(s.keys, s.verdicts[i])
    {
      InterleavingIsConsistent(states, actions, |actions|);
    }
    FinishedIsScannable(states, actions);
    assert multiset(s.started) == multiset(ScannedOutputs(c, depth, delivered));
  }

  lemma InJudged(judged: seq<TxOutput>, all: seq<TxOutput>, os: seq<TxOutput>)
    requires multiset(judged) == multiset(all) && forall o :: o in os ==> o in all
    ensures forall o :: o in os ==> o in judged
  {
    forall o | o in os
      ensures o in judged
    {
      assert o in multiset(all);
    }
  }

  /** What the scans hand back is what the final table accepts. */
  lemma VerdictsAreFaithful(e: ScanEnv, vs: seq<Verdict>, keys: KeyTable, c: CacheState, depth: nat, p: PoolState)
    requires depth <= |c.blocks| <= c.height + 1 && ReportsVerdicts(e, vs, c, depth, p)
    requires forall i :: 0 <= i < |vs| ==> VerdictHolds(keys, vs[i])
    requires multiset(Judged(vs)) == multiset(ScannedOutputs(c, depth, e.delivered))
    ensures Faithful(e.reports, c, depth, keys, e.contains)
    ensures Enumerates(e.poolOrder, PoolReport(p, PoolScanOf(keys, e)))
  {
    var all := ScannedOutputs(c, depth, e.delivered);
    forall i | 0 <= i < depth
      ensures FaithfulSlot(e.reports[i], c, i, keys, e.contains)
    {
      InBlocksOutputs(c, depth, 0, i);
      assert forall o :: o in BlocksOutputs(c, depth, 0) ==> o in all;
      InJudged(Judged(vs), all, Outputs(c.blocks[i].txs));
      JudgedIsAccepted(vs, keys, e.contains, Outputs(c.blocks[i].txs));
      assert SlotVerdicts(e, vs, c, i);
    }
    assert forall o :: o in Outputs(e.delivered) ==> o in all;
    InJudged(Judged(vs), all, Outputs(e.delivered));
    JudgedIsAccepted(vs, keys, e.contains, Outputs(e.delivered));
  }

  /** The bridge from the interleaved scans to the ledger: start both on a state whose cache update succeeded, let their
      store operations interleave in any way; if both finish without error, the whole is an error-free scan, and the
      key table it leaves is the ledger machine's. */
  lemma InterleavedScanIsErrorFree(g: Gateway, e: ScanEnv, states: seq<Shared>, actions: seq<Action>)
    requires ValidCache(g.cache) && UpdateCache(g.cache, Some(e.reported), e.daemon).count.Some?
    requires Interleaving(states, actions) && states[0].keys == g.keys && states[0].contains == e.contains
    requires var u := UpdateCache(g.cache, Some(e.reported), e.daemon);
             && Depth(g.firstScan, u) <= |u.cache.blocks| <= u.cache.height + 1
             && BothFinished(states[|actions|], u.cache, Depth(g.firstScan, u), e.delivered)
             && ReportsVerdicts(e, states[|actions|].verdicts, u.cache, Depth(g.firstScan, u), g.pool)
    requires e.schedule == Judged(states[|actions|].verdicts) && CoversLive(e.contains, g.invoices)
    ensures ErrorFree(g, e)
    ensures Scan(g, e).keys == states[|actions|].keys
  {
    var u, s := UpdateCache(g.cache, Some(e.reported), e.daemon), states[|actions|];
    var depth := Depth(g.firstScan, u);
    UpdateKeepsShape(g.cache, Some(e.reported), e.daemon);
    UpdateCountFits(g.cache, Some(e.reported), e.daemon);
    AllJudged(states, actions, u.cache, depth, e.delivered);
    VerdictsAreFaithful(e, s.verdicts, s.keys, u.cache, depth, g.pool);
    ErrorFreeWhen(g, e, FindingsOf(g, e));
  }
}
