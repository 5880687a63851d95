/** The ledger output by output: what an invoice holds, counted over the positions of outputs in transactions, without
    reference to how a scan lists them (library/src/scanner.rs:370-427). */
module Itemised {
  import opened Prelude
  import opened Invoices
  import opened Transfers
  import opened Chain
  import opened OutputKeys
  import opened Scanning
  import opened Ledger
  import opened Runs

  // ---------------------------------------------------------------------------
  // Counting outputs by transaction and position
  // ---------------------------------------------------------------------------

  function Count(os: seq<TxOutput>, p: TxOutput -> bool): nat
  {
    if |os| == 0 then 0 else Count(os[..|os| - 1], p) + (if p(os[|os| - 1]) then 1 else 0)
  }

  lemma {:induction false} CountConcat(a: seq<TxOutput>, b: seq<TxOutput>, p: TxOutput -> bool)
    ensures Count(a + b, p) == Count(a, p) + Count(b, p)
  {
    if |b| == 0 {
      assert a + b == a;
    } else {
      assert (a + b)[..|a + b| - 1] == a + b[..|b| - 1];
      CountConcat(a, b[..|b| - 1], p);
    }
  }

  /** Output j of transaction i, of those that are not time-locked, has the property. */
  ghost predicate HasAt(txs: seq<Tx>, i: nat, j: nat, p: TxOutput -> bool)
  {
    i < |txs| && j < |txs[i].owned| && txs[i].unlockTime == 0 && p(TxOutput(txs[i].hash, txs[i].owned[j]))
  }

  /** The positions (transaction, output) with the property. */
  ghost function Positions(txs: seq<Tx>, p: TxOutput -> bool): set<(nat, nat)>
  {
    set i: nat, j: nat | i < |txs| && j < |txs[i].owned| && HasAt(txs, i, j, p) :: (i, j)
  }

  /** Those in one transaction, among its first m outputs. */
  ghost function InOne(txs: seq<Tx>, i: nat, m: nat, p: TxOutput -> bool): set<(nat, nat)>
  {
    set j: nat | j < m && HasAt(txs, i, j, p) :: (i, j)
  }

  lemma {:induction false} LastCounts(txs: seq<Tx>, m: nat, p: TxOutput -> bool)
    requires |txs| > 0 && m <= |txs[|txs| - 1].owned| && txs[|txs| - 1].unlockTime == 0
    ensures |InOne(txs, |txs| - 1, m, p)| == Count(InTx(txs[|txs| - 1].hash, txs[|txs| - 1].owned)[..m], p)
  {
    var last := |txs| - 1;
    var os := InTx(txs[last].hash, txs[last].owned);
    if m > 0 {
      LastCounts(txs, m - 1, p);
      assert os[..m][..m - 1] == os[..m - 1] && os[..m][m - 1] == TxOutput(txs[last].hash, txs[last].owned[m - 1]);
      if HasAt(txs, last, m - 1, p) {
        assert InOne(txs, last, m, p) == InOne(txs, last, m - 1, p) + {(last, m - 1)};
      } else {
        assert InOne(txs, last, m, p) == InOne(txs, last, m - 1, p);
      }
    } else {
      assert InOne(txs, last, m, p) == {};
    }
  }

  lemma PositionsSplit(txs: seq<Tx>, p: TxOutput -> bool)
    requires |txs| > 0
    ensures var last := |txs| - 1;
            |Positions(txs, p)| == |Positions(txs[..last], p)| + |InOne(txs, last, |txs[last].owned|, p)|
  {
    var last := |txs| - 1;
    var before, here := Positions(txs[..last], p), InOne(txs, last, |txs[last].owned|, p);
    forall i: nat, j: nat
      ensures HasAt(txs, i, j, p) <==> HasAt(txs[..last], i, j, p) || (i == last && HasAt(txs, last, j, p))
    {
      if i < last { assert txs[..last][i] == txs[i]; }
    }
    assert Positions(txs, p) == before + here by {
      forall x | x in Positions(txs, p)
        ensures x in before + here
      {
        if x.0 < last {
          assert HasAt(txs[..last], x.0, x.1, p) && txs[..last][x.0] == txs[x.0];
        } else {
          assert HasAt(txs, last, x.1, p);
        }
      }
      forall x | x in before + here
        ensures x in Positions(txs, p)
      {
        if x in before { assert txs[..last][x.0] == txs[x.0] && HasAt(txs, x.0, x.1, p); }
      }
    }
    assert before !! here;
  }

  /** A scan lists every owned output of every transaction that is not time-locked, each as often as it stands there,
      and
      nothing else. */
  lemma {:induction false} OutputsAreAll(txs: seq<Tx>, p: TxOutput -> bool)
    ensures Count(Outputs(txs), p) == |Positions(txs, p)|
  {
    if |txs| == 0 {
      assert Positions(txs, p) == {};
    } else {
      var last := txs[|txs| - 1];
      OutputsAreAll(txs[..|txs| - 1], p);
      PositionsSplit(txs, p);
      var os := InTx(last.hash, last.owned);
      if last.unlockTime == 0 {
        LastCounts(txs, |last.owned|, p);
        assert os[..|last.owned|] == os;
        CountConcat(Outputs(txs[..|txs| - 1]), os, p);
      } else {
        assert InOne(txs, |txs| - 1, |last.owned|, p) == {};
        assert Outputs(txs[..|txs| - 1]) + [] == Outputs(txs[..|txs| - 1]);
      }
    }
  }

  lemma {:induction false} CountIsMultiplicity(os: seq<TxOutput>, o: TxOutput)
    ensures multiset(os)[o] == Count(os, x => x == o)
  {
    if |os| > 0 {
      CountIsMultiplicity(os[..|os| - 1], o);
      assert os == os[..|os| - 1] + [os[|os| - 1]];
    }
  }

  /** The multiplicity of an output in the list is the number of positions at which it stands. */
  lemma OutputsExactly(txs: seq<Tx>, o: TxOutput)
    ensures multiset(Outputs(txs))[o] == |Positions(txs, x => x == o)|
  {
    CountIsMultiplicity(Outputs(txs), o);
    OutputsAreAll(txs, x => x == o);
  }

  /** In particular output j of transaction i is in the list. */
  lemma OutputIsListed(txs: seq<Tx>, i: nat, j: nat)
    requires i < |txs| && txs[i].unlockTime == 0 && j < |txs[i].owned|
    ensures TxOutput(txs[i].hash, txs[i].owned[j]) in Outputs(txs)
  {
    var o := TxOutput(txs[i].hash, txs[i].owned[j]);
    OutputsExactly(txs, o);
    assert HasAt(txs, i, j, x => x == o);
    assert (i, j) in Positions(txs, x => x == o);
    assert o in multiset(Outputs(txs));
  }

  // ---------------------------------------------------------------------------
  // What a block pays a subaddress
  // ---------------------------------------------------------------------------

  /** Output j of the transaction pays amount a to subaddress s, and is the output its key belongs to. */
  ghost predicate Pays(keys: KeyTable, tx: Tx, j: nat, s: SubIndex, a: nat)
  {
    && j < |tx.owned| && tx.unlockTime == 0
    && var o := tx.owned[j];
    && o.subIndex == s && o.key in keys && keys[o.key] == OutputId(tx.hash, o.index)
    && a == match o.amount case Some(v) => v case None => 0
  }

  ghost function PayingOutputs(keys: KeyTable, txs: seq<Tx>, s: SubIndex, a: nat): set<(nat, nat)>
  {
    set i: nat, j: nat | i < |txs| && j < |txs[i].owned| && Pays(keys, txs[i], j, s, a) :: (i, j)
  }

  function CreditOf(keys: KeyTable, s: SubIndex, a: nat): TxOutput -> bool
  {
    o => Owns(keys, o) && o.out.subIndex == s && o.Amount() == a
  }

  lemma {:induction false} CreditsCount(keys: KeyTable, os: seq<TxOutput>, s: SubIndex, a: nat)
    ensures multiset(Credits(keys, os, s))[a] == Count(os, CreditOf(keys, s, a))
  {
    if |os| > 0 { CreditsCount(keys, os[..|os| - 1], s, a); }
  }

  /** What a block credits a subaddress is what the outputs at their positions pay it. */
  lemma CreditsByPosition(keys: KeyTable, txs: seq<Tx>, s: SubIndex, a: nat)
    ensures multiset(Credits(keys, Outputs(txs), s))[a] == |PayingOutputs(keys, txs, s, a)|
  {
    var p := CreditOf(keys, s, a);
    CreditsCount(keys, Outputs(txs), s, a);
    OutputsAreAll(txs, p);
    forall i: nat, j: nat | i < |txs| && j < |txs[i].owned|
      ensures HasAt(txs, i, j, p) <==> Pays(keys, txs[i], j, s, a)
    {
    }
    assert Positions(txs, p) == PayingOutputs(keys, txs, s, a);
  }

  /** Every key that outputs of these transactions show belongs to some output. */
  ghost predicate AllKeysKnown(keys: KeyTable, txs: seq<Tx>)
  {
    forall k, j :: 0 <= k < |txs| && txs[k].unlockTime == 0 && 0 <= j < |txs[k].owned| ==> txs[k].owned[j].key in keys
  }

  /** The ledger, output by output. Take any run whose counts can be trusted, an invoice stored at event i with a
      creation
      height above the cache, tracked ever since, and any later moment after the first scan. For every height and every
      amount, the invoice holds that transfer exactly as often as outputs of that amount to its subaddress, each the one
      its key belongs to, stand in the transactions of the block last seen at that height, if the height is between its
      creation height and the cache height; and not at all otherwise. Every key in those blocks belongs to an output. */
  lemma LedgerByOutput(states: seq<Gateway>, events: seq<Event>, i: nat, n: nat, h: nat, a: nat)
    requires Run(states, events) && i < n < |states|
    requires events[i].Committed? && events[i].invoice.creationHeight > states[i].cache.height
    requires Tracked(states, events[i].invoice.Id(), i + 1, n)
    requires !states[n].firstScan
    ensures var g, id := states[n], events[i].invoice.Id();
            var due := id.creationHeight <= h <= g.cache.height;
            && (due ==> h in g.seen)
            && multiset(g.invoices[id].transfers)[Transfer(a, Some(h))] ==
               (if due then |PayingOutputs(g.keys, g.seen[h], id.subIndex, a)| else 0)
            && (due ==> AllKeysKnown(g.keys, g.seen[h]))
  {
    var g, id := states[n], events[i].invoice.Id();
    LedgerRefinement(states, events, i, n, h);
    CountByHeight(g.invoices[id].transfers, Transfer(a, Some(h)));
    if id.creationHeight <= h <= g.cache.height {
      CreditsByPosition(g.keys, g.seen[h], id.subIndex, a);
      KeysCovered(g.keys, g.seen[h]);
    }
  }

  lemma KeysCovered(keys: KeyTable, txs: seq<Tx>)
    requires Covers(keys, Outputs(txs))
    ensures AllKeysKnown(keys, txs)
  {
    forall k, j | 0 <= k < |txs| && 0 <= j < |txs[k].owned| && txs[k].unlockTime == 0
      ensures txs[k].owned[j].key in keys
    {
      OutputIsListed(txs, k, j);
      var m :| 0 <= m < |Outputs(txs)| && Outputs(txs)[m] == TxOutput(txs[k].hash, txs[k].owned[j]);
    }
  }
}
