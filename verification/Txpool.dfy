/** The txpool cache: which pool transactions are known, and what each was found to pay when it was scanned
    (library/src/caching/txpool_cache.rs, library/src/scanner.rs:321-368). */
module Txpool {
  import opened Prelude
  import opened Invoices
  import opened Chain

  datatype Payment = Payment(subIndex: SubIndex, transfer: Transfer)

  datatype PoolState = PoolState(known: map<Hash, Tx>, discovered: map<Hash, seq<Payment>>)

  function Restrict<V>(m: map<Hash, V>, keep: set<Hash>): map<Hash, V>
  {
    map k | k in m && k in keep :: m[k]
  }

  function HashesOf(txs: seq<Tx>): set<Hash>
  {
    set i | 0 <= i < |txs| :: txs[i].hash
  }

  function ByHash(txs: seq<Tx>): (m: map<Hash, Tx>)
    ensures m.Keys == HashesOf(txs)
  {
    if |txs| == 0 then map[]
    else
      var m := ByHash(txs[..|txs| - 1])[txs[|txs| - 1].hash := txs[|txs| - 1]];
      assert HashesOf(txs) == HashesOf(txs[..|txs| - 1]) + {txs[|txs| - 1].hash};
      m
  }

  /** The hashes an update asks the daemon for. */
  function Requested(p: PoolState, hashes: set<Hash>): set<Hash> { hashes - p.known.Keys }

  /** Forget what left the pool, then remember what was delivered. */
  function UpdatePool(p: PoolState, hashes: set<Hash>, delivered: seq<Tx>): PoolState
  {
    PoolState(Restrict(p.known, hashes) + ByHash(delivered), Restrict(p.discovered, hashes))
  }

  /** What a scan reports for the pool: the new findings and the remembered ones, the latter winning. */
  function Reported(p: PoolState, found: map<Hash, seq<Payment>>): map<Hash, seq<Payment>> { found + p.discovered }

  /** What is remembered for the next scan: the same, the new findings winning. */
  function Remember(p: PoolState, found: map<Hash, seq<Payment>>): PoolState
  {
    p.(discovered := p.discovered + found)
  }

  /** Accepted pool outputs grouped by transaction. */
  function Group(found: seq<TxOutput>): map<Hash, seq<Payment>>
  {
    if |found| == 0 then map[]
    else
      var o := found[|found| - 1];
      var m := Group(found[..|found| - 1]);
      m[o.txHash := (if o.txHash in m then m[o.txHash] else []) +
                    [Payment(o.out.subIndex, Transfer(o.Amount(), None))]]
  }

  // ---------------------------------------------------------------------------
  // Whole runs
  // ---------------------------------------------------------------------------

  /** One error-free scan seen from the pool: its hashes, the transactions delivered, what they were found to pay. */
  datatype PoolScan = PoolScan(hashes: set<Hash>, delivered: seq<Tx>, found: map<Hash, seq<Payment>>)

  function AfterScan(p: PoolState, e: PoolScan): PoolState
  {
    Remember(UpdatePool(p, e.hashes, e.delivered), e.found)
  }

  /** The daemon delivers only what it was asked for, and only delivered transactions are scanned. */
  ghost predicate Honest(p: PoolState, e: PoolScan)
  {
    && HashesOf(e.delivered) <= Requested(p, e.hashes)
    && e.found.Keys <= HashesOf(e.delivered)
  }

  ghost predicate PoolRun(states: seq<PoolState>, scans: seq<PoolScan>)
  {
    && |states| == |scans| + 1
    && states[0].discovered == map[]
    && forall i :: 0 <= i < |scans| ==> Honest(states[i], scans[i]) && states[i + 1] == AfterScan(states[i], scans[i])
  }

  /** The hash was in the pool at every one of scans from..to-1. */
  ghost predicate Stayed(scans: seq<PoolScan>, h: Hash, from: nat, to: nat)
    requires to <= |scans|
  {
    forall j :: from <= j < to ==> h in scans[j].hashes
  }

  /** The transaction was handed to the scanner at scan k and stayed in the pool until before scan n. */
  ghost predicate HandedOverAt(scans: seq<PoolScan>, h: Hash, k: nat, n: nat)
    requires n <= |scans|
  {
    k < n && h in HashesOf(scans[k].delivered) && Stayed(scans, h, k, n)
  }

  /** ... and was found to pay v (something) when it was handed over. */
  ghost predicate FoundAt(scans: seq<PoolScan>, h: Hash, k: nat, n: nat, v: seq<Payment>)
    requires n <= |scans|
  {
    HandedOverAt(scans, h, k, n) && h in scans[k].found && scans[k].found[h] == v
  }

  lemma StayedExtend(scans: seq<PoolScan>, h: Hash, from: nat, n: nat)
    requires from <= n < |scans|
    ensures Stayed(scans, h, from, n + 1) <==> Stayed(scans, h, from, n) && h in scans[n].hashes
  {
  }

  /** Known means: handed over during the present stay, or in the pool since start-up. Hence an update requests
      exactly the current hashes that are neither, so an undelivered hash is requested again. */
  lemma {:induction false} KnownIffHandedOver(states: seq<PoolState>, scans: seq<PoolScan>, n: nat, h: Hash)
    requires PoolRun(states, scans) && n < |states|
    ensures h in states[n].known <==>
            (exists k: nat :: HandedOverAt(scans, h, k, n)) || (h in states[0].known && Stayed(scans, h, 0, n))
  {
    if n > 0 {
      var m := n - 1;
      KnownIffHandedOver(states, scans, m, h);
      var e := scans[m];
      assert states[m + 1] == AfterScan(states[m], e);
      StayedExtend(scans, h, 0, m);
      forall k | 0 <= k < m
        ensures HandedOverAt(scans, h, k, n) <==> HandedOverAt(scans, h, k, m) && h in e.hashes
      {
        StayedExtend(scans, h, k, m);
      }
      if h in HashesOf(e.delivered) {
        assert HandedOverAt(scans, h, m, n);
      }
      if exists k: nat :: HandedOverAt(scans, h, k, m) {
        var k: nat :| HandedOverAt(scans, h, k, m);
        assert h in e.hashes ==> HandedOverAt(scans, h, k, n);
      }
      if k: nat :| HandedOverAt(scans, h, k, n) {
        assert k == m || HandedOverAt(scans, h, k, m);
      }
    }
  }

  /** Undelivered hashes are requested again: an update asks for exactly the hashes in the pool that were neither handed
      over during the present stay nor in the pool since start-up. */
  lemma RequestedIff(states: seq<PoolState>, scans: seq<PoolScan>, n: nat, h: Hash)
    requires PoolRun(states, scans) && n < |scans|
    ensures h in Requested(states[n], scans[n].hashes) <==>
            && h in scans[n].hashes
            && !(exists k: nat :: HandedOverAt(scans, h, k, n))
            && !(h in states[0].known && Stayed(scans, h, 0, n))
  {
    KnownIffHandedOver(states, scans, n, h);
  }

  /** A transaction is handed to the scanner at most once per stay in the pool. */
  lemma HandedOverOnce(states: seq<PoolState>, scans: seq<PoolScan>, h: Hash, k: nat, n: nat)
    requires PoolRun(states, scans) && n < |scans|
    requires HandedOverAt(scans, h, k, n)
    ensures h !in HashesOf(scans[n].delivered)
  {
    KnownIffHandedOver(states, scans, n, h);
    assert Honest(states[n], scans[n]);
  }

  /** Txpool cache agrees with a full scan: after any run, what is remembered for a hash is exactly what was
      found when its transaction was handed over in the present stay; and nothing is remembered otherwise. */
  lemma {:induction false} DiscoveredIffFound(states: seq<PoolState>, scans: seq<PoolScan>, n: nat, h: Hash,
                                              v: seq<Payment>)
    requires PoolRun(states, scans) && n < |states|
    ensures h in states[n].discovered && states[n].discovered[h] == v <==>
            exists k: nat :: FoundAt(scans, h, k, n, v)
  {
    if n > 0 {
      var m := n - 1;
      DiscoveredIffFound(states, scans, m, h, v);
      var e := scans[m];
      assert states[m + 1] == AfterScan(states[m], e);
      assert Honest(states[m], e);
      forall k | 0 <= k < m
        ensures FoundAt(scans, h, k, n, v) <==> FoundAt(scans, h, k, m, v) && h in e.hashes
      {
        StayedExtend(scans, h, k, m);
      }
      if h in e.found {
        assert FoundAt(scans, h, m, n, e.found[h]);
        forall k: nat | FoundAt(scans, h, k, m, v)
          ensures false
        {
          HandedOverOnce(states, scans, h, k, m);
        }
      }
      if k: nat :| FoundAt(scans, h, k, m, v) {
        assert h in e.hashes ==> FoundAt(scans, h, k, n, v);
      }
      if k: nat :| FoundAt(scans, h, k, n, v) {
        assert k == m || FoundAt(scans, h, k, m, v);
      }
    }
  }

  /** With an honest daemon the new and the remembered findings never collide, so what a scan reports is what it
      remembers: the two opposite merge orders agree. */
  lemma ReportedIsRemembered(p: PoolState, e: PoolScan)
    requires Honest(p, e) && p.discovered.Keys <= p.known.Keys
    ensures Reported(UpdatePool(p, e.hashes, e.delivered), e.found) == AfterScan(p, e).discovered
    ensures AfterScan(p, e).discovered.Keys <= AfterScan(p, e).known.Keys
  {
    var q := UpdatePool(p, e.hashes, e.delivered);
    assert e.found.Keys !! q.discovered.Keys;
  }

  lemma DiscoveredAreKnown(states: seq<PoolState>, scans: seq<PoolScan>, n: nat)
    requires PoolRun(states, scans) && n < |states|
    ensures states[n].discovered.Keys <= states[n].known.Keys
  {
    forall h | h in states[n].discovered
      ensures h in states[n].known
    {
      DiscoveredIffFound(states, scans, n, h, states[n].discovered[h]);
      var k: nat :| FoundAt(scans, h, k, n, states[n].discovered[h]);
      KnownIffHandedOver(states, scans, n, h);
    }
  }

  /** What the n-th scan reports for a hash is exactly what was found at its hand-over in the present stay. */
  lemma ReportedIffFound(states: seq<PoolState>, scans: seq<PoolScan>, n: nat, h: Hash, v: seq<Payment>)
    requires PoolRun(states, scans) && 0 < n <= |scans|
    ensures var e := scans[n - 1];
            var reported := Reported(UpdatePool(states[n - 1], e.hashes, e.delivered), e.found);
            h in reported && reported[h] == v <==> exists k: nat :: FoundAt(scans, h, k, n, v)
  {
    var m := n - 1;
    DiscoveredAreKnown(states, scans, m);
    assert Honest(states[m], scans[m]) && states[m + 1] == AfterScan(states[m], scans[m]);
    ReportedIsRemembered(states[m], scans[m]);
    DiscoveredIffFound(states, scans, n, h, v);
  }

  /** A transaction in the pool since start-up is never handed to the scanner, so nothing is ever reported for it. */
  lemma StartupPoolIsNeverScanned(states: seq<PoolState>, scans: seq<PoolScan>, n: nat, h: Hash)
    requires PoolRun(states, scans) && n < |states|
    requires h in states[0].known && Stayed(scans, h, 0, n)
    ensures forall k: nat :: k < n ==> h !in HashesOf(scans[k].delivered)
    ensures h !in states[n].discovered
  {
    forall k: nat | k < n
      ensures h !in HashesOf(scans[k].delivered)
    {
      KnownIffHandedOver(states, scans, k, h);
      assert Honest(states[k], scans[k]);
    }
    if h in states[n].discovered {
      DiscoveredIffFound(states, scans, n, h, states[n].discovered[h]);
    }
  }

  // ---------------------------------------------------------------------------
  // The cache as an object
  // ---------------------------------------------------------------------------

  class TxpoolCache {
    var transactions: map<Hash, Tx>
    var discoveredTransfers: map<Hash, seq<Payment>>

    function State(): PoolState
      reads this
    {
      PoolState(transactions, discoveredTransfers)
    }

    /** Whatever is in the pool at start-up counts as known. */
    constructor (txs: seq<Tx>)
      ensures State() == PoolState(ByHash(txs), map[])
    {
      transactions, discoveredTransfers := ByHash(txs), map[];
    }

    /** Drop what left the pool, fetch what is new; `fetch` is the daemon's answer to the list of new hashes.
        When the request fails, the departed entries are already gone. */
    method Update(hashes: set<Hash>, fetch: set<Hash> -> Option<seq<Tx>>) returns (r: Option<seq<Tx>>)
      modifies this
      ensures r == fetch(hashes - old(transactions).Keys)
      ensures State() == UpdatePool(old(State()), hashes, if r.Some? then r.value else [])
    {
      var newHashes: set<Hash> := {};
      var rest := hashes;
      while rest != {}
        invariant rest <= hashes
        invariant newHashes == Requested(State(), hashes - rest)
      {
        var h :| h in rest;
        if h !in transactions {
          newHashes := newHashes + {h};
        }
        rest := rest - {h};
      }
      assert hashes - rest == hashes;
      r := fetch(newHashes);
      transactions := map k | k in transactions && k in hashes :: transactions[k];
      discoveredTransfers := map k | k in discoveredTransfers && k in hashes :: discoveredTransfers[k];
      if r.Some? {
        transactions := transactions + ByHash(r.value);
      }
    }

    method InsertTransfers(found: map<Hash, seq<Payment>>)
      modifies this`discoveredTransfers
      ensures State() == Remember(old(State()), found)
    {
      discoveredTransfers := discoveredTransfers + found;
    }
  }
}
