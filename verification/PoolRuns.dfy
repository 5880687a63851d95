/** The txpool cache inside the gateway's runs: what is remembered and reported for a pool transaction is what the scan
    that was handed it accepted from it. */
module PoolRuns {
  import opened Chain
  import opened Txpool
  import opened Ledger
  import opened Runs
  import opened Conservation

  /** The hash was in the pool at every scan among events from..to-1. */
  ghost predicate StayedInRun(events: seq<Event>, h: Hash, from: nat, to: nat)
    requires to <= |events|
  {
    forall j :: from <= j < to && events[j].Scanned? ==> h in events[j].env.hashes
  }

  /** Event k is a scan that was handed the transaction and accepted payments v from it, judged by the key table it
      left behind; and the transaction stayed in the pool from then until before event n. */
  ghost predicate AcceptedAt(states: seq<Gateway>, events: seq<Event>, h: Hash, k: nat, n: nat, v: seq<Payment>)
    requires n <= |events| < |states|
  {
    && k < n && events[k].Scanned? && h in HashesOf(events[k].env.delivered) && StayedInRun(events, h, k, n)
    && var found := PoolScanOf(states[k + 1].keys, events[k].env).found; h in found && found[h] == v
  }

  lemma DeliveredIsHonest(g: Gateway, ev: Event)
    requires HonestAt(g, ev) && ev.Scanned?
    ensures forall keys :: Honest(g.pool, PoolScanOf(keys, ev.env))
  {
    forall keys
      ensures Honest(g.pool, PoolScanOf(keys, ev.env))
    {
      FoundAreDelivered(keys, ev.env);
    }
  }

  /** One step of the pool: a scan updates it, any other event leaves it alone. */
  lemma NextPool(g: Gateway, ev: Event)
    requires CanHappen(g, ev)
    ensures ev.Scanned? ==> Next(g, ev).pool == AfterScan(g.pool, PoolScanOf(Next(g, ev).keys, ev.env))
    ensures !ev.Scanned? ==> Next(g, ev).pool == g.pool
  {
    if !ev.Scanned? { OthersAreQuiet(g, ev); }
  }

  lemma {:induction false} DiscoveredStayKnown(states: seq<Gateway>, events: seq<Event>, n: nat)
    requires ErrorFreeRun(states, events) && HonestThroughout(states, events) && n < |states|
    ensures states[n].pool.discovered.Keys <= states[n].pool.known.Keys
  {
    if n > 0 {
      var m := n - 1;
      DiscoveredStayKnown(states, events, m);
      assert StepAt(states, events, m) && HonestAt(states[m], events[m]);
      NextPool(states[m], events[m]);
      if events[m].Scanned? {
        DeliveredIsHonest(states[m], events[m]);
        ReportedIsRemembered(states[m].pool, PoolScanOf(states[n].keys, events[m].env));
      }
    }
  }

  /** How a scan changes what is remembered for one hash. */
  lemma RememberedStep(p: PoolState, e: PoolScan, h: Hash, v: seq<Payment>)
    requires Honest(p, e) && p.discovered.Keys <= p.known.Keys
    ensures h in AfterScan(p, e).discovered && AfterScan(p, e).discovered[h] == v <==>
            || (h in e.found && e.found[h] == v)
            || (h in p.discovered && p.discovered[h] == v && h in e.hashes)
    ensures h in e.found ==> h in HashesOf(e.delivered) && h in e.hashes && h !in p.discovered
  {
    if h in e.found { assert h in HashesOf(e.delivered) && h in Requested(p, e.hashes); }
  }

  lemma AcceptedStep(states: seq<Gateway>, events: seq<Event>, h: Hash, k: nat, m: nat, v: seq<Payment>)
    requires m < |events| < |states| && k < m
    ensures AcceptedAt(states, events, h, k, m + 1, v) <==>
            AcceptedAt(states, events, h, k, m, v) && (events[m].Scanned? ==> h in events[m].env.hashes)
  {
  }

  /** Txpool cache agrees with a full scan, inside every error-free run with an honest daemon: what is remembered for a
      hash is exactly what the scan that was handed it in the present stay accepted from it, and nothing otherwise. */
  lemma {:induction false} RememberedIffAccepted(states: seq<Gateway>, events: seq<Event>, n: nat, h: Hash,
                                                 v: seq<Payment>)
    requires ErrorFreeRun(states, events) && HonestThroughout(states, events) && n < |states|
    ensures h in states[n].pool.discovered && states[n].pool.discovered[h] == v <==>
            exists k: nat :: AcceptedAt(states, events, h, k, n, v)
  {
    if n > 0 {
      var m := n - 1;
      RememberedIffAccepted(states, events, m, h, v);
      RememberedOneMore(states, events, m, h, v);
      forall k: nat | k < m
        ensures AcceptedAt(states, events, h, k, n, v) <==>
                AcceptedAt(states, events, h, k, m, v) && (events[m].Scanned? ==> h in events[m].env.hashes)
      {
        AcceptedStep(states, events, h, k, m, v);
      }
      if AcceptedAt(states, events, h, m, n, v) { assert exists k: nat :: AcceptedAt(states, events, h, k, n, v); }
      if k: nat :| AcceptedAt(states, events, h, k, m, v) {
        assert (events[m].Scanned? ==> h in events[m].env.hashes) ==> AcceptedAt(states, events, h, k, n, v);
      }
      if k: nat :| AcceptedAt(states, events, h, k, n, v) {
        assert k == m || AcceptedAt(states, events, h, k, m, v);
      }
    }
  }

  lemma RememberedOneMore(states: seq<Gateway>, events: seq<Event>, m: nat, h: Hash, v: seq<Payment>)
    requires ErrorFreeRun(states, events) && HonestThroughout(states, events) && m < |events|
    ensures var now := states[m + 1].pool.discovered; var before := states[m].pool.discovered;
            h in now && now[h] == v <==>
            || AcceptedAt(states, events, h, m, m + 1, v)
            || (h in before && before[h] == v && (events[m].Scanned? ==> h in events[m].env.hashes))
  {
    DiscoveredStayKnown(states, events, m);
    assert StepAt(states, events, m) && HonestAt(states[m], events[m]);
    NextPool(states[m], events[m]);
    if events[m].Scanned? {
      DeliveredIsHonest(states[m], events[m]);
      RememberedStep(states[m].pool, PoolScanOf(states[m + 1].keys, events[m].env), h, v);
    }
  }

  /** And what a scan reports for a hash is what is then remembered for it. */
  lemma ReportedIffAccepted(states: seq<Gateway>, events: seq<Event>, n: nat, h: Hash, v: seq<Payment>)
    requires ErrorFreeRun(states, events) && HonestThroughout(states, events)
    requires 0 < n <= |events| && events[n - 1].Scanned?
    ensures var report := PoolReport(states[n - 1].pool, PoolScanOf(states[n].keys, events[n - 1].env));
            h in report && report[h] == v <==> exists k: nat :: AcceptedAt(states, events, h, k, n, v)
  {
    var m := n - 1;
    DiscoveredStayKnown(states, events, m);
    assert StepAt(states, events, m) && HonestAt(states[m], events[m]);
    NextPool(states[m], events[m]);
    DeliveredIsHonest(states[m], events[m]);
    ReportedIsRemembered(states[m].pool, PoolScanOf(states[n].keys, events[m].env));
    RememberedIffAccepted(states, events, n, h, v);
  }
}
