/** Subscriptions (library/src/pubsub.rs:85-238). A publication visits the senders of an invoice, then the global ones,
    by position, while removing closed senders moves the last one into the gap. */
module Publishing {
  import opened Prelude
  import opened Invoices

  /** A registered sender: its random id and the channel it writes to. */
  datatype Sender = Sender(id: u128, channel: nat)

  /** Which senders still have a receiver when the update reaches them. */
  type Openness = Sender -> bool

  /** An invoice that a sender's channel has accepted. */
  datatype Delivery = Delivery(sender: Sender, invoice: Invoice)

  ghost predicate UniqueIds(s: seq<Sender>)
  {
    forall i, j :: 0 <= i < j < |s| ==> s[i].id != s[j].id
  }

  function Position(s: seq<Sender>, id: u128): (k: Option<nat>)
    ensures k.Some? ==> k.value < |s| && s[k.value].id == id
    ensures k.None? ==> forall i :: 0 <= i < |s| ==> s[i].id != id
  {
    if |s| == 0 then None
    else if s[|s| - 1].id == id then Some(|s| - 1)
    else Position(s[..|s| - 1], id)
  }

  /** Insertion into an insertion-ordered map. */
  function Enrol(s: seq<Sender>, sender: Sender): seq<Sender>
  {
    match Position(s, sender.id)
    case None => s + [sender]
    case Some(k) => s[k := sender]
  }

  /** Removal that fills the gap with the last element. */
  function SwapRemove(s: seq<Sender>, k: nat): seq<Sender>
    requires k < |s|
  {
    s[k := s[|s| - 1]][..|s| - 1]
  }

  function SwapRemoveId(s: seq<Sender>, id: u128): seq<Sender>
  {
    match Position(s, id)
    case None => s
    case Some(k) => SwapRemove(s, k)
  }

  /** A sender with a new id joins at the end; one with a registered id takes the other's place. */
  ghost predicate Enrolled(r: seq<Sender>, s: seq<Sender>, sender: Sender)
  {
    if forall i :: 0 <= i < |s| ==> s[i].id != sender.id then r == s + [sender]
    else |r| == |s| && forall i :: 0 <= i < |s| ==> r[i] == if s[i].id == sender.id then sender else s[i]
  }

  lemma EnrolKeepsUnique(s: seq<Sender>, sender: Sender)
    requires UniqueIds(s)
    ensures UniqueIds(Enrol(s, sender))
    ensures Enrolled(Enrol(s, sender), s, sender) && sender in Enrol(s, sender)
  {
    var r := Enrol(s, sender);
    match Position(s, sender.id)
    case None => assert r[|s|] == sender;
    case Some(k) => assert r[k] == sender;
  }

  lemma SwapRemoveKeepsUnique(s: seq<Sender>, k: nat)
    requires UniqueIds(s) && k < |s|
    ensures UniqueIds(SwapRemove(s, k))
  {
  }

  lemma SwapRemoveIdKeepsUnique(s: seq<Sender>, id: u128)
    requires UniqueIds(s)
    ensures UniqueIds(SwapRemoveId(s, id))
  {
    var k := Position(s, id);
    if k.Some? { SwapRemoveKeepsUnique(s, k.value); }
  }

  // ---------------------------------------------------------------------------
  // What one publication does to one list of senders
  // ---------------------------------------------------------------------------

  /** The position of the first closed sender, or the length of the list. */
  function FirstClosed(s: seq<Sender>, open: Openness): (k: nat)
    ensures k <= |s|
    ensures forall i :: 0 <= i < k ==> open(s[i])
    ensures k < |s| ==> !open(s[k])
  {
    if |s| == 0 then 0
    else
      var k := FirstClosed(s[..|s| - 1], open);
      if k < |s| - 1 then k else if open(s[k]) then |s| else k
  }

  function Backwards(s: seq<Sender>): (r: seq<Sender>)
    ensures |r| == |s|
  {
    if |s| == 0 then [] else [s[|s| - 1]] + Backwards(s[..|s| - 1])
  }

  /** The senders in the order they are tried: forwards up to the first closed one, then from the end backwards. */
  function Visits(s: seq<Sender>, open: Openness): seq<Sender>
  {
    var k := FirstClosed(s, open);
    if k == |s| then s else s[..k + 1] + Backwards(s[k + 1..])
  }

  /** The senders that stay registered. */
  function Survivors(s: seq<Sender>, open: Openness): seq<Sender> { s[..FirstClosed(s, open)] }

  function OpenOnes(s: seq<Sender>, open: Openness): seq<Sender>
  {
    if |s| == 0 then []
    else OpenOnes(s[..|s| - 1], open) + (if open(s[|s| - 1]) then [s[|s| - 1]] else [])
  }

  lemma {:induction false} BackwardsIsPermutation(s: seq<Sender>)
    ensures multiset(Backwards(s)) == multiset(s)
  {
    if |s| > 0 {
      var init, last := s[..|s| - 1], s[|s| - 1];
      BackwardsIsPermutation(init);
      assert s == init + [last];
      assert Backwards(s) == [last] + Backwards(init);
    }
  }

  /** Exactly-once delivery: every registered sender is tried once, whatever the reordering. */
  lemma EachTriedOnce(s: seq<Sender>, open: Openness)
    ensures multiset(Visits(s, open)) == multiset(s)
  {
    var k := FirstClosed(s, open);
    if k < |s| {
      BackwardsIsPermutation(s[k + 1..]);
      assert s == s[..k + 1] + s[k + 1..];
    }
  }

  /** Hence every sender that is open receives the update exactly once. */
  lemma EachOpenReceivesOnce(s: seq<Sender>, open: Openness, sender: Sender)
    requires UniqueIds(s) && sender in s && open(sender)
    ensures multiset(OpenOnes(Visits(s, open), open))[sender] == 1
  {
    EachTriedOnce(s, open);
    CountOpen(Visits(s, open), open, sender);
    UniqueCount(s, sender);
  }

  lemma {:induction false} CountOpen(s: seq<Sender>, open: Openness, sender: Sender)
    ensures multiset(OpenOnes(s, open))[sender] == if open(sender) then multiset(s)[sender] else 0
  {
    if |s| > 0 {
      CountOpen(s[..|s| - 1], open, sender);
      assert s == s[..|s| - 1] + [s[|s| - 1]];
    }
  }

  lemma {:induction false} UniqueCount(s: seq<Sender>, sender: Sender)
    requires UniqueIds(s) && sender in s
    ensures multiset(s)[sender] == 1
  {
    var init, last := s[..|s| - 1], s[|s| - 1];
    assert s == init + [last];
    if last == sender {
      assert sender !in init;
      assert sender !in multiset(init);
    } else {
      UniqueCount(init, sender);
    }
  }

  /** No closed sender stays registered. */
  lemma ClosedAreRemoved(s: seq<Sender>, open: Openness, sender: Sender)
    requires sender in Survivors(s, open)
    ensures open(sender) && sender in s
  {
  }

  /** Nobody was registered after a closed sender who is still open. */
  ghost predicate ClosedComeLast(s: seq<Sender>, open: Openness)
  {
    forall i, j :: 0 <= i < j < |s| && !open(s[i]) ==> !open(s[j])
  }

  ghost predicate AllClosed(s: seq<Sender>, open: Openness) { forall i :: 0 <= i < |s| ==> !open(s[i]) }

  /** Only closed senders are removed exactly when no open sender was registered after a closed one. */
  lemma OnlyClosedAreRemovedIff(s: seq<Sender>, open: Openness)
    ensures Survivors(s, open) == OpenOnes(s, open) <==> ClosedComeLast(s, open)
  {
    var k := FirstClosed(s, open);
    OpenOnesSplit(s, open, k);
    OpenOnesAll(s[..k], open);
    OpenOnesNone(s[k..], open);
    ClosedFromFirst(s, open);
  }

  lemma ClosedFromFirst(s: seq<Sender>, open: Openness)
    ensures AllClosed(s[FirstClosed(s, open)..], open) <==> ClosedComeLast(s, open)
  {
    var k := FirstClosed(s, open);
    if AllClosed(s[k..], open) {
      forall i, j | 0 <= i < j < |s| && !open(s[i])
        ensures !open(s[j])
      {
        assert i >= k && s[k..][j - k] == s[j];
      }
    }
    if ClosedComeLast(s, open) {
      forall j | 0 <= j < |s[k..]|
        ensures !open(s[k..][j])
      {
        if j > 0 { assert !open(s[k]) && s[k..][j] == s[k + j]; }
      }
    }
  }

  lemma {:induction false} OpenOnesSplit(s: seq<Sender>, open: Openness, k: nat)
    requires k <= |s|
    ensures OpenOnes(s, open) == OpenOnes(s[..k], open) + OpenOnes(s[k..], open)
  {
    if k == |s| {
      assert s[..k] == s;
    } else {
      var init := s[..|s| - 1];
      OpenOnesSplit(init, open, k);
      assert init[..k] == s[..k] && s[k..][..|s[k..]| - 1] == init[k..];
    }
  }

  lemma {:induction false} OpenOnesAll(s: seq<Sender>, open: Openness)
    requires forall i :: 0 <= i < |s| ==> open(s[i])
    ensures OpenOnes(s, open) == s
  {
    if |s| > 0 { OpenOnesAll(s[..|s| - 1], open); }
  }

  lemma {:induction false} OpenOnesNone(s: seq<Sender>, open: Openness)
    ensures OpenOnes(s, open) == [] <==> AllClosed(s, open)
  {
    if |s| > 0 {
      var init := s[..|s| - 1];
      OpenOnesNone(init, open);
      assert forall i :: 0 <= i < |init| ==> init[i] == s[i];
    }
  }

  /** A live subscriber registered after a closed one loses its subscription. */
  lemma OpenSenderCanBeRemoved(first: Sender, second: Sender, open: Openness)
    requires !open(first) && open(second)
    ensures second !in Survivors([first, second], open)
    ensures Visits([first, second], open) == [first, second]
  {
    var s := [first, second];
    assert FirstClosed(s, open) == 0;
    assert s[1..] == [second];
    assert Backwards([second]) == [second] + Backwards([second][..0]);
    assert s[..1] == [first];
  }

  // ---------------------------------------------------------------------------
  // The list while it is being emptied from position k on
  // ---------------------------------------------------------------------------

  /** What is left when only the first m + 1 of the original senders are, and the one at m sits at k. */
  function Shrunk(s: seq<Sender>, k: nat, m: nat): seq<Sender>
    requires k <= m < |s|
  {
    if m == k then s[..k] else s[..k] + [s[m]] + s[k + 1..m]
  }

  lemma ShrinkStarts(s: seq<Sender>, k: nat)
    requires k < |s|
    ensures SwapRemove(s, k) == Shrunk(s, k, |s| - 1)
  {
  }

  lemma ShrinkStep(s: seq<Sender>, k: nat, m: nat)
    requires k < m < |s|
    ensures |Shrunk(s, k, m)| == m && Shrunk(s, k, m)[k] == s[m]
    ensures SwapRemove(Shrunk(s, k, m), k) == Shrunk(s, k, m - 1)
  {
    var r := Shrunk(s, k, m);
    assert forall i :: 0 <= i < m ==> r[i] == s[if i == k then m else i];
    var next, goal := SwapRemove(r, k), Shrunk(s, k, m - 1);
    assert |next| == |goal| == m - 1;
    forall i | 0 <= i < m - 1
      ensures next[i] == goal[i]
    {
      assert next[i] == s[if i == k then m - 1 else i];
    }
  }

  /** Removal by id of the sender at position i removes position i. */
  lemma RemovesIt(s: seq<Sender>, i: nat)
    requires UniqueIds(s) && i < |s|
    ensures SwapRemoveId(s, s[i].id) == SwapRemove(s, i)
  {
    var k := Position(s, s[i].id).value;
    assert k == i;
  }

  /** How far a publication has come: forwards with nothing removed, or from the end backwards down to m. */
  ghost predicate Underway(s: seq<Sender>, open: Openness, subs: seq<Sender>, tried: seq<Sender>, index: nat,
                           closed: bool, m: nat)
  {
    var k := FirstClosed(s, open);
    if !closed then index <= k && subs == s && tried == s[..index]
    else index == k <= m < |s| && subs == Shrunk(s, k, m) && tried == s[..k + 1] + Backwards(s[m + 1..])
  }

  /** Trying the sender at the index, and removing it if a closed one has been met, goes one step further. */
  lemma UnderwayStep(s: seq<Sender>, open: Openness, subs: seq<Sender>, tried: seq<Sender>, index: nat, closed: bool,
                     m: nat)
    requires Underway(s, open, subs, tried, index, closed, m) && index < |subs|
    ensures var tried' := tried + [subs[index]];
            if closed then m > 0 && Underway(s, open, SwapRemove(subs, index), tried', index, true, m - 1)
            else if open(subs[index]) then Underway(s, open, subs, tried', index + 1, false, m)
            else Underway(s, open, SwapRemove(subs, index), tried', index, true, |s| - 1)
  {
    var k := FirstClosed(s, open);
    if closed {
      ShrinkStep(s, k, m);
      BackwardsGrows(s, m + 1);
    } else if !open(subs[index]) {
      ShrinkStarts(s, k);
      assert s[|s|..] == [];
    }
  }

  lemma UnderwayEnds(s: seq<Sender>, open: Openness, subs: seq<Sender>, tried: seq<Sender>, index: nat, closed: bool,
                     m: nat)
    requires Underway(s, open, subs, tried, index, closed, m) && index >= |subs|
    ensures tried == Visits(s, open) && subs == Survivors(s, open)
  {
    if closed && m > index { ShrinkStep(s, index, m); }
  }

  lemma BackwardsGrows(s: seq<Sender>, m: nat)
    requires 0 < m <= |s|
    ensures Backwards(s[m - 1..]) == Backwards(s[m..]) + [s[m - 1]]
  {
    BackwardsSnoc(s[m - 1], s[m..]);
    assert s[m - 1..] == [s[m - 1]] + s[m..];
  }

  lemma {:induction false} BackwardsSnoc(x: Sender, s: seq<Sender>)
    ensures Backwards([x] + s) == Backwards(s) + [x]
  {
    if |s| == 0 {
      assert [x] + s == [x] && [x][..0] == [];
    } else {
      var init := s[..|s| - 1];
      assert ([x] + s)[..|s|] == [x] + init;
      BackwardsSnoc(x, init);
    }
  }

  // ---------------------------------------------------------------------------
  // Publications
  // ---------------------------------------------------------------------------

  datatype Subscriptions = Subscriptions(invoiceSubs: map<InvoiceId, seq<Sender>>, globalSubs: seq<Sender>)
  {
    /** The senders of one invoice, or the global ones. */
    function Of(target: Option<InvoiceId>): seq<Sender>
    {
      match target
      case None => globalSubs
      case Some(id) => if id in invoiceSubs then invoiceSubs[id] else []
    }
  }

  /** The senders an update of an invoice is sent to, in order. */
  function TriedBy(x: Subscriptions, id: InvoiceId, open: Openness): seq<Sender>
  {
    Visits(x.Of(Some(id)), open) + Visits(x.Of(None), open)
  }

  /** Who is registered afterwards. */
  function Published(x: Subscriptions, id: InvoiceId, open: Openness): Subscriptions
  {
    Subscriptions(
      if id in x.invoiceSubs then x.invoiceSubs[id := Survivors(x.invoiceSubs[id], open)] else x.invoiceSubs,
      Survivors(x.globalSubs, open))
  }

  /** Who is registered after updates of several invoices, sender by sender open or not at each of them. */
  function PublishedAll(x: Subscriptions, us: seq<Invoice>, open: nat -> Openness): Subscriptions
  {
    if |us| == 0 then x
    else Published(PublishedAll(x, us[..|us| - 1], open), us[|us| - 1].Id(), open(|us| - 1))
  }

  // ---------------------------------------------------------------------------
  // What the senders receive
  // ---------------------------------------------------------------------------

  /** What is delivered when the senders are tried in turn. */
  function Deliveries(senders: seq<Sender>, invoice: Invoice, open: Openness): seq<Delivery>
  {
    if |senders| == 0 then []
    else
      var init, last := senders[..|senders| - 1], senders[|senders| - 1];
      Deliveries(init, invoice, open) + (if open(last) then [Delivery(last, invoice)] else [])
  }

  lemma {:induction false} DeliveriesJoin(a: seq<Sender>, b: seq<Sender>, invoice: Invoice, open: Openness)
    ensures Deliveries(a + b, invoice, open) == Deliveries(a, invoice, open) + Deliveries(b, invoice, open)
  {
    if |b| == 0 {
      assert a + b == a;
    } else {
      var init := b[..|b| - 1];
      DeliveriesJoin(a, init, invoice, open);
      assert (a + b)[..|a + b| - 1] == a + init;
    }
  }

  lemma DeliveriesInTurn(log: seq<Delivery>, a: seq<Sender>, b: seq<Sender>, invoice: Invoice, open: Openness)
    ensures log + Deliveries(a, invoice, open) + Deliveries(b, invoice, open) == log + Deliveries(a + b, invoice, open)
  {
    DeliveriesJoin(a, b, invoice, open);
  }

  lemma DeliveriesSnoc(log: seq<Delivery>, tried: seq<Sender>, sender: Sender, invoice: Invoice, open: Openness)
    ensures log + Deliveries(tried + [sender], invoice, open) ==
            log + Deliveries(tried, invoice, open) + if open(sender) then [Delivery(sender, invoice)] else []
  {
    assert (tried + [sender])[..|tried|] == tried;
  }

  /** The invoice, and no other, once for every time an open sender is tried. */
  lemma {:induction false} DeliveriesCount(senders: seq<Sender>, invoice: Invoice, open: Openness, d: Delivery)
    ensures multiset(Deliveries(senders, invoice, open))[d] ==
            if d.invoice == invoice && open(d.sender) then multiset(senders)[d.sender] else 0
  {
    if |senders| > 0 {
      var init, last := senders[..|senders| - 1], senders[|senders| - 1];
      DeliveriesCount(init, invoice, open, d);
      assert senders == init + [last];
    }
  }

  /** How often one publication delivers d: the invoice itself, once for each registration of an open sender. */
  function TimesSent(x: Subscriptions, invoice: Invoice, open: Openness, d: Delivery): nat
  {
    if d.invoice == invoice && open(d.sender)
    then multiset(x.Of(Some(invoice.Id())))[d.sender] + multiset(x.globalSubs)[d.sender]
    else 0
  }

  /** After one publication every d has been delivered that many times more. */
  ghost predicate SentExactly(after: seq<Delivery>, before: seq<Delivery>, x: Subscriptions, invoice: Invoice,
                              open: Openness)
  {
    forall d :: multiset(after)[d] == multiset(before)[d] + TimesSent(x, invoice, open, d)
  }

  lemma SendsExactly(after: seq<Delivery>, before: seq<Delivery>, x: Subscriptions, invoice: Invoice, open: Openness)
    requires after == before + Deliveries(TriedBy(x, invoice.Id(), open), invoice, open)
    ensures SentExactly(after, before, x, invoice, open)
  {
    forall d: Delivery
      ensures multiset(after)[d] == multiset(before)[d] + TimesSent(x, invoice, open, d)
    {
      SentOnce(x, invoice, open, d);
    }
  }

  lemma SentOnce(x: Subscriptions, invoice: Invoice, open: Openness, d: Delivery)
    ensures multiset(Deliveries(TriedBy(x, invoice.Id(), open), invoice, open))[d] == TimesSent(x, invoice, open, d)
  {
    EachTriedOnce(x.Of(Some(invoice.Id())), open);
    EachTriedOnce(x.Of(None), open);
    DeliveriesCount(TriedBy(x, invoice.Id(), open), invoice, open, d);
  }

  /** What updates of several invoices deliver. */
  function SentAll(x: Subscriptions, us: seq<Invoice>, open: nat -> Openness): seq<Delivery>
  {
    if |us| == 0 then []
    else
      var init, last, k := us[..|us| - 1], us[|us| - 1], |us| - 1;
      SentAll(x, init, open) + Deliveries(TriedBy(PublishedAll(x, init, open), last.Id(), open(k)), last, open(k))
  }

  /** The subscriptions and the log once the updates `us` have been published. */
  ghost predicate HasPublished(y: Subscriptions, sent: seq<Delivery>, x: Subscriptions, log: seq<Delivery>,
                               us: seq<Invoice>, open: nat -> Openness)
  {
    y == PublishedAll(x, us, open) && sent == log + SentAll(x, us, open)
  }

  lemma PublishesNext(y: Subscriptions, sent: seq<Delivery>, x: Subscriptions, log: seq<Delivery>, us: seq<Invoice>,
                      k: nat, open: nat -> Openness)
    requires k < |us| && HasPublished(y, sent, x, log, us[..k], open)
    ensures var id := us[k].Id();
            HasPublished(Published(y, id, open(k)), sent + Deliveries(TriedBy(y, id, open(k)), us[k], open(k)), x, log,
                         us[..k + 1], open)
  {
    var us' := us[..k + 1];
    assert us'[..|us'| - 1] == us[..k] && us'[|us'| - 1] == us[k];
    assert Published(y, us[k].Id(), open(k)) == PublishedAll(x, us', open);
    var more := Deliveries(TriedBy(y, us[k].Id(), open(k)), us[k], open(k));
    assert SentAll(x, us', open) == SentAll(x, us[..k], open) + more;
    Regroup(log, SentAll(x, us[..k], open), more);
  }

  lemma Regroup<T>(a: seq<T>, b: seq<T>, c: seq<T>)
    ensures (a + b) + c == a + (b + c)
  {
  }

  ghost predicate DifferentIds(us: seq<Invoice>) { forall i, j :: 0 <= i < j < |us| ==> us[i].Id() != us[j].Id() }

  /** Updates of other invoices leave the senders of an invoice alone. */
  lemma {:induction false} OwnStay(x: Subscriptions, us: seq<Invoice>, open: nat -> Openness, id: InvoiceId)
    requires forall i :: 0 <= i < |us| ==> us[i].Id() != id
    ensures PublishedAll(x, us, open).Of(Some(id)) == x.Of(Some(id))
  {
    if |us| > 0 { OwnStay(x, us[..|us| - 1], open, id); }
  }

  /** The global senders left are those before the first one that was closed at some update. */
  lemma {:induction false} GlobalsLeft(x: Subscriptions, us: seq<Invoice>, open: nat -> Openness)
    ensures var g := PublishedAll(x, us, open).globalSubs;
            && |g| <= |x.globalSubs| && g == x.globalSubs[..|g|]
            && (forall q, j :: 0 <= q < |g| && 0 <= j < |us| ==> open(j)(x.globalSubs[q]))
            && (|g| < |x.globalSubs| ==> exists j :: 0 <= j < |us| && !open(j)(x.globalSubs[|g|]))
  {
    if |us| > 0 {
      var k := |us| - 1;
      GlobalsLeft(x, us[..k], open);
      var before, g := PublishedAll(x, us[..k], open).globalSubs, PublishedAll(x, us, open).globalSubs;
      if |g| < |before| { assert !open(k)(x.globalSubs[|g|]); }
    }
  }

  /** How often several publications deliver d. */
  function TimesSentAll(x: Subscriptions, us: seq<Invoice>, open: nat -> Openness, d: Delivery): nat
  {
    if |us| == 0 then 0
    else
      var init, n := us[..|us| - 1], |us| - 1;
      TimesSentAll(x, init, open, d) + TimesSent(PublishedAll(x, init, open), us[n], open(n), d)
  }

  lemma {:induction false} SentAllTimes(x: Subscriptions, us: seq<Invoice>, open: nat -> Openness, d: Delivery)
    ensures multiset(SentAll(x, us, open))[d] == TimesSentAll(x, us, open, d)
  {
    if |us| > 0 {
      var init, n := us[..|us| - 1], |us| - 1;
      SentAllTimes(x, init, open, d);
      SentOnce(PublishedAll(x, init, open), us[n], open(n), d);
    }
  }

  lemma {:induction false} NeverSent(x: Subscriptions, us: seq<Invoice>, open: nat -> Openness, d: Delivery)
    requires d.invoice !in us
    ensures TimesSentAll(x, us, open, d) == 0
  {
    if |us| > 0 {
      NeverSent(x, us[..|us| - 1], open, d);
    }
  }

  /** Nothing but the updated invoices is delivered. */
  lemma NothingElseSent(x: Subscriptions, us: seq<Invoice>, open: nat -> Openness, d: Delivery)
    requires d.invoice !in us
    ensures d !in SentAll(x, us, open)
  {
    SentAllTimes(x, us, open, d);
    NeverSent(x, us, open, d);
    assert d !in multiset(SentAll(x, us, open));
  }

  /** How often `to` gets the k-th of the updates: for each of its registrations for that invoice at first, and for
      each global one left by then, if it is open at the time. */
  function TimesReceived(x: Subscriptions, us: seq<Invoice>, open: nat -> Openness, k: nat, to: Sender): nat
    requires k < |us|
  {
    if open(k)(to)
    then multiset(x.Of(Some(us[k].Id())))[to] + multiset(PublishedAll(x, us[..k], open).globalSubs)[to]
    else 0
  }

  lemma LastReceived(x: Subscriptions, us: seq<Invoice>, open: nat -> Openness, to: Sender)
    requires DifferentIds(us) && |us| > 0
    ensures var init, n := us[..|us| - 1], |us| - 1;
            TimesSent(PublishedAll(x, init, open), us[n], open(n), Delivery(to, us[n])) ==
            TimesReceived(x, us, open, n, to)
  {
    OwnStay(x, us[..|us| - 1], open, us[|us| - 1].Id());
  }

  lemma EarlierReceived(x: Subscriptions, us: seq<Invoice>, open: nat -> Openness, k: nat, to: Sender)
    requires DifferentIds(us) && k < |us| - 1
    ensures var init, n := us[..|us| - 1], |us| - 1;
            && init[k] == us[k]
            && TimesSent(PublishedAll(x, init, open), us[n], open(n), Delivery(to, us[k])) == 0
            && TimesReceived(x, init, open, k, to) == TimesReceived(x, us, open, k, to)
  {
    assert us[..|us| - 1][..k] == us[..k];
    assert us[k].Id() != us[|us| - 1].Id();
  }

  lemma IdsOfPrefix(us: seq<Invoice>, n: nat)
    requires DifferentIds(us) && n <= |us|
    ensures DifferentIds(us[..n])
  {
  }

  lemma LastIsNew(us: seq<Invoice>)
    requires DifferentIds(us) && |us| > 0
    ensures us[|us| - 1] !in us[..|us| - 1]
  {
  }

  lemma {:induction false} TimesAre(x: Subscriptions, us: seq<Invoice>, open: nat -> Openness, k: nat, to: Sender)
    requires DifferentIds(us) && k < |us|
    ensures TimesSentAll(x, us, open, Delivery(to, us[k])) == TimesReceived(x, us, open, k, to)
  {
    var init, n := us[..|us| - 1], |us| - 1;
    if k < n {
      EarlierReceived(x, us, open, k, to);
      IdsOfPrefix(us, n);
      TimesAre(x, init, open, k, to);
    } else {
      LastIsNew(us);
      NeverSent(x, init, open, Delivery(to, us[k]));
      LastReceived(x, us, open, to);
    }
  }

  /** The updated invoices are delivered, each exactly that often. */
  lemma SentAllCount(x: Subscriptions, us: seq<Invoice>, open: nat -> Openness, k: nat, to: Sender)
    requires DifferentIds(us) && k < |us|
    ensures multiset(SentAll(x, us, open))[Delivery(to, us[k])] == TimesReceived(x, us, open, k, to)
  {
    SentAllTimes(x, us, open, Delivery(to, us[k]));
    TimesAre(x, us, open, k, to);
  }

  class Publisher {
    var invoiceSubs: map<InvoiceId, seq<Sender>>
    var globalSubs: seq<Sender>
    /** Everything the channels have accepted, in order. */
    var sent: seq<Delivery>

    ghost predicate Valid()
      reads this
    {
      UniqueIds(globalSubs) && forall id :: id in invoiceSubs ==> UniqueIds(invoiceSubs[id])
    }

    function State(): Subscriptions
      reads this
    {
      Subscriptions(invoiceSubs, globalSubs)
    }

    /** What is registered and sent is what publishing `us` makes of x and the log. */
    ghost predicate Since(x: Subscriptions, log: seq<Delivery>, us: seq<Invoice>, open: nat -> Openness)
      reads this
    {
      Valid() && HasPublished(State(), sent, x, log, us, open)
    }

    function Subs(target: Option<InvoiceId>): seq<Sender>
      reads this
    {
      State().Of(target)
    }

    constructor ()
      ensures Valid() && invoiceSubs == map[] && globalSubs == [] && sent == []
    {
      invoiceSubs, globalSubs, sent := map[], [], [];
    }

    /** Only a tracked invoice can be subscribed to. `sender` carries the random id. */
    method Subscribe(id: InvoiceId, sender: Sender) returns (ok: bool)
      requires Valid()
      modifies this`invoiceSubs
      ensures Valid()
      ensures ok <==> id in old(invoiceSubs)
      ensures ok ==> id in invoiceSubs && invoiceSubs == old(invoiceSubs)[id := invoiceSubs[id]]
      ensures ok ==> Enrolled(invoiceSubs[id], old(invoiceSubs)[id], sender)
      ensures !ok ==> invoiceSubs == old(invoiceSubs)
    {
      if id !in invoiceSubs { return false; }
      EnrolKeepsUnique(invoiceSubs[id], sender);
      invoiceSubs := invoiceSubs[id := Enrol(invoiceSubs[id], sender)];
      return true;
    }

    method SubscribeAll(sender: Sender)
      requires Valid()
      modifies this`globalSubs
      ensures Valid() && Enrolled(globalSubs, old(globalSubs), sender)
    {
      EnrolKeepsUnique(globalSubs, sender);
      globalSubs := Enrol(globalSubs, sender);
    }

    /** Start an empty list; the subscribers of an invoice already tracked are overwritten. */
    method InsertInvoice(id: InvoiceId)
      requires Valid()
      modifies this`invoiceSubs
      ensures Valid() && invoiceSubs == old(invoiceSubs)[id := []]
    {
      invoiceSubs := invoiceSubs[id := []];
    }

    method RemoveInvoice(id: InvoiceId)
      requires Valid()
      modifies this`invoiceSubs
      ensures Valid() && invoiceSubs == old(invoiceSubs) - {id}
    {
      invoiceSubs := invoiceSubs - {id};
    }

    function SenderByIndex(target: Option<InvoiceId>, index: nat): Option<Sender>
      reads this
    {
      if index < |Subs(target)| then Some(Subs(target)[index]) else None
    }

    /** Nothing but the senders of `target` differs from the given lists. */
    ghost predicate OthersAre(target: Option<InvoiceId>, invoices: map<InvoiceId, seq<Sender>>, globals: seq<Sender>)
      reads this
    {
      match target
      case None => invoiceSubs == invoices
      case Some(id) =>
        && globalSubs == globals
        && invoiceSubs == if id in invoices then invoices[id := Subs(target)] else invoices
    }

    /** Remove the sender with this id, if it is registered. */
    method RemoveSender(target: Option<InvoiceId>, id: u128)
      requires Valid()
      modifies this`invoiceSubs, this`globalSubs
      ensures Valid()
      ensures Subs(target) == SwapRemoveId(old(Subs(target)), id)
      ensures OthersAre(target, old(invoiceSubs), old(globalSubs))
    {
      SwapRemoveIdKeepsUnique(Subs(target), id);
      match target
      case None => globalSubs := SwapRemoveId(globalSubs, id);
      case Some(invoiceId) =>
        if invoiceId in invoiceSubs {
          invoiceSubs := invoiceSubs[invoiceId := SwapRemoveId(invoiceSubs[invoiceId], id)];
        }
    }

    /** The sender just tried is the one that goes. */
    method RemoveTried(target: Option<InvoiceId>, sender: Sender, ghost index: nat)
      requires Valid() && SenderByIndex(target, index) == Some(sender)
      modifies this`invoiceSubs, this`globalSubs
      ensures Valid() && Subs(target) == SwapRemove(old(Subs(target)), index)
      ensures OthersAre(target, old(invoiceSubs), old(globalSubs))
    {
      RemovesIt(Subs(target), index);
      RemoveSender(target, sender.id);
    }

    /** An open channel accepts the invoice; a closed one is an error. */
    method Send(sender: Sender, invoice: Invoice, open: Openness) returns (ok: bool)
      modifies this`sent
      ensures ok == open(sender)
      ensures sent == old(sent) + if ok then [Delivery(sender, invoice)] else []
    {
      ok := open(sender);
      if ok { sent := sent + [Delivery(sender, invoice)]; }
    }

    /** Move on from the sender at the index; once one was closed, remove whoever was tried. */
    method MoveOn(target: Option<InvoiceId>, sender: Sender, ok: bool, ghost open: Openness, index: nat, closed: bool,
                  ghost s: seq<Sender>, ghost tried: seq<Sender>, ghost m: nat)
      returns (index': nat, closed': bool, ghost m': nat)
      requires Valid() && SenderByIndex(target, index) == Some(sender) && ok == open(sender)
      requires Underway(s, open, Subs(target), tried, index, closed, m)
      modifies this`invoiceSubs, this`globalSubs
      ensures Valid() && Underway(s, open, Subs(target), tried + [sender], index', closed', m')
      ensures OthersAre(target, old(invoiceSubs), old(globalSubs))
      ensures |Subs(target)| - index' < |old(Subs(target))| - index && |Subs(target)| >= index'
    {
      ghost var subs := Subs(target);
      UnderwayStep(s, open, subs, tried, index, closed, m);
      closed' := closed || !ok;
      if closed' {
        index', m' := index, (if closed then m else |s|) - 1;
        assert Underway(s, open, SwapRemove(subs, index), tried + [sender], index', true, m');
        RemoveTried(target, sender, index);
        assert Subs(target) == SwapRemove(subs, index) && |Subs(target)| == |subs| - 1;
      } else {
        index', m' := index + 1, m;
      }
    }

    /** Try every sender of the target by position. */
    method Publish(target: Option<InvoiceId>, invoice: Invoice, open: Openness) returns (tried: seq<Sender>)
      requires Valid()
      modifies this
      ensures Valid()
      ensures tried == Visits(old(Subs(target)), open)
      ensures sent == old(sent) + Deliveries(tried, invoice, open)
      ensures Subs(target) == Survivors(old(Subs(target)), open)
      ensures OthersAre(target, old(invoiceSubs), old(globalSubs))
    {
      ghost var s, m: nat := Subs(target), 0;
      var index: nat, closed := 0, false;
      tried := [];
      var next := SenderByIndex(target, index);
      while next.Some?
        invariant Valid() && next == SenderByIndex(target, index)
        invariant Underway(s, open, Subs(target), tried, index, closed, m)
        invariant OthersAre(target, old(invoiceSubs), old(globalSubs))
        invariant sent == old(sent) + Deliveries(tried, invoice, open)
        decreases |Subs(target)| - index
      {
        DeliveriesSnoc(old(sent), tried, next.value, invoice, open);
        var ok := Send(next.value, invoice, open);
        index, closed, m := MoveOn(target, next.value, ok, open, index, closed, s, tried, m);
        tried := tried + [next.value];
        next := SenderByIndex(target, index);
      }
      UnderwayEnds(s, open, Subs(target), tried, index, closed, m);
    }

    /** One publication: the invoice's own senders, then the global ones. Each open one gets the invoice once for each
        registration; nobody gets anything else. */
    method SendUpdates(invoice: Invoice, open: Openness) returns (tried: seq<Sender>)
      requires Valid()
      modifies this
      ensures Valid()
      ensures tried == TriedBy(old(State()), invoice.Id(), open)
      ensures State() == Published(old(State()), invoice.Id(), open)
      ensures sent == old(sent) + Deliveries(tried, invoice, open)
      ensures SentExactly(sent, old(sent), old(State()), invoice, open)
    {
      var own := Publish(Some(invoice.Id()), invoice, open);
      var all := Publish(None, invoice, open);
      tried := own + all;
      DeliveriesInTurn(old(sent), own, all, invoice, open);
      SendsExactly(sent, old(sent), old(State()), invoice, open);
    }
  }
}
