/** The gateway's creation and removal of invoices as steps on the subaddress cache, the store and the publisher
    (library/src/payment_gateway.rs:280-359). */
module PaymentGateways {
  import opened Prelude
  import opened Invoices
  import opened Subaddresses
  import opened SubaddressCaching
  import opened Storage
  import opened Publishing
  import L = Ledger

  datatype GatewayError = Panicked | DaemonUnreachable | Refused(reason: StoreError) | StoreUnavailable

  /** The invoice is as asked for, field by field, with nothing paid and never scanned. */
  ghost predicate IsNew(inv: Invoice, address: Text, index: SubIndex, creationHeight: u64, amount: nat,
                        confirmationsRequired: nat, expirationIn: nat, description: Text)
  {
    && inv.address == address && inv.index == index && inv.creationHeight == creationHeight
    && inv.amountRequested == amount && inv.confirmationsRequired == confirmationsRequired
    && inv.expirationHeight == creationHeight + expirationIn && inv.description == description
    && inv.amountPaid == 0 && inv.paidHeight.None? && inv.currentHeight == 0 && inv.transfers == []
  }

  /** Such an invoice, dated with a positive height, is one the ledger machine commits. */
  lemma NewIsFresh(inv: Invoice, address: Text, index: SubIndex, creationHeight: u64, amount: nat,
                   confirmationsRequired: nat, expirationIn: nat, description: Text)
    requires IsNew(inv, address, index, creationHeight, amount, confirmationsRequired, expirationIn, description)
    requires creationHeight >= 1
    ensures L.Fresh(inv) && inv.Id() == InvoiceId(index, creationHeight)
  {
  }

  /** Every entry carries the address derived for its index. */
  ghost predicate Derived(es: seq<Entry>, derive: Derivation)
  {
    forall e :: e in es ==> e.address == derive(e.subIndex)
  }

  /** So does every stored invoice. */
  ghost predicate DerivedInvoices(invoices: InvoiceTable, derive: Derivation)
  {
    forall id :: id in invoices ==> invoices[id].address == derive(id.subIndex)
  }

  lemma {:induction false} UnusedAreDerived(es: seq<Entry>, used: set<SubIndex>, derive: Derivation)
    requires Derived(es, derive)
    ensures Derived(Unused(es, used), derive)
  {
    if |es| > 0 {
      UnusedAreDerived(es[..|es| - 1], used, derive);
      assert es[|es| - 1] in es;
    }
  }

  lemma {:induction false} InsertKeepsDerived(es: seq<Entry>, e: Entry, derive: Derivation)
    requires Derived(es, derive) && e.address == derive(e.subIndex)
    ensures Derived(Insert(es, e), derive)
  {
    if |es| > 0 {
      assert es[0] in es;
      InsertKeepsDerived(es[1..], e, derive);
    }
  }

  lemma {:induction false} ExtendByKeepsDerived(c: Subaddresses, n: nat, derive: Derivation)
    requires Derived(c.available, derive)
    ensures Derived(ExtendBy(c, n, derive).available, derive)
    decreases n
  {
    if n > 0 && c.highest < U32_MAX {
      var s := SubIndex(c.majorIndex, c.highest + 1);
      InsertKeepsDerived(c.available, Entry(s, derive(s)), derive);
      var next := Subaddresses(c.majorIndex, c.highest + 1, Insert(c.available, Entry(s, derive(s))));
      ExtendByKeepsDerived(next, n - 1, derive);
    }
  }

  lemma TakeOutKeepsDerived(c: Subaddresses, draw: nat, derive: Derivation)
    requires draw < |c.available| && Derived(c.available, derive)
    ensures Derived(TakeOut(c, draw, derive).available, derive)
  {
    ExtendByKeepsDerived(c.(available := RemoveAt(c.available, draw)), MIN_AVAILABLE, derive);
  }

  /** No creation and no removal is under way; `lost` are the indices of creations that failed. */
  function Settled(c: Subaddresses, lost: multiset<SubIndex>): Lending { Lending(c, multiset{}, multiset{}, lost) }

  /** A creation, from draw to commit. */
  lemma CreationKeepsAccount(c: Subaddresses, lost: multiset<SubIndex>, ids: set<InvoiceId>, draw: nat,
                             derive: Derivation, id: InvoiceId)
    requires Accounted(Settled(c, lost), ids) && draw < |c.available| && id.subIndex == c.available[draw].subIndex
    ensures id !in ids
    ensures Accounted(Settled(TakeOut(c, draw, derive), lost), ids + {id})
    ensures Accounted(Settled(TakeOut(c, draw, derive), lost + multiset{id.subIndex}), ids)
  {
    var drawn := Draw(Settled(c, lost), draw, derive);
    DrawKeepsAccount(Settled(c, lost), ids, draw, derive);
    assert id.subIndex in drawn.drawn;
    CommitKeepsAccount(drawn, ids, id);
    AbandonKeepsAccount(drawn, ids, id.subIndex);
    assert drawn.drawn - multiset{id.subIndex} == multiset{};
  }

  /** A removal, from the store back to the cache. */
  lemma RemovalKeepsAccount(c: Subaddresses, lost: multiset<SubIndex>, ids: set<InvoiceId>, id: InvoiceId,
                            address: Text)
    requires Accounted(Settled(c, lost), ids) && id in ids
    ensures Accounted(Settled(PutBack(c, Entry(id.subIndex, address)), lost), ids - {id})
    ensures PutBack(c, Entry(id.subIndex, address)).available == c.available + [Entry(id.subIndex, address)]
  {
    var taken := Take(Settled(c, lost), id.subIndex);
    TakeKeepsAccount(Settled(c, lost), ids, id);
    assert id.subIndex in taken.returning;
    ReturnKeepsAccount(taken, ids - {id}, Entry(id.subIndex, address));
    ReturnedIsFresh(taken, ids - {id}, Entry(id.subIndex, address));
    AppendKeepsValid(c, Entry(id.subIndex, address));
    assert taken.returning - multiset{id.subIndex} == multiset{};
  }

  class PaymentGateway {
    const subaddresses: SubaddressCache
    const store: InMemory
    const publisher: Publisher
    ghost var lost: multiset<SubIndex>

    /** Every index is available, live or lost, exactly one of the three; every address is the derived one. */
    ghost predicate Valid()
      reads this, subaddresses, store, publisher
    {
      && store.Valid() && publisher.Valid()
      && Accounted(Settled(subaddresses.State(), lost), store.invoices.Keys)
      && Derived(subaddresses.availableSubaddresses, subaddresses.derive)
      && DerivedInvoices(store.invoices, subaddresses.derive)
    }

    /** Start from a store whose invoices are in the gateway's account, on distinct subaddresses. */
    constructor (store: InMemory, publisher: Publisher, majorIndex: u32, derive: Derivation)
      requires store.Valid() && publisher.Valid()
      requires OneAccount(store.invoices.Keys, majorIndex) && DerivedInvoices(store.invoices, derive)
      ensures this.store == store && this.publisher == publisher && fresh(subaddresses)
      ensures Valid() && lost == multiset{}
      ensures StartsAs(subaddresses.State(), majorIndex, UsedBy(store.invoices.Keys), derive)
    {
      var cache := new SubaddressCache(store.invoices.Keys, majorIndex, derive);
      this.store, this.publisher, subaddresses, lost := store, publisher, cache, multiset{};
      new;
      StartIsAccountedIff(cache.State(), majorIndex, store.invoices.Keys, derive);
      ghost var es := Consecutive(majorIndex, 0, cache.highestMinorIndex + 1, derive);
      UnusedAreDerived(es, UsedBy(store.invoices.Keys), derive);
    }

    /** Draw an index: until it is committed it counts as lost. */
    method Draw(draw: nat) returns (e: Entry)
      requires Valid() && draw < |subaddresses.availableSubaddresses|
      modifies this, subaddresses
      ensures Valid() && lost == old(lost) + multiset{e.subIndex}
      ensures subaddresses.State() == TakeOut(old(subaddresses.State()), draw, subaddresses.derive)
      ensures e == old(subaddresses.availableSubaddresses)[draw] && e.address == subaddresses.derive(e.subIndex)
    {
      ghost var before := subaddresses.State();
      assert before.available[draw] in before.available;
      TakeOutKeepsDerived(before, draw, subaddresses.derive);
      CreationKeepsAccount(before, lost, store.invoices.Keys, draw, subaddresses.derive,
                           InvoiceId(before.available[draw].subIndex, 0));
      var drawn := subaddresses.RemoveRandom(draw);
      e := drawn.value;
      lost := lost + multiset{e.subIndex};
    }

    /** `draw` is the random position; `reported` the daemon's answer if it is asked for its height; `saves` whether
        the store can be written. With nothing to draw from the generator panics. A failed creation does not give its
        subaddress back, and no creation ever meets the duplicate-invoice error. */
    method NewInvoice(draw: nat, cachedDaemonHeight: u64, reported: Option<u64>, saves: bool, piconeros: nat,
                      confirmationsRequired: nat, expirationIn: nat, description: Text)
      returns (r: Result<InvoiceId, GatewayError>)
      requires Valid()
      requires subaddresses.availableSubaddresses == [] || draw < |subaddresses.availableSubaddresses|
      modifies this, subaddresses, store`invoices, publisher`invoiceSubs
      ensures Valid()
      ensures r == Err(Panicked) <==> old(subaddresses.availableSubaddresses) == []
      ensures r.Ok? <==>
                old(subaddresses.availableSubaddresses) != [] && (cachedDaemonHeight != 0 || reported.Some?) && saves
      ensures subaddresses.State() ==
                if r == Err(Panicked) then old(subaddresses.State())
                else TakeOut(old(subaddresses.State()), draw, subaddresses.derive)
      ensures r.Err? ==> r.error != Refused(DuplicateInvoice)
      ensures r.Ok? && r.value.creationHeight >= 1 ==> r.value in store.invoices && L.Fresh(store.invoices[r.value])
      ensures r == Err(Panicked) ==>
                && store.invoices == old(store.invoices) && publisher.invoiceSubs == old(publisher.invoiceSubs)
                && lost == old(lost)
      ensures r != Err(Panicked) ==>
              var e := old(subaddresses.availableSubaddresses)[draw];
              if r.Ok? then
                && r.value.subIndex == e.subIndex
                && r.value.creationHeight == (if cachedDaemonHeight != 0 then cachedDaemonHeight else reported.value)
                && r.value !in old(store.invoices) && r.value in store.invoices
                && store.invoices == old(store.invoices)[r.value := store.invoices[r.value]]
                && IsNew(store.invoices[r.value], subaddresses.derive(e.subIndex), e.subIndex, r.value.creationHeight,
                         piconeros, confirmationsRequired, expirationIn, description)
                && publisher.invoiceSubs == old(publisher.invoiceSubs)[r.value := []]
                && lost == old(lost)
              else
                && store.invoices == old(store.invoices) && publisher.invoiceSubs == old(publisher.invoiceSubs)
                && lost == old(lost) + multiset{e.subIndex}
    {
      ghost var before, ids := subaddresses.State(), store.invoices.Keys;
      if subaddresses.availableSubaddresses == [] {
        var none := subaddresses.RemoveRandom(draw);
        return Err(Panicked);
      }
      var e := Draw(draw);
      var creationHeight := cachedDaemonHeight;
      if cachedDaemonHeight == 0 {
        if reported.None? { return Err(DaemonUnreachable); }
        creationHeight := reported.value;
      }
      var invoice := Invoices.NewInvoice(e.address, e.subIndex, creationHeight, piconeros, confirmationsRequired,
                                         expirationIn, description);
      if !saves { return Err(StoreUnavailable); }
      lost := old(lost);
      CreationKeepsAccount(before, lost, ids, draw, subaddresses.derive, invoice.Id());
      var inserted := store.InsertInvoice(invoice);
      assert inserted.Ok?;
      assert store.invoices.Keys == ids + {invoice.Id()};
      publisher.InsertInvoice(invoice.Id());
      return Ok(invoice.Id());
    }

    /** The removed invoice's subaddress becomes available again, and its subscriptions end. */
    method RemoveInvoice(id: InvoiceId) returns (removed: Option<Invoice>)
      requires Valid()
      modifies subaddresses, store`invoices, publisher`invoiceSubs
      ensures Valid()
      ensures removed == if id in old(store.invoices) then Some(old(store.invoices)[id]) else None
      ensures store.invoices == old(store.invoices) - {id}
      ensures subaddresses.availableSubaddresses == old(subaddresses.availableSubaddresses) +
                (if removed.Some? then [Entry(id.subIndex, subaddresses.derive(id.subIndex))] else [])
      ensures publisher.invoiceSubs ==
                if removed.Some? then old(publisher.invoiceSubs) - {id} else old(publisher.invoiceSubs)
    {
      ghost var before, ids := subaddresses.State(), store.invoices.Keys;
      removed := store.RemoveInvoice(id);
      assert store.invoices.Keys == ids - {id};
      if removed.Some? {
        RemovalKeepsAccount(before, lost, ids, id, removed.value.address);
        var previous := subaddresses.Insert(id.subIndex, removed.value.address);
        publisher.RemoveInvoice(id);
      } else {
        assert ids - {id} == ids;
        assert store.invoices == old(store.invoices);
        assert before.available + [] == before.available;
      }
    }
  }
}
