/** The in-memory store (library/src/storage/stores/in_memory.rs). */
module Storage {
  import opened Prelude
  import opened Invoices
  import opened Chain
  import opened OutputKeys

  datatype StoreError = DuplicateInvoice | DuplicateOutputKey

  type InvoiceTable = map<InvoiceId, Invoice>

  /** Every invoice is filed under its own id. */
  predicate WellFiled(invoices: InvoiceTable)
  {
    forall id :: id in invoices ==> invoices[id].Id() == id
  }

  /** The in-memory test for "is this subaddress tracked": is any stored id at or above its first possible id? */
  predicate RangeTest(invoices: InvoiceTable, s: SubIndex)
  {
    exists id :: id in invoices && CompareInvoiceId(id, InvoiceId(s, 0)) != Less
  }

  /** The exact test, which the SQL store runs as a count. */
  predicate ExactTest(invoices: InvoiceTable, s: SubIndex)
  {
    exists id :: id in invoices && id.subIndex == s
  }

  /** A filter that lets every live subaddress through. */
  ghost predicate CoversLive(contains: SubIndex -> bool, invoices: InvoiceTable)
  {
    forall id :: id in invoices ==> contains(id.subIndex)
  }

  /** The range test is one-sided: it also answers yes for every subaddress below a stored one. */
  lemma RangeTestIsOneSided(invoices: InvoiceTable, s: SubIndex)
    ensures RangeTest(invoices, s) <==>
            ExactTest(invoices, s) || exists id :: id in invoices && CompareSubIndex(id.subIndex, s) == Greater
  {
    if ExactTest(invoices, s) {
      var id :| id in invoices && id.subIndex == s;
      assert CompareInvoiceId(id, InvoiceId(s, 0)) != Less;
    }
    if id :| id in invoices && CompareSubIndex(id.subIndex, s) == Greater {
      assert CompareInvoiceId(id, InvoiceId(s, 0)) != Less;
    }
    if RangeTest(invoices, s) {
      var id :| id in invoices && CompareInvoiceId(id, InvoiceId(s, 0)) != Less;
      assert id.subIndex == s || CompareSubIndex(id.subIndex, s) == Greater;
    }
  }

  function RangeFilter(invoices: InvoiceTable): SubIndex -> bool { s => RangeTest(invoices, s) }

  function ExactFilter(invoices: InvoiceTable): SubIndex -> bool { s => ExactTest(invoices, s) }

  lemma LivePassesTests(invoices: InvoiceTable, id: InvoiceId)
    requires id in invoices
    ensures RangeTest(invoices, id.subIndex) && ExactTest(invoices, id.subIndex)
  {
    RangeTestIsOneSided(invoices, id.subIndex);
  }

  /** Both tests let every live subaddress through. */
  lemma TestsCoverLive(invoices: InvoiceTable)
    ensures CoversLive(RangeFilter(invoices), invoices)
    ensures CoversLive(ExactFilter(invoices), invoices)
  {
    forall id | id in invoices
      ensures RangeFilter(invoices)(id.subIndex) && ExactFilter(invoices)(id.subIndex)
    {
      LivePassesTests(invoices, id);
    }
  }

  class InMemory {
    var invoices: InvoiceTable
    var outputKeys: KeyTable
    var height: Option<nat>

    ghost predicate Valid()
      reads this
    {
      WellFiled(invoices)
    }

    constructor ()
      ensures Valid() && invoices == map[] && outputKeys == map[] && height == None
    {
      invoices, outputKeys, height := map[], map[], None;
    }

    method InsertInvoice(invoice: Invoice) returns (r: Result<(), StoreError>)
      requires Valid()
      modifies this`invoices
      ensures Valid()
      ensures r.Err? <==> invoice.Id() in old(invoices)
      ensures r.Err? ==> r.error == DuplicateInvoice && invoices == old(invoices)
      ensures r.Ok? ==> invoices == old(invoices)[invoice.Id() := invoice]
    {
      if invoice.Id() in invoices { return Err(DuplicateInvoice); }
      invoices := invoices[invoice.Id() := invoice];
      return Ok(());
    }

    method RemoveInvoice(id: InvoiceId) returns (removed: Option<Invoice>)
      requires Valid()
      modifies this`invoices
      ensures Valid()
      ensures removed == if id in old(invoices) then Some(old(invoices)[id]) else None
      ensures invoices == old(invoices) - {id}
    {
      removed := if id in invoices then Some(invoices[id]) else None;
      invoices := invoices - {id};
    }

    /** Replaces an invoice that is still there; never resurrects a removed one. */
    method UpdateInvoice(invoice: Invoice) returns (replaced: Option<Invoice>)
      requires Valid()
      modifies this`invoices
      ensures Valid() && invoices.Keys == old(invoices).Keys
      ensures replaced == if invoice.Id() in old(invoices) then Some(old(invoices)[invoice.Id()]) else None
      ensures invoices == if replaced.Some? then old(invoices)[invoice.Id() := invoice] else old(invoices)
    {
      if invoice.Id() in invoices {
        replaced := Some(invoices[invoice.Id()]);
        invoices := invoices[invoice.Id() := invoice];
      } else {
        replaced := None;
      }
    }

    method InsertOutputKey(key: OutputKey, id: OutputId) returns (r: Result<(), StoreError>)
      modifies this`outputKeys
      ensures r.Err? <==> key in old(outputKeys)
      ensures r.Err? ==> r.error == DuplicateOutputKey
      ensures outputKeys == if r.Ok? then old(outputKeys)[key := id] else old(outputKeys)
      ensures Extends(old(outputKeys), outputKeys)
    {
      if key in outputKeys { return Err(DuplicateOutputKey); }
      outputKeys := outputKeys[key := id];
      return Ok(());
    }

    function OutputKeyId(key: OutputKey): Option<OutputId>
      reads this
    {
      if key in outputKeys then Some(outputKeys[key]) else None
    }

    method UpsertHeight(h: nat) returns (previous: Option<nat>)
      modifies this`height
      ensures height == Some(h) && previous == old(height)
    {
      previous, height := height, Some(h);
    }

    /** The height scanned last: as stored, or else the lowest current height of a stored invoice. */
    method LastHeight() returns (last: Option<nat>)
      ensures height.Some? ==> last == height
      ensures height.None? ==>
                && (last.None? <==> invoices == map[])
                && (last.Some? ==> exists id :: id in invoices && invoices[id].currentHeight == last.value)
                && (last.Some? ==> forall id :: id in invoices ==> last.value <= invoices[id].currentHeight)
    {
      if height.Some? { return height; }
      last := LowestHeight();
    }

    /** Lowest current height of a stored invoice. */
    method LowestHeight() returns (lowest: Option<nat>)
      ensures lowest.None? <==> invoices == map[]
      ensures lowest.Some? ==> exists id :: id in invoices && invoices[id].currentHeight == lowest.value
      ensures lowest.Some? ==> forall id :: id in invoices ==> lowest.value <= invoices[id].currentHeight
    {
      lowest := None;
      var rest := invoices.Keys;
      while rest != {}
        invariant rest <= invoices.Keys
        invariant lowest.None? <==> rest == invoices.Keys
        invariant lowest.Some? ==> exists id :: id in invoices && invoices[id].currentHeight == lowest.value
        invariant forall id :: id in invoices && id !in rest ==>
                    lowest.Some? && lowest.value <= invoices[id].currentHeight
      {
        var id :| id in rest;
        var h := invoices[id].currentHeight;
        if lowest.None? || lowest.value > h {
          lowest := Some(h);
        }
        rest := rest - {id};
      }
    }
  }
}
