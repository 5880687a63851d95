/** Invoices, transfers and their orderings (library/src/invoice.rs). */
module Invoices {
  import opened Prelude

  /** A subaddress index. */
  datatype SubIndex = SubIndex(major: u32, minor: u32)

  /** An invoice is identified by its subaddress index and its creation height. */
  datatype InvoiceId = InvoiceId(subIndex: SubIndex, creationHeight: u64)

  /** Piconeros received at a height; no height means the output is still in the txpool. */
  datatype Transfer = Transfer(amount: nat, height: Option<nat>)

  /** An address or a description, compared as a whole. */
  datatype Text = Text(chars: string)

  datatype Invoice = Invoice(
    address: Text,
    index: SubIndex,
    creationHeight: u64,
    amountRequested: nat,
    amountPaid: nat,
    paidHeight: Option<nat>,
    confirmationsRequired: nat,
    currentHeight: nat,
    expirationHeight: nat,
    transfers: seq<Transfer>,
    description: Text)
  {
    function Id(): InvoiceId { InvoiceId(index, creationHeight) }

    function Confirmations(): Option<nat>
    {
      if amountPaid >= amountRequested then
        match paidHeight
        case None => Some(0)
        case Some(paidAt) => Some(SaturatingSub(currentHeight, paidAt))
      else
        None
    }

    predicate IsConfirmed()
    {
      Confirmations().Some? && Confirmations().value >= confirmationsRequired
    }
  }

  /** A fresh invoice: nothing paid, never scanned. */
  function NewInvoice(address: Text, index: SubIndex, creationHeight: u64, amountRequested: nat,
                      confirmationsRequired: nat, expirationIn: nat, description: Text): Invoice
  {
    Invoice(address, index, creationHeight, amountRequested, 0, None, confirmationsRequired, 0,
            creationHeight + expirationIn, [], description)
  }

  function CompareSubIndex(a: SubIndex, b: SubIndex): Ordering
  {
    match CompareInts(a.major, b.major)
    case Equal => CompareInts(a.minor, b.minor)
    case Greater => Greater
    case Less => Less
  }

  function CompareInvoiceId(a: InvoiceId, b: InvoiceId): Ordering
  {
    match CompareSubIndex(a.subIndex, b.subIndex)
    case Equal => CompareInts(a.creationHeight, b.creationHeight)
    case Greater => Greater
    case Less => Less
  }

  /** Newer is greater; the txpool is newer than every block. */
  function CompareByHeight(a: Transfer, b: Transfer): Ordering
  {
    match a.height
    case Some(h) =>
      (match b.height
       case Some(g) => CompareInts(h, g)
       case None => Less)
    case None =>
      (match b.height
       case Some(_) => Greater
       case None => Equal)
  }

  /** The list with the last occurrence of t taken out, if there is one. */
  function Without(ts: seq<Transfer>, t: Transfer): Option<seq<Transfer>>
  {
    if |ts| == 0 then None
    else if ts[|ts| - 1] == t then Some(ts[..|ts| - 1])
    else
      match Without(ts[..|ts| - 1], t)
      case None => None
      case Some(rest) => Some(rest + [ts[|ts| - 1]])
  }

  /** One list is a rearrangement of the other. */
  predicate SameTransfers(a: seq<Transfer>, b: seq<Transfer>)
  {
    if |a| == 0 then |b| == 0
    else
      match Without(b, a[|a| - 1])
      case None => false
      case Some(rest) => SameTransfers(a[..|a| - 1], rest)
  }

  lemma {:induction false} WithoutTakesOne(ts: seq<Transfer>, t: Transfer)
    ensures Without(ts, t).Some? <==> t in multiset(ts)
    ensures Without(ts, t).Some? ==> multiset(Without(ts, t).value) == multiset(ts) - multiset{t}
  {
    if |ts| > 0 {
      var init, last := ts[..|ts| - 1], ts[|ts| - 1];
      WithoutTakesOne(init, t);
      MultisetSnoc(init, last);
      assert ts == init + [last];
      if last != t && Without(init, t).Some? {
        MultisetSnoc(Without(init, t).value, last);
      }
    }
  }

  lemma MultisetSnoc<T>(s: seq<T>, x: T)
    ensures multiset(s + [x]) == multiset(s) + multiset{x}
  {
  }

  /** Rearrangements are the lists with the same transfers, each as often. */
  lemma {:induction false} SameTransfersIff(a: seq<Transfer>, b: seq<Transfer>)
    ensures SameTransfers(a, b) <==> multiset(a) == multiset(b)
  {
    if |a| == 0 {
      assert |multiset(a)| == 0 && |multiset(b)| == |b|;
    } else {
      var init, last := a[..|a| - 1], a[|a| - 1];
      assert a == init + [last];
      MultisetSnoc(init, last);
      WithoutTakesOne(b, last);
      if Without(b, last).Some? {
        SameTransfersIff(init, Without(b, last).value);
      }
    }
  }

  /** Equality of invoices that ignores the order of their transfers. */
  predicate SameInvoice(a: Invoice, b: Invoice)
  {
    && SameTransfers(a.transfers, b.transfers)
    && a.(transfers := []) == b.(transfers := [])
  }

  /** `counts` holds, for every transfer that occurs in `ts`, how often it does. */
  ghost predicate Counts(counts: map<Transfer, nat>, ts: seq<Transfer>)
  {
    forall t :: (t in counts <==> t in multiset(ts)) && (t in counts ==> counts[t] == multiset(ts)[t])
  }

  method CountTransfers(ts: seq<Transfer>) returns (counts: map<Transfer, nat>)
    ensures Counts(counts, ts)
  {
    counts := map[];
    for i := 0 to |ts|
      invariant Counts(counts, ts[..i])
    {
      assert ts[..i + 1] == ts[..i] + [ts[i]];
      var t := ts[i];
      counts := counts[t := (if t in counts then counts[t] else 0) + 1];
    }
    assert ts[..|ts|] == ts;
  }

  lemma EqualCounts(c: map<Transfer, nat>, ts: seq<Transfer>, d: map<Transfer, nat>, us: seq<Transfer>)
    requires Counts(c, ts) && Counts(d, us)
    ensures c == d <==> multiset(ts) == multiset(us)
  {
    if multiset(ts) == multiset(us) {
      assert forall t :: t in c <==> t in d;
    }
    if c == d {
      forall t: Transfer
        ensures multiset(ts)[t] == multiset(us)[t]
      {
        assert t in c <==> t in multiset(ts);
        assert t in d <==> t in multiset(us);
      }
    }
  }

  /** The hand-written invoice equality: count the transfers of each side, then compare. */
  method InvoicesEqual(a: Invoice, b: Invoice) returns (same: bool)
    ensures same <==> SameInvoice(a, b)
  {
    var lhs := CountTransfers(a.transfers);
    var rhs := CountTransfers(b.transfers);
    EqualCounts(lhs, a.transfers, rhs, b.transfers);
    SameTransfersIff(a.transfers, b.transfers);
    same := lhs == rhs
      && a.address == b.address
      && a.index == b.index
      && a.creationHeight == b.creationHeight
      && a.amountRequested == b.amountRequested
      && a.amountPaid == b.amountPaid
      && a.paidHeight == b.paidHeight
      && a.confirmationsRequired == b.confirmationsRequired
      && a.currentHeight == b.currentHeight
      && a.expirationHeight == b.expirationHeight
      && a.description == b.description;
  }
}
