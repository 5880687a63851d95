/** The pool of subaddresses lent to invoices (library/src/caching/subaddress_cache.rs), and its traffic with the
    gateway and the store (library/src/payment_gateway.rs:280-359). */
module Subaddresses {
  import opened Prelude
  import opened Invoices

  const MIN_AVAILABLE: nat := 100
  const U32_MAX: u32 := 0xFFFF_FFFF

  datatype Entry = Entry(subIndex: SubIndex, address: Text)

  /** The address a view pair derives for each subaddress index. */
  type Derivation = SubIndex -> Text

  /** `available` is an insertion-ordered map from subaddress index to address. */
  datatype Subaddresses = Subaddresses(majorIndex: u32, highest: u32, available: seq<Entry>)

  function Indices(es: seq<Entry>): seq<SubIndex>
  {
    seq(|es|, i requires 0 <= i < |es| => es[i].subIndex)
  }

  /** Insertion into an insertion-ordered map: replace in place, or append. */
  function Insert(es: seq<Entry>, e: Entry): seq<Entry>
  {
    if |es| == 0 then [e]
    else if es[0].subIndex == e.subIndex then [e] + es[1..]
    else [es[0]] + Insert(es[1..], e)
  }

  /** Append up to n addresses after the highest index, stopping where the minor index saturates. */
  function ExtendBy(c: Subaddresses, n: nat, derive: Derivation): Subaddresses
    decreases n
  {
    if n == 0 || c.highest == U32_MAX then c
    else
      var s := SubIndex(c.majorIndex, c.highest + 1);
      ExtendBy(Subaddresses(c.majorIndex, c.highest + 1, Insert(c.available, Entry(s, derive(s)))), n - 1, derive)
  }

  /** Take the drawn entry out, then top up when at most MIN_AVAILABLE are left. */
  function TakeOut(c: Subaddresses, draw: nat, derive: Derivation): Subaddresses
    requires draw < |c.available|
  {
    var rest := c.(available := RemoveAt(c.available, draw));
    if |rest.available| <= MIN_AVAILABLE then ExtendBy(rest, MIN_AVAILABLE, derive) else rest
  }

  function PutBack(c: Subaddresses, e: Entry): Subaddresses { c.(available := Insert(c.available, e)) }

  /** Every available index is in the gateway's account, at most the highest, and listed once. */
  ghost predicate ValidSubaddresses(c: Subaddresses)
  {
    && (forall e :: e in c.available ==> e.subIndex.major == c.majorIndex && e.subIndex.minor <= c.highest)
    && forall i, j :: 0 <= i < j < |c.available| ==> c.available[i].subIndex != c.available[j].subIndex
  }

  lemma {:induction false} InsertFresh(es: seq<Entry>, e: Entry)
    requires forall x :: x in es ==> x.subIndex != e.subIndex
    ensures Insert(es, e) == es + [e]
  {
    if |es| > 0 {
      assert es[0] in es;
      InsertFresh(es[1..], e);
    }
  }

  function Lookup(es: seq<Entry>, s: SubIndex): Option<Text>
  {
    if |es| == 0 then None
    else if es[0].subIndex == s then Some(es[0].address)
    else Lookup(es[1..], s)
  }

  /** k is the first position with that index, or the length if there is none. */
  ghost predicate FirstAt(es: seq<Entry>, s: SubIndex, k: nat)
  {
    && k <= |es| && (forall i :: 0 <= i < k ==> es[i].subIndex != s)
    && (k < |es| ==> es[k].subIndex == s)
  }

  lemma {:induction false} InsertAt(es: seq<Entry>, e: Entry, k: nat)
    requires FirstAt(es, e.subIndex, k)
    ensures Insert(es, e) == if k < |es| then es[k := e] else es + [e]
    ensures Lookup(es, e.subIndex) == if k < |es| then Some(es[k].address) else None
  {
    if k > 0 {
      assert FirstAt(es[1..], e.subIndex, k - 1);
      InsertAt(es[1..], e, k - 1);
    }
  }

  // ---------------------------------------------------------------------------
  // Availability
  // ---------------------------------------------------------------------------

  lemma ExtendOnceIsFresh(c: Subaddresses, e: Entry)
    requires ValidSubaddresses(c) && c.highest < U32_MAX
    requires e.subIndex == SubIndex(c.majorIndex, c.highest + 1)
    ensures Insert(c.available, e) == c.available + [e]
    ensures ValidSubaddresses(Subaddresses(c.majorIndex, c.highest + 1, Insert(c.available, e)))
  {
    InsertFresh(c.available, e);
    var next := Subaddresses(c.majorIndex, c.highest + 1, c.available + [e]);
    forall i, j | 0 <= i < j < |next.available|
      ensures next.available[i].subIndex != next.available[j].subIndex
    {
      if j == |c.available| { assert c.available[i] in c.available; }
    }
  }

  /** The indices after c's highest, up to a new highest. */
  function NewIndices(c: Subaddresses, highest: u32): seq<SubIndex>
    requires c.highest <= highest
  {
    seq(highest - c.highest, i requires 0 <= i < highest - c.highest => SubIndex(c.majorIndex, c.highest + 1 + i))
  }

  lemma NewIndicesStep(c: Subaddresses, e: Entry, highest: u32)
    requires c.highest < highest && e.subIndex == SubIndex(c.majorIndex, c.highest + 1)
    ensures Indices(c.available + [e]) +
            NewIndices(Subaddresses(c.majorIndex, c.highest + 1, c.available + [e]), highest) ==
            Indices(c.available) + NewIndices(c, highest)
  {
    assert Indices(c.available + [e]) == Indices(c.available) + [e.subIndex];
    assert NewIndices(c, highest) ==
           [e.subIndex] + NewIndices(Subaddresses(c.majorIndex, c.highest + 1, c.available + [e]), highest);
  }

  lemma {:induction false} ExtendByHighest(c: Subaddresses, n: nat, derive: Derivation)
    ensures ExtendBy(c, n, derive).highest == Min(c.highest + n, U32_MAX)
    ensures ExtendBy(c, n, derive).majorIndex == c.majorIndex
    decreases n
  {
    if n > 0 && c.highest < U32_MAX {
      var s := SubIndex(c.majorIndex, c.highest + 1);
      var next := Subaddresses(c.majorIndex, c.highest + 1, Insert(c.available, Entry(s, derive(s))));
      ExtendByHighest(next, n - 1, derive);
    }
  }

  /** An extension appends fresh, consecutive indices: as many as asked for, or up to the last index there is. */
  lemma {:induction false} ExtendByIsFresh(c: Subaddresses, n: nat, derive: Derivation)
    requires ValidSubaddresses(c)
    ensures var r := ExtendBy(c, n, derive);
            && ValidSubaddresses(r)
            && r.majorIndex == c.majorIndex
            && r.highest == Min(c.highest + n, U32_MAX)
            && Indices(r.available) == Indices(c.available) + NewIndices(c, r.highest)
    decreases n
  {
    ExtendByHighest(c, n, derive);
    if n > 0 && c.highest < U32_MAX {
      var s := SubIndex(c.majorIndex, c.highest + 1);
      var e := Entry(s, derive(s));
      ExtendOnceIsFresh(c, e);
      var next := Subaddresses(c.majorIndex, c.highest + 1, c.available + [e]);
      assert ExtendBy(c, n, derive) == ExtendBy(next, n - 1, derive);
      ExtendByIsFresh(next, n - 1, derive);
      NewIndicesStep(c, e, ExtendBy(c, n, derive).highest);
    } else {
      assert NewIndices(c, c.highest) == [];
    }
  }

  lemma RemoveKeepsValid(c: Subaddresses, draw: nat)
    requires ValidSubaddresses(c) && draw < |c.available|
    ensures ValidSubaddresses(c.(available := RemoveAt(c.available, draw)))
  {
    var r := RemoveAt(c.available, draw);
    forall e | e in r
      ensures e in c.available
    {
    }
    forall i, j | 0 <= i < j < |r|
      ensures r[i].subIndex != r[j].subIndex
    {
      assert r[i] == c.available[if i < draw then i else i + 1];
      assert r[j] == c.available[if j < draw then j else j + 1];
    }
  }

  /** What a draw leaves: the other indices in their order, and, if at most MIN_AVAILABLE of them are left, as many new
      ones again, or up to the last there is. */
  lemma TakeOutIs(c: Subaddresses, draw: nat, derive: Derivation)
    requires ValidSubaddresses(c) && draw < |c.available|
    ensures var r, xs := TakeOut(c, draw, derive), Indices(c.available);
            && r.majorIndex == c.majorIndex
            && r.highest == (if |xs| - 1 <= 100 then Min(c.highest + 100, U32_MAX) else c.highest)
            && Indices(r.available) == xs[..draw] + xs[draw + 1..] + NewIndices(c, r.highest)
  {
    RemoveKeepsValid(c, draw);
    var rest := c.(available := RemoveAt(c.available, draw));
    assert Indices(rest.available) == Indices(c.available)[..draw] + Indices(c.available)[draw + 1..];
    if |rest.available| <= MIN_AVAILABLE {
      ExtendByIsFresh(rest, MIN_AVAILABLE, derive);
      var r := ExtendBy(rest, MIN_AVAILABLE, derive);
      assert NewIndices(rest, r.highest) == NewIndices(c, r.highest);
    } else {
      assert NewIndices(c, c.highest) == [];
    }
  }

  /** Allocator availability: after every draw at least MIN_AVAILABLE subaddresses are left, unless the account
      has used up its last minor index. */
  lemma TakeOutLeavesEnough(c: Subaddresses, draw: nat, derive: Derivation)
    requires ValidSubaddresses(c) && draw < |c.available|
    ensures var r := TakeOut(c, draw, derive);
            && ValidSubaddresses(r)
            && c.highest <= r.highest
            && (r.highest < U32_MAX ==> |r.available| >= MIN_AVAILABLE)
            && multiset(Indices(r.available)) + multiset{c.available[draw].subIndex} ==
                 multiset(Indices(c.available)) + multiset(NewIndices(c, r.highest))
  {
    RemoveKeepsValid(c, draw);
    var rest := c.(available := RemoveAt(c.available, draw));
    RemoveAtIndices(c.available, draw);
    if |rest.available| <= MIN_AVAILABLE {
      ExtendByIsFresh(rest, MIN_AVAILABLE, derive);
      var r := ExtendBy(rest, MIN_AVAILABLE, derive);
      assert NewIndices(rest, r.highest) == NewIndices(c, r.highest);
      assert |r.available| == |Indices(r.available)| == |Indices(rest.available)| + (r.highest - rest.highest);
    } else {
      assert NewIndices(c, c.highest) == [];
    }
  }

  lemma RemoveAtIndices(es: seq<Entry>, k: nat)
    requires k < |es|
    ensures multiset(Indices(RemoveAt(es, k))) + multiset{es[k].subIndex} == multiset(Indices(es))
  {
    var xs := Indices(es);
    assert Indices(RemoveAt(es, k)) == RemoveAt(xs, k);
    assert xs == xs[..k] + [xs[k]] + xs[k + 1..];
  }

  // ---------------------------------------------------------------------------
  // Lending: draws, commits, removals and returns in any interleaving
  // ---------------------------------------------------------------------------

  /** Where the indices are: available, drawn by a creation in progress, taken out of the store by a removal in
      progress, or lost by a creation that failed. The live ones are those of the stored invoices. */
  datatype Lending = Lending(cache: Subaddresses, drawn: multiset<SubIndex>, returning: multiset<SubIndex>,
                             lost: multiset<SubIndex>)

  predicate InAccount(c: Subaddresses, s: SubIndex) { s.major == c.majorIndex && s.minor <= c.highest }

  function Live(ids: set<InvoiceId>, s: SubIndex): set<InvoiceId> { set id | id in ids && id.subIndex == s }

  function Places(l: Lending, ids: set<InvoiceId>, s: SubIndex): nat
  {
    multiset(Indices(l.cache.available))[s] + l.drawn[s] + l.returning[s] + l.lost[s] + |Live(ids, s)|
  }

  /** Every index up to the highest is in exactly one place, and no other index is anywhere. */
  ghost predicate Accounted(l: Lending, ids: set<InvoiceId>)
  {
    && ValidSubaddresses(l.cache)
    && forall s: SubIndex :: Places(l, ids, s) == if InAccount(l.cache, s) then 1 else 0
  }

  function Draw(l: Lending, draw: nat, derive: Derivation): Lending
    requires draw < |l.cache.available|
  {
    l.(cache := TakeOut(l.cache, draw, derive), drawn := l.drawn + multiset{l.cache.available[draw].subIndex})
  }

  /** A creation ends: in the store (committed) or with an error (its index is lost). */
  function Commit(l: Lending, s: SubIndex): Lending { l.(drawn := l.drawn - multiset{s}) }

  function Abandon(l: Lending, s: SubIndex): Lending
  {
    l.(drawn := l.drawn - multiset{s}, lost := l.lost + multiset{s})
  }

  function Take(l: Lending, s: SubIndex): Lending { l.(returning := l.returning + multiset{s}) }

  function Return(l: Lending, e: Entry): Lending
  {
    l.(cache := PutBack(l.cache, e), returning := l.returning - multiset{e.subIndex})
  }

  lemma {:induction false} CountNewIndices(c: Subaddresses, highest: u32, s: SubIndex)
    requires c.highest <= highest
    ensures multiset(NewIndices(c, highest))[s] ==
            if InAccount(c.(highest := highest), s) && !InAccount(c, s) then 1 else 0
    decreases highest
  {
    if c.highest < highest {
      CountNewIndices(c, highest - 1, s);
      assert NewIndices(c, highest) == NewIndices(c, highest - 1) + [SubIndex(c.majorIndex, highest)];
    } else {
      assert NewIndices(c, highest) == [];
    }
  }

  lemma DrawKeepsAccount(l: Lending, ids: set<InvoiceId>, draw: nat, derive: Derivation)
    requires Accounted(l, ids) && draw < |l.cache.available|
    ensures Accounted(Draw(l, draw, derive), ids)
  {
    TakeOutLeavesEnough(l.cache, draw, derive);
    var l' := Draw(l, draw, derive);
    forall s: SubIndex
      ensures Places(l', ids, s) == if InAccount(l'.cache, s) then 1 else 0
    {
      CountNewIndices(l.cache, l'.cache.highest, s);
      CountMoved(multiset(Indices(l'.cache.available)), l.cache.available[draw].subIndex,
                 multiset(Indices(l.cache.available)), multiset(NewIndices(l.cache, l'.cache.highest)), s);
      assert Places(l, ids, s) == if InAccount(l.cache, s) then 1 else 0;
      TakeOutAccount(l.cache, draw, derive);
    }
  }

  lemma TakeOutAccount(c: Subaddresses, draw: nat, derive: Derivation)
    requires ValidSubaddresses(c) && draw < |c.available|
    ensures TakeOut(c, draw, derive).majorIndex == c.majorIndex
  {
    RemoveKeepsValid(c, draw);
    ExtendByIsFresh(c.(available := RemoveAt(c.available, draw)), MIN_AVAILABLE, derive);
  }

  lemma CountMoved<T>(after: multiset<T>, x: T, before: multiset<T>, fresh_: multiset<T>, s: T)
    requires after + multiset{x} == before + fresh_
    ensures after[s] + multiset{x}[s] == before[s] + fresh_[s]
  {
    assert (after + multiset{x})[s] == (before + fresh_)[s];
  }

  lemma LiveAdd(ids: set<InvoiceId>, id: InvoiceId, s: SubIndex)
    requires id !in ids
    ensures |Live(ids + {id}, s)| == |Live(ids, s)| + (if id.subIndex == s then 1 else 0)
  {
    if id.subIndex == s {
      assert Live(ids + {id}, s) == Live(ids, s) + {id};
    } else {
      assert Live(ids + {id}, s) == Live(ids, s);
    }
  }

  /** A drawn index is not live, so storing the new invoice cannot hit the duplicate-invoice error. */
  lemma DrawnIsNotLive(l: Lending, ids: set<InvoiceId>, s: SubIndex)
    requires Accounted(l, ids) && (s in l.drawn || s in l.returning || s in l.lost || s in Indices(l.cache.available))
    ensures forall id :: id in ids ==> id.subIndex != s
  {
    assert Places(l, ids, s) <= 1;
    assert s in Indices(l.cache.available) ==> s in multiset(Indices(l.cache.available));
    assert |Live(ids, s)| == 0;
    forall id | id in ids
      ensures id.subIndex != s
    {
      assert id.subIndex == s <==> id in Live(ids, s);
    }
  }

  lemma CommitKeepsAccount(l: Lending, ids: set<InvoiceId>, id: InvoiceId)
    requires Accounted(l, ids) && id.subIndex in l.drawn
    ensures id !in ids
    ensures Accounted(Commit(l, id.subIndex), ids + {id})
  {
    DrawnIsNotLive(l, ids, id.subIndex);
    var l' := Commit(l, id.subIndex);
    forall s: SubIndex
      ensures Places(l', ids + {id}, s) == Places(l, ids, s)
    {
      LiveAdd(ids, id, s);
    }
  }

  lemma AbandonKeepsAccount(l: Lending, ids: set<InvoiceId>, s: SubIndex)
    requires Accounted(l, ids) && s in l.drawn
    ensures Accounted(Abandon(l, s), ids)
  {
    forall t: SubIndex
      ensures Places(Abandon(l, s), ids, t) == Places(l, ids, t)
    {
    }
  }

  lemma TakeKeepsAccount(l: Lending, ids: set<InvoiceId>, id: InvoiceId)
    requires Accounted(l, ids) && id in ids
    ensures Accounted(Take(l, id.subIndex), ids - {id})
  {
    var rest := ids - {id};
    forall s: SubIndex
      ensures Places(Take(l, id.subIndex), rest, s) == Places(l, ids, s)
    {
      LiveAdd(rest, id, s);
      assert rest + {id} == ids;
    }
  }

  lemma ReturnedIsFresh(l: Lending, ids: set<InvoiceId>, e: Entry)
    requires Accounted(l, ids) && e.subIndex in l.returning
    ensures InAccount(l.cache, e.subIndex)
    ensures forall x :: x in l.cache.available ==> x.subIndex != e.subIndex
  {
    assert Places(l, ids, e.subIndex) == if InAccount(l.cache, e.subIndex) then 1 else 0;
    forall x | x in l.cache.available
      ensures x.subIndex != e.subIndex
    {
      var i :| 0 <= i < |l.cache.available| && l.cache.available[i] == x;
      assert Indices(l.cache.available)[i] == x.subIndex;
      assert x.subIndex in multiset(Indices(l.cache.available));
    }
  }

  lemma AppendKeepsValid(c: Subaddresses, e: Entry)
    requires ValidSubaddresses(c) && InAccount(c, e.subIndex)
    requires forall x :: x in c.available ==> x.subIndex != e.subIndex
    ensures PutBack(c, e).available == c.available + [e]
    ensures ValidSubaddresses(PutBack(c, e))
  {
    InsertFresh(c.available, e);
    var r := c.available + [e];
    forall i, j | 0 <= i < j < |r|
      ensures r[i].subIndex != r[j].subIndex
    {
      if j == |c.available| { assert c.available[i] in c.available; }
    }
  }

  lemma ReturnKeepsAccount(l: Lending, ids: set<InvoiceId>, e: Entry)
    requires Accounted(l, ids) && e.subIndex in l.returning
    ensures Accounted(Return(l, e), ids)
  {
    ReturnedIsFresh(l, ids, e);
    AppendKeepsValid(l.cache, e);
    var l' := Return(l, e);
    assert Indices(l'.cache.available) == Indices(l.cache.available) + [e.subIndex];
    forall s: SubIndex
      ensures Places(l', ids, s) == if InAccount(l'.cache, s) then 1 else 0
    {
      assert Places(l, ids, s) == if InAccount(l.cache, s) then 1 else 0;
    }
  }

  /** No two live invoices share a subaddress. */
  lemma LiveAreDistinct(l: Lending, ids: set<InvoiceId>, a: InvoiceId, b: InvoiceId)
    requires Accounted(l, ids) && a in ids && b in ids && a.subIndex == b.subIndex
    ensures a == b
  {
    var live := Live(ids, a.subIndex);
    assert Places(l, ids, a.subIndex) <= 1;
    assert a in live && b in live;
    SubsetSize({a, b}, live);
    assert a != b ==> |{a, b}| == 2;
  }

  /** With no creation or removal under way and none ever failed, available and live indices partition 0..highest. */
  lemma AvailableAndLivePartition(l: Lending, ids: set<InvoiceId>, s: SubIndex)
    requires Accounted(l, ids)
    requires l.drawn == multiset{} && l.returning == multiset{} && l.lost == multiset{}
    ensures InAccount(l.cache, s) <==> s in Indices(l.cache.available) || exists id :: id in ids && id.subIndex == s
    ensures !(s in Indices(l.cache.available) && exists id :: id in ids && id.subIndex == s)
  {
    var free := multiset(Indices(l.cache.available))[s];
    assert Places(l, ids, s) == free + |Live(ids, s)|;
    assert s in Indices(l.cache.available) <==> free > 0;
    if id :| id in ids && id.subIndex == s {
      assert id in Live(ids, s);
    }
    if |Live(ids, s)| > 0 {
      var id :| id in Live(ids, s);
    }
  }
}
