/** Totalling the transfers of an invoice: what was paid, and at which height (library/src/scanner.rs:226-239). */
module Transfers {
  import opened Prelude
  import opened Invoices

  /** Oldest first, txpool last. */
  predicate Sorted(ts: seq<Transfer>)
  {
    forall i, j :: 0 <= i < j < |ts| ==> CompareByHeight(ts[i], ts[j]) != Greater
  }

  /** Transfers received at exactly this height (no height: in the txpool). */
  function At(h: Option<nat>): Transfer -> bool { (t: Transfer) => t.height == h }

  /** Transfers mined at or below this height; with no height, every transfer. */
  function Until(h: Option<nat>): Transfer -> bool
  {
    (t: Transfer) => h.None? || (t.height.Some? && t.height.value <= h.value)
  }

  /** The amounts of the transfers that satisfy `p`, in order. */
  function Select(ts: seq<Transfer>, p: Transfer -> bool): seq<nat>
  {
    if |ts| == 0 then []
    else Select(ts[..|ts| - 1], p) + (if p(ts[|ts| - 1]) then [ts[|ts| - 1].amount] else [])
  }

  function SumUntil(ts: seq<Transfer>, h: Option<nat>): nat { Sum(Select(ts, Until(h))) }

  lemma {:induction false} SelectConcat(a: seq<Transfer>, b: seq<Transfer>, p: Transfer -> bool)
    ensures Select(a + b, p) == Select(a, p) + Select(b, p)
  {
    if |b| == 0 {
      assert a + b == a;
    } else {
      assert (a + b)[..|a + b| - 1] == a + b[..|b| - 1];
      SelectConcat(a, b[..|b| - 1], p);
    }
  }

  lemma SelectOne(t: Transfer, p: Transfer -> bool)
    ensures Select([t], p) == if p(t) then [t.amount] else []
  {
    assert [t][..|[t]| - 1] == [];
  }

  lemma {:induction false} SelectNone(ts: seq<Transfer>, p: Transfer -> bool)
    requires forall i :: 0 <= i < |ts| ==> !p(ts[i])
    ensures Select(ts, p) == []
  {
    if |ts| > 0 { SelectNone(ts[..|ts| - 1], p); }
  }

  lemma {:induction false} SelectSame(ts: seq<Transfer>, p: Transfer -> bool, q: Transfer -> bool)
    requires forall i :: 0 <= i < |ts| ==> p(ts[i]) == q(ts[i])
    ensures Select(ts, p) == Select(ts, q)
  {
    if |ts| > 0 { SelectSame(ts[..|ts| - 1], p, q); }
  }

  /** Which amounts are selected does not depend on the order of the transfers. */
  lemma {:induction false} SelectPermutation(a: seq<Transfer>, b: seq<Transfer>, p: Transfer -> bool)
    requires multiset(a) == multiset(b)
    ensures multiset(Select(a, p)) == multiset(Select(b, p))
    decreases |a|
  {
    if |a| == 0 {
      assert |multiset(b)| == 0;
      assert b == [];
    } else {
      var k := FindLast(a, b);
      SelectPermutation(a[..|a| - 1], RemoveAt(b, k), p);
      assert b == b[..k] + [b[k]] + b[k + 1..];
      SelectConcat(b[..k], b[k + 1..], p);
      SelectConcat(b[..k], [b[k]], p);
      SelectConcat(b[..k] + [b[k]], b[k + 1..], p);
    }
  }

  lemma SumUntilPermutation(a: seq<Transfer>, b: seq<Transfer>, h: Option<nat>)
    requires multiset(a) == multiset(b)
    ensures SumUntil(a, h) == SumUntil(b, h)
  {
    SelectPermutation(a, b, Until(h));
    SumPermutation(Select(a, Until(h)), Select(b, Until(h)));
  }

  lemma SumUntilSnoc(ts: seq<Transfer>, h: Option<nat>)
    requires |ts| > 0
    ensures SumUntil(ts, h) == SumUntil(ts[..|ts| - 1], h) + (if Until(h)(ts[|ts| - 1]) then ts[|ts| - 1].amount else 0)
  {
    var init := Select(ts[..|ts| - 1], Until(h));
    if Until(h)(ts[|ts| - 1]) {
      SumConcat(init, [ts[|ts| - 1].amount]);
    } else {
      assert init + [] == init;
    }
  }

  /** Cumulative sums grow by what each height brings. */
  lemma {:induction false} SumUntilStep(ts: seq<Transfer>, h: nat)
    ensures SumUntil(ts, Some(h)) == (if h == 0 then 0 else SumUntil(ts, Some(h - 1))) + Sum(Select(ts, At(Some(h))))
  {
    if |ts| > 0 {
      var init, last := ts[..|ts| - 1], ts[|ts| - 1];
      SumUntilStep(init, h);
      SumUntilSnoc(ts, Some(h));
      if h > 0 { SumUntilSnoc(ts, Some(h - 1)); }
      SumConcat(Select(init, At(Some(h))), if At(Some(h))(last) then [last.amount] else []);
    }
  }

  /** The same amounts at every height up to h. */
  ghost predicate SameUpTo(a: seq<Transfer>, b: seq<Transfer>, h: nat)
  {
    forall k: nat :: k <= h ==> multiset(Select(a, At(Some(k)))) == multiset(Select(b, At(Some(k))))
  }

  /** Then the cumulative sums agree up to h. */
  lemma {:induction false} SumUntilByHeight(a: seq<Transfer>, b: seq<Transfer>, h: nat)
    requires SameUpTo(a, b, h)
    ensures SumUntil(a, Some(h)) == SumUntil(b, Some(h))
  {
    SumUntilStep(a, h);
    SumUntilStep(b, h);
    SumPermutation(Select(a, At(Some(h))), Select(b, At(Some(h))));
    if h > 0 { SumUntilByHeight(a, b, h - 1); }
  }

  lemma {:induction false} SelectFinds(ts: seq<Transfer>, t: Transfer)
    requires t in ts
    ensures Select(ts, At(t.height)) != []
  {
    if ts[|ts| - 1] != t { SelectFinds(ts[..|ts| - 1], t); }
  }

  lemma {:induction false} SelectFound(ts: seq<Transfer>, h: Option<nat>)
    requires Select(ts, At(h)) != []
    ensures exists t :: t in ts && t.height == h
  {
    if ts[|ts| - 1].height == h {
      assert ts[|ts| - 1] in ts;
    } else {
      SelectFound(ts[..|ts| - 1], h);
      var t :| t in ts[..|ts| - 1] && t.height == h;
      assert t in ts;
    }
  }

  /** A list of transfers is determined, up to order, by the amounts at each height. */
  lemma {:induction false} CountByHeight(ts: seq<Transfer>, t: Transfer)
    ensures multiset(ts)[t] == multiset(Select(ts, At(t.height)))[t.amount]
  {
    if |ts| > 0 {
      var init, last := ts[..|ts| - 1], ts[|ts| - 1];
      CountByHeight(init, t);
      assert ts == init + [last];
    }
  }

  lemma SameByHeight(a: seq<Transfer>, b: seq<Transfer>)
    requires forall h: Option<nat> :: multiset(Select(a, At(h))) == multiset(Select(b, At(h)))
    ensures multiset(a) == multiset(b)
  {
    forall t: Transfer
      ensures multiset(a)[t] == multiset(b)[t]
    {
      CountByHeight(a, t);
      CountByHeight(b, t);
    }
  }

  /** Cumulative sums never exceed the total. */
  /** All transfers together. */
  function Total(ts: seq<Transfer>): nat { Sum(seq(|ts|, i requires 0 <= i < |ts| => ts[i].amount)) }

  lemma {:induction false} TotalIsSumUntil(ts: seq<Transfer>)
    ensures SumUntil(ts, None) == Total(ts)
  {
    if |ts| > 0 {
      var init, last := ts[..|ts| - 1], ts[|ts| - 1];
      TotalIsSumUntil(init);
      SumUntilSnoc(ts, None);
      var amounts := seq(|ts|, i requires 0 <= i < |ts| => ts[i].amount);
      assert amounts[..|ts| - 1] == seq(|init|, i requires 0 <= i < |init| => init[i].amount);
    }
  }

  lemma {:induction false} SumUntilBelowTotal(ts: seq<Transfer>, h: Option<nat>)
    ensures SumUntil(ts, h) <= SumUntil(ts, None)
  {
    if |ts| > 0 {
      SumUntilBelowTotal(ts[..|ts| - 1], h);
      SumUntilSnoc(ts, h);
      SumUntilSnoc(ts, None);
    }
  }

  /** The total is what was mined up to the highest height present, plus the pool. */
  lemma {:induction false} TotalByHeight(ts: seq<Transfer>, h: nat)
    requires forall t :: t in ts && t.height.Some? ==> t.height.value <= h
    ensures SumUntil(ts, None) == SumUntil(ts, Some(h)) + Sum(Select(ts, At(None)))
  {
    if |ts| > 0 {
      var init, last := ts[..|ts| - 1], ts[|ts| - 1];
      assert last in ts;
      TotalByHeight(init, h);
      SumUntilSnoc(ts, None);
      SumUntilSnoc(ts, Some(h));
      SumConcat(Select(init, At(None)), if At(None)(last) then [last.amount] else []);
    }
  }

  /** The recount: add up in order; the height at which the request is first met becomes the paid height. */
  datatype Tallied = Tallied(paid: nat, paidHeight: Option<nat>)

  function Tally(ts: seq<Transfer>, requested: nat): Tallied
  {
    if |ts| == 0 then Tallied(0, None)
    else
      var last := ts[|ts| - 1];
      var before := Tally(ts[..|ts| - 1], requested);
      var paid := before.paid + last.amount;
      Tallied(paid, if paid >= requested && before.paidHeight.None? then last.height else before.paidHeight)
  }

  /** The request is met by what was mined up to `h` (and something was mined by then). */
  ghost predicate MetBy(ts: seq<Transfer>, requested: nat, h: nat)
  {
    && SumUntil(ts, Some(h)) >= requested
    && exists i :: 0 <= i < |ts| && ts[i].height.Some? && ts[i].height.value <= h
  }

  /** `h` is the lowest block height whose cumulative mined amount meets the request. */
  ghost predicate FirstMet(ts: seq<Transfer>, requested: nat, h: nat)
  {
    MetBy(ts, requested, h) && forall g: nat :: g < h ==> !MetBy(ts, requested, g)
  }

  ghost predicate NeverMet(ts: seq<Transfer>, requested: nat)
  {
    forall h: nat :: !MetBy(ts, requested, h)
  }

  lemma MetBySnoc(ts: seq<Transfer>, requested: nat, h: nat)
    requires |ts| > 0 && !Until(Some(h))(ts[|ts| - 1])
    ensures MetBy(ts, requested, h) <==> MetBy(ts[..|ts| - 1], requested, h)
  {
    var init := ts[..|ts| - 1];
    SumUntilSnoc(ts, Some(h));
    if MetBy(init, requested, h) {
      var i :| 0 <= i < |init| && init[i].height.Some? && init[i].height.value <= h;
      assert ts[i] == init[i];
    }
    if MetBy(ts, requested, h) {
      var i :| 0 <= i < |ts| && ts[i].height.Some? && ts[i].height.value <= h;
      assert init[i] == ts[i];
    }
  }

  lemma {:induction false} SumUntilAll(ts: seq<Transfer>, h: Option<nat>)
    requires forall i :: 0 <= i < |ts| ==> Until(h)(ts[i])
    ensures SumUntil(ts, h) == SumUntil(ts, None)
  {
    SelectSame(ts, Until(h), Until(None));
  }

  /** MetBy only grows when transfers at or above every other height are appended. */
  lemma MetByGrows(ts: seq<Transfer>, requested: nat, h: nat)
    requires |ts| > 0 && MetBy(ts[..|ts| - 1], requested, h)
    ensures MetBy(ts, requested, h)
  {
    var init := ts[..|ts| - 1];
    SumUntilSnoc(ts, Some(h));
    var i :| 0 <= i < |init| && init[i].height.Some? && init[i].height.value <= h;
    assert ts[i] == init[i];
  }

  /** Paid height is right: on height-sorted transfers, the recount's paid height is the lowest block
      height whose cumulative mined amount meets the request, and there is none exactly when no height does. */
  lemma {:induction false} PaidHeightIsFirstMet(ts: seq<Transfer>, requested: nat)
    requires Sorted(ts)
    ensures Tally(ts, requested).paid == SumUntil(ts, None)
    ensures forall h: nat :: Tally(ts, requested).paidHeight == Some(h) <==> FirstMet(ts, requested, h)
    ensures Tally(ts, requested).paidHeight.None? <==> NeverMet(ts, requested)
  {
    var r := Tally(ts, requested);
    if |ts| == 0 {
    } else {
      var init, last := ts[..|ts| - 1], ts[|ts| - 1];
      PaidHeightIsFirstMet(init, requested);
      SumUntilSnoc(ts, None);
      match Tally(init, requested).paidHeight {
        case Some(p) => KeepsPaidHeight(ts, requested, p);
        case None => FindsPaidHeight(ts, requested);
      }
      if r.paidHeight.Some? {
        assert FirstMet(ts, requested, r.paidHeight.value);
        forall h: nat | FirstMet(ts, requested, h)
          ensures h == r.paidHeight.value
        {
        }
      }
    }
  }

  /** Everything in a sorted list is at or below its last transfer's height, if that one is mined. */
  lemma AllUntilLast(ts: seq<Transfer>, h: nat)
    requires |ts| > 0 && Sorted(ts) && Until(Some(h))(ts[|ts| - 1])
    ensures forall k :: 0 <= k < |ts| ==> Until(Some(h))(ts[k])
  {
    forall k | 0 <= k < |ts|
      ensures Until(Some(h))(ts[k])
    {
      if k < |ts| - 1 { assert CompareByHeight(ts[k], ts[|ts| - 1]) != Greater; }
    }
  }

  /** Raising the bound changes nothing once everything is below it. */
  lemma MetByPlateau(ts: seq<Transfer>, requested: nat, g: nat, h: nat)
    requires g <= h && forall k :: 0 <= k < |ts| ==> Until(Some(g))(ts[k])
    requires MetBy(ts, requested, h)
    ensures MetBy(ts, requested, g)
  {
    SelectSame(ts, Until(Some(g)), Until(Some(h)));
    var i :| 0 <= i < |ts| && ts[i].height.Some? && ts[i].height.value <= h;
    assert Until(Some(g))(ts[i]);
  }

  lemma NotMetEarlier(ts: seq<Transfer>, requested: nat, p: nat, g: nat)
    requires |ts| > 0 && Sorted(ts) && FirstMet(ts[..|ts| - 1], requested, p) && g < p
    ensures !MetBy(ts, requested, g)
  {
    var init, last := ts[..|ts| - 1], ts[|ts| - 1];
    if Until(Some(g))(last) {
      // everything would be at or below g < p, so init would have met the request by g already
      AllUntilLast(ts, g);
      assert forall k :: 0 <= k < |init| ==> init[k] == ts[k];
      MetByPlateau(init, requested, g, p);
      assert false;
    } else {
      MetBySnoc(ts, requested, g);
    }
  }

  lemma KeepsPaidHeight(ts: seq<Transfer>, requested: nat, p: nat)
    requires |ts| > 0 && Sorted(ts) && FirstMet(ts[..|ts| - 1], requested, p)
    ensures FirstMet(ts, requested, p)
  {
    MetByGrows(ts, requested, p);
    forall g: nat | g < p
      ensures !MetBy(ts, requested, g)
    {
      NotMetEarlier(ts, requested, p, g);
    }
  }

  /** With a mined last transfer at height l, the request is met at l if it is met at all. */
  lemma MetAtLast(ts: seq<Transfer>, requested: nat, l: nat)
    requires |ts| > 0 && Sorted(ts) && ts[|ts| - 1].height == Some(l)
    requires NeverMet(ts[..|ts| - 1], requested)
    ensures MetBy(ts, requested, l) <==> SumUntil(ts, None) >= requested
    ensures forall g: nat :: MetBy(ts, requested, g) ==> g >= l && MetBy(ts, requested, l)
  {
    AllUntilLast(ts, l);
    SumUntilAll(ts, Some(l));
    forall g: nat | MetBy(ts, requested, g)
      ensures g >= l && MetBy(ts, requested, l)
    {
      if g < l {
        MetBySnoc(ts, requested, g);
        assert false;
      } else {
        MetByPlateau(ts, requested, l, g);
      }
    }
  }

  lemma FindsPaidHeight(ts: seq<Transfer>, requested: nat)
    requires |ts| > 0 && Sorted(ts)
    requires Tally(ts[..|ts| - 1], requested).paid == SumUntil(ts[..|ts| - 1], None)
    requires Tally(ts[..|ts| - 1], requested).paidHeight.None?
    requires NeverMet(ts[..|ts| - 1], requested)
    ensures match Tally(ts, requested).paidHeight
            case Some(h) => FirstMet(ts, requested, h)
            case None => NeverMet(ts, requested)
  {
    var last := ts[|ts| - 1];
    SumUntilSnoc(ts, None);
    if last.height.Some? {
      MetAtLast(ts, requested, last.height.value);
    } else {
      forall g: nat
        ensures !MetBy(ts, requested, g)
      {
        MetBySnoc(ts, requested, g);
      }
    }
  }

  /** For a positive request the "something was mined" clause is automatic. */
  lemma {:induction false} MetByPositive(ts: seq<Transfer>, requested: nat, h: nat)
    requires requested > 0
    ensures MetBy(ts, requested, h) <==> SumUntil(ts, Some(h)) >= requested
  {
    if SumUntil(ts, Some(h)) >= requested && !MetBy(ts, requested, h) {
      SelectNone(ts, Until(Some(h)));
      assert false;
    }
  }

  lemma MetByPermutation(a: seq<Transfer>, b: seq<Transfer>, requested: nat, h: nat)
    requires multiset(a) == multiset(b) && MetBy(a, requested, h)
    ensures MetBy(b, requested, h)
  {
    SumUntilPermutation(a, b, Some(h));
    var i :| 0 <= i < |a| && a[i].height.Some? && a[i].height.value <= h;
    assert a[i] in multiset(b);
    var k :| 0 <= k < |b| && b[k] == a[i];
  }

  /** MetBy up to a height depends only on the amounts at each height up to it. */
  lemma MetByByHeight(a: seq<Transfer>, b: seq<Transfer>, requested: nat, h: nat)
    requires SameUpTo(a, b, h)
    requires MetBy(a, requested, h)
    ensures MetBy(b, requested, h)
  {
    SumUntilByHeight(a, b, h);
    var i :| 0 <= i < |a| && a[i].height.Some? && a[i].height.value <= h;
    SelectFinds(a, a[i]);
    assert |multiset(Select(b, At(a[i].height)))| == |multiset(Select(a, At(a[i].height)))| > 0;
    SelectFound(b, a[i].height);
    var t :| t in b && t.height == a[i].height;
    var k :| 0 <= k < |b| && b[k] == t;
  }

  lemma FirstMetByHeight(a: seq<Transfer>, b: seq<Transfer>, requested: nat, p: nat)
    requires SameUpTo(a, b, p) && FirstMet(a, requested, p)
    ensures FirstMet(b, requested, p)
  {
    MetByByHeight(a, b, requested, p);
    forall q: nat | q < p
      ensures !MetBy(b, requested, q)
    {
      if MetBy(b, requested, q) { MetByByHeight(b, a, requested, q); }
    }
  }

  /** A height that brings nothing is not where a request is met. */
  lemma MetByEarlier(ts: seq<Transfer>, requested: nat, h: nat)
    requires MetBy(ts, requested, h) && Select(ts, At(Some(h))) == []
    ensures h > 0 && MetBy(ts, requested, h - 1)
  {
    var i :| 0 <= i < |ts| && ts[i].height.Some? && ts[i].height.value <= h;
    NotFoundAt(ts, ts[i], h);
    SumUntilStep(ts, h);
  }

  lemma NotFoundAt(ts: seq<Transfer>, t: Transfer, h: nat)
    requires t in ts && Select(ts, At(Some(h))) == []
    ensures t.height != Some(h)
  {
    SelectFinds(ts, t);
  }

  /** A paid height is the height of some transfer. */
  lemma PaidHeightIsReal(ts: seq<Transfer>, requested: nat, h: nat)
    requires FirstMet(ts, requested, h)
    ensures exists t :: t in ts && t.height == Some(h)
    ensures SumUntil(ts, None) >= requested
  {
    SumUntilBelowTotal(ts, Some(h));
    if Select(ts, At(Some(h))) == [] {
      MetByEarlier(ts, requested, h);
      assert false;
    } else {
      SelectFound(ts, Some(h));
    }
  }

  /** Skipping the recount is sound: two height-sorted arrangements of the same transfers tally alike. */
  lemma TallyIgnoresOrder(a: seq<Transfer>, b: seq<Transfer>, requested: nat)
    requires Sorted(a) && Sorted(b) && multiset(a) == multiset(b)
    ensures Tally(a, requested) == Tally(b, requested)
  {
    PaidHeightIsFirstMet(a, requested);
    PaidHeightIsFirstMet(b, requested);
    SumUntilPermutation(a, b, None);
    forall h: nat
      ensures MetBy(a, requested, h) <==> MetBy(b, requested, h)
    {
      if MetBy(a, requested, h) { MetByPermutation(a, b, requested, h); }
      if MetBy(b, requested, h) { MetByPermutation(b, a, requested, h); }
    }
    match Tally(a, requested).paidHeight
    case None =>
    case Some(h) => assert FirstMet(b, requested, h);
  }

  /** The recount as the scanner runs it. */
  method Recount(ts: seq<Transfer>, requested: nat) returns (amountPaid: nat, paidHeight: Option<nat>)
    ensures Tallied(amountPaid, paidHeight) == Tally(ts, requested)
  {
    paidHeight, amountPaid := None, 0;
    for i := 0 to |ts|
      invariant Tallied(amountPaid, paidHeight) == Tally(ts[..i], requested)
    {
      assert ts[..i + 1][..i] == ts[..i];
      amountPaid := amountPaid + ts[i].amount;
      if amountPaid >= requested && paidHeight.None? {
        paidHeight := ts[i].height;
      }
    }
    assert ts[..|ts|] == ts;
  }
}
