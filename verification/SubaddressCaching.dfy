/** The subaddress cache as it runs, and how it starts up from the stored invoices
    (library/src/caching/subaddress_cache.rs:29-195). */
module SubaddressCaching {
  import opened Prelude
  import opened Invoices
  import opened Subaddresses
  import S = Subaddresses

  // ---------------------------------------------------------------------------
  // Ranges of subaddresses
  // ---------------------------------------------------------------------------

  predicate AtMost(a: SubIndex, b: SubIndex) { CompareSubIndex(a, b) != Greater }

  /** `count` entries of one account, from a minor index on. */
  function Consecutive(major: u32, from: u32, count: nat, derive: Derivation): (es: seq<Entry>)
    requires from + count <= U32_MAX + 1
    ensures |es| == count
    ensures forall i :: 0 <= i < count ==> es[i] == Entry(SubIndex(major, from + i), derive(SubIndex(major, from + i)))
  {
    seq(count, i requires 0 <= i < count => Entry(SubIndex(major, from + i), derive(SubIndex(major, from + i))))
  }

  /** The entries between two indices, inclusive; generation stops where the minor index saturates. */
  method GenerateRange(from: SubIndex, to: SubIndex, derive: Derivation) returns (es: seq<Entry>)
    ensures forall e :: e in es ==> e.address == derive(e.subIndex)
    ensures forall s: SubIndex :: s in Indices(es) <==> s.major == from.major && AtMost(from, s) && AtMost(s, to)
    ensures |es| <= U32_MAX + 1 - from.minor && es == Consecutive(from.major, from.minor, |es|, derive)
  {
    es := [];
    if CompareSubIndex(to, from) == Less { return; }
    var current := from;
    var saturated := false;
    while !saturated && AtMost(current, to)
      invariant current.major == from.major && from.minor <= current.minor
      invariant |es| == current.minor - from.minor + (if saturated then 1 else 0)
      invariant saturated ==> current.minor == U32_MAX
      invariant saturated ==> AtMost(current, to)
      invariant !saturated && current != from ==> AtMost(SubIndex(current.major, current.minor - 1), to)
      invariant es == Consecutive(from.major, from.minor, |es|, derive)
      decreases U32_MAX - current.minor, !saturated
    {
      es := es + [Entry(current, derive(current))];
      if current.minor == U32_MAX {
        saturated := true;
      } else {
        current := SubIndex(current.major, current.minor + 1);
      }
    }
    IndicesOfRange(from, |es|, derive);
  }

  lemma IndicesOfRange(from: SubIndex, count: nat, derive: Derivation)
    requires from.minor + count <= U32_MAX + 1
    ensures forall s: SubIndex :: s in Indices(Consecutive(from.major, from.minor, count, derive)) <==>
              s.major == from.major && from.minor <= s.minor < from.minor + count
  {
    var es := Consecutive(from.major, from.minor, count, derive);
    forall s: SubIndex | s.major == from.major && from.minor <= s.minor < from.minor + count
      ensures s in Indices(es)
    {
      assert Indices(es)[s.minor - from.minor] == s;
    }
  }

  // ---------------------------------------------------------------------------
  // Start-up
  // ---------------------------------------------------------------------------

  /** The entries whose index is not in use. */
  function Unused(es: seq<Entry>, used: set<SubIndex>): seq<Entry>
  {
    if |es| == 0 then []
    else Unused(es[..|es| - 1], used) + (if es[|es| - 1].subIndex in used then [] else [es[|es| - 1]])
  }

  /** The minor part of the highest index in use, in the order of whole indices; 0 when none is. */
  ghost predicate IsMaxUsed(used: set<SubIndex>, maxUsed: u32)
  {
    if used == {} then maxUsed == 0
    else exists s :: s in used && s.minor == maxUsed && forall t :: t in used ==> AtMost(t, s)
  }

  /** The cache as it is set up from the indices in use. */
  ghost predicate StartsAs(c: Subaddresses, majorIndex: u32, used: set<SubIndex>, derive: Derivation)
  {
    && c.majorIndex == majorIndex
    && (exists maxUsed: u32 :: IsMaxUsed(used, maxUsed) && c.highest == Max(MIN_AVAILABLE - 1, maxUsed))
    && c.available == Unused(Consecutive(majorIndex, 0, c.highest + 1, derive), used)
  }

  method MaxUsed(used: set<SubIndex>) returns (maxUsed: u32)
    ensures IsMaxUsed(used, maxUsed)
  {
    if used == {} { return 0; }
    var best :| best in used;
    var rest := used - {best};
    while rest != {}
      invariant rest <= used && best in used
      invariant forall t :: t in used && t !in rest ==> AtMost(t, best)
    {
      var s :| s in rest;
      if CompareSubIndex(s, best) == Greater { best := s; }
      rest := rest - {s};
    }
    return best.minor;
  }

  /** Remove the entries that are in use. */
  method RetainUnused(es: seq<Entry>, used: set<SubIndex>) returns (kept: seq<Entry>)
    ensures kept == Unused(es, used)
  {
    kept := [];
    for i := 0 to |es|
      invariant kept == Unused(es[..i], used)
    {
      assert es[..i + 1][..i] == es[..i];
      if es[i].subIndex !in used { kept := kept + [es[i]]; }
    }
    assert es[..|es|] == es;
  }

  lemma {:induction false} CountUnused(es: seq<Entry>, used: set<SubIndex>, s: SubIndex)
    ensures multiset(Indices(Unused(es, used)))[s] == if s in used then 0 else multiset(Indices(es))[s]
  {
    if |es| > 0 {
      var init, last := es[..|es| - 1], es[|es| - 1];
      CountUnused(init, used, s);
      assert Indices(es) == Indices(init) + [last.subIndex];
      assert Indices(Unused(init, used) + [last]) == Indices(Unused(init, used)) + [last.subIndex];
      assert Unused(init, used) + [] == Unused(init, used);
    }
  }

  lemma {:induction false} CountConsecutive(major: u32, count: nat, derive: Derivation, s: SubIndex)
    requires count <= U32_MAX + 1
    ensures multiset(Indices(Consecutive(major, 0, count, derive)))[s] ==
            if s.major == major && s.minor < count then 1 else 0
  {
    if count > 0 {
      CountConsecutive(major, count - 1, derive, s);
      assert Indices(Consecutive(major, 0, count, derive)) ==
             Indices(Consecutive(major, 0, count - 1, derive)) + [SubIndex(major, count - 1)];
    }
  }

  /** At start-up exactly the unused indices up to the highest are available, each once. */
  lemma AvailableAtStart(c: Subaddresses, majorIndex: u32, used: set<SubIndex>, derive: Derivation, s: SubIndex)
    requires StartsAs(c, majorIndex, used, derive)
    ensures multiset(Indices(c.available))[s] == if InAccount(c, s) && s !in used then 1 else 0
  {
    CountUnused(Consecutive(majorIndex, 0, c.highest + 1, derive), used, s);
    CountConsecutive(majorIndex, c.highest + 1, derive, s);
  }

  lemma CountedOnceIsDistinct(es: seq<Entry>, i: nat, j: nat)
    requires i < j < |es| && multiset(Indices(es))[es[i].subIndex] <= 1
    ensures es[i].subIndex != es[j].subIndex
  {
    var xs := Indices(es);
    assert xs == xs[..j] + xs[j..];
    assert xs[..j][i] == xs[i] && xs[i] in multiset(xs[..j]);
    assert xs[j..][0] == xs[j] && xs[j] in multiset(xs[j..]);
  }

  lemma StartIsValid(c: Subaddresses, majorIndex: u32, used: set<SubIndex>, derive: Derivation)
    requires StartsAs(c, majorIndex, used, derive)
    ensures ValidSubaddresses(c)
  {
    forall i | 0 <= i < |c.available|
      ensures InAccount(c, c.available[i].subIndex) && multiset(Indices(c.available))[c.available[i].subIndex] == 1
    {
      var s := c.available[i].subIndex;
      AvailableAtStart(c, majorIndex, used, derive, s);
      assert Indices(c.available)[i] == s && s in multiset(Indices(c.available));
    }
    forall i, j | 0 <= i < j < |c.available|
      ensures c.available[i].subIndex != c.available[j].subIndex
    {
      CountedOnceIsDistinct(c.available, i, j);
    }
  }

  function UsedBy(ids: set<InvoiceId>): set<SubIndex> { set id | id in ids :: id.subIndex }

  /** Every stored invoice is in the gateway's account, and no two share a subaddress. */
  ghost predicate OneAccount(ids: set<InvoiceId>, majorIndex: u32)
  {
    && (forall id :: id in ids ==> id.subIndex.major == majorIndex)
    && forall a, b :: a in ids && b in ids && a.subIndex == b.subIndex ==> a == b
  }

  function NothingLent(c: Subaddresses): Lending { Lending(c, multiset{}, multiset{}, multiset{}) }

  lemma UsedIsLive(ids: set<InvoiceId>, s: SubIndex)
    ensures s in UsedBy(ids) <==> |Live(ids, s)| >= 1
  {
    if s in UsedBy(ids) {
      var id :| id in ids && id.subIndex == s;
      assert id in Live(ids, s);
    }
    if |Live(ids, s)| >= 1 {
      var id :| id in Live(ids, s);
    }
  }

  lemma LiveIsOne(ids: set<InvoiceId>, majorIndex: u32, s: SubIndex)
    requires OneAccount(ids, majorIndex)
    ensures |Live(ids, s)| == if s in UsedBy(ids) then 1 else 0
  {
    UsedIsLive(ids, s);
    if s in UsedBy(ids) {
      var id :| id in Live(ids, s);
      assert Live(ids, s) == {id};
    }
  }

  lemma UsedAreInAccount(c: Subaddresses, majorIndex: u32, ids: set<InvoiceId>, derive: Derivation, s: SubIndex)
    requires StartsAs(c, majorIndex, UsedBy(ids), derive) && OneAccount(ids, majorIndex) && s in UsedBy(ids)
    ensures InAccount(c, s)
  {
    var maxUsed: u32 :| IsMaxUsed(UsedBy(ids), maxUsed) && c.highest == Max(MIN_AVAILABLE - 1, maxUsed);
    var top :| top in UsedBy(ids) && top.minor == maxUsed && forall t :: t in UsedBy(ids) ==> AtMost(t, top);
    assert AtMost(s, top) && s.major == top.major == majorIndex;
  }

  /** Start-up hands every index to exactly one place if and only if all stored invoices are in the gateway's account
      and no two share a subaddress. From there on the account stays in order (DrawKeepsAccount and its companions). */
  lemma StartIsAccountedIff(c: Subaddresses, majorIndex: u32, ids: set<InvoiceId>, derive: Derivation)
    requires StartsAs(c, majorIndex, UsedBy(ids), derive)
    ensures Accounted(NothingLent(c), ids) <==> OneAccount(ids, majorIndex)
  {
    StartIsValid(c, majorIndex, UsedBy(ids), derive);
    if OneAccount(ids, majorIndex) {
      forall s: SubIndex
        ensures Places(NothingLent(c), ids, s) == if InAccount(c, s) then 1 else 0
      {
        AvailableAtStart(c, majorIndex, UsedBy(ids), derive, s);
        LiveIsOne(ids, majorIndex, s);
        if s in UsedBy(ids) { UsedAreInAccount(c, majorIndex, ids, derive, s); }
      }
    }
    if Accounted(NothingLent(c), ids) {
      forall id | id in ids
        ensures id.subIndex.major == majorIndex
      {
        assert id in Live(ids, id.subIndex);
        assert Places(NothingLent(c), ids, id.subIndex) >= 1;
      }
      forall a, b | a in ids && b in ids && a.subIndex == b.subIndex
        ensures a == b
      {
        LiveAreDistinct(NothingLent(c), ids, a, b);
      }
    }
  }

  /** The greatest index in use is one index. */
  lemma MaxUsedIsUnique(used: set<SubIndex>, a: u32, b: u32)
    requires IsMaxUsed(used, a) && IsMaxUsed(used, b)
    ensures a == b
  {
    if used != {} {
      var s :| s in used && s.minor == a && forall t :: t in used ==> AtMost(t, s);
      var t :| t in used && t.minor == b && forall u :: u in used ==> AtMost(u, t);
      assert AtMost(s, t) && AtMost(t, s);
    }
  }

  /** Start-up leaves nothing to draw from exactly when the first hundred indices are in use, and with them every index
      up to the greatest in use. */
  lemma NothingLeftIff(c: Subaddresses, majorIndex: u32, used: set<SubIndex>, derive: Derivation, maxUsed: u32)
    requires StartsAs(c, majorIndex, used, derive) && IsMaxUsed(used, maxUsed)
    ensures c.available == [] <==>
            forall m: u32 :: m < MIN_AVAILABLE || m <= maxUsed ==> SubIndex(majorIndex, m) in used
  {
    var top: u32 :| IsMaxUsed(used, top) && c.highest == Max(MIN_AVAILABLE - 1, top);
    MaxUsedIsUnique(used, top, maxUsed);
    if c.available == [] {
      forall m: u32 | m < MIN_AVAILABLE || m <= maxUsed
        ensures SubIndex(majorIndex, m) in used
      {
        AvailableAtStart(c, majorIndex, used, derive, SubIndex(majorIndex, m));
        assert Indices(c.available) == [];
      }
    } else {
      var s := c.available[0].subIndex;
      AvailableAtStart(c, majorIndex, used, derive, s);
      assert Indices(c.available)[0] == s && s in multiset(Indices(c.available));
      assert s == SubIndex(majorIndex, s.minor);
    }
  }

  /** A store that does so: one invoice on each of the first hundred indices. */
  lemma HundredInvoicesUseUpTheStart(c: Subaddresses, majorIndex: u32, derive: Derivation)
    requires StartsAs(c, majorIndex, set m: u32 | m < MIN_AVAILABLE :: SubIndex(majorIndex, m), derive)
    ensures c.available == []
  {
    var used := set m: u32 | m < MIN_AVAILABLE :: SubIndex(majorIndex, m);
    assert SubIndex(majorIndex, 0) in used;
    var maxUsed: u32 :| IsMaxUsed(used, maxUsed) && c.highest == Max(MIN_AVAILABLE - 1, maxUsed);
    assert maxUsed < MIN_AVAILABLE;
    NothingLeftIff(c, majorIndex, used, derive, maxUsed);
  }

  /** A store that start-up misjudges, because the greatest index in use is in another account: with invoices on 0/200
      and 1/0, account 0 starts with 0..=99, and once the cache has grown past 0/200 that index is available while it is
      live. */
  lemma OtherAccountHidesALiveIndex(c: Subaddresses, derive: Derivation, height: u64)
    requires StartsAs(c, 0, UsedBy({InvoiceId(SubIndex(0, 200), height), InvoiceId(SubIndex(1, 0), height)}), derive)
    ensures var ids := {InvoiceId(SubIndex(0, 200), height), InvoiceId(SubIndex(1, 0), height)};
            && c.highest == 99 && !OneAccount(ids, 0) && !Accounted(NothingLent(c), ids)
            && SubIndex(0, 200) in Indices(ExtendBy(c, 101, derive).available)
  {
    var a, b := InvoiceId(SubIndex(0, 200), height), InvoiceId(SubIndex(1, 0), height);
    var ids := {a, b};
    assert a in ids && b in ids && b.subIndex.major != 0;
    assert UsedBy(ids) == {SubIndex(0, 200), SubIndex(1, 0)};
    var top: u32 :| IsMaxUsed(UsedBy(ids), top) && c.highest == Max(MIN_AVAILABLE - 1, top);
    assert SubIndex(1, 0) in UsedBy(ids) && CompareSubIndex(SubIndex(1, 0), SubIndex(0, 200)) == Greater;
    StartIsAccountedIff(c, 0, ids, derive);
    StartIsValid(c, 0, UsedBy(ids), derive);
    ExtendByIsFresh(c, 101, derive);
    var fresh_ := NewIndices(c, 200);
    assert fresh_[100] == SubIndex(0, 200);
    assert fresh_[100] in fresh_;
  }

  // ---------------------------------------------------------------------------
  // The cache
  // ---------------------------------------------------------------------------

  /** Removal by position, shifting what follows; None when there is no such position. */
  function ShiftRemove(es: seq<Entry>, k: nat): Option<(Entry, seq<Entry>)>
  {
    if k < |es| then Some((es[k], RemoveAt(es, k))) else None
  }

  class SubaddressCache {
    const majorIndex: u32
    const derive: Derivation
    var highestMinorIndex: u32
    var availableSubaddresses: seq<Entry>

    function State(): Subaddresses
      reads this
    {
      Subaddresses(majorIndex, highestMinorIndex, availableSubaddresses)
    }

    ghost predicate Valid()
      reads this
    {
      ValidSubaddresses(State())
    }

    /** Make everything up to the highest index available that no stored invoice uses. */
    constructor (ids: set<InvoiceId>, majorIndex: u32, derive: Derivation)
      ensures this.majorIndex == majorIndex && this.derive == derive
      ensures Valid() && StartsAs(State(), majorIndex, UsedBy(ids), derive)
    {
      var used := UsedBy(ids);
      var maxUsed := MaxUsed(used);
      var highest: u32 := Max(MIN_AVAILABLE - 1, maxUsed);
      var es := GenerateRange(SubIndex(majorIndex, 0), SubIndex(majorIndex, highest), derive);
      RangeIsComplete(majorIndex, highest, derive, es);
      var kept := RetainUnused(es, used);
      this.majorIndex, this.derive, highestMinorIndex, availableSubaddresses := majorIndex, derive, highest, kept;
      new;
      StartIsValid(State(), majorIndex, used, derive);
    }

    /** Draw at random: `draw` is the position the generator yields; it yields none, but panics, for an empty range
        (None). The branch that retries when there is no entry at that position cannot be taken. */
    method RemoveRandom(draw: nat) returns (e: Option<Entry>)
      requires Valid() && (availableSubaddresses == [] || draw < |availableSubaddresses|)
      modifies this
      ensures Valid()
      ensures e.None? <==> old(availableSubaddresses) == []
      ensures e.None? ==> State() == old(State())
      ensures e.Some? ==> State() == TakeOut(old(State()), draw, derive) && e.value == old(availableSubaddresses)[draw]
      ensures e.Some? ==>
                && highestMinorIndex == (if |old(availableSubaddresses)| - 1 <= 100
                                         then Min(old(highestMinorIndex) + 100, U32_MAX) else old(highestMinorIndex))
                && var xs := Indices(old(availableSubaddresses));
                Indices(availableSubaddresses) ==
                xs[..draw] + xs[draw + 1..] + NewIndices(old(State()), highestMinorIndex)
      ensures e.Some? && highestMinorIndex < U32_MAX ==> |availableSubaddresses| >= MIN_AVAILABLE
    {
      if availableSubaddresses == [] { return None; }
      TakeOutLeavesEnough(State(), draw, derive);
      TakeOutIs(State(), draw, derive);
      var taken := ShiftRemove(availableSubaddresses, draw);
      assert taken.Some?;
      availableSubaddresses := taken.value.1;
      if |availableSubaddresses| <= MIN_AVAILABLE {
        var appended := ExtendBy(MIN_AVAILABLE);
      }
      return Some(taken.value.0);
    }

    /** Returns the address that was available under the same index, if any. */
    method Insert(s: SubIndex, address: Text) returns (previous: Option<Text>)
      modifies this`availableSubaddresses
      ensures State() == PutBack(old(State()), Entry(s, address))
      ensures forall k: nat :: FirstAt(old(availableSubaddresses), s, k) ==>
                var es := old(availableSubaddresses);
                if k < |es| then availableSubaddresses == es[k := Entry(s, address)] && previous == Some(es[k].address)
                else availableSubaddresses == es + [Entry(s, address)] && previous.None?
    {
      forall k: nat | FirstAt(availableSubaddresses, s, k) { InsertAt(availableSubaddresses, Entry(s, address), k); }
      previous := Lookup(availableSubaddresses, s);
      availableSubaddresses := S.Insert(availableSubaddresses, Entry(s, address));
    }

    /** Append up to n addresses after the highest index; returns how many. */
    method ExtendBy(n: nat) returns (count: nat)
      modifies this
      ensures State() == S.ExtendBy(old(State()), n, derive)
      ensures count == highestMinorIndex - old(highestMinorIndex)
      ensures count == Min(n, U32_MAX - old(highestMinorIndex))
    {
      count := 0;
      ghost var goal := S.ExtendBy(State(), n, derive);
      for i := 0 to n
        invariant goal == S.ExtendBy(State(), n - i, derive)
        invariant count == i == highestMinorIndex - old(highestMinorIndex)
      {
        if highestMinorIndex == U32_MAX { return; }
        var s := SubIndex(majorIndex, highestMinorIndex + 1);
        availableSubaddresses := S.Insert(availableSubaddresses, Entry(s, derive(s)));
        highestMinorIndex := s.minor;
        count := count + 1;
      }
    }
  }

  lemma RangeIsComplete(majorIndex: u32, highest: u32, derive: Derivation, es: seq<Entry>)
    requires |es| <= U32_MAX + 1 && es == Consecutive(majorIndex, 0, |es|, derive)
    requires forall s: SubIndex :: s in Indices(es) <==>
               s.major == majorIndex && AtMost(SubIndex(majorIndex, 0), s) && AtMost(s, SubIndex(majorIndex, highest))
    ensures es == Consecutive(majorIndex, 0, highest + 1, derive)
  {
    assert SubIndex(majorIndex, highest) in Indices(es);
    IndicesOfRange(SubIndex(majorIndex, 0), |es|, derive);
    var last := es[|es| - 1].subIndex;
    assert Indices(es)[|es| - 1] == last;
    assert last in Indices(es) && last.minor == |es| - 1;
  }
}
