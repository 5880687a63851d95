/** First-seen-wins bookkeeping of output public keys, the defence against the burning bug
    (library/src/scanner.rs:398-454), sequentially and under interleaving of the two concurrent scans. */
module OutputKeys {
  import opened Prelude
  import opened Invoices
  import opened Chain

  type KeyTable = map<OutputKey, OutputId>

  datatype ScanError = OutputIndexTooLarge | Unblind(subIndex: SubIndex)

  ghost predicate Extends(small: KeyTable, large: KeyTable)
  {
    forall k :: k in small ==> k in large && large[k] == small[k]
  }

  /** The first output seen with a key owns it. */
  function Register(keys: KeyTable, o: TxOutput): KeyTable
  {
    if o.out.key in keys then keys else keys[o.out.key := o.Id()]
  }

  function RegisterAll(keys: KeyTable, os: seq<TxOutput>): KeyTable
  {
    if |os| == 0 then keys else Register(RegisterAll(keys, os[..|os| - 1]), os[|os| - 1])
  }

  /** The output owns its key. */
  predicate Owns(keys: KeyTable, o: TxOutput) { o.out.key in keys && keys[o.out.key] == o.Id() }

  ghost predicate Covers(keys: KeyTable, os: seq<TxOutput>)
  {
    forall i :: 0 <= i < |os| ==> os[i].out.key in keys
  }

  /** The outputs that own their key and pay a subaddress the filter lets through. */
  function Accepted(keys: KeyTable, contains: SubIndex -> bool, os: seq<TxOutput>): seq<TxOutput>
  {
    if |os| == 0 then []
    else
      var last := os[|os| - 1];
      Accepted(keys, contains, os[..|os| - 1]) +
      (if Owns(keys, last) && contains(last.out.subIndex) then [last] else [])
  }

  // ---------------------------------------------------------------------------
  // Sequential scanning
  // ---------------------------------------------------------------------------

  datatype Scanned = Scanned(keys: KeyTable, found: Result<seq<TxOutput>, ScanError>)

  function ScanOutputs(keys: KeyTable, contains: SubIndex -> bool, os: seq<TxOutput>): Scanned
  {
    if |os| == 0 then Scanned(keys, Ok([]))
    else
      var before := ScanOutputs(keys, contains, os[..|os| - 1]);
      if before.found.Err? then before
      else ScanOutput(before.keys, contains, before.found.value, os[|os| - 1])
  }

  function ScanOutput(keys: KeyTable, contains: SubIndex -> bool, found: seq<TxOutput>, o: TxOutput): Scanned
  {
    if o.out.index >= 256 then Scanned(keys, Err(OutputIndexTooLarge))
    else
      var keys := Register(keys, o);
      if !Owns(keys, o) || !contains(o.out.subIndex) then Scanned(keys, Ok(found))
      else if o.out.amount.None? then Scanned(keys, Err(Unblind(o.out.subIndex)))
      else Scanned(keys, Ok(found + [o]))
  }

  /** An error-free scan registers every output and finds exactly those that own their key, as judged by the
      table then or at any later time. */
  lemma {:induction false} ScanFindsOwners(keys: KeyTable, contains: SubIndex -> bool, os: seq<TxOutput>,
                                           later: KeyTable)
    requires ScanOutputs(keys, contains, os).found.Ok?
    requires Extends(ScanOutputs(keys, contains, os).keys, later)
    ensures var r := ScanOutputs(keys, contains, os);
            && r.keys == RegisterAll(keys, os)
            && Covers(r.keys, os)
            && r.found.value == Accepted(later, contains, os)
            && forall i :: 0 <= i < |r.found.value| ==> r.found.value[i].out.amount.Some?
  {
    if |os| > 0 {
      var before := ScanOutputs(keys, contains, os[..|os| - 1]);
      RegisterExtends(before.keys, os[|os| - 1]);
      ScanFindsOwners(keys, contains, os[..|os| - 1], later);
    }
  }

  /** No output makes the scan fail: its index fits a byte, and it can be unblinded if it is to be credited. */
  ghost predicate Scannable(os: seq<TxOutput>, keys: KeyTable, contains: SubIndex -> bool)
  {
    forall i :: 0 <= i < |os| ==>
      os[i].out.index < 256 && (Owns(keys, os[i]) && contains(os[i].out.subIndex) ==> os[i].out.amount.Some?)
  }

  lemma {:induction false} ScanErrorStays(keys: KeyTable, contains: SubIndex -> bool, a: seq<TxOutput>,
                                          b: seq<TxOutput>)
    requires ScanOutputs(keys, contains, a).found.Err?
    ensures ScanOutputs(keys, contains, a + b) == ScanOutputs(keys, contains, a)
  {
    if |b| == 0 {
      assert a + b == a;
    } else {
      assert (a + b)[..|a + b| - 1] == a + b[..|b| - 1];
      ScanErrorStays(keys, contains, a, b[..|b| - 1]);
    }
  }

  lemma ScanOutputAfter(keys: KeyTable, contains: SubIndex -> bool, earlier: seq<TxOutput>, found: seq<TxOutput>,
                        o: TxOutput)
    ensures var r := ScanOutput(keys, contains, found, o);
            ScanOutput(keys, contains, earlier + found, o) ==
            Scanned(r.keys, if r.found.Ok? then Ok(earlier + r.found.value) else r.found)
  {
    assert earlier + (found + [o]) == (earlier + found) + [o];
  }

  /** A scan of two parts is the scan of the first and then, if that succeeds, of the second. */
  lemma {:induction false} ScanConcat(keys: KeyTable, contains: SubIndex -> bool, a: seq<TxOutput>, b: seq<TxOutput>)
    requires ScanOutputs(keys, contains, a).found.Ok?
    ensures var first := ScanOutputs(keys, contains, a);
            var second := ScanOutputs(first.keys, contains, b);
            ScanOutputs(keys, contains, a + b) ==
            Scanned(second.keys,
                    if second.found.Ok? then Ok(first.found.value + second.found.value) else second.found)
  {
    var first := ScanOutputs(keys, contains, a);
    if |b| == 0 {
      assert a + b == a;
      assert first.found.value + [] == first.found.value;
    } else {
      var init, last := b[..|b| - 1], b[|b| - 1];
      assert (a + b)[..|a + b| - 1] == a + init;
      ScanConcat(keys, contains, a, init);
      var second := ScanOutputs(first.keys, contains, init);
      if second.found.Ok? { ScanOutputAfter(second.keys, contains, first.found.value, second.found.value, last); }
    }
  }

  /** A scan ends without error exactly if its outputs are scannable, as the table then or later has them. */
  lemma {:induction false} ScanOkIff(keys: KeyTable, contains: SubIndex -> bool, os: seq<TxOutput>, later: KeyTable)
    requires Extends(RegisterAll(keys, os), later)
    ensures ScanOutputs(keys, contains, os).found.Ok? <==> Scannable(os, later, contains)
    ensures ScanOutputs(keys, contains, os).found.Ok? ==> ScanOutputs(keys, contains, os).keys == RegisterAll(keys, os)
  {
    if |os| > 0 {
      var init, last := os[..|os| - 1], os[|os| - 1];
      var before := RegisterAll(keys, init);
      RegisterExtends(before, last);
      ScanOkIff(keys, contains, init, later);
      assert os == init + [last];
      ScannableSnoc(init, last, later, contains);
      assert Owns(Register(before, last), last) <==> Owns(later, last);
    }
  }

  lemma ScannableSnoc(init: seq<TxOutput>, last: TxOutput, keys: KeyTable, contains: SubIndex -> bool)
    ensures Scannable(init + [last], keys, contains) <==>
            && Scannable(init, keys, contains)
            && last.out.index < 256 && (Owns(keys, last) && contains(last.out.subIndex) ==> last.out.amount.Some?)
  {
    var os := init + [last];
    assert forall i :: 0 <= i < |init| ==> os[i] == init[i];
    if Scannable(os, keys, contains) { assert os[|init|] == last; }
  }

  lemma {:induction false} ScanExtends(keys: KeyTable, contains: SubIndex -> bool, os: seq<TxOutput>)
    ensures Extends(keys, ScanOutputs(keys, contains, os).keys)
  {
    if |os| > 0 { ScanExtends(keys, contains, os[..|os| - 1]); }
  }

  lemma {:induction false} RegisterAllConcat(keys: KeyTable, a: seq<TxOutput>, b: seq<TxOutput>)
    ensures RegisterAll(keys, a + b) == RegisterAll(RegisterAll(keys, a), b)
  {
    if |b| == 0 {
      assert a + b == a;
    } else {
      assert (a + b)[..|a + b| - 1] == a + b[..|b| - 1];
      RegisterAllConcat(keys, a, b[..|b| - 1]);
    }
  }

  lemma RegisterExtends(keys: KeyTable, o: TxOutput)
    ensures Extends(keys, Register(keys, o))
    ensures o.out.key in Register(keys, o)
  {
  }

  lemma {:induction false} RegisterAllExtends(keys: KeyTable, os: seq<TxOutput>)
    ensures Extends(keys, RegisterAll(keys, os))
    ensures Covers(RegisterAll(keys, os), os)
  {
    if |os| > 0 { RegisterAllExtends(keys, os[..|os| - 1]); }
  }

  /** First seen wins: a key that is new belongs, from then on, to the first output that shows it. */
  lemma {:induction false} FirstSeenWins(keys: KeyTable, os: seq<TxOutput>, i: nat)
    requires i < |os| && os[i].out.key !in keys
    requires forall j :: 0 <= j < i ==> os[j].out.key != os[i].out.key
    ensures os[i].out.key in RegisterAll(keys, os)
    ensures RegisterAll(keys, os)[os[i].out.key] == OutputId(os[i].txHash, os[i].out.index)
  {
    var init := os[..|os| - 1];
    if i < |init| {
      assert init[i] == os[i] && forall j :: 0 <= j < i ==> init[j] == os[j];
      FirstSeenWins(keys, init, i);
    } else {
      assert forall j :: 0 <= j < |init| ==> init[j].out.key != os[i].out.key;
      UnseenStaysFree(keys, init, os[i].out.key);
    }
  }

  lemma {:induction false} UnseenStaysFree(keys: KeyTable, os: seq<TxOutput>, k: OutputKey)
    requires k !in keys && forall j :: 0 <= j < |os| ==> os[j].out.key != k
    ensures k !in RegisterAll(keys, os)
  {
    if |os| > 0 {
      assert os[|os| - 1].out.key != k;
      UnseenStaysFree(keys, os[..|os| - 1], k);
    }
  }

  /** Verdicts are stable: once every output is registered, growing the table changes nothing. */
  lemma {:induction false} AcceptedIsStable(keys: KeyTable, later: KeyTable, contains: SubIndex -> bool,
                                            os: seq<TxOutput>)
    requires Extends(keys, later) && Covers(keys, os)
    ensures Accepted(later, contains, os) == Accepted(keys, contains, os)
    ensures Covers(later, os)
  {
    if |os| > 0 {
      assert os[|os| - 1].out.key in keys;
      assert Covers(keys, os[..|os| - 1]);
      AcceptedIsStable(keys, later, contains, os[..|os| - 1]);
    }
  }

  // ---------------------------------------------------------------------------
  // Interleaving: any number of scans sharing the store, each lookup and each insertion atomic
  // ---------------------------------------------------------------------------

  /** A scan in progress. `waiting`: it looked up its next output's key, found none, and has yet to insert it.
      `failed`: it hit an error and does nothing more. */
  datatype Task = Task(todo: seq<TxOutput>, waiting: bool, failed: bool)

  datatype Verdict = Verdict(output: TxOutput, unique: bool)

  /** `verdicts` and `started` are history: every judgement passed, and every output ever handed to a scan. `contains`
      is the store's filter, which an output judged unique is put to. */
  datatype Shared = Shared(keys: KeyTable, contains: SubIndex -> bool, tasks: seq<Task>, verdicts: seq<Verdict>,
                           started: seq<TxOutput>)

  datatype Action = Start(outputs: seq<TxOutput>) | Proceed(task: nat)

  predicate Enabled(s: Shared, a: Action)
  {
    a.Proceed? ==> a.task < |s.tasks| && !s.tasks[a.task].failed && |s.tasks[a.task].todo| > 0
  }

  /** An output to be credited that cannot be unblinded. */
  predicate Unreadable(contains: SubIndex -> bool, v: Verdict)
  {
    v.unique && contains(v.output.out.subIndex) && v.output.out.amount.None?
  }

  /** Pass judgement on the next output of a task, which fails if that output cannot be unblinded. */
  function Judge(s: Shared, t: nat, unique: bool): Shared
    requires t < |s.tasks| && |s.tasks[t].todo| > 0
  {
    var v := Verdict(s.tasks[t].todo[0], unique);
    s.(tasks := s.tasks[t := Task(s.tasks[t].todo[1..], false, Unreadable(s.contains, v))],
       verdicts := s.verdicts + [v])
  }

  /** One atomic step. */
  function Act(s: Shared, a: Action): Shared
    requires Enabled(s, a)
  {
    match a
    case Start(os) => s.(tasks := s.tasks + [Task(os, false, false)], started := s.started + os)
    case Proceed(t) =>
      var task := s.tasks[t];
      var o := task.todo[0];
      if o.out.index >= 256 then s.(tasks := s.tasks[t := task.(failed := true)])
      else if !task.waiting then
        if o.out.key in s.keys then Judge(s, t, s.keys[o.out.key] == o.Id())
        else
          s.(tasks := s.tasks[t := task.(waiting := true)])
      else if o.out.key in s.keys then s.(tasks := s.tasks[t := task.(failed := true)])
      else Judge(s.(keys := s.keys[o.out.key := o.Id()]), t, true)
  }

  ghost predicate Interleaving(states: seq<Shared>, actions: seq<Action>)
  {
    && |states| == |actions| + 1
    && states[0].tasks == [] && states[0].verdicts == [] && states[0].started == []
    && forall i :: 0 <= i < |actions| ==> Enabled(states[i], actions[i]) && states[i + 1] == Act(states[i], actions[i])
  }

  function Judged(vs: seq<Verdict>): seq<TxOutput>
  {
    seq(|vs|, i requires 0 <= i < |vs| => vs[i].output)
  }

  /** Work handed out and not yet judged. */
  function Pending(tasks: seq<Task>): multiset<TxOutput>
  {
    if |tasks| == 0 then multiset{} else Pending(tasks[..|tasks| - 1]) + multiset(tasks[|tasks| - 1].todo)
  }

  lemma Regroup<T>(a: multiset<T>, b: multiset<T>, c: multiset<T>, d: multiset<T>, more: multiset<T>)
    requires a + b == c + d
    ensures (a + more) + b == (c + more) + d
  {
    assert (a + more) + b == (a + b) + more;
    assert (c + more) + d == (c + d) + more;
  }

  lemma Cancel<T>(a: multiset<T>, b: multiset<T>, c: multiset<T>)
    requires a + c == b + c
    ensures a == b
  {
    assert (a + c) - c == a;
    assert (b + c) - c == b;
  }

  lemma {:induction false} PendingUpdate(tasks: seq<Task>, t: nat, task: Task)
    requires t < |tasks|
    ensures Pending(tasks[t := task]) + multiset(tasks[t].todo) == Pending(tasks) + multiset(task.todo)
  {
    if t < |tasks| - 1 {
      var init := tasks[..|tasks| - 1];
      PendingUpdate(init, t, task);
      assert tasks[t := task][..|tasks| - 1] == init[t := task];
      assert init[t] == tasks[t];
      Regroup(Pending(init[t := task]), multiset(tasks[t].todo), Pending(init), multiset(task.todo),
              multiset(tasks[|tasks| - 1].todo));
    } else {
      assert tasks[t := task][..|tasks| - 1] == tasks[..|tasks| - 1];
    }
  }

  /** Every verdict so far is the one the current table gives, and the table is what registering the judged
      outputs one after the other produces. */
  ghost predicate Consistent(initial: KeyTable, s: Shared)
  {
    && (forall i :: 0 <= i < |s.verdicts| ==> VerdictHolds(s.keys, s.verdicts[i]))
    && s.keys == RegisterAll(initial, Judged(s.verdicts))
  }

  /** What was handed to the scans is judged or still to do. */
  ghost predicate NothingLost(s: Shared)
  {
    multiset(Judged(s.verdicts)) + Pending(s.tasks) == multiset(s.started)
  }

  predicate VerdictHolds(keys: KeyTable, v: Verdict)
  {
    v.output.out.key in keys && (v.unique <==> Owns(keys, v.output))
  }

  lemma VerdictStays(keys: KeyTable, later: KeyTable, v: Verdict)
    requires Extends(keys, later) && VerdictHolds(keys, v)
    ensures VerdictHolds(later, v)
  {
  }

  lemma JudgedSnoc(vs: seq<Verdict>, v: Verdict)
    ensures Judged(vs + [v]) == Judged(vs) + [v.output]
    ensures Judged(vs + [v])[..|vs|] == Judged(vs)
  {
  }

  /** Judging an output: the table registers it, the verdict is whether it then owns its key. */
  lemma JudgeIsConsistent(initial: KeyTable, s: Shared, o: TxOutput, s': Shared)
    requires Consistent(initial, s)
    requires s'.keys == Register(s.keys, o)
    requires s'.verdicts == s.verdicts + [Verdict(o, Owns(s'.keys, o))]
    ensures Consistent(initial, s')
  {
    RegisterExtends(s.keys, o);
    forall i | 0 <= i < |s'.verdicts|
      ensures VerdictHolds(s'.keys, s'.verdicts[i])
    {
      if i < |s.verdicts| { VerdictStays(s.keys, s'.keys, s.verdicts[i]); }
    }
    JudgedSnoc(s.verdicts, Verdict(o, Owns(s'.keys, o)));
  }

  lemma MoveOne<T>(judged: seq<T>, todo: seq<T>, before: multiset<T>, after: multiset<T>)
    requires |todo| > 0
    requires after + multiset(todo) == before + multiset(todo[1..])
    ensures multiset(judged + [todo[0]]) + after == multiset(judged) + before
  {
    var rest := multiset(todo[1..]);
    assert multiset(todo) == multiset{todo[0]} + rest by { assert todo == [todo[0]] + todo[1..]; }
    assert (after + multiset{todo[0]}) + rest == before + rest;
    Cancel(after + multiset{todo[0]}, before, rest);
  }

  lemma ActLosesNothing(s: Shared, a: Action)
    requires NothingLost(s) && Enabled(s, a)
    ensures NothingLost(Act(s, a))
  {
    var s' := Act(s, a);
    match a
    case Start(os) =>
      assert s'.tasks[..|s'.tasks| - 1] == s.tasks;
    case Proceed(t) =>
      PendingUpdate(s.tasks, t, s'.tasks[t]);
      var todo := s.tasks[t].todo;
      if |s'.verdicts| == |s.verdicts| {
        Cancel(Pending(s'.tasks), Pending(s.tasks), multiset(todo));
      } else {
        JudgedSnoc(s.verdicts, s'.verdicts[|s.verdicts|]);
        MoveOne(Judged(s.verdicts), todo, Pending(s.tasks), Pending(s'.tasks));
      }
  }

  lemma ActIsConsistent(initial: KeyTable, s: Shared, a: Action)
    requires Consistent(initial, s) && Enabled(s, a)
    ensures Consistent(initial, Act(s, a))
    ensures Extends(s.keys, Act(s, a).keys)
  {
    if a.Proceed? {
      var s' := Act(s, a);
      if |s'.verdicts| != |s.verdicts| {
        JudgeIsConsistent(initial, s, s.tasks[a.task].todo[0], s');
      }
    }
  }

  lemma {:induction false} InterleavingIsConsistent(states: seq<Shared>, actions: seq<Action>, n: nat)
    requires Interleaving(states, actions) && n < |states|
    ensures Consistent(states[0].keys, states[n]) && NothingLost(states[n])
  {
    if n > 0 {
      InterleavingIsConsistent(states, actions, n - 1);
      ActLosesNothing(states[n - 1], actions[n - 1]);
      ActIsConsistent(states[0].keys, states[n - 1], actions[n - 1]);
      assert states[n - 1 + 1] == Act(states[n - 1], actions[n - 1]);
    }
  }

  /** Stored entries never change. */
  lemma {:induction false} EntriesNeverChange(states: seq<Shared>, actions: seq<Action>, m: nat, n: nat)
    requires Interleaving(states, actions) && m <= n < |states|
    ensures Extends(states[m].keys, states[n].keys)
    ensures states[m].verdicts <= states[n].verdicts
    decreases n - m
  {
    if m < n {
      EntriesNeverChange(states, actions, m, n - 1);
      InterleavingIsConsistent(states, actions, n - 1);
      ActIsConsistent(states[0].keys, states[n - 1], actions[n - 1]);
      assert states[n - 1 + 1] == Act(states[n - 1], actions[n - 1]);
    }
  }

  /** One output per key: in a whole run, under every interleaving, at most one output id is judged unique
      for a key, and judging an output again repeats the earlier verdict. */
  lemma OneOutputPerKey(states: seq<Shared>, actions: seq<Action>, m: nat, n: nat, v: Verdict, w: Verdict)
    requires Interleaving(states, actions) && m < |states| && n < |states|
    requires v in states[m].verdicts && w in states[n].verdicts
    ensures v.unique && w.unique && v.output.out.key == w.output.out.key ==>
              v.output.txHash == w.output.txHash && v.output.out.index == w.output.out.index
    ensures (v.output.out.key == w.output.out.key && v.output.txHash == w.output.txHash &&
             v.output.out.index == w.output.out.index) ==> v.unique == w.unique
  {
    var last := |states| - 1;
    EntriesNeverChange(states, actions, m, last);
    EntriesNeverChange(states, actions, n, last);
    InterleavingIsConsistent(states, actions, last);
    assert v in states[last].verdicts && w in states[last].verdicts;
    assert VerdictHolds(states[last].keys, v) && VerdictHolds(states[last].keys, w);
  }

  /** Interleaving is harmless: when every scan has finished without error, there is one order of all the
      scanned outputs such that the final table is their one-by-one registration, and each verdict is whether
      the output owns its key in that final table. */
  lemma InterleavingIsSequential(states: seq<Shared>, actions: seq<Action>) returns (order: seq<TxOutput>)
    requires Interleaving(states, actions)
    requires forall t :: 0 <= t < |states[|actions|].tasks| ==> states[|actions|].tasks[t].todo == []
    ensures var final := states[|actions|];
            && multiset(order) == multiset(final.started)
            && final.keys == RegisterAll(states[0].keys, order)
            && |final.verdicts| == |order|
            && forall i :: 0 <= i < |order| ==> final.verdicts[i] == Verdict(order[i], Owns(final.keys, order[i]))
  {
    var final := states[|actions|];
    InterleavingIsConsistent(states, actions, |actions|);
    NothingPending(final.tasks);
    order := Judged(final.verdicts);
    forall i | 0 <= i < |order|
      ensures final.verdicts[i] == Verdict(order[i], Owns(final.keys, order[i]))
    {
      assert VerdictHolds(final.keys, final.verdicts[i]);
    }
  }

  ghost predicate AnyFailed(tasks: seq<Task>) { exists t :: 0 <= t < |tasks| && tasks[t].failed }

  /** Only outputs whose index fits a byte are judged, and one that cannot be unblinded has failed its task. */
  ghost predicate Sound(s: Shared)
  {
    forall i :: 0 <= i < |s.verdicts| ==>
      s.verdicts[i].output.out.index < 256 && (Unreadable(s.contains, s.verdicts[i]) ==> AnyFailed(s.tasks))
  }

  lemma ActStaysFailed(s: Shared, a: Action)
    requires Enabled(s, a) && AnyFailed(s.tasks)
    ensures AnyFailed(Act(s, a).tasks)
  {
    var t :| 0 <= t < |s.tasks| && s.tasks[t].failed;
    assert Act(s, a).tasks[t].failed;
  }

  lemma ActIsSound(s: Shared, a: Action)
    requires Sound(s) && Enabled(s, a)
    ensures Sound(Act(s, a)) && Act(s, a).contains == s.contains
  {
    var s' := Act(s, a);
    forall i | 0 <= i < |s'.verdicts|
      ensures s'.verdicts[i].output.out.index < 256
      ensures Unreadable(s.contains, s'.verdicts[i]) ==> AnyFailed(s'.tasks)
    {
      if i < |s.verdicts| {
        assert s'.verdicts[i] == s.verdicts[i];
        if Unreadable(s.contains, s.verdicts[i]) { ActStaysFailed(s, a); }
      } else if Unreadable(s.contains, s'.verdicts[i]) {
        assert s'.tasks[a.task].failed;
      }
    }
  }

  lemma {:induction false} InterleavingIsSound(states: seq<Shared>, actions: seq<Action>, n: nat)
    requires Interleaving(states, actions) && n < |states|
    ensures Sound(states[n]) && states[n].contains == states[0].contains
  {
    if n > 0 {
      InterleavingIsSound(states, actions, n - 1);
      ActIsSound(states[n - 1], actions[n - 1]);
      assert states[n - 1 + 1] == Act(states[n - 1], actions[n - 1]);
    }
  }

  /** Every scan has gone through all its outputs without error. */
  ghost predicate Finished(s: Shared)
  {
    forall t :: 0 <= t < |s.tasks| ==> s.tasks[t].todo == [] && !s.tasks[t].failed
  }

  /** Then all outputs judged were scannable. */
  lemma FinishedIsScannable(states: seq<Shared>, actions: seq<Action>)
    requires Interleaving(states, actions) && Finished(states[|actions|])
    ensures Scannable(Judged(states[|actions|].verdicts), states[|actions|].keys, states[0].contains)
  {
    var final := states[|actions|];
    InterleavingIsConsistent(states, actions, |actions|);
    InterleavingIsSound(states, actions, |actions|);
    assert !AnyFailed(final.tasks);
    forall i | 0 <= i < |final.verdicts|
      ensures !Unreadable(final.contains, final.verdicts[i]) && VerdictHolds(final.keys, final.verdicts[i])
    {
    }
  }

  lemma {:induction false} NothingPending(tasks: seq<Task>)
    requires forall t :: 0 <= t < |tasks| ==> tasks[t].todo == []
    ensures Pending(tasks) == multiset{}
  {
    if |tasks| > 0 { NothingPending(tasks[..|tasks| - 1]); }
  }
}
