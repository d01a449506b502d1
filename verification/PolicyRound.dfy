/**
 One complete distribution round with a fixed policy set and an idle agent: load, mark every policy,
 send, receive, apply and ack each policy, process every ack.
 */
module PolicyRound {
  import opened Prelude
  import opened PolicyTables
  import opened PolicyPush

  function Times(a: Action, count: nat): seq<Action> {
    if count == 0 then [] else [a] + Times(a, count - 1)
  }

  function WriteAll(files: Files, refs: seq<PolicyRef>): Files
    decreases |refs|
  {
    if refs == [] then files else WriteAll(WriteFile(files, refs[0], true), refs[1..])
  }

  function Acks(refs: seq<PolicyRef>): seq<Ack> {
    seq(|refs|, i requires 0 <= i < |refs| => AckOf(refs[i], true))
  }

  predicate Idle(s: System, k: nat) {
    && s.tasks == map[]
    && s.reading == Some(k)
    && k in s.streams && s.streams[k] == Stream([], [], true)
    && s.handling == []
  }

  function PushActions(k: nat, count: nat): seq<Action> {
    [Load(0, k)] + (Times(MarkNext(0, true), count) + [Send(0)])
  }

  function DeliverActions(k: nat, count: nat): seq<Action> {
    [Receive(true)] + (Times(Apply(true, true), count) + Times(ProcessAck(k, true), count))
  }

  function RoundActions(k: nat, count: nat): seq<Action> {
    if count == 0 then [Load(0, k)] else PushActions(k, count) + DeliverActions(k, count)
  }

  function RoundEnd(s: System): System {
    var refs := LoadPending(s.policies, s.assignments);
    s.(assignments := AckAll(MarkAll(s.assignments, refs), Acks(refs)), files := WriteAll(s.files, refs))
  }

  ghost predicate DistinctIds(refs: seq<PolicyRef>) {
    forall i, j | 0 <= i < j < |refs| :: refs[i].policyId != refs[j].policyId
  }

  // ---------- what each phase computes ----------

  lemma {:induction false} MarkAllKeepsAcked(assignments: Assignments, refs: seq<PolicyRef>, n: Name)
    ensures AckedOf(MarkAll(assignments, refs), n) == AckedOf(assignments, n)
    ensures n in MarkAll(assignments, refs) <==> n in assignments || exists r <- refs :: r.policyId == n
    decreases |refs|
  {
    if refs != [] {
      MarkAllKeepsAcked(MarkAssigned(assignments, refs[0]), refs[1..], n);
      assert forall r :: r in refs <==> r == refs[0] || r in refs[1..];
    }
  }

  lemma {:induction false} AckAllSettles(assignments: Assignments, refs: seq<PolicyRef>, n: Name)
    requires DistinctIds(refs)
    requires forall r <- refs :: r.policyId in assignments
    ensures forall r <- refs :: r.policyId == n ==>
              AckedOf(AckAll(assignments, Acks(refs)), n) == Some(ToI32(r.version))
    ensures (forall r <- refs :: r.policyId != n) ==>
              AckedOf(AckAll(assignments, Acks(refs)), n) == AckedOf(assignments, n)
    decreases |refs|
  {
    if refs != [] {
      assert Acks(refs)[1..] == Acks(refs[1..]);
      AckAllSettles(MarkAcked(assignments, AckOf(refs[0], true)), refs[1..], n);
      assert forall r :: r in refs <==> r == refs[0] || r in refs[1..];
      assert forall r <- refs[1..] :: r.policyId != refs[0].policyId;
    }
  }

  lemma {:induction false} WriteAllSettles(files: Files, refs: seq<PolicyRef>, n: Name)
    requires DistinctIds(refs)
    ensures forall r <- refs :: r.policyId == n ==>
              n in WriteAll(files, refs) && WriteAll(files, refs)[n] == File(r.version, r.compiled)
    ensures (forall r <- refs :: r.policyId != n) ==>
              (n in WriteAll(files, refs) <==> n in files) && (n in files ==> WriteAll(files, refs)[n] == files[n])
    decreases |refs|
  {
    if refs != [] {
      WriteAllSettles(WriteFile(files, refs[0], true), refs[1..], n);
      assert forall r :: r in refs <==> r == refs[0] || r in refs[1..];
      assert forall r <- refs[1..] :: r.policyId != refs[0].policyId;
    }
  }

  // ---------- the phases as runs ----------

  function AllMarked(s: System, t: nat): System
    requires t in s.tasks && s.tasks[t].marked <= |s.tasks[t].refs|
  {
    var task := s.tasks[t];
    s.(tasks := s.tasks[t := task.(marked := |task.refs|)],
       assignments := MarkAll(s.assignments, task.refs[task.marked..]))
  }

  lemma MarkOneThenRest(s: System, t: nat)
    requires t in s.tasks && s.tasks[t].marked < |s.tasks[t].refs|
    requires forall r <- s.tasks[t].refs :: r.policyId in s.policies
    ensures var s' := Next(s, MarkNext(t, true));
            t in s'.tasks && s'.tasks[t] == s.tasks[t].(marked := s.tasks[t].marked + 1) && s'.policies == s.policies
            && AllMarked(s', t) == AllMarked(s, t)
  {
    var task := s.tasks[t];
    assert task.refs[task.marked] in task.refs;
    assert task.refs[task.marked..][1..] == task.refs[task.marked + 1..];
  }

  lemma {:induction false} MarkPhase(s: System, t: nat)
    requires t in s.tasks && s.tasks[t].marked <= |s.tasks[t].refs|
    requires forall r <- s.tasks[t].refs :: r.policyId in s.policies
    ensures Run(s, Times(MarkNext(t, true), |s.tasks[t].refs| - s.tasks[t].marked), AllMarked(s, t))
    decreases |s.tasks[t].refs| - s.tasks[t].marked
  {
    var left := |s.tasks[t].refs| - s.tasks[t].marked;
    if left == 0 {
      assert AllMarked(s, t) == s;
    } else {
      var a := MarkNext(t, true);
      MarkOneThenRest(s, t);
      MarkPhase(Next(s, a), t);
      RunCons(s, a, Times(a, left - 1), AllMarked(s, t));
    }
  }

  /** The first `i` policies of the message are written and acknowledged. */
  function Applied(s: System, k: nat, i: nat): System
    requires k in s.streams && i <= |s.handling|
  {
    s.(files := WriteAll(s.files, s.handling[..i]), handling := s.handling[i..],
       streams := s.streams[k := s.streams[k].(up := s.streams[k].up + Acks(s.handling[..i]))])
  }

  lemma ApplyOneThenRest(s: System, k: nat, i: nat)
    requires s.reading == Some(k) && k in s.streams && 0 < i <= |s.handling|
    ensures var s' := Next(s, Apply(true, true));
            s'.reading == Some(k) && k in s'.streams && s'.handling == s.handling[1..]
            && Applied(s', k, i - 1) == Applied(s, k, i)
  {
    var s' := Next(s, Apply(true, true));
    assert s.handling[..i] == [s.handling[0]] + s'.handling[..i - 1] && s'.handling[i - 1..] == s.handling[i..];
    assert s'.streams[k].up + Acks(s'.handling[..i - 1]) == s.streams[k].up + Acks(s.handling[..i]);
  }

  lemma {:induction false} ApplyPhase(s: System, k: nat, i: nat)
    requires s.reading == Some(k) && k in s.streams && i <= |s.handling|
    ensures Run(s, Times(Apply(true, true), i), Applied(s, k, i))
    decreases i
  {
    if i == 0 {
      assert s.streams[k].up + Acks(s.handling[..0]) == s.streams[k].up && s.handling[0..] == s.handling;
      assert s.streams[k := s.streams[k]] == s.streams;
    } else {
      var a := Apply(true, true);
      ApplyOneThenRest(s, k, i);
      ApplyPhase(Next(s, a), k, i - 1);
      RunCons(s, a, Times(a, i - 1), Applied(s, k, i));
    }
  }

  function AllProcessed(s: System, k: nat): System
    requires k in s.streams
  {
    s.(assignments := AckAll(s.assignments, s.streams[k].up),
       streams := s.streams[k := s.streams[k].(up := [])])
  }

  lemma AckOneThenRest(s: System, k: nat)
    requires k in s.streams && s.streams[k].open && s.streams[k].up != []
    ensures var s' := Next(s, ProcessAck(k, true));
            k in s'.streams && s'.streams[k].open && s'.streams[k].up == s.streams[k].up[1..]
            && AllProcessed(s', k) == AllProcessed(s, k)
  {
  }

  lemma {:induction false} AckPhase(s: System, k: nat)
    requires k in s.streams && s.streams[k].open
    ensures Run(s, Times(ProcessAck(k, true), |s.streams[k].up|), AllProcessed(s, k))
    decreases |s.streams[k].up|
  {
    var up := s.streams[k].up;
    if up == [] {
      assert AllProcessed(s, k) == s;
    } else {
      var a := ProcessAck(k, true);
      AckOneThenRest(s, k);
      AckPhase(Next(s, a), k);
      RunCons(s, a, Times(a, |up| - 1), AllProcessed(s, k));
    }
  }

  function Pushed(s: System, k: nat): System
    requires k in s.streams
  {
    var refs := LoadPending(s.policies, s.assignments);
    s.(assignments := MarkAll(s.assignments, refs), streams := s.streams[k := Stream([refs], [], true)])
  }

  /** From a loaded task: mark everything and send. */
  lemma MarkAndSend(s: System, k: nat, refs: seq<PolicyRef>)
    requires s.tasks == map[0 := Task(k, refs, 0)] && k in s.streams && s.streams[k] == Stream([], [], true)
    requires forall r <- refs :: r.policyId in s.policies
    ensures Run(s, Times(MarkNext(0, true), |refs|) + [Send(0)],
                s.(tasks := map[], assignments := MarkAll(s.assignments, refs),
                   streams := s.streams[k := Stream([refs], [], true)]))
  {
    MarkPhase(s, 0);
    var marked := AllMarked(s, 0);
    assert refs[0..] == refs;
    var sent := Next(marked, Send(0));
    assert [] + [refs] == [refs];
    assert sent.tasks == map[];
    RunCons(marked, Send(0), [], sent);
    assert [Send(0)] + [] == [Send(0)];
    RunConcat(s, Times(MarkNext(0, true), |refs|), marked, [Send(0)], sent);
  }

  lemma LoadOnIdle(s: System, k: nat) returns (refs: seq<PolicyRef>)
    requires Idle(s, k) && LoadPending(s.policies, s.assignments) != []
    ensures refs == LoadPending(s.policies, s.assignments) && forall r <- refs :: r.policyId in s.policies
    ensures Enabled(s, Load(0, k)) && Next(s, Load(0, k)) == s.(tasks := map[0 := Task(k, refs, 0)])
  {
    refs := LoadPending(s.policies, s.assignments);
    assert s.tasks[0 := Task(k, refs, 0)] == map[0 := Task(k, refs, 0)];
  }

  lemma PushHalf(s: System, k: nat)
    requires Idle(s, k) && LoadPending(s.policies, s.assignments) != []
    ensures Run(s, PushActions(k, |LoadPending(s.policies, s.assignments)|), Pushed(s, k))
  {
    var refs := LoadOnIdle(s, k);
    MarkAndSend(s.(tasks := map[0 := Task(k, refs, 0)]), k, refs);
    RunCons(s, Load(0, k), Times(MarkNext(0, true), |refs|) + [Send(0)], Pushed(s, k));
  }

  function Delivered(s: System, k: nat, refs: seq<PolicyRef>): System {
    s.(assignments := AckAll(s.assignments, Acks(refs)), files := WriteAll(s.files, refs),
       streams := s.streams[k := Stream([], [], true)])
  }

  lemma DeliverHalf(s: System, k: nat, refs: seq<PolicyRef>)
    requires s.reading == Some(k) && s.handling == [] && refs != []
    requires k in s.streams && s.streams[k] == Stream([refs], [], true)
    ensures Run(s, DeliverActions(k, |refs|), Delivered(s, k, refs))
  {
    var s1 := s.(streams := s.streams[k := Stream([], [], true)], handling := refs);
    assert [refs][1..] == [] && Next(s, Receive(true)) == s1;
    ApplyAndAck(s1, k, refs);
    assert s1.streams[k := Stream([], [], true)] == s.streams[k := Stream([], [], true)];
    assert Delivered(s1, k, refs).(handling := []) == Delivered(s, k, refs);
    RunCons(s, Receive(true), Times(Apply(true, true), |refs|) + Times(ProcessAck(k, true), |refs|),
            Delivered(s, k, refs));
  }

  lemma BothPhases(s: System, k: nat)
    requires k in s.streams && s.streams[k] == Stream([], [], true)
    ensures var applied := Applied(s, k, |s.handling|);
            && applied.streams[k] == Stream([], Acks(s.handling), true)
            && AllProcessed(applied, k) == Delivered(s, k, s.handling).(handling := [])
  {
    var applied := Applied(s, k, |s.handling|);
    assert s.handling[..|s.handling|] == s.handling;
    EmptyJoins(Acks(s.handling));
    assert AllProcessed(applied, k).streams == s.streams[k := Stream([], [], true)];
  }

  lemma ApplyAndAck(s: System, k: nat, refs: seq<PolicyRef>)
    requires s.reading == Some(k) && s.handling == refs && k in s.streams && s.streams[k] == Stream([], [], true)
    ensures Run(s, Times(Apply(true, true), |refs|) + Times(ProcessAck(k, true), |refs|),
                Delivered(s, k, refs).(handling := []))
  {
    var applied := Applied(s, k, |s.handling|);
    ApplyPhase(s, k, |s.handling|);
    BothPhases(s, k);
    AckPhase(applied, k);
    RunConcat(s, Times(Apply(true, true), |refs|), applied, Times(ProcessAck(k, true), |refs|),
              AllProcessed(applied, k));
  }

  lemma EmptyRoundRuns(s: System, k: nat)
    requires Idle(s, k) && LoadPending(s.policies, s.assignments) == []
    ensures Run(s, RoundActions(k, 0), RoundEnd(s))
  {
    assert Acks([]) == [];
    RunCons(s, Load(0, k), [], s);
  }

  lemma HalvesMeet(s: System, k: nat)
    requires Idle(s, k)
    ensures Delivered(Pushed(s, k), k, LoadPending(s.policies, s.assignments)) == RoundEnd(s)
  {
    var refs := LoadPending(s.policies, s.assignments);
    assert s.streams[k := Stream([refs], [], true)][k := Stream([], [], true)] == s.streams;
  }

  lemma RoundRuns(s: System, k: nat)
    requires Idle(s, k)
    ensures Run(s, RoundActions(k, |LoadPending(s.policies, s.assignments)|), RoundEnd(s))
  {
    var refs := LoadPending(s.policies, s.assignments);
    if refs == [] {
      EmptyRoundRuns(s, k);
    } else {
      var mid := Pushed(s, k);
      PushHalf(s, k);
      DeliverHalf(mid, k, refs);
      HalvesMeet(s, k);
      RunConcat(s, PushActions(k, |refs|), mid, DeliverActions(k, |refs|), RoundEnd(s));
    }
  }

  lemma HeadIsPending(policies: Policies, assignments: Assignments)
    ensures LoadPending(policies, assignments) != [] ==>
              Pending(policies, assignments, LoadPending(policies, assignments)[0].policyId)
  {
    var refs := LoadPending(policies, assignments);
    if refs != [] {
      assert refs[0] in refs;
    }
  }

  lemma NothingPendingAfter(s: System)
    requires forall n | n in s.policies :: 0 <= s.policies[n].version <= I32_MAX
    ensures LoadPending(s.policies, RoundEnd(s).assignments) == []
  {
    forall n ensures !Pending(s.policies, RoundEnd(s).assignments, n) {
      NotPendingAfter(s, n);
    }
    HeadIsPending(s.policies, RoundEnd(s).assignments);
  }

  lemma PushedAreMarked(s: System, refs: seq<PolicyRef>)
    ensures forall r <- refs :: r.policyId in MarkAll(s.assignments, refs)
  {
    forall r | r in refs ensures r.policyId in MarkAll(s.assignments, refs) {
      MarkAllKeepsAcked(s.assignments, refs, r.policyId);
    }
  }

  lemma AckedAllOf(s: System, refs: seq<PolicyRef>, n: Name)
    requires DistinctIds(refs)
    ensures forall r <- refs :: r.policyId == n ==>
              AckedOf(AckAll(MarkAll(s.assignments, refs), Acks(refs)), n) == Some(ToI32(r.version))
    ensures (forall r <- refs :: r.policyId != n) ==>
              AckedOf(AckAll(MarkAll(s.assignments, refs), Acks(refs)), n) == AckedOf(s.assignments, n)
  {
    PushedAreMarked(s, refs);
    MarkAllKeepsAcked(s.assignments, refs, n);
    AckAllSettles(MarkAll(s.assignments, refs), refs, n);
  }

  lemma AckedAfter(s: System, n: Name)
    requires forall n | n in s.policies :: 0 <= s.policies[n].version <= I32_MAX
    ensures AckedOf(RoundEnd(s).assignments, n)
         == if Pending(s.policies, s.assignments, n) then Some(s.policies[n].version) else AckedOf(s.assignments, n)
  {
    var refs := LoadPending(s.policies, s.assignments);
    AckedAllOf(s, refs, n);
    if Pending(s.policies, s.assignments, n) {
      assert RefOf(n, s.policies[n]) in refs;
    }
  }

  lemma NotPendingAfter(s: System, n: Name)
    requires forall n | n in s.policies :: 0 <= s.policies[n].version <= I32_MAX
    ensures !Pending(s.policies, RoundEnd(s).assignments, n)
  {
    AckedAfter(s, n);
  }

  lemma FileAfter(s: System, n: Name)
    requires forall n | n in s.policies :: 0 <= s.policies[n].version <= I32_MAX
    ensures Pending(s.policies, s.assignments, n) ==>
              n in RoundEnd(s).files && RoundEnd(s).files[n] == File(s.policies[n].version, s.policies[n].compiled)
    ensures !Pending(s.policies, s.assignments, n) ==>
              (n in RoundEnd(s).files <==> n in s.files) && (n in s.files ==> RoundEnd(s).files[n] == s.files[n])
  {
    var refs := LoadPending(s.policies, s.assignments);
    WriteAllSettles(s.files, refs, n);
    if Pending(s.policies, s.assignments, n) {
      assert RefOf(n, s.policies[n]) in refs;
    }
  }

  /**
   After the round nothing is pending, every pushed file holds the table's content of its policy, and
   no other file changed. The messages are handled in the order of LoadPending.
   */
  lemma RoundDeliversEverything(s: System, k: nat)
    requires Idle(s, k)
    requires forall n | n in s.policies :: 0 <= s.policies[n].version <= I32_MAX
    ensures Run(s, RoundActions(k, |LoadPending(s.policies, s.assignments)|), RoundEnd(s))
    ensures LoadPending(s.policies, RoundEnd(s).assignments) == []
    ensures forall n | n in s.policies && Pending(s.policies, s.assignments, n) ::
              n in RoundEnd(s).files
              && RoundEnd(s).files[n] == File(s.policies[n].version, s.policies[n].compiled)
    ensures forall n | !Pending(s.policies, s.assignments, n) ::
              (n in RoundEnd(s).files <==> n in s.files) && (n in s.files ==> RoundEnd(s).files[n] == s.files[n])
  {
    RoundRuns(s, k);
    NothingPendingAfter(s);
    forall n ensures Pending(s.policies, s.assignments, n) ==>
                       n in RoundEnd(s).files
                       && RoundEnd(s).files[n] == File(s.policies[n].version, s.policies[n].compiled)
             ensures !Pending(s.policies, s.assignments, n) ==>
                       (n in RoundEnd(s).files <==> n in s.files)
                       && (n in s.files ==> RoundEnd(s).files[n] == s.files[n])
    {
      FileAfter(s, n);
    }
  }

  // ---------- the order within a round ----------

  function AckedIds(up: seq<Ack>): (ids: seq<Name>)
    ensures |ids| == |up| && forall i | 0 <= i < |up| :: ids[i] == up[i].policyId
  {
    seq(|up|, i requires 0 <= i < |up| => up[i].policyId)
  }

  /** The round stopped after `i` policies of its message were applied. */
  function Halfway(s: System, k: nat, i: nat): System
    requires k in s.streams && i <= |LoadPending(s.policies, s.assignments)|
  {
    var refs := LoadPending(s.policies, s.assignments);
    s.(assignments := MarkAll(s.assignments, refs), files := WriteAll(s.files, refs[..i]), handling := refs[i..],
       streams := s.streams[k := Stream([], Acks(refs[..i]), true)])
  }

  function Stopped(s: System, k: nat, refs: seq<PolicyRef>, i: nat): System
    requires i <= |refs|
  {
    s.(files := WriteAll(s.files, refs[..i]), handling := refs[i..],
       streams := s.streams[k := Stream([], Acks(refs[..i]), true)])
  }

  lemma ReceiveThenApply(s: System, k: nat, refs: seq<PolicyRef>, i: nat)
    requires s.reading == Some(k) && s.handling == [] && i <= |refs|
    requires k in s.streams && s.streams[k] == Stream([refs], [], true)
    ensures Run(s, [Receive(true)] + Times(Apply(true, true), i), Stopped(s, k, refs, i))
  {
    var s1 := s.(streams := s.streams[k := Stream([], [], true)], handling := refs);
    assert [refs][1..] == [] && Next(s, Receive(true)) == s1;
    ApplyPhase(s1, k, i);
    EmptyJoins(Acks(refs[..i]));
    assert Applied(s1, k, i).streams == s.streams[k := Stream([], Acks(refs[..i]), true)];
    RunCons(s, Receive(true), Times(Apply(true, true), i), Applied(s1, k, i));
  }

  lemma StoppedIsHalfway(s: System, k: nat, i: nat)
    requires k in s.streams && s.handling == [] && i <= |LoadPending(s.policies, s.assignments)|
    ensures Stopped(Pushed(s, k), k, LoadPending(s.policies, s.assignments), i) == Halfway(s, k, i)
  {
    var refs := LoadPending(s.policies, s.assignments);
    var st := Stream([], Acks(refs[..i]), true);
    assert s.streams[k := Stream([refs], [], true)][k := st] == s.streams[k := st];
  }

  lemma HalfwayRuns(s: System, k: nat, i: nat)
    requires Idle(s, k) && LoadPending(s.policies, s.assignments) != []
    requires i <= |LoadPending(s.policies, s.assignments)|
    ensures Run(s, PushActions(k, |LoadPending(s.policies, s.assignments)|)
                   + ([Receive(true)] + Times(Apply(true, true), i)), Halfway(s, k, i))
  {
    var refs := LoadPending(s.policies, s.assignments);
    var mid := Pushed(s, k);
    PushHalf(s, k);
    ReceiveThenApply(mid, k, refs, i);
    StoppedIsHalfway(s, k, i);
    RunConcat(s, PushActions(k, |refs|), mid, [Receive(true)] + Times(Apply(true, true), i), Halfway(s, k, i));
  }

  lemma InQueryOrderPart(policies: Policies, ids: seq<Name>, i: nat)
    requires i <= |ids| && InQueryOrder(policies, ids)
    ensures InQueryOrder(policies, ids[..i])
  {
    var front := ids[..i];
    forall a, b | 0 <= a < b < |front| ensures Outranks(policies, front[a], front[b]) {
      assert Outranks(policies, ids[a], ids[b]);
    }
  }

  lemma AckedThenWaiting(policies: Policies, refs: seq<PolicyRef>, i: nat)
    requires i <= |refs| && InQueryOrder(policies, IdsOf(refs))
    ensures AckedIds(Acks(refs[..i])) + IdsOf(refs[i..]) == IdsOf(refs)
    ensures InQueryOrder(policies, AckedIds(Acks(refs[..i])))
  {
    var ids := IdsOf(refs);
    assert AckedIds(Acks(refs[..i])) == ids[..i] && IdsOf(refs[i..]) == ids[i..];
    assert ids[..i] + ids[i..] == ids;
    InQueryOrderPart(policies, ids, i);
  }

  lemma WrittenSoFar(files: Files, refs: seq<PolicyRef>, i: nat, r: PolicyRef)
    requires DistinctIds(refs) && i <= |refs| && r in refs[..i]
    ensures var after := WriteAll(files, refs[..i]);
            r.policyId in after && after[r.policyId] == File(r.version, r.compiled)
  {
    WriteAllSettles(files, refs[..i], r.policyId);
  }

  /**
   The message lists, and the agent applies and acknowledges, the pending policies in the order of the
   query: after `i` steps exactly the first `i` of them are written and acknowledged, and the others wait.
   */
  lemma RoundIsInQueryOrder(s: System, k: nat, refs: seq<PolicyRef>, i: nat)
    requires Idle(s, k) && refs == LoadPending(s.policies, s.assignments) != [] && i <= |refs|
    ensures InQueryOrder(s.policies, IdsOf(refs))
    ensures Run(s, PushActions(k, |refs|), Pushed(s, k)) && Pushed(s, k).streams[k].down == [refs]
    ensures Run(s, PushActions(k, |refs|) + ([Receive(true)] + Times(Apply(true, true), i)), Halfway(s, k, i))
    ensures var up := Halfway(s, k, i).streams[k].up;
            && |up| == i && AckedIds(up) + IdsOf(Halfway(s, k, i).handling) == IdsOf(refs)
            && InQueryOrder(s.policies, AckedIds(up))
    ensures forall r | r in refs[..i] :: r.policyId in Halfway(s, k, i).files
                                         && Halfway(s, k, i).files[r.policyId] == File(r.version, r.compiled)
  {
    PushHalf(s, k);
    HalfwayRuns(s, k, i);
    AckedThenWaiting(s.policies, refs, i);
    forall r | r in refs[..i]
      ensures r.policyId in Halfway(s, k, i).files
      ensures Halfway(s, k, i).files[r.policyId] == File(r.version, r.compiled)
    {
      WrittenSoFar(s.files, refs, i, r);
    }
  }

  /**
   From any state that a run with in-order delivery reaches, one round on an idle session brings every
   enabled policy to the agent, and not only those that were pushed.
   */
  lemma RoundBringsAllCurrent(s0: System, actions: seq<Action>, s: System, k: nat)
    requires Initial(s0) && Run(s0, actions, s) && Idle(s, k)
    requires forall n | n in s.policies :: InOrderRun(s0, n, actions)
    ensures Run(s, RoundActions(k, |LoadPending(s.policies, s.assignments)|), RoundEnd(s))
    ensures forall n | n in s.policies && s.policies[n].enabled ::
              n in RoundEnd(s).files
              && RoundEnd(s).files[n] == File(s.policies[n].version, s.policies[n].compiled)
  {
    forall n | n in s.policies ensures 0 <= s.policies[n].version <= I32_MAX {
      RunKeepsInv(s0, n, actions, s);
    }
    RoundDeliversEverything(s, k);
    forall n | n in s.policies && s.policies[n].enabled && !Pending(s.policies, s.assignments, n)
      ensures n in s.files && s.files[n] == File(s.policies[n].version, s.policies[n].compiled)
    {
      AckedNeverAhead(s0, n, actions, s);
    }
  }
}
