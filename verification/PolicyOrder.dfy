/**
 A scheduling guard that makes the agent apply versions in order: at most one push between its load
 and its send. FIFO delivery then does the rest, over any number of streams.
 */
module PolicyOrder {
  import opened Prelude
  import opened PolicyTables
  import opened PolicyPush

  /** Policy `n` is not deleted and does not exhaust its versions; a push starts only when none is in progress. */
  ghost predicate Guarded(s: System, n: Name, a: Action) {
    && (a.Load? ==> s.tasks == map[])
    && (a.Delete? ==> a.name != n)
    && (a.Edit? && a.name == n ==> n in s.policies && s.policies[n].version < I32_MAX)
  }

  ghost predicate GuardedRun(s: System, n: Name, actions: seq<Action>)
    decreases |actions|
  {
    actions != [] ==>
      Enabled(s, actions[0]) && Guarded(s, n, actions[0]) && GuardedRun(Next(s, actions[0]), n, actions[1..])
  }

  // ---------- what is on its way to the agent ----------

  function Flat(messages: seq<seq<PolicyRef>>): seq<PolicyRef> {
    if messages == [] then [] else messages[0] + Flat(messages[1..])
  }

  lemma {:induction false} FlatSnoc(messages: seq<seq<PolicyRef>>, m: seq<PolicyRef>)
    ensures Flat(messages + [m]) == Flat(messages) + m
  {
    if messages == [] {
      assert [] + [m] == [m] && m + [] == m;
    } else {
      assert (messages + [m])[1..] == messages[1..] + [m];
      FlatSnoc(messages[1..], m);
    }
  }

  /** The only task, if there is one and it pushes to stream `k`. */
  ghost predicate OneTask(tasks: map<nat, Task>) {
    forall t, u | t in tasks && u in tasks :: t == u
  }

  function TaskRefs(tasks: map<nat, Task>, t: nat, k: nat): seq<PolicyRef> {
    if t in tasks && tasks[t].stream == k then tasks[t].refs else []
  }

  /** What the agent will apply if nothing breaks: the rest of its message, its stream, and push `t`. */
  function Flow(s: System, t: nat): seq<PolicyRef> {
    if s.reading.Some? && s.reading.value in s.streams then
      s.handling + (Flat(s.streams[s.reading.value].down) + TaskRefs(s.tasks, t, s.reading.value))
    else []
  }

  /** The versions of `n` ascend, from at least `low` to at most the table's. */
  ghost predicate Rising(policies: Policies, n: Name, low: int, flow: seq<PolicyRef>) {
    && (forall i | 0 <= i < |flow| && flow[i].policyId == n ::
          n in policies && low <= flow[i].version <= policies[n].version)
    && (forall i, j | 0 <= i < j < |flow| && flow[i].policyId == n && flow[j].policyId == n ::
          flow[i].version <= flow[j].version)
  }

  function Low(files: Files, n: Name): int {
    if n in files then files[n].version else 0
  }

  ghost predicate Ordered(s: System, n: Name) {
    && OneTask(s.tasks)
    && (forall t | t in s.tasks :: s.tasks[t].stream in s.streams)
    && (n in s.policies ==> 0 <= s.policies[n].version <= I32_MAX)
    && (n in s.files ==> n in s.policies && s.files[n].version <= s.policies[n].version)
    && (forall t :: Rising(s.policies, n, Low(s.files, n), Flow(s, t)))
  }

  // ---------- every step keeps the order ----------

  lemma RisingAfterEdit(before: Policies, after: Policies, n: Name, low: int, flow: seq<PolicyRef>)
    requires Rising(before, n, low, flow)
    requires n in before ==> n in after && before[n].version <= after[n].version
    ensures Rising(after, n, low, flow)
  {
  }

  lemma TableKeepsOrder(s: System, n: Name, a: Action)
    requires Ordered(s, n) && Enabled(s, a) && Guarded(s, n, a) && (a.Create? || a.Edit? || a.Delete?)
    ensures Ordered(Next(s, a), n)
  {
    var s' := Next(s, a);
    forall t ensures Rising(s'.policies, n, Low(s'.files, n), Flow(s', t)) {
      assert Flow(s', t) == Flow(s, t);
      RisingAfterEdit(s.policies, s'.policies, n, Low(s.files, n), Flow(s, t));
    }
  }

  /** A load's refs all carry the table's version, and name `n` at most once. */
  lemma RisingAfterLoad(policies: Policies, assignments: Assignments, n: Name, low: int, flow: seq<PolicyRef>)
    requires Rising(policies, n, low, flow)
    requires n in policies ==> low <= policies[n].version && 0 <= policies[n].version <= I32_MAX
    ensures Rising(policies, n, low, flow + LoadPending(policies, assignments))
  {
    var refs := LoadPending(policies, assignments);
    forall i | 0 <= i < |refs| && refs[i].policyId == n
      ensures n in policies && refs[i].version == policies[n].version
    {
      assert refs[i] in refs;
    }
    RisingAppend(policies, n, low, flow, refs);
  }

  lemma RisingAppend(policies: Policies, n: Name, low: int, flow: seq<PolicyRef>, refs: seq<PolicyRef>)
    requires Rising(policies, n, low, flow) && (n in policies ==> low <= policies[n].version)
    requires forall i | 0 <= i < |refs| && refs[i].policyId == n ::
               n in policies && refs[i].version == policies[n].version
    ensures Rising(policies, n, low, flow + refs)
  {
  }

  lemma AddRefs(handling: seq<PolicyRef>, down: seq<PolicyRef>, refs: seq<PolicyRef>)
    ensures handling + (down + refs) == (handling + (down + [])) + refs
  {
    EmptyJoins(down);
    Assoc(handling, down, refs);
  }

  lemma LoadFlow(s: System, n: Name, a: Action, t: nat, refs: seq<PolicyRef>, s': System)
    requires Ordered(s, n) && Enabled(s, a) && a.Load? && s.tasks == map[]
    requires refs == LoadPending(s.policies, s.assignments)
    requires s' == s.(tasks := map[a.task := Task(a.stream, refs, 0)])
    ensures Rising(s.policies, n, Low(s.files, n), Flow(s', t))
  {
    assert Rising(s.policies, n, Low(s.files, n), Flow(s, t));
    FlowAfterLoad(s, a, t, refs, s');
    if t == a.task && s.reading == Some(a.stream) {
      RisingAfterLoad(s.policies, s.assignments, n, Low(s.files, n), Flow(s, t));
    }
  }

  lemma FlowAfterLoad(s: System, a: Action, t: nat, refs: seq<PolicyRef>, s': System)
    requires Enabled(s, a) && a.Load? && s.tasks == map[]
    requires s' == s.(tasks := map[a.task := Task(a.stream, refs, 0)])
    ensures Flow(s', t) == if t == a.task && s.reading == Some(a.stream) then Flow(s, t) + refs else Flow(s, t)
  {
    if t == a.task && s.reading == Some(a.stream) {
      AddRefs(s.handling, Flat(s.streams[a.stream].down), refs);
    }
  }

  lemma LoadedTask(s: System, a: Action) returns (refs: seq<PolicyRef>)
    requires Enabled(s, a) && a.Load? && s.tasks == map[]
    ensures refs == LoadPending(s.policies, s.assignments)
    ensures Next(s, a) == if refs == [] then s else s.(tasks := map[a.task := Task(a.stream, refs, 0)])
  {
    refs := LoadPending(s.policies, s.assignments);
  }

  lemma LoadKeepsOrder(s: System, n: Name, a: Action)
    requires Ordered(s, n) && Enabled(s, a) && Guarded(s, n, a) && a.Load?
    ensures Ordered(Next(s, a), n)
  {
    var refs := LoadedTask(s, a);
    if refs != [] {
      var s' := s.(tasks := map[a.task := Task(a.stream, refs, 0)]);
      forall t ensures Rising(s.policies, n, Low(s.files, n), Flow(s', t)) {
        LoadFlow(s, n, a, t, refs, s');
      }
      assert Ordered(s', n);
    }
  }

  lemma MarkKeepsOrder(s: System, n: Name, a: Action)
    requires Ordered(s, n) && Enabled(s, a) && a.MarkNext?
    ensures Ordered(Next(s, a), n)
  {
    var s' := Next(s, a);
    forall t ensures Rising(s'.policies, n, Low(s'.files, n), Flow(s', t)) {
      assert Flow(s', t) == Flow(s, t);
    }
  }

  lemma RisingPart(policies: Policies, n: Name, low: int, whole: seq<PolicyRef>,
          a: seq<PolicyRef>, part: seq<PolicyRef>, b: seq<PolicyRef>)
    requires Rising(policies, n, low, whole) && whole == a + (part + b)
    ensures Rising(policies, n, low, part)
  {
    forall i | 0 <= i < |part| ensures part[i] == whole[|a| + i] {
    }
  }

  lemma SentParts(handling: seq<PolicyRef>, down: seq<seq<PolicyRef>>, refs: seq<PolicyRef>)
    ensures handling + (Flat(down + [refs]) + []) == handling + (Flat(down) + refs)
    ensures handling + (Flat(down) + refs) == [] + (handling + (Flat(down) + []) + refs)
  {
    FlatSnoc(down, refs);
  }

  /** A send moves the task's refs into the stream, or drops them if the stream is closed. */
  lemma SendFlow(s: System, n: Name, a: Action, t: nat)
    requires Ordered(s, n) && Enabled(s, a) && a.Send?
    ensures Rising(s.policies, n, Low(s.files, n), Flow(Next(s, a), t))
  {
    var s' := Next(s, a);
    var task := s.tasks[a.task];
    assert s'.tasks == map[];
    if s.reading.Some? && s.reading.value in s.streams {
      var k := s.reading.value;
      var down := s.streams[k].down;
      SentParts(s.handling, down, task.refs);
      assert Rising(s.policies, n, Low(s.files, n), Flow(s, a.task));
      if task.stream != k {
        assert Flow(s', t) == Flow(s, a.task);
      } else if s.streams[k].open {
        assert s'.streams[k].down == down + [task.refs];
        assert Flow(s', t) == Flow(s, a.task);
      } else {
        assert s'.streams == s.streams;
        RisingPart(s.policies, n, Low(s.files, n), Flow(s, a.task), [], Flow(s', t), task.refs);
      }
    }
  }

  lemma SendKeepsOrder(s: System, n: Name, a: Action)
    requires Ordered(s, n) && Enabled(s, a) && a.Send?
    ensures Ordered(Next(s, a), n)
  {
    forall t {
      SendFlow(s, n, a, t);
    }
  }

  lemma ReceivedParts(down: seq<seq<PolicyRef>>, refs: seq<PolicyRef>)
    requires down != []
    ensures [] + (Flat(down) + refs) == down[0] + (Flat(down[1..]) + refs)
    ensures [] + (Flat(down) + refs) == down[0] + (([] + (Flat(down[1..]) + refs)) + [])
  {
    var rest := Flat(down[1..]) + refs;
    Assoc(down[0], Flat(down[1..]), refs);
    EmptyJoins(Flat(down) + refs);
    EmptyJoins(rest);
  }

  lemma ReceiveKeepsOrder(s: System, n: Name, a: Action)
    requires Ordered(s, n) && Enabled(s, a) && a.Receive?
    ensures Ordered(Next(s, a), n)
  {
    var s' := Next(s, a);
    var k := s.reading.value;
    var down := s.streams[k].down;
    forall t ensures Rising(s'.policies, n, Low(s'.files, n), Flow(s', t)) {
      ReceivedParts(down, TaskRefs(s.tasks, t, k));
      assert Rising(s.policies, n, Low(s.files, n), Flow(s, t));
      if a.dirOk {
        assert Flow(s', t) == Flow(s, t);
      } else {
        RisingPart(s.policies, n, Low(s.files, n), Flow(s, t), down[0], Flow(s', t), []);
      }
    }
  }

  /** Dropping a front part, the first of which may have been written to the file. */
  lemma RisingDrop(policies: Policies, n: Name, low: int, flow: seq<PolicyRef>, skip: nat, low': int)
    requires Rising(policies, n, low, flow) && 1 <= skip <= |flow|
    requires low' == low || (flow[0].policyId == n && low' == flow[0].version)
    ensures Rising(policies, n, low', flow[skip..])
  {
    var rest := flow[skip..];
    forall i | 0 <= i < |rest| ensures rest[i] == flow[skip + i] {
    }
  }

  lemma DroppedParts(handling: seq<PolicyRef>, rest: seq<PolicyRef>)
    requires handling != []
    ensures handling[1..] + rest == (handling + rest)[1..]
    ensures [] + rest == (handling + rest)[|handling|..]
  {
  }

  lemma ApplyFlow(s: System, n: Name, a: Action, t: nat)
    requires Ordered(s, n) && Enabled(s, a) && a.Apply?
    ensures Rising(s.policies, n, Low(Next(s, a).files, n), Flow(Next(s, a), t))
  {
    var s' := Next(s, a);
    var k := s.reading.value;
    var rest := Flat(s.streams[k].down) + TaskRefs(s.tasks, t, k);
    var skip := if a.ackOk then 1 else |s.handling|;
    DroppedParts(s.handling, rest);
    var flow := Flow(s, t);
    assert flow == s.handling + rest && flow[0] == s.handling[0];
    assert Flow(s', t) == flow[skip..];
    RisingDrop(s.policies, n, Low(s.files, n), flow, skip, Low(s'.files, n));
  }

  lemma ApplyKeepsOrder(s: System, n: Name, a: Action)
    requires Ordered(s, n) && Enabled(s, a) && a.Apply?
    ensures Ordered(Next(s, a), n) && InOrder(s, n, a)
  {
    var k := s.reading.value;
    var flow := Flow(s, 0);
    assert flow[0] == s.handling[0];
    assert Rising(s.policies, n, Low(s.files, n), flow);
    forall t {
      ApplyFlow(s, n, a, t);
    }
  }

  lemma StreamKeepsOrder(s: System, n: Name, a: Action)
    requires Ordered(s, n) && Enabled(s, a) && (a.Connect? || a.ProcessAck? || a.Disconnect? || a.CloseStream?)
    ensures Ordered(Next(s, a), n)
  {
    var s' := Next(s, a);
    forall t ensures Rising(s'.policies, n, Low(s'.files, n), Flow(s', t)) {
      assert Flow(s', t) == [] || Flow(s', t) == Flow(s, t);
    }
  }

  lemma StepKeepsOrder(s: System, n: Name, a: Action)
    requires Ordered(s, n) && Enabled(s, a) && Guarded(s, n, a)
    ensures Ordered(Next(s, a), n) && InOrder(s, n, a)
  {
    match a
    case Create(_, _, _, _) => TableKeepsOrder(s, n, a);
    case Edit(_, _, _) => TableKeepsOrder(s, n, a);
    case Delete(_) => TableKeepsOrder(s, n, a);
    case Load(_, _) => LoadKeepsOrder(s, n, a);
    case MarkNext(_, _) => MarkKeepsOrder(s, n, a);
    case Send(_) => SendKeepsOrder(s, n, a);
    case Receive(_) => ReceiveKeepsOrder(s, n, a);
    case Apply(_, _) => ApplyKeepsOrder(s, n, a);
    case _ => StreamKeepsOrder(s, n, a);
  }

  lemma {:induction false} GuardedRunIsInOrder(s: System, n: Name, actions: seq<Action>)
    requires Ordered(s, n) && GuardedRun(s, n, actions)
    ensures InOrderRun(s, n, actions)
    decreases |actions|
  {
    if actions != [] {
      StepKeepsOrder(s, n, actions[0]);
      GuardedRunIsInOrder(Next(s, actions[0]), n, actions[1..]);
    }
  }

  lemma InitiallyOrdered(s: System, n: Name)
    requires Initial(s)
    ensures Ordered(s, n)
  {
  }

  /**
   With one push at a time every run delivers versions in order, so the acknowledged version never
   exceeds the file's and a policy that is not pending is on the agent: nothing about the agent's
   writes need be assumed.
   */
  lemma SerialPushesAreSafe(s: System, n: Name, actions: seq<Action>, t: System)
    requires Initial(s) && Run(s, actions, t) && GuardedRun(s, n, actions)
    ensures InOrderRun(s, n, actions) && Bounded(t, n)
    ensures n in t.policies && t.policies[n].enabled && !Pending(t.policies, t.assignments, n) ==>
              n in t.files && t.files[n] == File(t.policies[n].version, t.policies[n].compiled)
  {
    InitiallyOrdered(s, n);
    GuardedRunIsInOrder(s, n, actions);
    AckedNeverAhead(s, n, actions, t);
  }
}
