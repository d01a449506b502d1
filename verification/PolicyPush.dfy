/**
 Policy distribution to one agent as a step system. The initial push of a new stream and the
 broadcast bridge are the same kind of task: load the pending policies, mark each as assigned, send
 one message. Any number of tasks may be between those steps at once, nothing serialises them, and
 streams that the agent has already left may still deliver acks to the manager.
 */
module PolicyPush {
  import opened Prelude
  import opened PolicyTables

  /** A gRPC stream: pushes towards the agent, acks towards the manager, both FIFO. */
  datatype Stream = Stream(down: seq<seq<PolicyRef>>, up: seq<Ack>, open: bool)

  /** A push between its load and its send. */
  datatype Task = Task(stream: nat, refs: seq<PolicyRef>, marked: nat)

  datatype System = System(
    policies: Policies,
    assignments: Assignments,
    tasks: map<nat, Task>,
    streams: map<nat, Stream>,
    reading: Option<nat>,        // the stream of the agent's current session
    handling: seq<PolicyRef>,    // what is left of the PolicyUpdate being applied
    files: Files)

  datatype Action =
    | Create(name: Name, yamlVersion: nat, priority: int, compiled: Bytes)
    | Edit(name: Name, priority: int, compiled: Bytes)  // update, rollback
    | Delete(name: Name)
    | Connect(stream: nat)
    | Load(task: nat, stream: nat)
    | MarkNext(task: nat, dbOk: bool)
    | Send(task: nat)
    | Receive(dirOk: bool)
    | Apply(writeOk: bool, ackOk: bool)
    | ProcessAck(stream: nat, dbOk: bool)
    | Disconnect
    | CloseStream(stream: nat)

  predicate Enabled(s: System, a: Action) {
    match a
    case Create(n, _, _, _) => n !in s.policies
    case Edit(n, _, _) => n in s.policies
    case Delete(n) => n in s.policies
    case Connect(k) => k !in s.streams && s.reading.None?
    case Load(t, k) => t !in s.tasks && k in s.streams
    case MarkNext(t, _) => t in s.tasks && s.tasks[t].marked < |s.tasks[t].refs|
    case Send(t) => t in s.tasks && s.tasks[t].marked == |s.tasks[t].refs|
    case Receive(_) => s.reading.Some? && s.reading.value in s.streams && s.handling == []
                       && s.streams[s.reading.value].down != []
    case Apply(_, _) => s.reading.Some? && s.reading.value in s.streams && s.handling != []
    case ProcessAck(k, _) => k in s.streams && s.streams[k].open && s.streams[k].up != []
    case Disconnect => s.reading.Some?
    case CloseStream(k) => k in s.streams
  }

  function Next(s: System, a: Action): System
    requires Enabled(s, a)
  {
    match a
    case Create(n, v, p, c) =>
      s.(policies := s.policies[n := PolicyRow(if v <= I32_MAX then v else 1, true, p, c)])
    case Edit(n, p, c) =>
      s.(policies := s.policies[n := PolicyRow(Bump(s.policies[n].version), s.policies[n].enabled, p, c)])
    case Delete(n) =>
      s.(policies := s.policies - {n}, assignments := s.assignments - {n})
    case Connect(k) =>
      s.(streams := s.streams[k := Stream([], [], true)], reading := Some(k), handling := [])
    case Load(t, k) =>
      var refs := LoadPending(s.policies, s.assignments);
      if refs == [] then s else s.(tasks := s.tasks[t := Task(k, refs, 0)])
    case MarkNext(t, dbOk) =>
      var task := s.tasks[t];
      var r := task.refs[task.marked];
      s.(tasks := s.tasks[t := task.(marked := task.marked + 1)],
         assignments := if dbOk && r.policyId in s.policies then MarkAssigned(s.assignments, r) else s.assignments)
    case Send(t) =>
      var task := s.tasks[t];
      var s' := s.(tasks := s.tasks - {t});
      if task.stream in s.streams && s.streams[task.stream].open then
        var st := s.streams[task.stream];
        s'.(streams := s.streams[task.stream := st.(down := st.down + [task.refs])])
      else s'
    case Receive(dirOk) =>
      var k := s.reading.value;
      var st := s.streams[k];
      s.(streams := s.streams[k := st.(down := st.down[1..])], handling := if dirOk then st.down[0] else [])
    case Apply(writeOk, ackOk) =>
      var k := s.reading.value;
      var st := s.streams[k];
      var r := s.handling[0];
      s.(files := WriteFile(s.files, r, writeOk),
         streams := if ackOk then s.streams[k := st.(up := st.up + [AckOf(r, writeOk)])] else s.streams,
         handling := if ackOk then s.handling[1..] else [])
    case ProcessAck(k, dbOk) =>
      var st := s.streams[k];
      s.(streams := s.streams[k := st.(up := st.up[1..])],
         assignments := if dbOk then MarkAcked(s.assignments, st.up[0]) else s.assignments)
    case Disconnect =>
      s.(reading := None, handling := [])
    case CloseStream(k) =>
      s.(streams := s.streams[k := s.streams[k].(open := false, up := [])])
  }

  /** `t` is reached from `s` by these actions. */
  ghost predicate Run(s: System, actions: seq<Action>, t: System)
    decreases |actions|
  {
    if actions == [] then s == t
    else Enabled(s, actions[0]) && Run(Next(s, actions[0]), actions[1..], t)
  }

  lemma {:induction false} RunConcat(s: System, first: seq<Action>, mid: System, second: seq<Action>, t: System)
    requires Run(s, first, mid) && Run(mid, second, t)
    ensures Run(s, first + second, t)
    decreases |first|
  {
    if first == [] {
      assert first + second == second;
    } else {
      RunConcat(Next(s, first[0]), first[1..], mid, second, t);
      assert (first + second)[1..] == first[1..] + second;
    }
  }

  lemma RunCons(s: System, a: Action, rest: seq<Action>, t: System)
    requires Enabled(s, a) && Run(Next(s, a), rest, t)
    ensures Run(s, [a] + rest, t)
  {
    assert ([a] + rest)[1..] == rest;
  }

  ghost predicate Initial(s: System) {
    && s.assignments == map[] && s.tasks == map[] && s.streams == map[]
    && s.reading.None? && s.handling == [] && s.files == map[]
    && forall n | n in s.policies :: 0 <= s.policies[n].version <= I32_MAX
  }

  // ---------- acked_version <= the agent's file <= the database ----------

  function FileVersion(s: System, n: Name): Option<int> {
    if n in s.files then Some(s.files[n].version) else None
  }

  /** What the manager believes never runs ahead of what the agent holds, nor that ahead of the table. */
  ghost predicate Bounded(s: System, n: Name) {
    && (AckedOf(s.assignments, n).Some? ==>
          n in s.files && AckedOf(s.assignments, n).value <= s.files[n].version)
    && (n in s.files ==> n in s.policies && s.files[n].version <= s.policies[n].version)
  }

  /** A copy of policy `n` is no newer than the table, and equals it when the versions agree. */
  ghost predicate Fits(policies: Policies, n: Name, version: int, compiled: Bytes) {
    && n in policies
    && 0 <= version <= policies[n].version
    && (version == policies[n].version ==> compiled == policies[n].compiled)
  }

  ghost predicate RefsFit(policies: Policies, n: Name, refs: seq<PolicyRef>) {
    forall r | r in refs && r.policyId == n :: Fits(policies, n, r.version, r.compiled)
  }

  /** No applied ack still in flight claims more than the file holds. */
  ghost predicate ClaimsBounded(files: Files, n: Name, up: seq<Ack>) {
    forall a | a in up && a.policyId == n && a.status == APPLIED ::
      n in files && 0 <= a.version <= files[n].version
  }

  ghost predicate Inv(s: System, n: Name) {
    && (n in s.policies ==> 0 <= s.policies[n].version <= I32_MAX)
    && (forall t | t in s.tasks :: RefsFit(s.policies, n, s.tasks[t].refs))
    && (forall k, m | k in s.streams && m in s.streams[k].down :: RefsFit(s.policies, n, m))
    && RefsFit(s.policies, n, s.handling)
    && (n in s.files ==> Fits(s.policies, n, s.files[n].version, s.files[n].compiled))
    && (forall k | k in s.streams :: ClaimsBounded(s.files, n, s.streams[k].up))
    && Bounded(s, n)
  }

  /** The run keeps policy `n`, does not exhaust its version, and delivers its versions in order. */
  ghost predicate InOrder(s: System, n: Name, a: Action)
    requires Enabled(s, a)
  {
    match a
    case Delete(m) => m != n
    case Edit(m, _, _) => m == n ==> s.policies[n].version < I32_MAX
    case Apply(true, _) => s.handling[0].policyId == n && n in s.files ==>
                             s.files[n].version <= s.handling[0].version
    case _ => true
  }

  ghost predicate InOrderRun(s: System, n: Name, actions: seq<Action>)
    decreases |actions|
  {
    actions != [] ==>
      Enabled(s, actions[0]) && InOrder(s, n, actions[0]) && InOrderRun(Next(s, actions[0]), n, actions[1..])
  }

  lemma RefsFitAfter(before: Policies, after: Policies, n: Name, refs: seq<PolicyRef>)
    requires RefsFit(before, n, refs)
    requires n in before ==> n in after && (after[n] == before[n] || before[n].version < after[n].version)
    ensures RefsFit(after, n, refs)
  {
    forall r | r in refs && r.policyId == n ensures Fits(after, n, r.version, r.compiled) {
      assert Fits(before, n, r.version, r.compiled);
    }
  }

  lemma TableKeepsInv(s: System, n: Name, a: Action)
    requires Inv(s, n) && Enabled(s, a) && InOrder(s, n, a)
    requires a.Create? || a.Edit? || a.Delete?
    ensures Inv(Next(s, a), n)
  {
    var s' := Next(s, a);
    forall t | t in s'.tasks ensures RefsFit(s'.policies, n, s'.tasks[t].refs) {
      RefsFitAfter(s.policies, s'.policies, n, s.tasks[t].refs);
    }
    forall k, m | k in s'.streams && m in s'.streams[k].down ensures RefsFit(s'.policies, n, m) {
      RefsFitAfter(s.policies, s'.policies, n, m);
    }
    RefsFitAfter(s.policies, s'.policies, n, s.handling);
  }

  lemma SendKeepsInv(s: System, n: Name, a: Action)
    requires Inv(s, n) && Enabled(s, a) && a.Send?
    ensures Inv(Next(s, a), n)
  {
    var s' := Next(s, a);
    forall k, m | k in s'.streams && m in s'.streams[k].down ensures RefsFit(s'.policies, n, m) {
      SentMessage(s, a, k, m);
    }
    SendChanges(s, a);
  }

  lemma SentMessage(s: System, a: Action, k: nat, m: seq<PolicyRef>)
    requires Enabled(s, a) && a.Send? && k in Next(s, a).streams && m in Next(s, a).streams[k].down
    ensures k in s.streams && (m in s.streams[k].down || m == s.tasks[a.task].refs)
  {
  }

  lemma SendChanges(s: System, a: Action)
    requires Enabled(s, a) && a.Send?
    ensures Next(s, a) == s.(tasks := s.tasks - {a.task}, streams := Next(s, a).streams)
    ensures Next(s, a).streams.Keys == s.streams.Keys
    ensures forall k | k in s.streams :: Next(s, a).streams[k].up == s.streams[k].up
                                         && Next(s, a).streams[k].open == s.streams[k].open
  {
  }

  /** What a load does: nothing, or one more task. */
  lemma LoadOutcome(s: System, a: Action) returns (refs: seq<PolicyRef>)
    requires Enabled(s, a) && a.Load?
    ensures refs == LoadPending(s.policies, s.assignments)
    ensures forall r <- refs :: r.policyId in s.policies && r == RefOf(r.policyId, s.policies[r.policyId])
    ensures Next(s, a) == if refs == [] then s else s.(tasks := s.tasks[a.task := Task(a.stream, refs, 0)])
  {
    refs := LoadPending(s.policies, s.assignments);
  }

  lemma LoadKeepsInv(s: System, n: Name, a: Action)
    requires Inv(s, n) && Enabled(s, a) && a.Load?
    ensures Inv(Next(s, a), n)
  {
    var refs := LoadOutcome(s, a);
    assert RefsFit(s.policies, n, refs);
  }

  lemma MarkKeepsInv(s: System, n: Name, a: Action)
    requires Inv(s, n) && Enabled(s, a) && a.MarkNext?
    ensures Inv(Next(s, a), n)
  {
  }

  lemma StreamKeepsInv(s: System, n: Name, a: Action)
    requires Inv(s, n) && Enabled(s, a) && (a.Connect? || a.Disconnect? || a.CloseStream?)
    ensures Inv(Next(s, a), n)
  {
    var s' := Next(s, a);
    forall k, m | k in s'.streams && m in s'.streams[k].down ensures RefsFit(s'.policies, n, m) {
      assert k in s.streams && m in s.streams[k].down;
    }
  }

  lemma ReceiveKeepsInv(s: System, n: Name, a: Action)
    requires Inv(s, n) && Enabled(s, a) && a.Receive?
    ensures Inv(Next(s, a), n)
  {
    var s' := Next(s, a);
    var k := s.reading.value;
    assert s.streams[k].down[0] in s.streams[k].down;
    forall k, m | k in s'.streams && m in s'.streams[k].down ensures RefsFit(s'.policies, n, m) {
      assert k in s.streams && m in s.streams[k].down;
    }
  }

  lemma ApplyKeepsInv(s: System, n: Name, a: Action)
    requires Inv(s, n) && Enabled(s, a) && InOrder(s, n, a) && a.Apply?
    ensures Inv(Next(s, a), n)
  {
    var s' := Next(s, a);
    assert s.handling[0] in s.handling;
    forall k | k in s'.streams ensures ClaimsBounded(s'.files, n, s'.streams[k].up) {
      assert ClaimsBounded(s.files, n, s.streams[k].up);
    }
  }

  lemma AckKeepsInv(s: System, n: Name, a: Action)
    requires Inv(s, n) && Enabled(s, a) && a.ProcessAck?
    ensures Inv(Next(s, a), n)
  {
    assert s.streams[a.stream].up[0] in s.streams[a.stream].up;
  }

  lemma StepKeepsInv(s: System, n: Name, a: Action)
    requires Inv(s, n) && Enabled(s, a) && InOrder(s, n, a)
    ensures Inv(Next(s, a), n)
  {
    match a
    case Create(_, _, _, _) => TableKeepsInv(s, n, a);
    case Edit(_, _, _) => TableKeepsInv(s, n, a);
    case Delete(_) => TableKeepsInv(s, n, a);
    case Send(_) => SendKeepsInv(s, n, a);
    case Receive(_) => ReceiveKeepsInv(s, n, a);
    case Apply(_, _) => ApplyKeepsInv(s, n, a);
    case ProcessAck(_, _) => AckKeepsInv(s, n, a);
    case Load(_, _) => LoadKeepsInv(s, n, a);
    case MarkNext(_, _) => MarkKeepsInv(s, n, a);
    case _ => StreamKeepsInv(s, n, a);
  }

  lemma {:induction false} RunKeepsInv(s: System, n: Name, actions: seq<Action>, t: System)
    requires Inv(s, n) && Run(s, actions, t) && InOrderRun(s, n, actions)
    ensures Inv(t, n)
    decreases |actions|
  {
    if actions != [] {
      StepKeepsInv(s, n, actions[0]);
      RunKeepsInv(Next(s, actions[0]), n, actions[1..], t);
    }
  }

  /**
   Every run, lost acks, failed writes, crashes and overlapping streams included, that keeps the
   policy and delivers its versions in order: the acknowledged version never exceeds the file's, the
   file's never exceeds the table's, and once the policy is not pending the file holds its content.
   */
  lemma AckedNeverAhead(s: System, n: Name, actions: seq<Action>, t: System)
    requires Initial(s) && Run(s, actions, t) && InOrderRun(s, n, actions)
    ensures Bounded(t, n)
    ensures n in t.policies && t.policies[n].enabled && !Pending(t.policies, t.assignments, n) ==>
              n in t.files && t.files[n] == File(t.policies[n].version, t.policies[n].compiled)
  {
    RunKeepsInv(s, n, actions, t);
  }
}
