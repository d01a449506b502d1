/**
 The handlers that carry the protocol out: the manager's push tasks and ack handler over its tables,
 and the agent's handler of one message. Each is tied to the functions of PolicyTables that the
 steps of PolicyPush use, so a handler that runs undisturbed is the corresponding run of steps.
 */
module PushHandlers {
  import opened Prelude
  import opened PolicyTables
  import opened PolicyPush

  type AgentId = nat

  /** `policy_assignments` restricted to one agent. */
  function Rows(assignments: map<AgentId, Assignments>, agent: AgentId): Assignments {
    if agent in assignments then assignments[agent] else map[]
  }

  /** What goes wrong during one push: each is logged and nothing else happens. */
  datatype Faults = Faults(loadOk: bool, unmarked: set<Name>, open: bool)

  /** An agent's rows after a push: every policy pending for it is marked, unless its upsert fails. */
  function Marked(policies: Policies, rows: Assignments, f: Faults): Assignments {
    if f.loadOk then MarkAllBut(rows, LoadPending(policies, rows), f.unmarked) else rows
  }

  /** The message of one push, absent when nothing is pending, nothing could be loaded or the channel is closed. */
  function Message(policies: Policies, rows: Assignments, f: Faults): seq<seq<PolicyRef>> {
    if f.loadOk && f.open && LoadPending(policies, rows) != [] then [LoadPending(policies, rows)] else []
  }

  type Channels = map<AgentId, seq<seq<PolicyRef>>>

  /** The tables that pushes change: the assignments of all agents, and what was sent to each. */
  datatype Outbox = Outbox(assignments: map<AgentId, Assignments>, channels: Channels)

  /** One agent has been marked and sent its own pending policies, once. */
  ghost predicate ServedOne(policies: Policies, before: Outbox, after: Outbox, a: AgentId, f: Faults)
  {
    var rows := Rows(before.assignments, a);
    && Rows(after.assignments, a) == Marked(policies, rows, f)
    && (a in before.channels && a in after.channels ==>
          after.channels[a] == before.channels[a] + Message(policies, rows, f))
  }

  ghost predicate Untouched(before: Outbox, after: Outbox, a: AgentId) {
    && Rows(after.assignments, a) == Rows(before.assignments, a)
    && (a in before.channels && a in after.channels ==> after.channels[a] == before.channels[a])
  }

  /** Every registered agent outside `left` has been served; agents in `left`, or not registered, are as before. */
  ghost predicate Served(policies: Policies, before: Outbox, after: Outbox, faults: AgentId -> Faults,
          left: set<AgentId>)
  {
    && after.channels.Keys == before.channels.Keys
    && (forall a | a in after.channels && a !in left :: ServedOne(policies, before, after, a, faults(a)))
    && (forall a | a in left || a !in after.channels :: Untouched(before, after, a))
  }

  lemma ServedOneMore(policies: Policies, before: Outbox, mid: Outbox, after: Outbox, faults: AgentId -> Faults,
                      left: set<AgentId>, agent: AgentId)
    requires Served(policies, before, mid, faults, left) && agent in left && agent in mid.channels
    requires after.channels.Keys == mid.channels.Keys && ServedOne(policies, mid, after, agent, faults(agent))
    requires forall a | a != agent :: Untouched(mid, after, a)
    ensures Served(policies, before, after, faults, left - {agent})
  {
    assert Untouched(before, mid, agent);
    forall a | a in after.channels && a !in left - {agent} ensures ServedOne(policies, before, after, a, faults(a)) {
      if a != agent {
        assert ServedOne(policies, before, mid, a, faults(a)) && Untouched(mid, after, a);
      }
    }
    forall a | a in left - {agent} || a !in after.channels ensures Untouched(before, after, a) {
      assert Untouched(before, mid, a) && Untouched(mid, after, a);
    }
  }

  lemma NothingServes(policies: Policies, tables: Outbox, agent: AgentId, f: Faults)
    requires f.loadOk ==> LoadPending(policies, Rows(tables.assignments, agent)) == []
    ensures ServedOne(policies, tables, tables, agent, f)
  {
    if agent in tables.channels {
      assert tables.channels[agent] + [] == tables.channels[agent];
    }
    assert MarkAllBut(Rows(tables.assignments, agent), [], f.unmarked) == Rows(tables.assignments, agent);
  }

  /** A message is queued on the channel of an agent that is still registered. */
  function WithMessage(channels: Channels, agent: AgentId, message: seq<PolicyRef>): Channels {
    if agent in channels then channels[agent := channels[agent] + [message]] else channels
  }

  /** Marked rows and a message, unless the channel is closed or gone, are a served push. */
  lemma MessageServes(policies: Policies, before: Outbox, after: Outbox, agent: AgentId, f: Faults,
                      pending: seq<PolicyRef>)
    requires f.loadOk && pending == LoadPending(policies, Rows(before.assignments, agent)) != []
    requires Rows(after.assignments, agent) == MarkAllBut(Rows(before.assignments, agent), pending, f.unmarked)
    requires after.channels == if f.open then WithMessage(before.channels, agent, pending) else before.channels
    ensures after.channels.Keys == before.channels.Keys && ServedOne(policies, before, after, agent, f)
  {
    if agent in before.channels {
      assert before.channels[agent] + [] == before.channels[agent];
    }
  }

  lemma OthersUntouched(before: Outbox, after: Outbox, agent: AgentId, message: seq<PolicyRef>, open: bool)
    requires forall a | a != agent :: Rows(after.assignments, a) == Rows(before.assignments, a)
    requires after.channels == if open then WithMessage(before.channels, agent, message) else before.channels
    ensures forall a | a != agent :: Untouched(before, after, a)
  {
  }

  class Manager {
    var policies: Policies
    var assignments: map<AgentId, Assignments>
    /** The registry: the outbound channel of every connected agent. */
    var channels: Channels

    constructor (policies: Policies)
      ensures this.policies == policies && assignments == map[] && channels == map[]
    {
      this.policies := policies;
      assignments := map[];
      channels := map[];
    }

    function State(): Outbox
      reads this
    {
      Outbox(assignments, channels)
    }

    method MarkPending(agent: AgentId, pending: seq<PolicyRef>, failed: set<Name>)
      modifies this`assignments
      ensures Rows(assignments, agent) == MarkAllBut(Rows(old(assignments), agent), pending, failed)
      ensures forall a | a != agent :: Rows(assignments, a) == Rows(old(assignments), a)
    {
      for i := 0 to |pending|
        invariant MarkAllBut(Rows(assignments, agent), pending[i..], failed)
               == MarkAllBut(Rows(old(assignments), agent), pending, failed)
        invariant forall a | a != agent :: Rows(assignments, a) == Rows(old(assignments), a)
      {
        assert pending[i..][1..] == pending[i + 1..];
        if pending[i].policyId !in failed {
          assignments := assignments[agent := MarkAssigned(Rows(assignments, agent), pending[i])];
        }
      }
    }

    /**
     Both push tasks: load, mark each policy, send one message unless there is nothing to send. A
     failing load ends the push; a failing mark or a closed channel is only logged.
     */
    method PushTo(agent: AgentId, faults: Faults)
      modifies this`assignments, this`channels
      ensures channels.Keys == old(channels.Keys) && ServedOne(policies, old(State()), State(), agent, faults)
      ensures forall a | a != agent :: Untouched(old(State()), State(), a)
    {
      if !faults.loadOk {
        NothingServes(policies, State(), agent, faults);
        return;
      }
      var pending := LoadPending(policies, Rows(assignments, agent));
      if pending == [] {
        NothingServes(policies, State(), agent, faults);
        return;
      }
      MarkPending(agent, pending, faults.unmarked);
      if faults.open {
        channels := WithMessage(channels, agent, pending);
      }
      MessageServes(policies, old(State()), State(), agent, faults, pending);
      OthersUntouched(old(State()), State(), agent, pending, faults.open);
    }

    /**
     The broadcast after a policy change serves every agent of the registry snapshot, each from its own
     rows and with its own faults; agents in `gone` have left the registry by their turn.
     */
    method Broadcast(faults: AgentId -> Faults, gone: set<AgentId>)
      modifies this`assignments, this`channels
      ensures Served(policies, old(State()), State(), faults, gone * old(channels.Keys))
    {
      var left := channels.Keys - gone;
      while left != {}
        invariant left <= channels.Keys - gone
        invariant Served(policies, old(State()), State(), faults, left + gone * old(channels.Keys))
        decreases left
      {
        var agent :| agent in left;
        ghost var mid := State();
        PushTo(agent, faults(agent));
        ServedOneMore(policies, old(State()), mid, State(), faults, left + gone * old(channels.Keys), agent);
        assert left + gone * old(channels.Keys) - {agent} == (left - {agent}) + gone * old(channels.Keys);
        left := left - {agent};
      }
    }

    /**
     The inbound loop on a PolicyAck: only an APPLIED ack is recorded, and only on an existing row; a
     failing update is only logged.
     */
    method ProcessPolicyAck(agent: AgentId, ack: Ack, dbOk: bool)
      modifies this`assignments
      ensures forall a :: Rows(assignments, a) ==
                if a == agent && dbOk then MarkAcked(Rows(old(assignments), a), ack) else Rows(old(assignments), a)
      ensures ack.status != 1 ==> assignments == old(assignments)
      ensures ack.status == 1 && dbOk && ack.policyId in Rows(old(assignments), agent) ==>
                AckedOf(Rows(assignments, agent), ack.policyId)
                == Some(if -0x8000_0000 <= ack.version <= 0x7fff_ffff then ack.version else 0)
    {
      if ack.status == APPLIED && dbOk {
        var rows := Rows(assignments, agent);
        if ack.policyId in rows {
          var acked := rows[ack.policyId].(ackedVersion := Some(ToI32(ack.version)));
          assignments := assignments[agent := rows[ack.policyId := acked]];
        }
      }
    }
  }

  // ---------- a push as steps of the protocol ----------

  function Marks(task: nat, refs: seq<PolicyRef>, failed: set<Name>): seq<Action>
    decreases |refs|
  {
    if refs == [] then []
    else [MarkNext(task, refs[0].policyId !in failed)] + Marks(task, refs[1..], failed)
  }

  function MarksDone(s: System, task: nat, failed: set<Name>): System
    requires task in s.tasks && s.tasks[task].marked <= |s.tasks[task].refs|
  {
    var t := s.tasks[task];
    s.(tasks := s.tasks[task := t.(marked := |t.refs|)],
       assignments := MarkAllBut(s.assignments, t.refs[t.marked..], failed))
  }

  lemma {:induction false} MarksRun(s: System, task: nat, failed: set<Name>)
    requires task in s.tasks && s.tasks[task].marked <= |s.tasks[task].refs|
    requires forall r <- s.tasks[task].refs :: r.policyId in s.policies
    ensures Run(s, Marks(task, s.tasks[task].refs[s.tasks[task].marked..], failed), MarksDone(s, task, failed))
    decreases |s.tasks[task].refs| - s.tasks[task].marked
  {
    var t := s.tasks[task];
    var rest := t.refs[t.marked..];
    if rest == [] {
      assert MarksDone(s, task, failed) == s;
    } else {
      var a := MarkNext(task, rest[0].policyId !in failed);
      assert t.refs[t.marked] in t.refs && rest[1..] == t.refs[t.marked + 1..];
      MarksRun(Next(s, a), task, failed);
      MarkThenRest(s, task, failed);
      RunCons(s, a, Marks(task, rest[1..], failed), MarksDone(s, task, failed));
    }
  }

  lemma MarkThenRest(s: System, task: nat, failed: set<Name>)
    requires task in s.tasks && s.tasks[task].marked < |s.tasks[task].refs|
    requires forall r <- s.tasks[task].refs :: r.policyId in s.policies
    ensures var t := s.tasks[task];
            var s' := Next(s, MarkNext(task, t.refs[t.marked].policyId !in failed));
            && s'.policies == s.policies && task in s'.tasks && s'.tasks[task] == t.(marked := t.marked + 1)
            && MarksDone(s', task, failed) == MarksDone(s, task, failed)
  {
    var t := s.tasks[task];
    assert t.refs[t.marked] in t.refs && t.refs[t.marked..][1..] == t.refs[t.marked + 1..];
  }

  function PushSteps(task: nat, k: nat, refs: seq<PolicyRef>, f: Faults): seq<Action> {
    if refs == [] then [Load(task, k)] else [Load(task, k)] + (Marks(task, refs, f.unmarked) + [Send(task)])
  }

  /** What PushTo leaves of one agent's rows and channel. */
  function PushedTo(s: System, k: nat, f: Faults): System
    requires k in s.streams
  {
    var sent := s.streams[k].down + Message(s.policies, s.assignments, f);
    s.(assignments := Marked(s.policies, s.assignments, f), streams := s.streams[k := s.streams[k].(down := sent)])
  }

  lemma MarksOfLoaded(loaded: System, task: nat, k: nat, refs: seq<PolicyRef>, failed: set<Name>)
    requires task in loaded.tasks && loaded.tasks[task] == Task(k, refs, 0)
    requires forall r <- refs :: r.policyId in loaded.policies
    ensures Run(loaded, Marks(task, refs, failed), MarksDone(loaded, task, failed))
    ensures MarksDone(loaded, task, failed) ==
            loaded.(tasks := loaded.tasks[task := Task(k, refs, |refs|)],
                    assignments := MarkAllBut(loaded.assignments, refs, failed))
  {
    assert refs[0..] == refs;
    MarksRun(loaded, task, failed);
  }

  /** Sending a marked task appends its message to an open stream and drops it otherwise. */
  lemma SendMarked(mid: System, tasks: map<nat, Task>, task: nat, k: nat, refs: seq<PolicyRef>)
    requires task !in tasks && mid.tasks == tasks[task := Task(k, refs, |refs|)] && k in mid.streams
    ensures Enabled(mid, Send(task))
    ensures var sent := if mid.streams[k].open then [refs] else [];
            Next(mid, Send(task)) ==
            mid.(tasks := tasks, streams := mid.streams[k := mid.streams[k].(down := mid.streams[k].down + sent)])
  {
    assert mid.tasks - {task} == tasks;
    if !mid.streams[k].open {
      assert mid.streams[k].down + [] == mid.streams[k].down && mid.streams[k := mid.streams[k]] == mid.streams;
    }
  }

  lemma SnocRun(s: System, actions: seq<Action>, mid: System, a: Action, t: System)
    requires Run(s, actions, mid) && Enabled(mid, a) && Next(mid, a) == t
    ensures Run(s, actions + [a], t)
  {
    RunCons(mid, a, [], t);
    assert [a] + [] == [a];
    RunConcat(s, actions, mid, [a], t);
  }

  /** The same with what was loaded spelled out. */
  function MarkedAndSent(s: System, k: nat, f: Faults, refs: seq<PolicyRef>): System
    requires k in s.streams
  {
    var sent := s.streams[k].down + if f.open then [refs] else [];
    s.(assignments := MarkAllBut(s.assignments, refs, f.unmarked),
       streams := s.streams[k := s.streams[k].(down := sent)])
  }

  lemma PushedIsMarkedAndSent(s: System, k: nat, f: Faults)
    requires k in s.streams && f.loadOk && LoadPending(s.policies, s.assignments) != []
    ensures PushedTo(s, k, f) == MarkedAndSent(s, k, f, LoadPending(s.policies, s.assignments))
  {
  }

  lemma MarkAndSend(s: System, loaded: System, task: nat, k: nat, f: Faults, refs: seq<PolicyRef>)
    requires task !in s.tasks && k in s.streams && s.streams[k].open == f.open
    requires forall r <- refs :: r.policyId in s.policies
    requires loaded == s.(tasks := s.tasks[task := Task(k, refs, 0)])
    ensures Run(loaded, Marks(task, refs, f.unmarked) + [Send(task)], MarkedAndSent(s, k, f, refs))
  {
    MarksOfLoaded(loaded, task, k, refs, f.unmarked);
    var mid := MarksDone(loaded, task, f.unmarked);
    assert mid.tasks == s.tasks[task := Task(k, refs, |refs|)];
    SendMarked(mid, s.tasks, task, k, refs);
    SnocRun(loaded, Marks(task, refs, f.unmarked), mid, Send(task), MarkedAndSent(s, k, f, refs));
  }

  lemma NothingToPush(s: System, k: nat, f: Faults)
    requires k in s.streams && LoadPending(s.policies, s.assignments) == []
    ensures PushedTo(s, k, f) == s
  {
    assert s.streams[k].down + [] == s.streams[k].down && s.streams[k := s.streams[k]] == s.streams;
    assert MarkAllBut(s.assignments, [], f.unmarked) == s.assignments;
  }

  /** A push whose load succeeds is a run of load, mark and send steps with the same faults. */
  lemma PushIsTaskSteps(s: System, task: nat, k: nat, f: Faults)
    requires task !in s.tasks && k in s.streams && s.streams[k].open == f.open && f.loadOk
    ensures Run(s, PushSteps(task, k, LoadPending(s.policies, s.assignments), f), PushedTo(s, k, f))
  {
    var refs := LoadOutcome(s, Load(task, k));
    if refs == [] {
      NothingToPush(s, k, f);
      RunCons(s, Load(task, k), [], s);
      assert [Load(task, k)] + [] == [Load(task, k)];
    } else {
      var loaded := s.(tasks := s.tasks[task := Task(k, refs, 0)]);
      MarkAndSend(s, loaded, task, k, f, refs);
      PushedIsMarkedAndSent(s, k, f);
      RunCons(s, Load(task, k), Marks(task, refs, f.unmarked) + [Send(task)], PushedTo(s, k, f));
    }
  }

  /**
   The files left and the acks queued by one message: `writes` are the outcomes of the writes, `room`
   is how many acks the session still accepts. The first ack it refuses ends the handling.
   */
  function Handle(files: Files, refs: seq<PolicyRef>, writes: seq<bool>, room: nat): (Files, seq<Ack>)
    requires |writes| == |refs|
    decreases |refs|
  {
    if refs == [] then (files, [])
    else
      var written := WriteFile(files, refs[0], writes[0]);
      if room == 0 then (written, [])
      else
        var (rest, acks) := Handle(written, refs[1..], writes[1..], room - 1);
        (rest, [AckOf(refs[0], writes[0])] + acks)
  }

  /** One ack for each policy until the session refuses one: applied (1) or a failed write (3), in order. */
  lemma {:induction false} AcksOfHandling(files: Files, refs: seq<PolicyRef>, writes: seq<bool>, room: nat)
    requires |writes| == |refs|
    ensures var acks := Handle(files, refs, writes, room).1;
            && |acks| == Min(room, |refs|)
            && forall i | 0 <= i < |acks| ::
                 acks[i] == Ack(refs[i].policyId, refs[i].version, if writes[i] then 1 else 3)
    decreases |refs|
  {
    if refs != [] && room > 0 {
      AcksOfHandling(WriteFile(files, refs[0], writes[0]), refs[1..], writes[1..], room - 1);
    }
  }

  class Agent {
    var files: Files
    var acks: seq<Ack>

    constructor ()
      ensures files == map[] && acks == []
    {
      files := map[];
      acks := [];
    }

    method HandlePolicyUpdate(refs: seq<PolicyRef>, dirOk: bool, writes: seq<bool>, room: nat)
      requires |writes| == |refs|
      modifies this
      ensures files == if dirOk then Handle(old(files), refs, writes, room).0 else old(files)
      ensures acks == old(acks) + if dirOk then Handle(old(files), refs, writes, room).1 else []
    {
      if !dirOk {
        return;
      }
      ghost var all := Handle(files, refs, writes, room);
      var accepted := 0;
      for i := 0 to |refs|
        invariant accepted == i <= room
        invariant files == Handle(files, refs[i..], writes[i..], room - i).0 || i < |refs|
        invariant var rest := Handle(files, refs[i..], writes[i..], room - i);
                  rest.0 == all.0 && acks + rest.1 == old(acks) + all.1
      {
        assert refs[i..][1..] == refs[i + 1..] && writes[i..][1..] == writes[i + 1..];
        var status := RUNTIME_FAILED;
        if writes[i] {
          files := files[refs[i].policyId := File(refs[i].version, refs[i].compiled)];
          status := APPLIED;
        }
        if accepted == room {
          return;
        }
        accepted := accepted + 1;
        acks := acks + [Ack(refs[i].policyId, refs[i].version, status)];
      }
    }
  }

  function ApplyActions(writes: seq<bool>, room: nat): seq<Action>
    decreases |writes|
  {
    if writes == [] then []
    else if room == 0 then [Apply(writes[0], false)]
    else [Apply(writes[0], true)] + ApplyActions(writes[1..], room - 1)
  }

  function Handled(s: System, k: nat, writes: seq<bool>, room: nat): System
    requires k in s.streams && |writes| == |s.handling|
  {
    var done := Handle(s.files, s.handling, writes, room);
    s.(files := done.0, handling := [],
       streams := s.streams[k := s.streams[k].(up := s.streams[k].up + done.1)])
  }

  lemma HandledStep(s: System, k: nat, writes: seq<bool>, room: nat)
    requires s.reading == Some(k) && k in s.streams && |writes| == |s.handling| > 0
    ensures var s1 := Next(s, Apply(writes[0], room > 0));
            room == 0 ==> s1 == Handled(s, k, writes, room)
    ensures var s1 := Next(s, Apply(writes[0], room > 0));
            room > 0 ==> Handled(s1, k, writes[1..], room - 1) == Handled(s, k, writes, room)
  {
    var s1 := Next(s, Apply(writes[0], room > 0));
    if room == 0 {
      assert s.streams[k].up + [] == s.streams[k].up && s.streams[k := s.streams[k]] == s.streams;
    } else {
      var rest := Handle(s1.files, s1.handling, writes[1..], room - 1);
      assert s1.streams[k].up + rest.1 == s.streams[k].up + ([AckOf(s.handling[0], writes[0])] + rest.1);
    }
  }

  /** The handler's effect is what the protocol's Apply steps do to the same message. */
  lemma {:induction false} HandlingIsApplySteps(s: System, k: nat, writes: seq<bool>, room: nat)
    requires s.reading == Some(k) && k in s.streams && |writes| == |s.handling|
    ensures Run(s, ApplyActions(writes, room), Handled(s, k, writes, room))
    decreases |writes|
  {
    if writes == [] {
      assert s.streams[k].up + [] == s.streams[k].up && s.streams[k := s.streams[k]] == s.streams;
    } else {
      var a := Apply(writes[0], room > 0);
      HandledStep(s, k, writes, room);
      if room == 0 {
        RunCons(s, a, [], Next(s, a));
        assert [a] + [] == [a];
      } else {
        HandlingIsApplySteps(Next(s, a), k, writes[1..], room - 1);
        RunCons(s, a, ApplyActions(writes[1..], room - 1), Handled(s, k, writes, room));
      }
    }
  }
}
