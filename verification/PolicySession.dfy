/**
 One session over its two FIFO channels: the acks still in flight, replayed over the acknowledged
 version, always give exactly the version in the agent's file, whatever order the two kinds of push
 task sent their messages in.
 */
module PolicySession {
  import opened Prelude
  import opened PolicyTables
  import opened PolicyPush

  /** The acknowledged version after `mark_acked` has run for every applied ack of policy `n`. */
  function Replay(acked: Option<int>, up: seq<Ack>, n: Name): Option<int>
    decreases |up|
  {
    if up == [] then acked
    else Replay(if up[0].status == APPLIED && up[0].policyId == n then Some(ToI32(up[0].version)) else acked,
                up[1..], n)
  }

  lemma {:induction false} ReplayAppend(acked: Option<int>, up: seq<Ack>, a: Ack, n: Name)
    ensures Replay(acked, up + [a], n) ==
            if a.status == APPLIED && a.policyId == n then Some(ToI32(a.version)) else Replay(acked, up, n)
    decreases |up|
  {
    if up != [] {
      var acked' := if up[0].status == APPLIED && up[0].policyId == n then Some(ToI32(up[0].version)) else acked;
      assert (up + [a])[0] == up[0] && (up + [a])[1..] == up[1..] + [a];
      ReplayAppend(acked', up[1..], a, n);
    }
  }

  /** What happens inside one session: database calls succeed, acks are queued, policy `n` stays. */
  predicate SessionStep(a: Action, n: Name) {
    match a
    case Delete(m) => m != n
    case Connect(_) => false
    case Disconnect => false
    case CloseStream(_) => false
    case MarkNext(_, dbOk) => dbOk
    case Apply(_, ackOk) => ackOk
    case ProcessAck(_, dbOk) => dbOk
    case _ => true
  }

  /** Versions fit the ack's u32 and the column's i32; once `marked`, the policy has a row to update. */
  ghost predicate Tracked(s: System, n: Name, refs: seq<PolicyRef>, marked: bool) {
    forall r | r in refs && r.policyId == n ::
      0 <= r.version <= I32_MAX && n in s.policies && (marked ==> n in s.assignments)
  }

  ghost predicate SessionInv(s: System, n: Name, k: nat) {
    && s.reading == Some(k)
    && s.streams.Keys == {k}
    && s.streams[k].open
    && (n in s.policies ==> I32_MIN <= s.policies[n].version <= I32_MAX)
    && (n in s.assignments ==> n in s.policies)
    && (forall t | t in s.tasks :: s.tasks[t].marked <= |s.tasks[t].refs|
                                   && Tracked(s, n, s.tasks[t].refs, false)
                                   && Tracked(s, n, s.tasks[t].refs[..s.tasks[t].marked], true))
    && (forall m | m in s.streams[k].down :: Tracked(s, n, m, true))
    && Tracked(s, n, s.handling, true)
    && (forall a | a in s.streams[k].up && a.policyId == n && a.status == APPLIED :: n in s.assignments)
    && Replay(AckedOf(s.assignments, n), s.streams[k].up, n) == FileVersion(s, n)
  }

  /** A freshly opened session whose acknowledged version is the version of the agent's file. */
  ghost predicate Synced(s: System, n: Name, k: nat) {
    && s.reading == Some(k)
    && s.streams == map[k := Stream([], [], true)]
    && s.tasks == map[]
    && s.handling == []
    && (n in s.policies ==> I32_MIN <= s.policies[n].version <= I32_MAX)
    && (n in s.assignments ==> n in s.policies)
    && AckedOf(s.assignments, n) == FileVersion(s, n)
  }

  lemma TableStep(s: System, n: Name, k: nat, a: Action)
    requires SessionInv(s, n, k) && Enabled(s, a) && SessionStep(a, n)
    requires a.Create? || a.Edit? || a.Delete?
    ensures SessionInv(Next(s, a), n, k)
  {
  }

  lemma LoadStep(s: System, n: Name, k: nat, a: Action)
    requires SessionInv(s, n, k) && Enabled(s, a) && a.Load?
    ensures SessionInv(Next(s, a), n, k)
  {
    var refs := LoadOutcome(s, a);
    if refs != [] {
      AddedTask(s, n, k, a.task, Task(a.stream, refs, 0));
    }
  }

  lemma AddedTask(s: System, n: Name, k: nat, t: nat, task: Task)
    requires SessionInv(s, n, k) && task.marked == 0
    requires forall r <- task.refs :: r.policyId in s.policies && r == RefOf(r.policyId, s.policies[r.policyId])
    ensures SessionInv(s.(tasks := s.tasks[t := task]), n, k)
  {
    assert task.refs[..0] == [];
    var s' := s.(tasks := s.tasks[t := task]);
    assert Tracked(s', n, task.refs, false);
    forall u | u in s.tasks
      ensures Tracked(s', n, s.tasks[u].refs, false) && Tracked(s', n, s.tasks[u].refs[..s.tasks[u].marked], true)
    {
    }
  }

  lemma MarkStep(s: System, n: Name, k: nat, a: Action)
    requires SessionInv(s, n, k) && Enabled(s, a) && SessionStep(a, n) && a.MarkNext?
    ensures SessionInv(Next(s, a), n, k)
  {
    var s' := Next(s, a);
    var task := s.tasks[a.task];
    var next := task.refs[..task.marked + 1];
    assert next == task.refs[..task.marked] + [task.refs[task.marked]];
    assert Tracked(s', n, next, true);
  }

  lemma SendStep(s: System, n: Name, k: nat, a: Action)
    requires SessionInv(s, n, k) && Enabled(s, a) && a.Send?
    ensures SessionInv(Next(s, a), n, k)
  {
    var s' := Next(s, a);
    SendChanges(s, a);
    forall m | m in s'.streams[k].down ensures Tracked(s', n, m, true) {
      SentMessage(s, a, k, m);
      SentIsTracked(s, n, k, a, m);
    }
  }

  lemma SentIsTracked(s: System, n: Name, k: nat, a: Action, m: seq<PolicyRef>)
    requires SessionInv(s, n, k) && Enabled(s, a) && a.Send?
    requires m in s.streams[k].down || m == s.tasks[a.task].refs
    ensures Tracked(s, n, m, true)
  {
    var task := s.tasks[a.task];
    assert task.refs[..task.marked] == task.refs;
  }

  lemma ReceiveStep(s: System, n: Name, k: nat, a: Action)
    requires SessionInv(s, n, k) && Enabled(s, a) && SessionStep(a, n) && a.Receive?
    ensures SessionInv(Next(s, a), n, k)
  {
    var s' := Next(s, a);
    forall m | m in s'.streams[k].down ensures Tracked(s', n, m, true) {
      assert m in s.streams[k].down;
    }
    assert s.streams[k].down[0] in s.streams[k].down;
  }

  lemma ApplyStep(s: System, n: Name, k: nat, a: Action)
    requires SessionInv(s, n, k) && Enabled(s, a) && SessionStep(a, n) && a.Apply?
    ensures SessionInv(Next(s, a), n, k)
  {
    var s' := Next(s, a);
    forall m | m in s'.streams[k].down ensures Tracked(s', n, m, true) {
      assert m in s.streams[k].down;
    }
    ReplayAppend(AckedOf(s.assignments, n), s.streams[k].up, AckOf(s.handling[0], a.writeOk), n);
  }

  lemma AckStep(s: System, n: Name, k: nat, a: Action)
    requires SessionInv(s, n, k) && Enabled(s, a) && SessionStep(a, n) && a.ProcessAck?
    ensures SessionInv(Next(s, a), n, k)
  {
  }

  lemma {:induction false} SessionRun(s: System, n: Name, k: nat, actions: seq<Action>, t: System)
    requires SessionInv(s, n, k) && Run(s, actions, t)
    requires forall a <- actions :: SessionStep(a, n)
    ensures SessionInv(t, n, k)
    decreases |actions|
  {
    if actions != [] {
      var a := actions[0];
      match a {
        case Load(_, _) => LoadStep(s, n, k, a);
        case MarkNext(_, _) => MarkStep(s, n, k, a);
        case Send(_) => SendStep(s, n, k, a);
        case Receive(_) => ReceiveStep(s, n, k, a);
        case Apply(_, _) => ApplyStep(s, n, k, a);
        case ProcessAck(_, _) => AckStep(s, n, k, a);
        case _ => TableStep(s, n, k, a);
      }
      SessionRun(Next(s, a), n, k, actions[1..], t);
    }
  }

  /**
   In every run of a session, with any interleaving of pushes, broadcasts, edits and failed writes,
   the file's version is the replay of the acks in flight; once they are processed, the acknowledged
   version is the file's version.
   */
  lemma FileIsReplay(s: System, n: Name, k: nat, actions: seq<Action>, t: System)
    requires Synced(s, n, k) && Run(s, actions, t)
    requires forall a <- actions :: SessionStep(a, n)
    ensures k in t.streams && Replay(AckedOf(t.assignments, n), t.streams[k].up, n) == FileVersion(t, n)
    ensures t.streams[k].up == [] ==> AckedOf(t.assignments, n) == FileVersion(t, n)
  {
    SessionRun(s, n, k, actions, t);
  }
}
