/** The versions of one policy that are anywhere in the protocol, and how far up they can be. */
module PolicyVersions {
  import opened Prelude
  import opened PolicyTables
  import opened PolicyPush

  predicate RefsWithin(refs: seq<PolicyRef>, n: Name, top: int) {
    forall r <- refs :: r.policyId == n ==> 0 <= r.version <= top
  }

  predicate AcksWithin(up: seq<Ack>, n: Name, top: int) {
    forall a <- up :: a.policyId == n && a.status == APPLIED ==> 0 <= a.version <= top
  }

  ghost predicate StreamWithin(st: Stream, n: Name, top: int) {
    (forall m <- st.down :: RefsWithin(m, n, top)) && AcksWithin(st.up, n, top)
  }

  predicate RowWithin(policies: Policies, n: Name, top: int) {
    n in policies ==> 0 <= top && I32_MIN <= policies[n].version <= top
  }

  predicate AckedWithin(assignments: Assignments, n: Name, top: int) {
    AckedOf(assignments, n).Some? ==> 0 <= AckedOf(assignments, n).value <= top
  }

  /** No version of policy `n` in the tables, in a push, in flight or acknowledged exceeds `top`. */
  ghost predicate Within(s: System, n: Name, top: int) {
    && RowWithin(s.policies, n, top)
    && AckedWithin(s.assignments, n, top)
    && RefsWithin(s.handling, n, top)
    && (forall t | t in s.tasks :: RefsWithin(s.tasks[t].refs, n, top))
    && (forall k | k in s.streams :: StreamWithin(s.streams[k], n, top))
  }

  /** What an edit of the tables adds stays at or below `top`. */
  predicate EditWithin(s: System, n: Name, a: Action, top: int) {
    match a
    case Create(m, v, _, _) => m == n ==> 0 <= (if v <= I32_MAX then v else 1) <= top
    case Edit(m, _, _) => m == n && n in s.policies ==> Bump(s.policies[n].version) <= top
    case _ => true
  }

  lemma WithinMore(s: System, n: Name, top: int, more: int)
    requires Within(s, n, top) && top <= more
    ensures Within(s, n, more)
  {
    forall k | k in s.streams ensures StreamWithin(s.streams[k], n, more) {
      assert StreamWithin(s.streams[k], n, top);
    }
  }

  lemma EditKeepsWithin(s: System, n: Name, a: Action, top: int)
    requires Within(s, n, top) && Enabled(s, a) && EditWithin(s, n, a, top) && (a.Create? || a.Edit? || a.Delete?)
    ensures Within(Next(s, a), n, top)
  {
  }

  lemma LoadKeepsWithin(s: System, n: Name, a: Action, top: int)
    requires Within(s, n, top) && Enabled(s, a) && a.Load?
    ensures Within(Next(s, a), n, top)
  {
    var refs := LoadOutcome(s, a);
    assert RefsWithin(refs, n, top);
  }

  lemma MarkKeepsWithin(s: System, n: Name, a: Action, top: int)
    requires Within(s, n, top) && Enabled(s, a) && a.MarkNext?
    ensures Within(Next(s, a), n, top)
  {
  }

  lemma SendKeepsWithin(s: System, n: Name, a: Action, top: int)
    requires Within(s, n, top) && Enabled(s, a) && a.Send?
    ensures Within(Next(s, a), n, top)
  {
    var s' := Next(s, a);
    SendChanges(s, a);
    forall k | k in s'.streams ensures StreamWithin(s'.streams[k], n, top) {
      assert StreamWithin(s.streams[k], n, top);
      forall m | m in s'.streams[k].down ensures RefsWithin(m, n, top) {
        SentMessage(s, a, k, m);
      }
    }
  }

  lemma StreamTails(st: Stream, n: Name, top: int)
    requires StreamWithin(st, n, top)
    ensures st.down != [] ==> StreamWithin(st.(down := st.down[1..]), n, top) && RefsWithin(st.down[0], n, top)
    ensures st.up != [] ==> StreamWithin(st.(up := st.up[1..]), n, top)
    ensures st.up != [] && st.up[0].policyId == n && st.up[0].status == APPLIED ==> 0 <= st.up[0].version <= top
  {
    if st.down != [] {
      assert st.down[0] in st.down;
    }
    if st.up != [] {
      assert st.up[0] in st.up;
    }
  }

  lemma ReceiveKeepsWithin(s: System, n: Name, a: Action, top: int)
    requires Within(s, n, top) && Enabled(s, a) && a.Receive?
    ensures Within(Next(s, a), n, top)
  {
    StreamTails(s.streams[s.reading.value], n, top);
  }

  lemma ApplyKeepsWithin(s: System, n: Name, a: Action, top: int)
    requires Within(s, n, top) && Enabled(s, a) && a.Apply?
    ensures Within(Next(s, a), n, top)
  {
    var st := s.streams[s.reading.value];
    var ack := AckOf(s.handling[0], a.writeOk);
    assert s.handling[0] in s.handling;
    assert AcksWithin(st.up + [ack], n, top);
  }

  lemma AckKeepsWithin(s: System, n: Name, a: Action, top: int)
    requires Within(s, n, top) && Enabled(s, a) && a.ProcessAck? && top <= I32_MAX
    ensures Within(Next(s, a), n, top)
  {
    StreamTails(s.streams[a.stream], n, top);
  }

  lemma SessionKeepsWithin(s: System, n: Name, a: Action, top: int)
    requires Within(s, n, top) && Enabled(s, a) && (a.Connect? || a.Disconnect? || a.CloseStream?)
    ensures Within(Next(s, a), n, top)
  {
  }

  lemma StepKeepsWithin(s: System, n: Name, a: Action, top: int)
    requires Within(s, n, top) && Enabled(s, a) && EditWithin(s, n, a, top) && top <= I32_MAX
    ensures Within(Next(s, a), n, top)
  {
    match a
    case Load(_, _) => LoadKeepsWithin(s, n, a, top);
    case MarkNext(_, _) => MarkKeepsWithin(s, n, a, top);
    case Send(_) => SendKeepsWithin(s, n, a, top);
    case Receive(_) => ReceiveKeepsWithin(s, n, a, top);
    case Apply(_, _) => ApplyKeepsWithin(s, n, a, top);
    case ProcessAck(_, _) => AckKeepsWithin(s, n, a, top);
    case Connect(_) => SessionKeepsWithin(s, n, a, top);
    case Disconnect => SessionKeepsWithin(s, n, a, top);
    case CloseStream(_) => SessionKeepsWithin(s, n, a, top);
    case _ => EditKeepsWithin(s, n, a, top);
  }
}
