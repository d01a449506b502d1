/**
 Where the distribution guarantees stop. A write is harmless exactly when it delivers at least every
 version already claimed for the policy; a push that was overtaken, or a policy that was deleted and
 created again, leaves the agent with old content that the manager no longer considers pending.
 PolicyCurrency gives the exact condition for that.
 */
module PolicyRaces {
  import opened Prelude
  import opened PolicyTables
  import opened PolicyPush

  ghost predicate OnlyAcks(actions: seq<Action>) {
    forall a <- actions :: a.ProcessAck?
  }

  /** However the acks in flight are processed, the manager never believes more than the file holds. */
  ghost predicate Settles(s: System, n: Name) {
    forall actions, t :: OnlyAcks(actions) && Run(s, actions, t) ==> Bounded(t, n)
  }

  /** Every version claimed for policy `n`, recorded or still in flight, is at most `version`. */
  ghost predicate ClaimsAtMost(s: System, n: Name, version: Option<int>) {
    && (AckedOf(s.assignments, n).Some? ==> version.Some? && AckedOf(s.assignments, n).value <= version.value)
    && forall k, a | k in s.streams && s.streams[k].open && a in s.streams[k].up :: Claimed(a, n, version)
  }

  predicate Claimed(a: Ack, n: Name, version: Option<int>) {
    a.policyId == n && a.status == APPLIED ==> version.Some? && a.version <= version.value
  }

  predicate InRange(a: Ack, n: Name) {
    a.policyId == n && a.status == APPLIED ==> 0 <= a.version <= I32_MAX
  }

  /** The policy has a row here, the file is no newer than the table, and ack versions are i32 values. */
  ghost predicate Usual(s: System, n: Name) {
    && n in s.assignments
    && (n in s.files ==> n in s.policies && s.files[n].version <= s.policies[n].version)
    && forall k, a | k in s.streams && a in s.streams[k].up :: InRange(a, n)
  }

  lemma {:induction false} CoveredStaysBounded(s: System, n: Name, actions: seq<Action>, t: System)
    requires Usual(s, n) && ClaimsAtMost(s, n, FileVersion(s, n))
    requires OnlyAcks(actions) && Run(s, actions, t)
    ensures Bounded(t, n)
    decreases |actions|
  {
    if actions != [] {
      var k := actions[0].stream;
      var s' := Next(s, actions[0]);
      assert s.streams[k].up[0] in s.streams[k].up;
      assert Claimed(s.streams[k].up[0], n, FileVersion(s, n));
      assert InRange(s.streams[k].up[0], n);
      forall j, a | j in s'.streams && s'.streams[j].open && a in s'.streams[j].up
        ensures Claimed(a, n, FileVersion(s', n))
      {
        assert a in s.streams[j].up;
      }
      forall j, a | j in s'.streams && a in s'.streams[j].up
        ensures InRange(a, n)
      {
        assert a in s.streams[j].up;
      }
      CoveredStaysBounded(s', n, actions[1..], t);
    }
  }

  /** Processing the acks of a stream up to an applied ack of `n` records that ack's version. */
  lemma {:induction false} DrainTo(s: System, n: Name, k: nat, i: nat) returns (actions: seq<Action>, t: System)
    requires k in s.streams && s.streams[k].open && i < |s.streams[k].up|
    requires n in s.assignments
    requires s.streams[k].up[i].policyId == n && s.streams[k].up[i].status == APPLIED
    ensures OnlyAcks(actions) && Run(s, actions, t)
    ensures t.files == s.files && t.policies == s.policies
    ensures AckedOf(t.assignments, n) == Some(ToI32(s.streams[k].up[i].version))
    decreases i
  {
    var a := ProcessAck(k, true);
    var s' := Next(s, a);
    if i == 0 {
      actions, t := [a], s';
    } else {
      var rest;
      rest, t := DrainTo(s', n, k, i - 1);
      actions := [a] + rest;
      assert actions[1..] == rest;
    }
  }

  /** The invariant of PolicyPush is the weakest one: an uncovered claim does surface. */
  lemma SettlesExactly(s: System, n: Name)
    requires Usual(s, n)
    ensures Settles(s, n) <==> ClaimsAtMost(s, n, FileVersion(s, n))
  {
    if ClaimsAtMost(s, n, FileVersion(s, n)) {
      forall actions, t | OnlyAcks(actions) && Run(s, actions, t) ensures Bounded(t, n) {
        CoveredStaysBounded(s, n, actions, t);
      }
    } else if Bounded(s, n) {
      var k, a :| k in s.streams && s.streams[k].open && a in s.streams[k].up && !Claimed(a, n, FileVersion(s, n));
      var i :| 0 <= i < |s.streams[k].up| && s.streams[k].up[i] == a;
      var actions, t := DrainTo(s, n, k, i);
      assert InRange(a, n) && !Bounded(t, n);
    } else {
      assert OnlyAcks([]) && Run(s, [], s);
    }
  }

  /**
   A successful write keeps the manager's belief below the agent's file, under every later processing
   of acks, if and only if the version it writes is at least every version already claimed.
   */
  lemma WriteIsSafeExactlyWhen(s: System, n: Name, ackOk: bool)
    requires Inv(s, n) && n in s.assignments
    requires Enabled(s, Apply(true, ackOk)) && s.handling[0].policyId == n
    ensures Settles(Next(s, Apply(true, ackOk)), n) <==> ClaimsAtMost(s, n, Some(s.handling[0].version))
  {
    var r := s.handling[0];
    var s' := Next(s, Apply(true, ackOk));
    var k0 := s.reading.value;
    assert Fits(s.policies, n, r.version, r.compiled);
    forall k, a | k in s'.streams && a in s'.streams[k].up
      ensures a in s.streams[k].up || (k == k0 && a == AckOf(r, true))
      ensures InRange(a, n)
    {
      assert ClaimsBounded(s.files, n, s.streams[k].up);
    }
    forall k, a | k in s.streams && a in s.streams[k].up ensures a in s'.streams[k].up {
    }
    SettlesExactly(s', n);
  }

  // ---------- concrete runs ----------

  lemma OnlyPending(policies: Policies, assignments: Assignments, n: Name)
    requires policies.Keys == {n} && Pending(policies, assignments, n)
    ensures LoadPending(policies, assignments) == [RefOf(n, policies[n])]
  {
    var refs := LoadPending(policies, assignments);
    assert RefOf(n, policies[n]) in refs;
    assert PendingNames(policies, assignments) == {n};
    assert refs[0] in refs;
  }

  const P: Name := "p"
  const OLD: Bytes := []
  const NEW: Bytes := [1]

  function Row(version: int, compiled: Bytes): Policies {
    map[P := PolicyRow(version, true, 100, compiled)]
  }

  /** What the table holds has been acknowledged, nothing is in flight, and the file is something else. */
  ghost predicate SilentlyStale(t: System) {
    && P in t.policies && t.policies[P].enabled
    && !Pending(t.policies, t.assignments, P)
    && t.tasks == map[]
    && (forall k | k in t.streams :: t.streams[k].down == [] && t.streams[k].up == [])
    && P in t.files && t.files[P].compiled != t.policies[P].compiled
  }

  const OLD_REF := PolicyRef(P, 1, OLD, 100)
  const NEW_REF := PolicyRef(P, 2, NEW, 100)

  ghost predicate KeepsPolicies(actions: seq<Action>) {
    forall a <- actions :: !a.Delete?
  }

  /** `a` leads from `s` to `t`. */
  ghost predicate Leads(s: System, a: Action, t: System) {
    Enabled(s, a) && Next(s, a) == t
  }

  lemma Three(s: System, a: Action, s1: System, b: Action, s2: System, c: Action, t: System)
    returns (actions: seq<Action>)
    requires Leads(s, a, s1) && Leads(s1, b, s2) && Leads(s2, c, t)
    ensures Run(s, actions, t)
    ensures KeepsPolicies(actions) <==> !a.Delete? && !b.Delete? && !c.Delete?
  {
    actions := [a, b, c];
    assert a in actions && b in actions && c in actions;
    RunCons(s2, c, [], t);
    RunCons(s1, b, [c] + [], t);
    RunCons(s, a, [b] + ([c] + []), t);
    assert [a] + ([b] + ([c] + [])) == [a, b, c];
  }

  lemma Concat3(s: System, a: seq<Action>, s1: System, b: seq<Action>, s2: System, c: seq<Action>, t: System)
    returns (all: seq<Action>)
    requires Run(s, a, s1) && Run(s1, b, s2) && Run(s2, c, t)
    ensures Run(s, all, t)
    ensures KeepsPolicies(a) && KeepsPolicies(b) && KeepsPolicies(c) ==> KeepsPolicies(all)
  {
    RunConcat(s, a, s1, b, s2);
    RunConcat(s, a + b, s2, c, t);
    all := a + b + c;
  }

  /** The agent connected, and one push task of policy P is loaded and marked. */
  function Loaded(policies: Policies, task: nat, r: PolicyRef): System {
    System(policies, map[P := Assignment(r.version, None)], map[task := Task(0, [r], 1)],
           map[0 := Stream([], [], true)], Some(0), [], map[])
  }

  function Empty(policies: Policies): System {
    System(policies, map[], map[], map[], None, [], map[])
  }

  function Connected(policies: Policies): System {
    System(policies, map[], map[], map[0 := Stream([], [], true)], Some(0), [], map[])
  }

  lemma LoadsOnly(policies: Policies)
    requires policies.Keys == {P} && policies[P].enabled
    ensures Leads(Connected(policies), Load(0, 0),
                  Connected(policies).(tasks := map[0 := Task(0, [RefOf(P, policies[P])], 0)]))
  {
    OnlyPending(policies, map[], P);
  }

  lemma MarksOnly(policies: Policies, r: PolicyRef)
    requires P in policies && r.policyId == P && 0 <= r.version <= I32_MAX
    ensures Leads(Connected(policies).(tasks := map[0 := Task(0, [r], 0)]), MarkNext(0, true), Loaded(policies, 0, r))
  {
    var s := Connected(policies).(tasks := map[0 := Task(0, [r], 0)]);
    var t := Next(s, MarkNext(0, true));
    assert t.tasks == Loaded(policies, 0, r).tasks && t.assignments == Loaded(policies, 0, r).assignments;
  }

  lemma ConnectAndLoad(policies: Policies) returns (actions: seq<Action>)
    requires policies.Keys == {P} && policies[P].enabled && 0 <= policies[P].version <= I32_MAX
    ensures Run(Empty(policies), actions, Loaded(policies, 0, RefOf(P, policies[P])))
    ensures KeepsPolicies(actions)
  {
    var r := RefOf(P, policies[P]);
    LoadsOnly(policies);
    MarksOnly(policies, r);
    actions := Three(Empty(policies), Connect(0), Connected(policies), Load(0, 0),
                     Connected(policies).(tasks := map[0 := Task(0, [r], 0)]), MarkNext(0, true),
                     Loaded(policies, 0, r));
  }

  const EDITED := Loaded(Row(1, OLD), 0, OLD_REF).(policies := Row(2, NEW))
  const LOADED_AGAIN := EDITED.(tasks := map[0 := Task(0, [OLD_REF], 1), 1 := Task(0, [NEW_REF], 0)])
  const BOTH_LOADED := System(Row(2, NEW), map[P := Assignment(2, None)],
                              map[0 := Task(0, [OLD_REF], 1), 1 := Task(0, [NEW_REF], 1)],
                              map[0 := Stream([], [], true)], Some(0), [], map[])

  lemma LoadsNew()
    ensures Leads(EDITED, Load(1, 0), LOADED_AGAIN)
  {
    OnlyPending(Row(2, NEW), map[P := Assignment(1, None)], P);
    assert EDITED.tasks[1 := Task(0, [NEW_REF], 0)] == LOADED_AGAIN.tasks;
  }

  lemma MarksNew()
    ensures Leads(LOADED_AGAIN, MarkNext(1, true), BOTH_LOADED)
  {
    var t := Next(LOADED_AGAIN, MarkNext(1, true));
    assert t.tasks == BOTH_LOADED.tasks;
    assert t.assignments == BOTH_LOADED.assignments;
  }

  lemma EditAndLoadAgain() returns (actions: seq<Action>)
    ensures Run(Loaded(Row(1, OLD), 0, OLD_REF), actions, BOTH_LOADED)
    ensures KeepsPolicies(actions)
  {
    var s := Loaded(Row(1, OLD), 0, OLD_REF);
    assert Next(s, Edit(P, 100, NEW)).policies == EDITED.policies;
    LoadsNew();
    MarksNew();
    actions := Three(s, Edit(P, 100, NEW), EDITED, Load(1, 0), LOADED_AGAIN, MarkNext(1, true), BOTH_LOADED);
  }

  /** Both pushes are sent, the newer one first, and the agent is about to apply it. */
  const NEWER_FIRST := System(Row(2, NEW), map[P := Assignment(2, None)], map[],
                              map[0 := Stream([[OLD_REF]], [], true)], Some(0), [NEW_REF], map[])
  const NEWER_SENT := BOTH_LOADED.(tasks := map[0 := Task(0, [OLD_REF], 1)],
                                   streams := map[0 := Stream([[NEW_REF]], [], true)])
  const BOTH_SENT := NEWER_FIRST.(handling := [], streams := map[0 := Stream([[NEW_REF], [OLD_REF]], [], true)])

  lemma SendsNewer()
    ensures Leads(BOTH_LOADED, Send(1), NEWER_SENT)
  {
    assert [] + [[NEW_REF]] == [[NEW_REF]];
    var t := Next(BOTH_LOADED, Send(1));
    assert t.tasks == NEWER_SENT.tasks;
    assert t.streams == NEWER_SENT.streams;
  }

  lemma SendsOlder()
    ensures Leads(NEWER_SENT, Send(0), BOTH_SENT)
  {
    assert [[NEW_REF]] + [[OLD_REF]] == [[NEW_REF], [OLD_REF]];
    assert Next(NEWER_SENT, Send(0)).tasks == map[];
  }

  lemma SendNewerFirst() returns (actions: seq<Action>)
    ensures Run(BOTH_LOADED, actions, NEWER_FIRST)
    ensures KeepsPolicies(actions)
  {
    SendsNewer();
    SendsOlder();
    assert [[NEW_REF], [OLD_REF]][1..] == [[OLD_REF]];
    actions := Three(BOTH_LOADED, Send(1), NEWER_SENT, Send(0), BOTH_SENT, Receive(true), NEWER_FIRST);
  }

  /** Version 2 is applied and acknowledged; version 1 arrives. */
  const OLDER_ARRIVES := System(Row(2, NEW), map[P := Assignment(2, Some(2))], map[],
                                map[0 := Stream([], [], true)], Some(0), [OLD_REF], map[P := File(2, NEW)])
  const NEWER_APPLIED := NEWER_FIRST.(handling := [], files := map[P := File(2, NEW)],
                                      streams := map[0 := Stream([[OLD_REF]], [Ack(P, 2, APPLIED)], true)])
  const NEWER_ACKED := OLDER_ARRIVES.(handling := [], streams := map[0 := Stream([[OLD_REF]], [], true)])

  lemma AppliesNewer()
    ensures Leads(NEWER_FIRST, Apply(true, true), NEWER_APPLIED)
  {
    assert [] + [Ack(P, 2, APPLIED)] == [Ack(P, 2, APPLIED)] && [NEW_REF][1..] == [];
  }

  lemma AcksNewer()
    ensures Leads(NEWER_APPLIED, ProcessAck(0, true), NEWER_ACKED)
  {
    assert [Ack(P, 2, APPLIED)][1..] == [];
    assert Next(NEWER_APPLIED, ProcessAck(0, true)).assignments == NEWER_ACKED.assignments;
  }

  lemma AckNewer() returns (actions: seq<Action>)
    ensures Run(NEWER_FIRST, actions, OLDER_ARRIVES)
    ensures KeepsPolicies(actions)
  {
    AppliesNewer();
    AcksNewer();
    assert [[OLD_REF]][1..] == [];
    actions := Three(NEWER_FIRST, Apply(true, true), NEWER_APPLIED, ProcessAck(0, true), NEWER_ACKED,
                     Receive(true), OLDER_ARRIVES);
  }

  const STALE := System(Row(2, NEW), map[P := Assignment(2, Some(2))], map[],
                        map[0 := Stream([], [], false)], None, [], map[P := File(1, OLD)])
  const OLDER_APPLIED := STALE.(reading := Some(0), streams := map[0 := Stream([], [Ack(P, 1, APPLIED)], true)])

  lemma AppliesOlder()
    ensures Leads(OLDER_ARRIVES, Apply(true, true), OLDER_APPLIED)
  {
    assert [] + [Ack(P, 1, APPLIED)] == [Ack(P, 1, APPLIED)] && [OLD_REF][1..] == [];
    assert Next(OLDER_ARRIVES, Apply(true, true)).files == OLDER_APPLIED.files;
  }

  lemma ApplyOlder() returns (actions: seq<Action>)
    ensures Run(OLDER_ARRIVES, actions, STALE)
    ensures KeepsPolicies(actions)
  {
    AppliesOlder();
    var closed := STALE.(reading := Some(0));
    assert Leads(OLDER_APPLIED, CloseStream(0), closed);
    actions := Three(OLDER_ARRIVES, Apply(true, true), OLDER_APPLIED, CloseStream(0), closed, Disconnect, STALE);
  }

  lemma StartsEmpty(policies: Policies)
    requires forall n | n in policies :: 0 <= policies[n].version <= I32_MAX
    ensures Initial(Empty(policies))
  {
  }

  lemma StaleIsSilent()
    ensures SilentlyStale(STALE) && AckedOf(STALE.assignments, P) == Some(2) && STALE.files[P] == File(1, OLD)
  {
  }

  lemma ReachStale(s: System) returns (actions: seq<Action>)
    requires s == Loaded(Row(1, OLD), 0, OLD_REF)
    ensures Run(s, actions, STALE) && KeepsPolicies(actions)
  {
    var edit := EditAndLoadAgain();
    var send := SendNewerFirst();
    var newer := AckNewer();
    var older := ApplyOlder();
    actions := Concat3(s, edit, BOTH_LOADED, send, NEWER_FIRST, newer, OLDER_ARRIVES);
    actions := Concat3(s, actions, OLDER_ARRIVES, older, STALE, [], STALE);
  }

  /**
   The initial push loads version 1, an edit makes version 2, the broadcast loads and sends it, and
   only then the initial push sends. The stream breaks before the second ack: the agent keeps
   version 1 while the manager has recorded version 2.
   */
  lemma OvertakenPushIsLost() returns (s: System, actions: seq<Action>, t: System)
    ensures Initial(s) && Run(s, actions, t) && SilentlyStale(t)
    ensures KeepsPolicies(actions)
    ensures AckedOf(t.assignments, P) == Some(2) && t.files[P] == File(1, OLD)
  {
    var loaded := Loaded(Row(1, OLD), 0, OLD_REF);
    s, t := Empty(Row(1, OLD)), STALE;
    StartsEmpty(Row(1, OLD));
    StaleIsSilent();
    var connect := ConnectAndLoad(Row(1, OLD));
    var rest := ReachStale(loaded);
    actions := Concat3(s, connect, loaded, rest, t, [], t);
  }

  const FIVE := PolicyRef(P, 5, OLD, 100)

  const FIVE_APPLIED := System(Row(5, OLD), map[P := Assignment(5, None)], map[],
                               map[0 := Stream([], [Ack(P, 5, APPLIED)], true)], Some(0), [], map[P := File(5, OLD)])

  const FIVE_SENT := Loaded(Row(5, OLD), 0, FIVE).(tasks := map[], streams := map[0 := Stream([[FIVE]], [], true)])
  const FIVE_RECEIVED := FIVE_SENT.(handling := [FIVE], streams := map[0 := Stream([], [], true)])

  lemma SendsFive()
    ensures Leads(Loaded(Row(5, OLD), 0, FIVE), Send(0), FIVE_SENT)
  {
    assert Next(Loaded(Row(5, OLD), 0, FIVE), Send(0)).tasks == map[];
    assert [] + [[FIVE]] == [[FIVE]];
  }

  lemma AppliesFive()
    ensures Leads(FIVE_SENT, Receive(true), FIVE_RECEIVED) && Leads(FIVE_RECEIVED, Apply(true, true), FIVE_APPLIED)
  {
    assert [[FIVE]][1..] == [] && [FIVE][1..] == [];
    assert [] + [Ack(P, 5, APPLIED)] == [Ack(P, 5, APPLIED)];
  }

  lemma ApplyFive() returns (actions: seq<Action>)
    ensures Run(Loaded(Row(5, OLD), 0, FIVE), actions, FIVE_APPLIED)
  {
    SendsFive();
    AppliesFive();
    actions := Three(Loaded(Row(5, OLD), 0, FIVE), Send(0), FIVE_SENT, Receive(true), FIVE_RECEIVED,
                     Apply(true, true), FIVE_APPLIED);
  }

  const RECREATED := System(Row(1, NEW), map[], map[0 := Task(0, [PolicyRef(P, 1, NEW, 100)], 0)],
                            map[0 := Stream([], [Ack(P, 5, APPLIED)], true)], Some(0), [], map[P := File(5, OLD)])

  const DELETED := FIVE_APPLIED.(policies := map[], assignments := map[])
  const CREATED := DELETED.(policies := Row(1, NEW))

  lemma LoadsCreated()
    ensures Leads(CREATED, Load(0, 0), RECREATED)
  {
    OnlyPending(Row(1, NEW), map[], P);
  }

  lemma Recreate() returns (actions: seq<Action>)
    ensures Run(FIVE_APPLIED, actions, RECREATED)
  {
    assert Next(FIVE_APPLIED, Delete(P)).policies == map[] && Next(FIVE_APPLIED, Delete(P)).assignments == map[];
    LoadsCreated();
    actions := Three(FIVE_APPLIED, Delete(P), DELETED, Create(P, 1, 100, NEW), CREATED, Load(0, 0), RECREATED);
  }

  const UNSENT := RECREATED.(assignments := map[P := Assignment(1, Some(5))],
                             tasks := map[0 := Task(0, [PolicyRef(P, 1, NEW, 100)], 1)],
                             streams := map[0 := Stream([], [], false)])
  const NEVER_SENT := UNSENT.(tasks := map[])

  const REMARKED := UNSENT.(assignments := map[P := Assignment(1, None)], streams := RECREATED.streams)
  const SETTLED := UNSENT.(streams := map[0 := Stream([], [], true)])

  lemma Remarks()
    ensures Leads(RECREATED, MarkNext(0, true), REMARKED)
  {
    assert Next(RECREATED, MarkNext(0, true)).tasks == REMARKED.tasks;
    assert Next(RECREATED, MarkNext(0, true)).assignments == REMARKED.assignments;
  }

  lemma Settles5()
    ensures Leads(REMARKED, ProcessAck(0, true), SETTLED)
  {
    assert [Ack(P, 5, APPLIED)][1..] == [];
    assert Next(REMARKED, ProcessAck(0, true)).assignments == SETTLED.assignments;
  }

  lemma SettleWithOldAck() returns (actions: seq<Action>)
    ensures Run(RECREATED, actions, UNSENT)
  {
    Remarks();
    Settles5();
    assert Next(SETTLED, CloseStream(0)).streams == UNSENT.streams;
    actions := Three(RECREATED, MarkNext(0, true), REMARKED, ProcessAck(0, true), SETTLED, CloseStream(0), UNSENT);
  }

  lemma SendToNobody()
    ensures Run(UNSENT, [Send(0)], NEVER_SENT)
  {
    assert Next(UNSENT, Send(0)).tasks == map[];
    RunCons(UNSENT, Send(0), [], NEVER_SENT);
    assert [Send(0)] + [] == [Send(0)];
  }

  lemma NeverSentIsSilent()
    ensures SilentlyStale(NEVER_SENT)
    ensures NEVER_SENT.policies[P].version == 1 && AckedOf(NEVER_SENT.assignments, P) == Some(5)
  {
  }

  lemma ReachNeverSent(s: System) returns (actions: seq<Action>)
    requires s == Loaded(Row(5, OLD), 0, FIVE)
    ensures Run(s, actions, NEVER_SENT)
  {
    var apply := ApplyFive();
    var recreate := Recreate();
    var settle := SettleWithOldAck();
    SendToNobody();
    actions := Concat3(s, apply, FIVE_APPLIED, recreate, RECREATED, settle, UNSENT);
    actions := Concat3(s, actions, UNSENT, [Send(0)], NEVER_SENT, [], NEVER_SENT);
  }

  /**
   A policy is pushed at version 5 and deleted, which takes its assignment row with it. Created again
   at version 1 it is loaded and marked, and the ack of version 5, still in flight, settles the new
   row: the new policy is not pending although the agent never receives it.
   */
  lemma RecreatedPolicyIsLost() returns (s: System, actions: seq<Action>, t: System)
    ensures Initial(s) && Run(s, actions, t) && SilentlyStale(t)
    ensures t.policies[P].version == 1 && AckedOf(t.assignments, P) == Some(5)
  {
    var loaded := Loaded(Row(5, OLD), 0, FIVE);
    s, t := Empty(Row(5, OLD)), NEVER_SENT;
    StartsEmpty(Row(5, OLD));
    NeverSentIsSilent();
    var connect := ConnectAndLoad(Row(5, OLD));
    var rest := ReachNeverSent(loaded);
    actions := Concat3(s, connect, loaded, rest, t, [], t);
  }
}
