/**
 When the manager may stop pushing a policy: what must hold of the claims in flight for the policy to
 stay pending, or the agent's file to be current, whatever the manager does next.
 */
module PolicyCurrency {
  import opened Prelude
  import opened PolicyTables
  import opened PolicyPush
  import opened PolicyRound
  import opened PolicyRaces

  /** The agent's file holds the table's content. */
  predicate Current(s: System, n: Name)
    requires n in s.policies
  {
    n in s.files && s.files[n].compiled == s.policies[n].compiled
  }

  /** An applied ack of `n`, as an i32 the manager can record, claims less than `version`. */
  predicate ClaimBelow(a: Ack, n: Name, version: int) {
    a.policyId == n && a.status == APPLIED ==> a.version < version
  }

  /** Every applied claim for `n`, recorded or in an open stream, is below `version`. */
  ghost predicate ClaimsBelow(s: System, n: Name, version: int) {
    && (AckedOf(s.assignments, n).Some? ==> AckedOf(s.assignments, n).value < version)
    && forall k, a | k in s.streams && s.streams[k].open && a in s.streams[k].up :: ClaimBelow(a, n, version)
  }

  /** Ack versions of `n` are i32 values. */
  ghost predicate AcksInRange(s: System, n: Name) {
    forall k, a | k in s.streams && a in s.streams[k].up :: InRange(a, n)
  }

  /** The manager's own steps on its assignments and streams: nothing is edited, nothing is written. */
  predicate ManagerStep(a: Action) {
    a.Load? || a.MarkNext? || a.Send? || a.ProcessAck? || a.CloseStream?
  }

  ghost predicate OnlyManager(actions: seq<Action>) {
    forall a <- actions :: ManagerStep(a)
  }

  ghost predicate PendingOrCurrent(s: System, n: Name) {
    n in s.policies && (Pending(s.policies, s.assignments, n) || Current(s, n))
  }

  /** Whatever the manager does from here, the policy is pending or the file is current. */
  ghost predicate NeverStale(s: System, n: Name) {
    forall actions, t :: OnlyManager(actions) && Run(s, actions, t) ==> PendingOrCurrent(t, n)
  }

  /** The same for the processing of acks alone. */
  ghost predicate AcksNeverStale(s: System, n: Name) {
    forall actions, t :: OnlyAcks(actions) && Run(s, actions, t) ==> PendingOrCurrent(t, n)
  }

  // ---------- enough ----------

  /** Claims below the table's version, or a current file. */
  ghost predicate Covered(s: System, n: Name) {
    n in s.policies && s.policies[n].enabled && AcksInRange(s, n)
    && (Current(s, n) || ClaimsBelow(s, n, s.policies[n].version))
  }

  lemma LoadKeepsRest(s: System, a: Action)
    requires Enabled(s, a) && a.Load?
    ensures Next(s, a) == s.(tasks := Next(s, a).tasks)
  {
  }

  lemma ManagerKeepsTables(s: System, a: Action)
    requires Enabled(s, a) && ManagerStep(a)
    ensures Next(s, a).policies == s.policies && Next(s, a).files == s.files
  {
    if a.Load? {
      LoadKeepsRest(s, a);
    }
  }

  lemma ManagerKeepsAcks(s: System, n: Name, a: Action)
    requires Enabled(s, a) && ManagerStep(a) && AcksInRange(s, n)
    ensures AcksInRange(Next(s, a), n)
  {
    var s' := Next(s, a);
    forall k, x | k in s'.streams && x in s'.streams[k].up ensures InRange(x, n) {
      assert k in s.streams && x in s.streams[k].up;
    }
  }

  lemma ProcessKeepsClaims(s: System, n: Name, a: Action, version: int)
    requires Enabled(s, a) && a.ProcessAck? && AcksInRange(s, n) && ClaimsBelow(s, n, version)
    ensures ClaimsBelow(Next(s, a), n, version)
  {
    var s' := Next(s, a);
    var x := s.streams[a.stream].up[0];
    assert x in s.streams[a.stream].up;
    assert ClaimBelow(x, n, version) && InRange(x, n);
    forall k, y | k in s'.streams && s'.streams[k].open && y in s'.streams[k].up ensures ClaimBelow(y, n, version) {
      assert y in s.streams[k].up;
    }
  }

  lemma PushKeepsClaims(s: System, n: Name, a: Action, version: int)
    requires Enabled(s, a) && (a.Load? || a.MarkNext? || a.Send? || a.CloseStream?) && ClaimsBelow(s, n, version)
    ensures ClaimsBelow(Next(s, a), n, version)
  {
    var s' := Next(s, a);
    forall k, y | k in s'.streams && s'.streams[k].open && y in s'.streams[k].up ensures ClaimBelow(y, n, version) {
      assert k in s.streams && s.streams[k].open && y in s.streams[k].up;
    }
  }

  lemma StepKeepsCovered(s: System, n: Name, a: Action)
    requires Covered(s, n) && Enabled(s, a) && ManagerStep(a)
    ensures Covered(Next(s, a), n)
  {
    ManagerKeepsTables(s, a);
    ManagerKeepsAcks(s, n, a);
    if !Current(s, n) {
      if a.ProcessAck? {
        ProcessKeepsClaims(s, n, a, s.policies[n].version);
      } else {
        PushKeepsClaims(s, n, a, s.policies[n].version);
      }
    }
  }

  lemma {:induction false} CoveredNeverStale(s: System, n: Name, actions: seq<Action>, t: System)
    requires Covered(s, n) && OnlyManager(actions) && Run(s, actions, t)
    ensures PendingOrCurrent(t, n)
    decreases |actions|
  {
    if actions != [] {
      StepKeepsCovered(s, n, actions[0]);
      CoveredNeverStale(Next(s, actions[0]), n, actions[1..], t);
    }
  }

  // ---------- necessary ----------

  /** A claim that is not below the table's version settles the row it meets. */
  lemma ClaimSettles(s: System, n: Name) returns (actions: seq<Action>, t: System)
    requires n in s.policies && n in s.assignments && AcksInRange(s, n)
    requires !Current(s, n) && !ClaimsBelow(s, n, s.policies[n].version)
    ensures OnlyAcks(actions) && Run(s, actions, t) && !PendingOrCurrent(t, n)
  {
    var version := s.policies[n].version;
    if AckedOf(s.assignments, n).Some? && AckedOf(s.assignments, n).value >= version {
      actions, t := [], s;
    } else {
      var k, a :| k in s.streams && s.streams[k].open && a in s.streams[k].up && !ClaimBelow(a, n, version);
      var i :| 0 <= i < |s.streams[k].up| && s.streams[k].up[i] == a;
      actions, t := DrainTo(s, n, k, i);
      assert InRange(a, n);
    }
  }

  lemma MarksAreManagers(task: nat, count: nat)
    ensures OnlyManager(Times(MarkNext(task, true), count))
  {
  }

  lemma MarkLoaded(s: System, task: nat, n: Name) returns (actions: seq<Action>, t: System)
    requires task in s.tasks && s.tasks[task].marked == 0
    requires forall r <- s.tasks[task].refs :: r.policyId in s.policies
    requires exists r <- s.tasks[task].refs :: r.policyId == n
    ensures OnlyManager(actions) && Run(s, actions, t)
    ensures n in t.assignments && t.policies == s.policies && t.files == s.files && t.streams == s.streams
  {
    var refs := s.tasks[task].refs;
    MarkPhase(s, task);
    assert refs[0..] == refs;
    MarkAllKeepsAcked(s.assignments, refs, n);
    MarksAreManagers(task, |refs|);
    actions, t := Times(MarkNext(task, true), |refs|), AllMarked(s, task);
  }

  lemma LoadAddsTask(s: System, n: Name, k: nat, task: nat) returns (refs: seq<PolicyRef>)
    requires n in s.policies && s.policies[n].enabled && n !in s.assignments && k in s.streams && task !in s.tasks
    ensures Enabled(s, Load(task, k)) && Next(s, Load(task, k)) == s.(tasks := s.tasks[task := Task(k, refs, 0)])
    ensures (forall r <- refs :: r.policyId in s.policies) && exists r <- refs :: r.policyId == n
  {
    refs := LoadPending(s.policies, s.assignments);
    assert RefOf(n, s.policies[n]) in refs;
  }

  lemma ConsManager(s: System, a: Action, rest: seq<Action>, t: System)
    requires Enabled(s, a) && ManagerStep(a) && Run(Next(s, a), rest, t) && OnlyManager(rest)
    ensures Run(s, [a] + rest, t) && OnlyManager([a] + rest)
  {
    RunCons(s, a, rest, t);
  }

  /** A policy without a row is pending, so a push gives it one and touches no claim. */
  lemma PushMakesRow(s: System, n: Name, k: nat) returns (actions: seq<Action>, t: System)
    requires n in s.policies && s.policies[n].enabled && n !in s.assignments && k in s.streams
    ensures OnlyManager(actions) && Run(s, actions, t)
    ensures n in t.assignments && t.policies == s.policies && t.files == s.files && t.streams == s.streams
  {
    var task := NumberOutside(s.tasks.Keys);
    var refs := LoadAddsTask(s, n, k, task);
    var marks;
    marks, t := MarkLoaded(s.(tasks := s.tasks[task := Task(k, refs, 0)]), task, n);
    ConsManager(s, Load(task, k), marks, t);
    actions := [Load(task, k)] + marks;
  }

  /** As ClaimSettles, and with no row yet a push makes one first. */
  lemma ClaimSurfaces(s: System, n: Name) returns (actions: seq<Action>, t: System)
    requires n in s.policies && s.policies[n].enabled && AcksInRange(s, n)
    requires !Current(s, n) && !ClaimsBelow(s, n, s.policies[n].version)
    ensures OnlyManager(actions) && Run(s, actions, t) && !PendingOrCurrent(t, n)
  {
    if n in s.assignments {
      actions, t := ClaimSettles(s, n);
    } else {
      var k, a :| k in s.streams && s.streams[k].open && a in s.streams[k].up
                  && !ClaimBelow(a, n, s.policies[n].version);
      var first, mid := PushMakesRow(s, n, k);
      assert AcksInRange(mid, n) && !ClaimsBelow(mid, n, mid.policies[n].version);
      var second;
      second, t := ClaimSettles(mid, n);
      actions := first + second;
      RunConcat(s, first, mid, second, t);
    }
  }

  // ---------- theorems ----------

  /**
   An enabled policy stays pending or current under everything the manager can do, if and only if the
   agent's file is already current or every claim for the policy is below the table's version.
   */
  lemma NeverStaleExactly(s: System, n: Name)
    requires n in s.policies && s.policies[n].enabled && AcksInRange(s, n)
    ensures NeverStale(s, n) <==> Current(s, n) || ClaimsBelow(s, n, s.policies[n].version)
  {
    if Current(s, n) || ClaimsBelow(s, n, s.policies[n].version) {
      forall actions, t | OnlyManager(actions) && Run(s, actions, t) ensures PendingOrCurrent(t, n) {
        CoveredNeverStale(s, n, actions, t);
      }
    } else {
      var actions, t := ClaimSurfaces(s, n);
    }
  }

  /** With a row, the processing of acks alone already decides it. */
  lemma AcksNeverStaleExactly(s: System, n: Name)
    requires n in s.policies && s.policies[n].enabled && n in s.assignments && AcksInRange(s, n)
    ensures AcksNeverStale(s, n) <==> Current(s, n) || ClaimsBelow(s, n, s.policies[n].version)
  {
    if Current(s, n) || ClaimsBelow(s, n, s.policies[n].version) {
      forall actions, t | OnlyAcks(actions) && Run(s, actions, t) ensures PendingOrCurrent(t, n) {
        CoveredNeverStale(s, n, actions, t);
      }
    } else {
      var actions, t := ClaimSettles(s, n);
    }
  }

  /** A create is safe exactly when its version exceeds every claim still around, or the file is already its content. */
  lemma CreateIsSafeExactly(s: System, n: Name, yamlVersion: nat, priority: int, compiled: Bytes)
    requires n !in s.policies && AcksInRange(s, n)
    ensures NeverStale(Next(s, Create(n, yamlVersion, priority, compiled)), n) <==>
              (n in s.files && s.files[n].compiled == compiled)
              || ClaimsBelow(s, n, if yamlVersion <= I32_MAX then yamlVersion else 1)
  {
    var a := Create(n, yamlVersion, priority, compiled);
    assert Next(s, a).streams == s.streams && Next(s, a).assignments == s.assignments && Next(s, a).files == s.files;
    NeverStaleExactly(Next(s, a), n);
  }

  /** An edit is safe exactly when the next version exceeds every claim, or the file is already its content. */
  lemma EditIsSafeExactly(s: System, n: Name, priority: int, compiled: Bytes)
    requires n in s.policies && s.policies[n].enabled && AcksInRange(s, n)
    ensures NeverStale(Next(s, Edit(n, priority, compiled)), n) <==>
              (n in s.files && s.files[n].compiled == compiled) || ClaimsBelow(s, n, Bump(s.policies[n].version))
  {
    var a := Edit(n, priority, compiled);
    assert Next(s, a).streams == s.streams && Next(s, a).assignments == s.assignments && Next(s, a).files == s.files;
    NeverStaleExactly(Next(s, a), n);
  }

  lemma ApplyAddsClaim(s: System, n: Name, ackOk: bool, v: int)
    requires Enabled(s, Apply(true, ackOk)) && s.handling[0].policyId == n
    requires AcksInRange(s, n) && 0 <= s.handling[0].version <= I32_MAX
    ensures var s' := Next(s, Apply(true, ackOk));
            && AcksInRange(s', n)
            && (ClaimsBelow(s', n, v) <==>
                  ClaimsBelow(s, n, v) && (ackOk && s.streams[s.reading.value].open ==> s.handling[0].version < v))
  {
    var r, k0 := s.handling[0], s.reading.value;
    var s' := Next(s, Apply(true, ackOk));
    forall k, a | k in s'.streams && a in s'.streams[k].up
      ensures a in s.streams[k].up || (k == k0 && ackOk && a == AckOf(r, true))
    {
    }
    forall k, a | k in s.streams && a in s.streams[k].up ensures a in s'.streams[k].up {
    }
    assert forall k | k in s.streams :: s'.streams[k].open == s.streams[k].open;
    if ackOk {
      assert AckOf(r, true) in s'.streams[k0].up;
      assert ClaimBelow(AckOf(r, true), n, v) <==> r.version < v;
    }
  }

  /** A write of other content is safe exactly when no claim, its own included, reaches the table's version. */
  lemma WriteIsCurrentExactly(s: System, n: Name, ackOk: bool)
    requires n in s.policies && s.policies[n].enabled && AcksInRange(s, n)
    requires Enabled(s, Apply(true, ackOk)) && s.handling[0].policyId == n && 0 <= s.handling[0].version <= I32_MAX
    ensures var r, v := s.handling[0], s.policies[n].version;
            NeverStale(Next(s, Apply(true, ackOk)), n) <==>
              r.compiled == s.policies[n].compiled
              || (ClaimsBelow(s, n, v) && (ackOk && s.streams[s.reading.value].open ==> r.version < v))
  {
    var r, v := s.handling[0], s.policies[n].version;
    var s' := Next(s, Apply(true, ackOk));
    assert Current(s', n) <==> r.compiled == s.policies[n].compiled;
    ApplyAddsClaim(s, n, ackOk, v);
    NeverStaleExactly(s', n);
  }

  // ---------- the two failing runs ----------

  /** After the deletion at version 5, exactly the creates above version 5, or of the old content, are safe. */
  lemma RecreatedSafeAbove5(yamlVersion: nat, compiled: Bytes)
    ensures Enabled(FIVE_APPLIED, Delete(P))
    ensures var deleted := Next(FIVE_APPLIED, Delete(P));
            Enabled(deleted, Create(P, yamlVersion, 100, compiled))
            && (NeverStale(Next(deleted, Create(P, yamlVersion, 100, compiled)), P) <==>
                  compiled == OLD || 5 < yamlVersion <= I32_MAX)
  {
    var deleted := Next(FIVE_APPLIED, Delete(P));
    assert deleted.streams == map[0 := Stream([], [Ack(P, 5, APPLIED)], true)];
    assert Ack(P, 5, APPLIED) in deleted.streams[0].up;
    assert deleted.assignments == map[] && deleted.files == map[P := File(5, OLD)];
    var version := if yamlVersion <= I32_MAX then yamlVersion else 1;
    assert ClaimBelow(Ack(P, 5, APPLIED), P, version) <==> 5 < version;
    assert ClaimsBelow(deleted, P, version) <==> 5 < version;
    CreateIsSafeExactly(deleted, P, yamlVersion, 100, compiled);
  }

  /** Writing the overtaken version 1 after version 2 was acknowledged is not safe. */
  lemma OvertakenWriteIsUnsafe(ackOk: bool)
    ensures Enabled(OLDER_ARRIVES, Apply(true, ackOk))
    ensures !NeverStale(Next(OLDER_ARRIVES, Apply(true, ackOk)), P)
  {
    assert OLDER_ARRIVES.handling[0] == OLD_REF && AckedOf(OLDER_ARRIVES.assignments, P) == Some(2);
    WriteIsCurrentExactly(OLDER_ARRIVES, P, ackOk);
  }
}
