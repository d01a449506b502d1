/**
 The conditions of PolicyCurrency over whole runs: a policy that is pending or current whatever the
 manager does stays so exactly as long as every create, edit and write in the run meets its condition.
 */
module CurrencyRuns {
  import opened Prelude
  import opened PolicyTables
  import opened PolicyPush
  import opened PolicyRaces
  import opened PolicyCurrency
  import opened PolicyVersions

  /** As long as policy `n` exists and is enabled, it is pending or current under everything the manager can do. */
  ghost predicate Sure(s: System, n: Name) {
    n in s.policies && s.policies[n].enabled ==> NeverStale(s, n)
  }

  predicate Holds(s: System, n: Name, compiled: Bytes) {
    n in s.files && s.files[n].compiled == compiled
  }

  /** What each step owes policy `n`; only creates, edits and successful writes owe anything. */
  ghost predicate Meets(s: System, n: Name, a: Action)
    requires Enabled(s, a)
  {
    match a
    case Create(m, v, _, compiled) =>
      m == n ==> Holds(s, n, compiled) || ClaimsBelow(s, n, if v <= I32_MAX then v else 1)
    case Edit(m, _, compiled) =>
      m == n && s.policies[n].enabled ==> Holds(s, n, compiled) || ClaimsBelow(s, n, Bump(s.policies[n].version))
    case Apply(true, ackOk) => MeetsWrite(s, n, ackOk)
    case _ => true
  }

  ghost predicate MeetsWrite(s: System, n: Name, ackOk: bool)
    requires Enabled(s, Apply(true, ackOk))
  {
    var r := s.handling[0];
    r.policyId == n && n in s.policies && s.policies[n].enabled ==>
      r.compiled == s.policies[n].compiled
      || (ClaimsBelow(s, n, s.policies[n].version)
          && (ackOk && s.streams[s.reading.value].open ==> r.version < s.policies[n].version))
  }

  /** Every state of a run, the first and the last included. */
  ghost predicate AlwaysSure(s: System, n: Name, actions: seq<Action>)
    decreases |actions|
  {
    Sure(s, n) && (actions != [] ==> Enabled(s, actions[0]) && AlwaysSure(Next(s, actions[0]), n, actions[1..]))
  }

  ghost predicate AllMeet(s: System, n: Name, actions: seq<Action>)
    decreases |actions|
  {
    actions != [] ==>
      Enabled(s, actions[0]) && Meets(s, n, actions[0]) && AllMeet(Next(s, actions[0]), n, actions[1..])
  }

  // ---------- one step ----------

  lemma WithinInRange(s: System, n: Name, top: int)
    requires Within(s, n, top) && top <= I32_MAX
    ensures AcksInRange(s, n)
    ensures forall v | v > top :: ClaimsBelow(s, n, v)
  {
    forall k, a | k in s.streams && a in s.streams[k].up
      ensures InRange(a, n)
      ensures a.policyId == n && a.status == APPLIED ==> a.version <= top
    {
      assert StreamWithin(s.streams[k], n, top);
    }
  }

  lemma SureExactly(s: System, n: Name)
    requires AcksInRange(s, n)
    ensures Sure(s, n) <==>
              (n in s.policies && s.policies[n].enabled ==> Current(s, n) || ClaimsBelow(s, n, s.policies[n].version))
  {
    if n in s.policies && s.policies[n].enabled {
      NeverStaleExactly(s, n);
    }
  }

  /** No more claims for `n` than before. */
  ghost predicate NoNewClaims(s: System, s': System, n: Name) {
    forall v :: ClaimsBelow(s, n, v) ==> ClaimsBelow(s', n, v)
  }

  lemma SureFrame(s: System, s': System, n: Name)
    requires AcksInRange(s, n) && AcksInRange(s', n) && Sure(s, n) && NoNewClaims(s, s', n)
    requires n in s'.policies ==> n in s.policies && s'.policies[n] == s.policies[n]
    requires n in s.files ==> n in s'.files && s'.files[n] == s.files[n]
    ensures Sure(s', n)
  {
    SureExactly(s, n);
    SureExactly(s', n);
  }

  lemma ManagerNoNewClaims(s: System, n: Name, a: Action)
    requires AcksInRange(s, n) && Enabled(s, a) && ManagerStep(a)
    ensures NoNewClaims(s, Next(s, a), n)
  {
    forall v | ClaimsBelow(s, n, v) ensures ClaimsBelow(Next(s, a), n, v) {
      if a.ProcessAck? {
        ProcessKeepsClaims(s, n, a, v);
      } else {
        PushKeepsClaims(s, n, a, v);
      }
    }
  }

  lemma ManagerStepSure(s: System, n: Name, a: Action)
    requires Enabled(s, a) && AcksInRange(s, n) && AcksInRange(Next(s, a), n) && Sure(s, n) && ManagerStep(a)
    ensures Sure(Next(s, a), n)
  {
    ManagerKeepsTables(s, a);
    ManagerNoNewClaims(s, n, a);
    SureFrame(s, Next(s, a), n);
  }

  lemma SameAcksNoNewClaims(s: System, s': System, n: Name)
    requires AckedOf(s'.assignments, n).Some? ==> AckedOf(s'.assignments, n) == AckedOf(s.assignments, n)
    requires forall k, x | k in s'.streams && s'.streams[k].open && x in s'.streams[k].up ::
               (x.policyId == n && x.status == APPLIED ==> k in s.streams && s.streams[k].open && x in s.streams[k].up)
    ensures NoNewClaims(s, s', n)
  {
    forall v | ClaimsBelow(s, n, v) ensures ClaimsBelow(s', n, v) {
      forall k, x | k in s'.streams && s'.streams[k].open && x in s'.streams[k].up ensures ClaimBelow(x, n, v) {
        assert x.policyId == n && x.status == APPLIED ==> ClaimBelow(x, n, v);
      }
    }
  }

  lemma AgentNoNewClaims(s: System, n: Name, a: Action)
    requires Enabled(s, a)
    requires a.Connect? || a.Receive? || a.Disconnect? || (a.Apply? && (s.handling[0].policyId == n ==> !a.writeOk))
    ensures NoNewClaims(s, Next(s, a), n)
  {
    var s' := Next(s, a);
    forall k, x | k in s'.streams && s'.streams[k].open && x in s'.streams[k].up
                  && x.policyId == n && x.status == APPLIED
      ensures k in s.streams && s.streams[k].open && x in s.streams[k].up
    {
    }
    SameAcksNoNewClaims(s, s', n);
  }

  /** Steps of the agent's sessions, and writes that fail or concern another policy. */
  lemma AgentStepSure(s: System, n: Name, a: Action)
    requires Enabled(s, a) && AcksInRange(s, n) && AcksInRange(Next(s, a), n) && Sure(s, n)
    requires a.Connect? || a.Receive? || a.Disconnect? || (a.Apply? && (s.handling[0].policyId == n ==> !a.writeOk))
    ensures Sure(Next(s, a), n)
  {
    AgentNoNewClaims(s, n, a);
    AgentKeepsRest(s, n, a);
    SureFrame(s, Next(s, a), n);
  }

  lemma AgentKeepsRest(s: System, n: Name, a: Action)
    requires Enabled(s, a)
    requires a.Connect? || a.Receive? || a.Disconnect? || (a.Apply? && (s.handling[0].policyId == n ==> !a.writeOk))
    ensures Next(s, a).policies == s.policies
    ensures n in s.files ==> n in Next(s, a).files && Next(s, a).files[n] == s.files[n]
  {
  }

  lemma OtherTableNoNewClaims(s: System, n: Name, a: Action)
    requires Enabled(s, a) && (a.Create? || a.Edit? || a.Delete?)
    ensures NoNewClaims(s, Next(s, a), n)
    ensures Next(s, a).files == s.files
  {
    SameAcksNoNewClaims(s, Next(s, a), n);
  }

  lemma EditStepSure(s: System, n: Name, a: Action)
    requires Enabled(s, a) && AcksInRange(s, n) && AcksInRange(Next(s, a), n) && Sure(s, n)
    requires a.Create? || a.Edit? || a.Delete?
    ensures Sure(Next(s, a), n) <==> Meets(s, n, a)
  {
    if a.name != n || a.Delete? {
      OtherTableNoNewClaims(s, n, a);
      SureFrame(s, Next(s, a), n);
    } else if a.Create? {
      CreateIsSafeExactly(s, n, a.yamlVersion, a.priority, a.compiled);
    } else if s.policies[n].enabled {
      EditIsSafeExactly(s, n, a.priority, a.compiled);
    }
  }

  lemma WriteStepSure(s: System, n: Name, ackOk: bool)
    requires Within(s, n, I32_MAX) && Sure(s, n) && Enabled(s, Apply(true, ackOk)) && s.handling[0].policyId == n
    ensures Sure(Next(s, Apply(true, ackOk)), n) <==> MeetsWrite(s, n, ackOk)
  {
    if n in s.policies && s.policies[n].enabled {
      WithinInRange(s, n, I32_MAX);
      assert s.handling[0] in s.handling;
      WriteIsCurrentExactly(s, n, ackOk);
    }
  }

  lemma AnyEditWithin(s: System, n: Name, a: Action)
    requires Within(s, n, I32_MAX) && Enabled(s, a)
    ensures EditWithin(s, n, a, I32_MAX)
  {
  }

  lemma StepSureExactly(s: System, n: Name, a: Action)
    requires Within(s, n, I32_MAX) && Sure(s, n) && Enabled(s, a)
    ensures Within(Next(s, a), n, I32_MAX)
    ensures Sure(Next(s, a), n) <==> Meets(s, n, a)
  {
    AnyEditWithin(s, n, a);
    StepKeepsWithin(s, n, a, I32_MAX);
    WithinInRange(s, n, I32_MAX);
    WithinInRange(Next(s, a), n, I32_MAX);
    if a.Create? || a.Edit? || a.Delete? {
      EditStepSure(s, n, a);
    } else if ManagerStep(a) {
      ManagerStepSure(s, n, a);
    } else if a.Apply? && a.writeOk && s.handling[0].policyId == n {
      WriteStepSure(s, n, a.ackOk);
    } else {
      AgentStepSure(s, n, a);
    }
  }

  // ---------- runs ----------

  /**
   From a sure state, every state of a run is sure if and only if each create, edit and successful
   write in it meets its condition.
   */
  lemma {:induction false} AlwaysSureExactly(s: System, n: Name, actions: seq<Action>, t: System)
    requires Within(s, n, I32_MAX) && Sure(s, n) && Run(s, actions, t)
    ensures AlwaysSure(s, n, actions) <==> AllMeet(s, n, actions)
    ensures AlwaysSure(s, n, actions) ==> Sure(t, n)
    decreases |actions|
  {
    if actions != [] {
      var s' := Next(s, actions[0]);
      StepSureExactly(s, n, actions[0]);
      if Sure(s', n) {
        AlwaysSureExactly(s', n, actions[1..], t);
      } else {
        assert !AlwaysSure(s', n, actions[1..]);
      }
    }
  }

  lemma InitiallySure(s: System, n: Name)
    requires Initial(s)
    ensures Within(s, n, I32_MAX) && Sure(s, n)
  {
    WithinInRange(s, n, I32_MAX);
    SureExactly(s, n);
  }
}
