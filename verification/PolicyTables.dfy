/**
 The tables and messages behind policy distribution: `policies`, one agent's rows of
 `policy_assignments`, the pending query, and what the agent does with one pushed policy.
 The protocol (PolicyPush) and the handlers (PushHandlers) share these definitions.
 */
module PolicyTables {
  import opened Prelude

  type Name = string
  type Bytes = seq<bv8>

  datatype PolicyRow = PolicyRow(version: int, enabled: bool, priority: int, compiled: Bytes)

  datatype Assignment = Assignment(assignedVersion: int, ackedVersion: Option<int>)

  /** One policy of a `PolicyUpdate` message; `version` and `priority` are u32. */
  datatype PolicyRef = PolicyRef(policyId: Name, version: int, compiled: Bytes, priority: int)

  const APPLIED := 1
  const RUNTIME_FAILED := 3

  datatype Ack = Ack(policyId: Name, version: int, status: int)

  /** A file of the agent's policy directory: the bytes, and the version of the push that wrote them. */
  datatype File = File(version: int, compiled: Bytes)

  type Policies = map<Name, PolicyRow>
  type Assignments = map<Name, Assignment>
  type Files = map<Name, File>

  // ---------- load_pending_policies ----------

  function AckedOf(assignments: Assignments, n: Name): Option<int> {
    if n in assignments then assignments[n].ackedVersion else None
  }

  /** The WHERE clause: enabled, and never acknowledged or acknowledged at an older version. */
  predicate Pending(policies: Policies, assignments: Assignments, n: Name) {
    && n in policies
    && policies[n].enabled
    && (AckedOf(assignments, n).None? || AckedOf(assignments, n).value < policies[n].version)
  }

  /** ORDER BY priority DESC, name ASC. */
  predicate RowBefore(policies: Policies, a: Name, b: Name)
    requires a in policies && b in policies
  {
    policies[a].priority > policies[b].priority
    || (policies[a].priority == policies[b].priority && TextLess(a, b))
  }

  lemma RowBeforeTransitive(policies: Policies, a: Name, b: Name, c: Name)
    requires a in policies && b in policies && c in policies
    requires RowBefore(policies, a, b) && (b == c || RowBefore(policies, b, c))
    ensures RowBefore(policies, a, c)
  {
    if b != c && policies[a].priority == policies[c].priority {
      TextLessTransitive(a, b, c);
    }
  }

  predicate IsFirst(policies: Policies, names: set<Name>, n: Name)
    requires names <= policies.Keys
  {
    n in names && forall m | m in names && m != n :: RowBefore(policies, n, m)
  }

  lemma {:induction false} FirstExists(policies: Policies, names: set<Name>) returns (first: Name)
    requires names != {} && names <= policies.Keys
    ensures IsFirst(policies, names, first)
    decreases |names|
  {
    var n :| n in names;
    var others := names - {n};
    assert names == others + {n};
    if others == {} {
      first := n;
    } else {
      var m := FirstExists(policies, others);
      TextLessTotal(n, m);
      if RowBefore(policies, n, m) {
        first := n;
        forall k | k in names && k != n ensures RowBefore(policies, n, k) {
          RowBeforeTransitive(policies, n, m, k);
        }
      } else {
        first := m;
      }
    }
  }

  lemma FirstUnique(policies: Policies, names: set<Name>, a: Name, b: Name)
    requires names <= policies.Keys && IsFirst(policies, names, a) && IsFirst(policies, names, b)
    ensures a == b
  {
    if a != b {
      assert RowBefore(policies, a, b) && RowBefore(policies, b, a);
      TextLessAsymmetric(a, b);
    }
  }

  /** The names of a result set, in the order of the query. */
  function Ranked(policies: Policies, names: set<Name>): (r: seq<Name>)
    requires names <= policies.Keys
    ensures |r| == |names| && forall n :: n in r <==> n in names
    ensures forall i, j | 0 <= i < j < |r| :: r[i] != r[j] && RowBefore(policies, r[i], r[j])
    decreases |names|
  {
    if names == {} then []
    else
      var chosen := FirstWitness(policies, names);
      [chosen] + Ranked(policies, names - {chosen})
  }

  function FirstWitness(policies: Policies, names: set<Name>): (n: Name)
    requires names != {} && names <= policies.Keys
    ensures IsFirst(policies, names, n)
  {
    assert exists n :: IsFirst(policies, names, n) by { var w := FirstExists(policies, names); }
    assert forall a, b | IsFirst(policies, names, a) && IsFirst(policies, names, b) :: a == b by {
      forall a, b | IsFirst(policies, names, a) && IsFirst(policies, names, b) ensures a == b {
        FirstUnique(policies, names, a, b);
      }
    }
    var n :| n in names && IsFirst(policies, names, n);
    n
  }

  function RefOf(n: Name, row: PolicyRow): PolicyRef {
    PolicyRef(n, ToU32(row.version), row.compiled, ToU32(row.priority))
  }

  function PendingNames(policies: Policies, assignments: Assignments): (s: set<Name>)
    ensures forall n :: n in s <==> Pending(policies, assignments, n)
  {
    set n | n in policies && Pending(policies, assignments, n)
  }

  function RefsOf(policies: Policies, names: seq<Name>): (refs: seq<PolicyRef>)
    requires forall n <- names :: n in policies
    ensures |refs| == |names| && forall i | 0 <= i < |names| :: refs[i] == RefOf(names[i], policies[names[i]])
  {
    seq(|names|, i requires 0 <= i < |names| => assert names[i] in names; RefOf(names[i], policies[names[i]]))
  }

  lemma RefIn(policies: Policies, names: seq<Name>, n: Name)
    requires (forall m <- names :: m in policies) && n in names
    ensures RefOf(n, policies[n]) in RefsOf(policies, names)
  {
    var i :| 0 <= i < |names| && names[i] == n;
    assert RefsOf(policies, names)[i] == RefOf(n, policies[n]);
  }

  lemma RefFrom(policies: Policies, names: seq<Name>, r: PolicyRef)
    requires (forall m <- names :: m in policies) && r in RefsOf(policies, names)
    ensures r.policyId in names && r == RefOf(r.policyId, policies[r.policyId])
  {
    var i :| 0 <= i < |names| && RefsOf(policies, names)[i] == r;
    assert names[i] in names;
  }

  /** The first name is a proper prefix of the second, or smaller at the first position where they differ. */
  ghost predicate Precedes(a: Name, b: Name) {
    exists k :: 0 <= k <= |a| && k < |b| && a[..k] == b[..k] && (k == |a| || a[k] < b[k])
  }

  lemma {:induction false} LessPrecedes(a: Name, b: Name)
    requires TextLess(a, b)
    ensures Precedes(a, b)
  {
    if a == "" {
      assert a[..0] == b[..0];
    } else if a[0] < b[0] {
      assert a[..0] == b[..0];
    } else {
      LessPrecedes(a[1..], b[1..]);
      var k :| 0 <= k <= |a[1..]| && k < |b[1..]| && a[1..][..k] == b[1..][..k]
               && (k == |a[1..]| || a[1..][k] < b[1..][k]);
      assert a[..k + 1] == [a[0]] + a[1..][..k] && b[..k + 1] == [b[0]] + b[1..][..k];
    }
  }

  /** In the columns: a higher priority, or an equal one and a smaller name. */
  ghost predicate Outranks(policies: Policies, a: Name, b: Name) {
    && a in policies && b in policies
    && policies[a].priority >= policies[b].priority
    && (policies[a].priority == policies[b].priority ==> Precedes(a, b))
  }

  ghost predicate InQueryOrder(policies: Policies, ids: seq<Name>) {
    forall i, j | 0 <= i < j < |ids| :: Outranks(policies, ids[i], ids[j])
  }

  lemma RankedInOrder(policies: Policies, names: seq<Name>)
    requires forall n <- names :: n in policies
    requires forall i, j | 0 <= i < j < |names| :: RowBefore(policies, names[i], names[j])
    ensures InQueryOrder(policies, names)
  {
    forall i, j | 0 <= i < j < |names| ensures Outranks(policies, names[i], names[j]) {
      if policies[names[i]].priority == policies[names[j]].priority {
        LessPrecedes(names[i], names[j]);
      }
    }
  }

  function IdsOf(refs: seq<PolicyRef>): (ids: seq<Name>)
    ensures |ids| == |refs| && forall i | 0 <= i < |refs| :: ids[i] == refs[i].policyId
  {
    seq(|refs|, i requires 0 <= i < |refs| => refs[i].policyId)
  }

  lemma PendingRefs(policies: Policies, assignments: Assignments, refs: seq<PolicyRef>)
    requires refs == RefsOf(policies, Ranked(policies, PendingNames(policies, assignments)))
    ensures forall r <- refs ::
              Pending(policies, assignments, r.policyId) && r == RefOf(r.policyId, policies[r.policyId])
    ensures forall n :: Pending(policies, assignments, n) ==> RefOf(n, policies[n]) in refs
  {
    var names := Ranked(policies, PendingNames(policies, assignments));
    forall r | r in refs
      ensures Pending(policies, assignments, r.policyId) && r == RefOf(r.policyId, policies[r.policyId])
    {
      RefFrom(policies, names, r);
    }
    forall n | Pending(policies, assignments, n) ensures RefOf(n, policies[n]) in refs {
      RefIn(policies, names, n);
    }
  }

  /** The query result: exactly the pending policies, highest priority first, then by name. */
  function LoadPending(policies: Policies, assignments: Assignments): (refs: seq<PolicyRef>)
    ensures |refs| == |PendingNames(policies, assignments)|
    ensures forall r <- refs ::
              Pending(policies, assignments, r.policyId) && r == RefOf(r.policyId, policies[r.policyId])
    ensures forall n :: Pending(policies, assignments, n) ==> RefOf(n, policies[n]) in refs
    ensures InQueryOrder(policies, IdsOf(refs))
    ensures forall i, j | 0 <= i < j < |refs| :: refs[i].policyId != refs[j].policyId
  {
    var names := Ranked(policies, PendingNames(policies, assignments));
    var refs := RefsOf(policies, names);
    PendingRefs(policies, assignments, refs);
    RankedInOrder(policies, names);
    assert IdsOf(refs) == names;
    refs
  }

  /** The result in the columns of the two tables: which policies it lists, and what it says of each. */
  lemma PendingInColumns(policies: Policies, assignments: Assignments, n: Name)
    ensures n in IdsOf(LoadPending(policies, assignments)) <==>
              && n in policies && policies[n].enabled
              && (n !in assignments || assignments[n].ackedVersion.None?
                  || assignments[n].ackedVersion.value < policies[n].version)
    ensures forall r <- LoadPending(policies, assignments) :: r.policyId == n ==>
              && r.compiled == policies[n].compiled
              && r.version == (if 0 <= policies[n].version <= 0xffff_ffff then policies[n].version else 0)
              && r.priority == (if 0 <= policies[n].priority <= 0xffff_ffff then policies[n].priority else 0)
  {
    var refs := LoadPending(policies, assignments);
    if Pending(policies, assignments, n) {
      var i :| 0 <= i < |refs| && refs[i] == RefOf(n, policies[n]);
      assert IdsOf(refs)[i] == n;
    }
    if n in IdsOf(refs) {
      var i :| 0 <= i < |refs| && IdsOf(refs)[i] == n;
      assert refs[i] in refs;
    }
  }

  // ---------- mark_assigned, mark_acked ----------

  /** The upsert: a new row starts unacknowledged, an existing one keeps its acknowledged version. */
  function MarkAssigned(assignments: Assignments, r: PolicyRef): Assignments {
    assignments[r.policyId := Assignment(ToI32(r.version), AckedOf(assignments, r.policyId))]
  }

  /** The update overwrites unconditionally, and changes nothing when there is no row. */
  function MarkAcked(assignments: Assignments, a: Ack): Assignments {
    if a.status == APPLIED && a.policyId in assignments then
      assignments[a.policyId := assignments[a.policyId].(ackedVersion := Some(ToI32(a.version)))]
    else assignments
  }

  function MarkAll(assignments: Assignments, refs: seq<PolicyRef>): Assignments
    decreases |refs|
  {
    if refs == [] then assignments else MarkAll(MarkAssigned(assignments, refs[0]), refs[1..])
  }

  /** The same when the upsert fails for some policies, which is only logged. */
  function MarkAllBut(assignments: Assignments, refs: seq<PolicyRef>, failed: set<Name>): Assignments
    decreases |refs|
  {
    if refs == [] then assignments
    else
      MarkAllBut(if refs[0].policyId in failed then assignments else MarkAssigned(assignments, refs[0]),
                 refs[1..], failed)
  }

  function AckAll(assignments: Assignments, acks: seq<Ack>): Assignments
    decreases |acks|
  {
    if acks == [] then assignments else AckAll(MarkAcked(assignments, acks[0]), acks[1..])
  }

  // ---------- the agent applies one policy ----------

  function WriteFile(files: Files, r: PolicyRef, ok: bool): Files {
    if ok then files[r.policyId := File(r.version, r.compiled)] else files
  }

  function AckOf(r: PolicyRef, ok: bool): Ack {
    Ack(r.policyId, r.version, if ok then APPLIED else RUNTIME_FAILED)
  }
}
