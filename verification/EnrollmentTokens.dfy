/**
 Enrollment with one token as a step system. The handler reads the token, signs, inserts the agent
 and increments the use count in separate statements, and enrollments run concurrently.
 */
module EnrollmentTokens {
  import opened Prelude

  /** Between the token check and the agent insert, or between that and the increment. */
  datatype Phase = Checked | Inserted

  datatype Token = Token(
    maxUses: Option<int>,
    expiresAt: Option<int>,
    uses: int,
    pending: map<nat, Phase>,   // enrollments that have passed the check
    agents: set<nat>,           // agents enrolled with this token
    uncounted: nat)             // increments that failed; the handler only logs them

  datatype Action =
    | Check(id: nat, now: int)
    | Reject(id: nat)           // the CSR cannot be signed, or the insert fails
    | Insert(id: nat)
    | Increment(id: nat, dbOk: bool)

  /** The two guards of the handler, in its order; the expiry instant itself is still valid. */
  predicate Admits(t: Token, now: int) {
    && (t.expiresAt.Some? ==> !(t.expiresAt.value < now))
    && (t.maxUses.Some? ==> !(t.uses >= t.maxUses.value))
  }

  /** An increment past the largest 32-bit count is refused by the database. */
  predicate Enabled(t: Token, a: Action) {
    match a
    case Check(id, now) => id !in t.pending && id !in t.agents && Admits(t, now)
    case Reject(id) => id in t.pending && t.pending[id].Checked?
    case Insert(id) => id in t.pending && t.pending[id].Checked?
    case Increment(id, dbOk) => id in t.pending && t.pending[id].Inserted? && (dbOk ==> t.uses < I32_MAX)
  }

  function Next(t: Token, a: Action): Token
    requires Enabled(t, a)
  {
    match a
    case Check(id, _) => t.(pending := t.pending[id := Checked])
    case Reject(id) => t.(pending := t.pending - {id})
    case Insert(id) => t.(pending := t.pending[id := Inserted], agents := t.agents + {id})
    case Increment(id, dbOk) =>
      if dbOk then t.(pending := t.pending - {id}, uses := t.uses + 1)
      else t.(pending := t.pending - {id}, uncounted := t.uncounted + 1)
  }

  /** A run in which at most `c` enrollments are between check and increment at any time. */
  ghost predicate Run(t: Token, actions: seq<Action>, u: Token, c: nat)
    decreases |actions|
  {
    && |t.pending| <= c
    && if actions == [] then t == u else Enabled(t, actions[0]) && Run(Next(t, actions[0]), actions[1..], u, c)
  }

  predicate Initial(t: Token) {
    t.uses == 0 && t.pending == map[] && t.agents == {} && t.uncounted == 0
  }

  function InsertedIds(pending: map<nat, Phase>): set<nat> {
    set id | id in pending && pending[id].Inserted?
  }

  // ---------- the bound ----------

  /** Every enrolled agent is counted, about to be counted, or lost to a failed increment. */
  predicate Accounted(t: Token) {
    && InsertedIds(t.pending) <= t.agents
    && |t.agents| == t.uses + |InsertedIds(t.pending)| + t.uncounted
    && forall id | id in t.pending && t.pending[id].Checked? :: id !in t.agents
  }

  predicate Bounded(t: Token, c: nat) {
    t.maxUses.Some? ==>
      || (t.uses == 0 && t.pending == map[])
      || (t.maxUses.value > 0 && t.uses + |t.pending| <= t.maxUses.value + c - 1)
  }

  lemma PendingMinus(m: map<nat, Phase>, id: nat)
    requires id in m
    ensures |m - {id}| == |m| - 1
  {
    assert (m - {id}).Keys == m.Keys - {id};
    assert |(m - {id}).Keys| == |m.Keys| - 1;
  }

  lemma PendingPlus(m: map<nat, Phase>, id: nat, p: Phase)
    ensures |m[id := p]| == if id in m then |m| else |m| + 1
  {
    assert m[id := p].Keys == m.Keys + {id};
    assert |m[id := p].Keys| == if id in m then |m.Keys| else |m.Keys| + 1;
  }

  lemma StepKeepsBound(t: Token, a: Action, c: nat)
    requires Bounded(t, c) && Enabled(t, a) && |Next(t, a).pending| <= c
    ensures Bounded(Next(t, a), c)
  {
    match a {
      case Check(id, _) => PendingPlus(t.pending, id, Checked);
      case Reject(id) => PendingMinus(t.pending, id);
      case Insert(id) => PendingPlus(t.pending, id, Inserted);
      case Increment(id, _) => PendingMinus(t.pending, id);
    }
  }

  lemma InsertedAfter(m: map<nat, Phase>, id: nat)
    ensures id !in m ==> InsertedIds(m[id := Checked]) == InsertedIds(m)
    ensures InsertedIds(m[id := Inserted]) == InsertedIds(m) + {id}
    ensures InsertedIds(m - {id}) == InsertedIds(m) - {id}
  {
  }

  lemma StepKeepsAccount(t: Token, a: Action)
    requires Accounted(t) && Enabled(t, a)
    ensures Accounted(Next(t, a))
  {
    InsertedAfter(t.pending, a.id);
    match a {
      case Check(id, _) =>
      case Reject(id) =>
        assert InsertedIds(t.pending) - {id} == InsertedIds(t.pending);
      case Insert(id) =>
        assert id !in t.agents && id !in InsertedIds(t.pending);
      case Increment(id, _) =>
        assert id in InsertedIds(t.pending);
    }
  }

  lemma {:induction false} RunKeepsInv(t: Token, actions: seq<Action>, u: Token, c: nat)
    requires Bounded(t, c) && Accounted(t) && Run(t, actions, u, c)
    ensures Bounded(u, c) && Accounted(u) && u.maxUses == t.maxUses
    decreases |actions|
  {
    if actions != [] {
      StepKeepsBound(t, actions[0], c);
      StepKeepsAccount(t, actions[0]);
      RunKeepsInv(Next(t, actions[0]), actions[1..], u, c);
    }
  }

  /** The most a token can be used when up to `c` enrollments overlap. */
  function Limit(max: int, c: nat): int {
    if max <= 0 then 0 else max + c - 1
  }

  lemma InsertedAmongPending(m: map<nat, Phase>, ids: set<nat>)
    requires ids <= m.Keys
    ensures |ids| <= |m|
    decreases |ids|
  {
    if ids != {} {
      var id :| id in ids;
      PendingMinus(m, id);
      assert ids - {id} <= (m - {id}).Keys;
      InsertedAmongPending(m - {id}, ids - {id});
    }
  }

  lemma {:induction false} UsesFit(t: Token, actions: seq<Action>, u: Token, c: nat)
    requires Run(t, actions, u, c) && t.uses <= 0x7fff_ffff
    ensures u.uses <= 0x7fff_ffff
    decreases |actions|
  {
    if actions != [] {
      UsesFit(Next(t, actions[0]), actions[1..], u, c);
    }
  }

  /**
   In every run the use count stays within the limit, so within max_uses when enrollments are serial.
   The agents enrolled are those counted, those about to be counted and those whose increment failed,
   so they exceed the limit only by failed increments.
   */
  lemma UsesBounded(t: Token, actions: seq<Action>, u: Token, c: nat)
    requires c > 0 && Initial(t) && Run(t, actions, u, c)
    ensures t.maxUses.Some? ==> u.uses <= Limit(t.maxUses.value, c)
    ensures |u.agents| == u.uses + |InsertedIds(u.pending)| + u.uncounted
    ensures t.maxUses.Some? ==> |u.agents| <= Limit(t.maxUses.value, c) + u.uncounted
    ensures t.maxUses.Some? && t.maxUses.value <= 0 ==> u.uses == 0 && u.agents == {}
    ensures u.uses <= 0x7fff_ffff
  {
    UsesFit(t, actions, u, c);
    assert InsertedIds(t.pending) == {};
    RunKeepsInv(t, actions, u, c);
    InsertedAmongPending(u.pending, InsertedIds(u.pending));
  }

  // ---------- every enrollment is in time ----------

  lemma {:induction false} EnrolledByCheck(t: Token, actions: seq<Action>, u: Token, c: nat, id: nat)
    requires Run(t, actions, u, c) && (id in u.agents || id in u.pending)
    ensures id in t.agents || id in t.pending || exists a <- actions :: a.Check? && a.id == id
    decreases |actions|
  {
    if actions != [] {
      EnrolledByCheck(Next(t, actions[0]), actions[1..], u, c, id);
      assert actions[0] in actions && forall a :: a in actions[1..] ==> a in actions;
    }
  }

  lemma {:induction false} ChecksInTime(t: Token, actions: seq<Action>, u: Token, c: nat)
    requires Run(t, actions, u, c)
    ensures forall a <- actions :: a.Check? ==> (t.expiresAt.Some? ==> a.now <= t.expiresAt.value)
    decreases |actions|
  {
    if actions != [] {
      ChecksInTime(Next(t, actions[0]), actions[1..], u, c);
      assert forall a :: a in actions ==> a == actions[0] || a in actions[1..];
    }
  }

  /** In every run each agent was enrolled by a check no later than the expiry. */
  lemma EnrolledInTime(t: Token, actions: seq<Action>, u: Token, c: nat, id: nat)
    requires Initial(t) && Run(t, actions, u, c) && id in u.agents
    ensures exists a <- actions :: a.Check? && a.id == id && (t.expiresAt.Some? ==> a.now <= t.expiresAt.value)
  {
    EnrolledByCheck(t, actions, u, c, id);
    ChecksInTime(t, actions, u, c);
  }

  // ---------- the bound is reached ----------

  lemma RunCons(t: Token, a: Action, rest: seq<Action>, v: Token, c: nat)
    requires |t.pending| <= c && Enabled(t, a) && Run(Next(t, a), rest, v, c)
    ensures Run(t, [a] + rest, v, c)
  {
    assert ([a] + rest)[1..] == rest;
  }

  lemma {:induction false} RunConcat(t: Token, a: seq<Action>, u: Token, b: seq<Action>, v: Token, c: nat)
    requires Run(t, a, u, c) && Run(u, b, v, c)
    ensures Run(t, a + b, v, c)
    decreases |a|
  {
    if a == [] {
      assert a + b == b;
    } else {
      RunConcat(Next(t, a[0]), a[1..], u, b, v, c);
      ConcatFirst(a, b);
    }
  }

  /** Ids from `first` on have not been used. */
  ghost predicate Unused(t: Token, first: nat) {
    forall id | id >= first :: id !in t.pending && id !in t.agents
  }

  /** Insert and increment of one checked enrollment. */
  lemma Finish(t: Token, id: nat, c: nat) returns (u: Token, actions: seq<Action>)
    requires |t.pending| <= c && id in t.pending && t.pending[id].Checked? && t.uses < I32_MAX
    ensures u == t.(uses := t.uses + 1, pending := t.pending - {id}, agents := t.agents + {id})
    ensures Run(t, actions, u, c) && forall a <- actions :: !a.Check?
  {
    var mid := Next(t, Insert(id));
    u := Next(mid, Increment(id, true));
    actions := [Insert(id), Increment(id, true)];
    PendingPlus(t.pending, id, Inserted);
    PendingMinus(mid.pending, id);
    assert u.pending == t.pending - {id};
    assert actions[1..] == [Increment(id, true)] && actions[1..][1..] == [];
    assert Run(mid, [Increment(id, true)], u, c);
  }

  lemma CheckedNext(t: Token, id: nat, now: int, checked: Token)
    requires Admits(t, now) && Unused(t, id) && checked == t.(pending := t.pending[id := Checked])
    ensures Enabled(t, Check(id, now)) && Next(t, Check(id, now)) == checked
    ensures |checked.pending| == |t.pending| + 1 && Unused(checked, id + 1) && Admits(checked, now)
    ensures checked.pending - {id} == t.pending
  {
    PendingPlus(t.pending, id, Checked);
    assert checked.pending - {id} == t.pending;
  }

  /** All checks happen at the same time. */
  ghost predicate ChecksAt(actions: seq<Action>, now: int) {
    forall a <- actions :: a.Check? ==> a.now == now
  }

  /** `k` enrollments that all pass the check before any of them is counted. */
  lemma {:induction false} Overlap(t: Token, k: nat, id: nat, now: int, c: nat) returns (u: Token, actions: seq<Action>)
    requires Admits(t, now) && Unused(t, id) && |t.pending| + k <= c && t.uses + k <= I32_MAX
    ensures Run(t, actions, u, c) && Unused(u, id + k)
    ensures u == t.(uses := t.uses + k, agents := u.agents) && ChecksAt(actions, now)
    decreases k
  {
    if k == 0 {
      return t, [];
    }
    var checked := t.(pending := t.pending[id := Checked]);
    CheckedNext(t, id, now, checked);
    var most, inner := Overlap(checked, k - 1, id + 1, now, c);
    var outer;
    u, outer := Finish(most, id, c);
    assert u.pending == t.pending;
    RunConcat(checked, inner, most, outer, u, c);
    actions := [Check(id, now)] + (inner + outer);
    RunCons(t, Check(id, now), inner + outer, u, c);
  }

  lemma {:induction false} Serial(t: Token, n: nat, id: nat, now: int, c: nat) returns (u: Token, actions: seq<Action>)
    requires t.pending == map[] && Unused(t, id) && c > 0 && t.uses + n <= I32_MAX
    requires t.expiresAt.Some? ==> now <= t.expiresAt.value
    requires t.maxUses.Some? ==> t.uses + n <= t.maxUses.value
    ensures Run(t, actions, u, c) && Unused(u, id + n)
    ensures u == t.(uses := t.uses + n, agents := u.agents) && ChecksAt(actions, now)
    decreases n
  {
    if n == 0 {
      return t, [];
    }
    var mid, first := Overlap(t, 1, id, now, c);
    var rest;
    u, rest := Serial(mid, n - 1, id + 1, now, c);
    RunConcat(t, first, mid, rest, u, c);
    actions := first + rest;
  }

  /**
   For every positive max_uses and every `c`, some run uses the token exactly max + c - 1 times; all its
   checks can happen at any one instant up to the expiry, which is still valid itself.
   */
  lemma LimitIsReached(max: int, expiry: Option<int>, now: int, c: nat)
    returns (t: Token, actions: seq<Action>, u: Token)
    requires max > 0 && c > 0 && max + c - 1 <= I32_MAX && (expiry.Some? ==> now <= expiry.value)
    ensures Initial(t) && t.maxUses == Some(max) && t.expiresAt == expiry && Run(t, actions, u, c)
    ensures ChecksAt(actions, now)
    ensures u.uses == |u.agents| == Limit(max, c)
  {
    t := Token(Some(max), expiry, 0, map[], {}, 0);
    var mid, first := Serial(t, max - 1, 0, now, c);
    var rest;
    u, rest := Overlap(mid, c, max - 1, now, c);
    actions := first + rest;
    RunConcat(t, first, mid, rest, u, c);
    UsesBounded(t, actions, u, c);
    assert InsertedIds(u.pending) == {};
  }
}
