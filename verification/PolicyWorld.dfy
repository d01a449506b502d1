/**
 The policy store and the push protocol as one system: handlers change both tables and their effect on
 the policies is what the protocol pushes. The history, which survives deletion, bounds every claim that
 is still around, so it tells a caller which creates are safe.
 */
module PolicyWorld {
  import opened Prelude
  import opened PolicyTables
  import opened PolicyCurrency
  import opened PolicyVersions
  import opened CurrencyRuns
  import opened PolicyHistory
  import opened PolicyEdits
  import Store = PolicyStore
  import Push = PolicyPush

  datatype World = World(db: Store.Db, sys: Push.System)

  /** A handler call, or a step of the protocol. */
  datatype Move = Handle(op: Store.Op) | Step(action: Push.Action)

  predicate EditsTable(a: Push.Action) {
    a.Create? || a.Edit? || a.Delete?
  }

  /** The table of the handlers is the table that is pushed. */
  ghost predicate Linked(w: World) {
    w.sys.policies == View(w.db.policies)
  }

  ghost predicate Allowed(w: World, m: Move) {
    match m
    case Handle(op) => Store.Possible(w.db, op)
    case Step(a) => !EditsTable(a) && Push.Enabled(w.sys, a)
  }

  /** The steps that a move makes in the protocol: a failed handler makes none. */
  function StepsOf(lib: Store.Library, w: World, m: Move): seq<Push.Action> {
    match m
    case Handle(op) => if Store.Apply(lib, w.db, op).1.None? then [EditOf(lib, w.db, op)] else []
    case Step(a) => [a]
  }

  function After(lib: Store.Library, w: World, m: Move): World {
    var steps := StepsOf(lib, w, m);
    World(if m.Handle? then Store.Apply(lib, w.db, m.op).0 else w.db,
          if steps != [] && Push.Enabled(w.sys, steps[0]) then Push.Next(w.sys, steps[0]) else w.sys)
  }

  ghost predicate Run(lib: Store.Library, w: World, moves: seq<Move>, end: World)
    decreases |moves|
  {
    if moves == [] then w == end else Allowed(w, moves[0]) && Run(lib, After(lib, w, moves[0]), moves[1..], end)
  }

  /** Nothing stored yet, nobody connected. */
  ghost predicate Start(w: World) {
    w.db == Store.Db(map[], []) && Push.Initial(w.sys) && w.sys.policies == map[]
  }

  /** The handler calls of a run. */
  function Ops(moves: seq<Move>): seq<Store.Op> {
    if moves == [] then []
    else (if moves[0].Handle? then [moves[0].op] else []) + Ops(moves[1..])
  }

  /** The protocol steps of a run. */
  function Steps(lib: Store.Library, w: World, moves: seq<Move>): seq<Push.Action>
    decreases |moves|
  {
    if moves == [] then [] else StepsOf(lib, w, moves[0]) + Steps(lib, After(lib, w, moves[0]), moves[1..])
  }

  // ---------- a run is a run of both parts ----------

  lemma StepKeepsPolicies(s: Push.System, a: Push.Action)
    requires Push.Enabled(s, a) && !EditsTable(a)
    ensures Push.Next(s, a).policies == s.policies
  {
    if a.Load? {
      LoadKeepsRest(s, a);
    }
  }

  lemma MoveIsStep(lib: Store.Library, w: World, m: Move)
    requires Linked(w) && Allowed(w, m)
    ensures Linked(After(lib, w, m))
    ensures forall a <- StepsOf(lib, w, m) :: Push.Enabled(w.sys, a) && Push.Next(w.sys, a) == After(lib, w, m).sys
    ensures StepsOf(lib, w, m) == [] ==> After(lib, w, m).sys == w.sys
  {
    match m {
      case Handle(op) => HandlersAreEdits(lib, w.db, op, w.sys);
      case Step(a) => StepKeepsPolicies(w.sys, a);
    }
  }

  lemma {:induction false} RunOfSteps(lib: Store.Library, w: World, moves: seq<Move>, end: World)
    requires Linked(w) && Run(lib, w, moves, end)
    ensures Push.Run(w.sys, Steps(lib, w, moves), end.sys) && Linked(end)
    decreases |moves|
  {
    if moves != [] {
      var next := After(lib, w, moves[0]);
      var rest := Steps(lib, next, moves[1..]);
      MoveIsStep(lib, w, moves[0]);
      RunOfSteps(lib, next, moves[1..], end);
      if StepsOf(lib, w, moves[0]) == [] {
        assert [] + rest == rest;
      } else {
        Push.RunCons(w.sys, StepsOf(lib, w, moves[0])[0], rest, end.sys);
      }
    }
  }

  // ---------- the history bounds every version ----------

  /** Versions are 32-bit, and none of `n` that is around exceeds the largest in the history. */
  ghost predicate Topped(w: World, n: Name) {
    && Linked(w)
    && Top(w.db.history, n) <= I32_MAX
    && Within(w.sys, n, Top(w.db.history, n))
  }

  lemma StoredTop(history: seq<Store.Entry>, e: Store.Entry, n: Name)
    requires Top(history, n) <= I32_MAX && (e.name == n ==> e.version <= I32_MAX)
    ensures Top(history, n) <= Top(history + [e], n) <= I32_MAX
    ensures e.name == n ==> e.version <= Top(history + [e], n)
  {
    TopSnoc(history, e, n);
  }

  /** The entry that a handler appends has the name and the version of its step. */
  lemma AppendedEntry(lib: Store.Library, db: Store.Db, op: Store.Op) returns (e: Store.Entry)
    requires Store.Apply(lib, db, op).1.None? && !op.Delete?
    ensures Store.Apply(lib, db, op).0.history == db.history + [e]
    ensures var a := EditOf(lib, db, op);
            if op.Create? then
              a.Create? && a.name == e.name && e.version == if a.yamlVersion <= I32_MAX then a.yamlVersion else 1
            else a.Edit? && a.name == e.name && e.name in db.policies && e.version == Bump(db.policies[e.name].version)
  {
    match op
    case Create(yaml, _) =>
      var meta := lib.parse(yaml).value.metadata;
      e := Store.Entry(meta.name, Store.FirstVersion(meta.version), yaml);
    case Update(name, yaml, _) =>
      e := Store.Entry(name, Bump(db.policies[name].version), yaml);
    case Rollback(name, _, pick, _) =>
      e := Store.Entry(name, Bump(db.policies[name].version), db.history[pick].yaml);
  }

  lemma AppendedVersion(lib: Store.Library, w: World, op: Store.Op, n: Name)
    requires Linked(w) && Store.Apply(lib, w.db, op).1.None? && Top(w.db.history, n) <= I32_MAX
    requires n in w.db.policies ==> w.db.policies[n].version <= Top(w.db.history, n)
    ensures var top := Top(Store.Apply(lib, w.db, op).0.history, n);
            Top(w.db.history, n) <= top <= I32_MAX && EditWithin(w.sys, n, EditOf(lib, w.db, op), top)
  {
    if !op.Delete? {
      var e := AppendedEntry(lib, w.db, op);
      StoredTop(w.db.history, e, n);
    }
  }

  lemma HandleKeepsTopped(lib: Store.Library, w: World, op: Store.Op, n: Name)
    requires Topped(w, n) && Store.Possible(w.db, op)
    ensures Topped(After(lib, w, Handle(op)), n)
  {
    MoveIsStep(lib, w, Handle(op));
    HandlersAreEdits(lib, w.db, op, w.sys);
    if Store.Apply(lib, w.db, op).1.None? {
      var a := EditOf(lib, w.db, op);
      var top := Top(Store.Apply(lib, w.db, op).0.history, n);
      assert n in w.db.policies ==> w.sys.policies[n].version == w.db.policies[n].version;
      AppendedVersion(lib, w, op, n);
      WithinMore(w.sys, n, Top(w.db.history, n), top);
      StepKeepsWithin(w.sys, n, a, top);
    }
  }

  lemma MoveKeepsTopped(lib: Store.Library, w: World, m: Move, n: Name)
    requires Topped(w, n) && Allowed(w, m)
    ensures Topped(After(lib, w, m), n)
  {
    match m {
      case Handle(op) => HandleKeepsTopped(lib, w, op, n);
      case Step(a) =>
        MoveIsStep(lib, w, m);
        StepKeepsWithin(w.sys, n, a, Top(w.db.history, n));
    }
  }

  lemma {:induction false} RunKeepsTopped(lib: Store.Library, w: World, moves: seq<Move>, end: World, n: Name)
    requires Topped(w, n) && Run(lib, w, moves, end)
    ensures Topped(end, n)
    decreases |moves|
  {
    if moves != [] {
      MoveKeepsTopped(lib, w, moves[0], n);
      RunKeepsTopped(lib, After(lib, w, moves[0]), moves[1..], end, n);
    }
  }

  lemma StartTopped(w: World, n: Name)
    requires Start(w)
    ensures Topped(w, n)
  {
    assert View(map[]) == map[];
  }

  // ---------- theorems on claims and creates ----------

  /**
   In every run, deletions, lost acks and writes out of order included, every claim for a policy is at
   most the largest version in the history of its name.
   */
  lemma ClaimsWithinHistory(lib: Store.Library, w: World, moves: seq<Move>, end: World, n: Name)
    requires Start(w) && Run(lib, w, moves, end)
    ensures Within(end.sys, n, Top(end.db.history, n)) && AcksInRange(end.sys, n)
    ensures forall v | v > Top(end.db.history, n) :: ClaimsBelow(end.sys, n, v)
  {
    StartTopped(w, n);
    RunKeepsTopped(lib, w, moves, end, n);
    WithinInRange(end.sys, n, Top(end.db.history, n));
  }

  /** So a create above every version in the history of its name is safe. */
  lemma CreateAboveHistoryIsSafe(lib: Store.Library, w: World, moves: seq<Move>, end: World,
          yaml: Store.Yaml, layout: nat)
    requires Start(w) && Run(lib, w, moves, end) && Store.Apply(lib, end.db, Store.Create(yaml, layout)).1.None?
    requires var meta := lib.parse(yaml).value.metadata;
             Store.FirstVersion(meta.version) > Top(end.db.history, meta.name)
    ensures NeverStale(After(lib, end, Handle(Store.Create(yaml, layout))).sys, lib.parse(yaml).value.metadata.name)
  {
    var p := lib.parse(yaml).value;
    ClaimsWithinHistory(lib, w, moves, end, p.metadata.name);
    StartTopped(w, p.metadata.name);
    RunKeepsTopped(lib, w, moves, end, p.metadata.name);
    MoveIsStep(lib, end, Handle(Store.Create(yaml, layout)));
    CreateIsSafeExactly(end.sys, p.metadata.name, p.metadata.version, p.priority, lib.encode(p, layout));
  }

  // ---------- when only writes decide ----------

  /** Every successful write of the run meets its condition. */
  ghost predicate WritesMeet(s: Push.System, n: Name, actions: seq<Push.Action>)
    decreases |actions|
  {
    actions != [] ==>
      && Push.Enabled(s, actions[0])
      && (EditsTable(actions[0]) || Meets(s, n, actions[0]))
      && WritesMeet(Push.Next(s, actions[0]), n, actions[1..])
  }

  lemma AboveTop(history: seq<Store.Entry>, n: Name, v: int)
    requires v >= 0 && forall i | 0 <= i < |history| && history[i].name == n :: history[i].version < v
    ensures Top(history, n) < v
  {
    TopIsMaximum(history, n);
  }

  lemma EditAboveTop(lib: Store.Library, db: Store.Db, born: map<Name, nat>, n: Name)
    requires Store.Sound(lib, db, born) && n in db.policies && Ascending(db.history, n)
    requires db.policies[n].version != I32_MAX && Top(db.history, n) >= 0
    ensures Top(db.history, n) < Bump(db.policies[n].version)
  {
    var row := db.policies[n];
    assert Store.TrailSound(db.history, n, row, born[n]);
    NewestIsMaximum(db.history, n, Store.Entry(n, row.version, row.yaml));
    TopIsMaximum(db.history, n);
  }

  /** A handler that keeps the versions of `n` ascending meets its condition. */
  lemma HandlerMeets(lib: Store.Library, w: World, born: map<Name, nat>, op: Store.Op, n: Name)
    requires Topped(w, n) && Store.Sound(lib, w.db, born) && Ascending(w.db.history, n)
    requires Store.Possible(w.db, op) && Store.Apply(lib, w.db, op).1.None? && Exceeds(lib, w.db, op, n)
    ensures Push.Enabled(w.sys, EditOf(lib, w.db, op)) && Meets(w.sys, n, EditOf(lib, w.db, op))
  {
    HandlersAreEdits(lib, w.db, op, w.sys);
    WithinInRange(w.sys, n, Top(w.db.history, n));
    if !op.Delete? {
      var e := AppendedEntry(lib, w.db, op);
      if e.name == n {
        if op.Create? {
          AboveTop(w.db.history, n, e.version);
        } else {
          EditAboveTop(lib, w.db, born, n);
        }
        assert ClaimsBelow(w.sys, n, e.version);
      }
    }
  }

  /** What holds of `n` as long as its versions ascend. */
  ghost predicate Tidy(lib: Store.Library, w: World, born: map<Name, nat>, n: Name) {
    Topped(w, n) && Store.Sound(lib, w.db, born) && Ascending(w.db.history, n)
  }

  lemma HandleKeepsTidy(lib: Store.Library, w: World, born: map<Name, nat>, op: Store.Op, n: Name)
    requires Store.Faithful(lib) && Tidy(lib, w, born, n) && Store.Possible(w.db, op) && Exceeds(lib, w.db, op, n)
    ensures Tidy(lib, After(lib, w, Handle(op)), Store.Births(lib, w.db, born, op), n)
  {
    MoveKeepsTopped(lib, w, Handle(op), n);
    Store.StepKeepsSound(lib, w.db, born, op);
    StepAscendsExactly(lib, w.db, born, op, n);
  }

  /** With ascending versions, all conditions are met exactly when those of the writes are. */
  lemma {:induction false} EditsMeet(lib: Store.Library, w: World, born: map<Name, nat>, moves: seq<Move>,
          end: World, n: Name)
    requires Store.Faithful(lib) && Tidy(lib, w, born, n) && Run(lib, w, moves, end)
    requires AllExceed(lib, w.db, Ops(moves), n)
    ensures AllMeet(w.sys, n, Steps(lib, w, moves)) <==> WritesMeet(w.sys, n, Steps(lib, w, moves))
    decreases |moves|
  {
    if moves != [] {
      var m, next := moves[0], After(lib, w, moves[0]);
      var rest := Steps(lib, next, moves[1..]);
      MoveIsStep(lib, w, m);
      if m.Handle? {
        assert ([m.op] + Ops(moves[1..]))[1..] == Ops(moves[1..]);
        HandleKeepsTidy(lib, w, born, m.op, n);
        EditsMeet(lib, next, Store.Births(lib, w.db, born, m.op), moves[1..], end, n);
        if Store.Apply(lib, w.db, m.op).1.None? {
          HandlerMeets(lib, w, born, m.op, n);
        } else {
          assert [] + rest == rest;
        }
      } else {
        assert [] + Ops(moves[1..]) == Ops(moves[1..]);
        MoveKeepsTopped(lib, w, m, n);
        EditsMeet(lib, next, born, moves[1..], end, n);
      }
      if StepsOf(lib, w, m) != [] {
        var a := StepsOf(lib, w, m)[0];
        assert ([a] + rest)[0] == a && ([a] + rest)[1..] == rest;
      }
    }
  }

  /**
   If every create of a name exceeds its history and no edit wraps, then every state of the run is sure
   if and only if each successful write of the agent meets its condition: creates and edits do no harm.
   */
  lemma OnlyWritesDecide(lib: Store.Library, w: World, moves: seq<Move>, end: World, n: Name)
    requires Store.Faithful(lib) && Start(w) && Run(lib, w, moves, end) && AllExceed(lib, w.db, Ops(moves), n)
    ensures AlwaysSure(w.sys, n, Steps(lib, w, moves)) <==> WritesMeet(w.sys, n, Steps(lib, w, moves))
  {
    StartTopped(w, n);
    assert Store.Sound(lib, w.db, map[]);
    EditsMeet(lib, w, map[], moves, end, n);
    RunOfSteps(lib, w, moves, end);
    InitiallySure(w.sys, n);
    AlwaysSureExactly(w.sys, n, Steps(lib, w, moves), end.sys);
  }
}
