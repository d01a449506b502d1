/**
 Versions in the policy history. Creates take their version from the document, so a re-created policy
 can repeat versions; the versions of a name ascend, and a rollback restores one certain document,
 as long as every create exceeds all the versions its name ever had.
 */
module PolicyHistory {
  import opened Prelude
  import opened PolicyTables
  import opened PolicyStore

  /** The largest version the history of a name ever held, -1 when there is none. */
  function Top(history: seq<Entry>, name: Name): int {
    if history == [] then -1
    else
      var n := |history| - 1;
      var before := Top(history[..n], name);
      if history[n].name == name && before < history[n].version then history[n].version else before
  }

  lemma TopSnoc(history: seq<Entry>, e: Entry, name: Name)
    ensures Top(history + [e], name) ==
            if e.name == name && Top(history, name) < e.version then e.version else Top(history, name)
  {
    assert (history + [e])[..|history|] == history;
  }

  /** `Top` is a bound, and the least one: some entry reaches it. */
  lemma {:induction false} TopIsMaximum(history: seq<Entry>, name: Name)
    ensures Top(history, name) >= -1
    ensures forall i | 0 <= i < |history| && history[i].name == name :: history[i].version <= Top(history, name)
    ensures Top(history, name) >= 0 ==>
              exists i :: 0 <= i < |history| && history[i].name == name && history[i].version == Top(history, name)
  {
    if history != [] {
      TopIsMaximum(history[..|history| - 1], name);
    }
  }

  /** Each version of the name exceeds all the versions before it. */
  ghost predicate Ascending(history: seq<Entry>, name: Name) {
    forall i, j | 0 <= i < j < |history| && history[i].name == name && history[j].name == name ::
      history[i].version < history[j].version
  }

  lemma AscendingSnoc(history: seq<Entry>, e: Entry, name: Name)
    requires Ascending(history, name)
    ensures Ascending(history + [e], name) <==>
              (e.name == name ==>
                 forall i | 0 <= i < |history| && history[i].name == name :: history[i].version < e.version)
  {
    var after := history + [e];
    if Ascending(after, name) && e.name == name {
      forall i | 0 <= i < |history| && history[i].name == name ensures history[i].version < e.version {
        assert after[i] == history[i] && after[|history|] == e;
      }
    }
  }

  lemma AscendingPrefix(history: seq<Entry>, longer: seq<Entry>, name: Name)
    requires history <= longer && Ascending(longer, name)
    ensures Ascending(history, name)
  {
    assert forall i | 0 <= i < |history| :: history[i] == longer[i];
  }

  /**
   What a handler call owes the history of `name`: a create exceeds every version the name ever had,
   and an update or rollback does not start from the largest 32-bit version.
   */
  ghost predicate Exceeds(lib: Library, db: Db, op: Op, name: Name) {
    Apply(lib, db, op).1.None? ==>
      match op
      case Create(yaml, _) =>
        var p := lib.parse(yaml).value;
        p.metadata.name == name ==>
          forall i | 0 <= i < |db.history| && db.history[i].name == name ::
            db.history[i].version < FirstVersion(p.metadata.version)
      case Update(m, _, _) => m == name ==> db.policies[name].version != I32_MAX
      case Rollback(m, _, _, _) => m == name ==> db.policies[name].version != I32_MAX
      case Delete(_) => true
  }

  ghost predicate AllExceed(lib: Library, db: Db, ops: seq<Op>, name: Name)
    decreases |ops|
  {
    ops != [] ==> Exceeds(lib, db, ops[0], name) && AllExceed(lib, Apply(lib, db, ops[0]).0, ops[1..], name)
  }

  /** The entry that a successful create, update or rollback appends. */
  function Appended(lib: Library, db: Db, op: Op): (entries: seq<Entry>)
    ensures Apply(lib, db, op).0.history == db.history + entries && |entries| <= 1
  {
    Apply(lib, db, op).0.history[|db.history|..]
  }

  lemma {:induction false} NewestIsMaximum(history: seq<Entry>, name: Name, e: Entry)
    requires Newest(history, name) == Some(e) && Ascending(history, name)
    ensures e.name == name && e in history
    ensures forall i | 0 <= i < |history| && history[i].name == name :: history[i].version <= e.version
  {
    var n := |history| - 1;
    if history[n].name != name {
      AscendingPrefix(history[..n], history, name);
      NewestIsMaximum(history[..n], name, e);
    }
  }

  lemma EditedAscends(history: seq<Entry>, name: Name, row: Row, next: Entry)
    requires Newest(history, name) == Some(Entry(name, row.version, row.yaml)) && Ascending(history, name)
    requires next.name == name && next.version == Bump(row.version)
    ensures Ascending(history + [next], name) <==> row.version != I32_MAX
  {
    var e := Entry(name, row.version, row.yaml);
    NewestIsMaximum(history, name, e);
    AscendingSnoc(history, next, name);
    if row.version == I32_MAX {
      var i :| 0 <= i < |history| && history[i] == e;
      assert history[i].version >= next.version;
    }
  }

  lemma OtherAscends(history: seq<Entry>, name: Name, e: Entry)
    requires Ascending(history, name) && e.name != name
    ensures Ascending(history + [e], name)
  {
    AscendingSnoc(history, e, name);
  }

  lemma StepAscendsExactly(lib: Library, db: Db, born: map<Name, nat>, op: Op, name: Name)
    requires Sound(lib, db, born) && Ascending(db.history, name)
    ensures Ascending(Apply(lib, db, op).0.history, name) <==> Exceeds(lib, db, op, name)
  {
    var after := Apply(lib, db, op).0;
    if Apply(lib, db, op).1.None? && !op.Delete? {
      var e := after.history[|db.history|];
      assert after.history == db.history + [e];
      if e.name != name {
        OtherAscends(db.history, name, e);
      } else if op.Create? {
        AscendingSnoc(db.history, e, name);
      } else {
        assert TrailSound(db.history, name, db.policies[name], born[name]);
        EditedAscends(db.history, name, db.policies[name], e);
      }
    }
  }

  lemma {:induction false} HistoryOnlyGrows(lib: Library, db: Db, ops: seq<Op>, end: Db)
    requires Run(lib, db, ops, end)
    ensures db.history <= end.history
    decreases |ops|
  {
    if ops != [] {
      var entries := Appended(lib, db, ops[0]);
      HistoryOnlyGrows(lib, Apply(lib, db, ops[0]).0, ops[1..], end);
    }
  }

  lemma {:induction false} RunAscendsExactly(lib: Library, db: Db, born: map<Name, nat>, ops: seq<Op>,
          end: Db, name: Name)
    requires Faithful(lib) && Sound(lib, db, born) && Run(lib, db, ops, end) && Ascending(db.history, name)
    ensures Ascending(end.history, name) <==> AllExceed(lib, db, ops, name)
    decreases |ops|
  {
    if ops != [] {
      var next := Apply(lib, db, ops[0]).0;
      StepAscendsExactly(lib, db, born, ops[0], name);
      StepKeepsSound(lib, db, born, ops[0]);
      if Ascending(next.history, name) {
        RunAscendsExactly(lib, next, Births(lib, db, born, ops[0]), ops[1..], end, name);
      } else {
        HistoryOnlyGrows(lib, next, ops[1..], end);
        if Ascending(end.history, name) {
          AscendingPrefix(next.history, end.history, name);
        }
      }
    }
  }

  // ---------- theorems ----------

  /**
   After any sequence of handlers the versions of a name ascend if and only if each of its creates
   exceeded every version the name had before, and no edit wrapped.
   */
  lemma VersionsAscendExactly(lib: Library, ops: seq<Op>, end: Db, name: Name)
    requires Faithful(lib) && Run(lib, Db(map[], []), ops, end)
    ensures Ascending(end.history, name) <==> AllExceed(lib, Db(map[], []), ops, name)
  {
    assert Sound(lib, Db(map[], []), map[]);
    RunAscendsExactly(lib, Db(map[], []), map[], ops, end, name);
  }

  predicate SameOutcome(lib: Library, db: Db, name: Name, version: int, p: nat, q: nat, layout: nat) {
    Apply(lib, db, Rollback(name, version, p, layout)) == Apply(lib, db, Rollback(name, version, q, layout))
  }

  /** Whichever history row the unordered query returns, a rollback has the same outcome. */
  ghost predicate Determined(lib: Library, db: Db, name: Name, version: int, layout: nat) {
    forall p: nat, q: nat | MatchesAt(db.history, p, name, version) && MatchesAt(db.history, q, name, version) ::
      SameOutcome(lib, db, name, version, p, q, layout)
  }

  /** All rows of the history with this name and version hold the same document. */
  ghost predicate OneDocument(history: seq<Entry>, name: Name, version: int) {
    forall p: nat, q: nat | MatchesAt(history, p, name, version) && MatchesAt(history, q, name, version) ::
      history[p].yaml == history[q].yaml
  }

  lemma SameOutcomeExactly(lib: Library, db: Db, born: map<Name, nat>, name: Name, version: int,
          p: nat, q: nat, layout: nat)
    requires Faithful(lib) && Sound(lib, db, born) && name in db.policies
    requires MatchesAt(db.history, p, name, version) && MatchesAt(db.history, q, name, version)
    ensures SameOutcome(lib, db, name, version, p, q, layout) <==> db.history[p].yaml == db.history[q].yaml
  {
    RollbackIsSafe(lib, db, born, name, version, p, layout);
    RollbackIsSafe(lib, db, born, name, version, q, layout);
  }

  /** A rollback of a live policy is determined exactly when all rows it may find hold the same document. */
  lemma DeterminedExactly(lib: Library, db: Db, born: map<Name, nat>, name: Name, version: int, layout: nat)
    requires Faithful(lib) && Sound(lib, db, born) && name in db.policies
    ensures Determined(lib, db, name, version, layout) <==> OneDocument(db.history, name, version)
  {
    var h := db.history;
    if Determined(lib, db, name, version, layout) {
      forall p: nat, q: nat | MatchesAt(h, p, name, version) && MatchesAt(h, q, name, version)
        ensures h[p].yaml == h[q].yaml
      {
        SameOutcomeExactly(lib, db, born, name, version, p, q, layout);
      }
    }
    if OneDocument(h, name, version) {
      forall p: nat, q: nat | MatchesAt(h, p, name, version) && MatchesAt(h, q, name, version)
        ensures SameOutcome(lib, db, name, version, p, q, layout)
      {
        SameOutcomeExactly(lib, db, born, name, version, p, q, layout);
      }
    }
  }

  /** If every create of the name exceeded its history and no edit wrapped, at most one row is found. */
  lemma RollbackFindsOneRow(lib: Library, ops: seq<Op>, end: Db, name: Name, version: int, p: nat, q: nat)
    requires Faithful(lib) && Run(lib, Db(map[], []), ops, end) && AllExceed(lib, Db(map[], []), ops, name)
    requires MatchesAt(end.history, p, name, version) && MatchesAt(end.history, q, name, version)
    ensures p == q
  {
    VersionsAscendExactly(lib, ops, end, name);
  }

  lemma CreateDeleteCreate(lib: Library, name: Name, one: Yaml, two: Yaml, version: int, layout: nat) returns (end: Db)
    requires lib.parse(one).Some? && lib.parse(two).Some?
    requires lib.parse(one).value.metadata.name == lib.parse(two).value.metadata.name == name
    requires FirstVersion(lib.parse(one).value.metadata.version) == version
    requires FirstVersion(lib.parse(two).value.metadata.version) == version
    ensures Run(lib, Db(map[], []), [Create(one, layout), Delete(name), Create(two, layout)], end)
    ensures end.history == [Entry(name, version, one), Entry(name, version, two)] && end.policies.Keys == {name}
  {
    var db0 := Db(map[], []);
    var db1 := Apply(lib, db0, Create(one, layout)).0;
    var db2 := Apply(lib, db1, Delete(name)).0;
    end := Apply(lib, db2, Create(two, layout)).0;
    assert db1.history == [Entry(name, version, one)] && db2.policies == map[];
    assert end.history == [Entry(name, version, one), Entry(name, version, two)];
    assert Run(lib, end, [], end);
    assert [Create(two, layout)][1..] == [];
    assert Run(lib, db2, [Create(two, layout)], end);
    assert [Delete(name), Create(two, layout)][1..] == [Create(two, layout)];
    assert Run(lib, db1, [Delete(name), Create(two, layout)], end);
    assert [Create(one, layout), Delete(name), Create(two, layout)][1..] == [Delete(name), Create(two, layout)];
  }

  /**
   Two documents of one name and version: created, deleted and created again, a rollback to that version
   may restore either.
   */
  lemma RecreatedRollbackIsAmbiguous(lib: Library, name: Name, one: Yaml, two: Yaml, version: int, layout: nat)
    returns (end: Db)
    requires Faithful(lib) && one != two && lib.parse(one).Some? && lib.parse(two).Some?
    requires lib.parse(one).value.metadata.name == lib.parse(two).value.metadata.name == name
    requires FirstVersion(lib.parse(one).value.metadata.version) == version
    requires FirstVersion(lib.parse(two).value.metadata.version) == version
    ensures Run(lib, Db(map[], []), [Create(one, layout), Delete(name), Create(two, layout)], end)
    ensures !Determined(lib, end, name, version, layout)
  {
    var ops := [Create(one, layout), Delete(name), Create(two, layout)];
    end := CreateDeleteCreate(lib, name, one, two, version, layout);
    assert Sound(lib, Db(map[], []), map[]);
    RunKeepsSound(lib, Db(map[], []), map[], ops, end);
    assert MatchesAt(end.history, 0, name, version) && MatchesAt(end.history, 1, name, version);
    DeterminedExactly(lib, end, BornAfter(lib, Db(map[], []), map[], ops), name, version, layout);
  }
}
