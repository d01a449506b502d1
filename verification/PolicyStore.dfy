/**
 The policy handlers of the REST API on the `policies` and `policy_history` tables. Handlers run one
 at a time to completion; admin rights and the change notification are not part of this model.
 */
module PolicyStore {
  import opened Prelude
  import opened PolicyModel
  import opened PolicyTables

  type Yaml = string

  /**
   The parser (with validation) and the MessagePack codec. `layout` stands for the iteration order of
   the tag map, so the encoded bytes are not a function of the policy.
   */
  datatype Library = Library(
    parse: Yaml -> Option<Policy>,
    encode: (Policy, nat) -> Bytes,
    decode: Bytes -> Option<Policy>)

  ghost predicate Faithful(lib: Library) {
    forall p, layout :: lib.decode(lib.encode(p, layout)) == Some(p)
  }

  datatype Digest = Sha256(of: Bytes)

  datatype Row = Row(
    version: int, enabled: bool, priority: int, yaml: Yaml, compiled: Bytes, hash: Digest, targets: Targets)

  datatype Entry = Entry(name: Name, version: int, yaml: Yaml)

  /** History is append-only, in insertion order. */
  datatype Db = Db(policies: map<Name, Row>, history: seq<Entry>)

  datatype ApiError = BadRequest | NotFound

  /** `pick` is the history row that an unordered query happens to return. */
  datatype Op =
    | Create(yaml: Yaml, layout: nat)
    | Update(name: Name, yaml: Yaml, layout: nat)
    | Delete(name: Name)
    | Rollback(name: Name, version: int, pick: nat, layout: nat)

  // ---------- the handlers as functions ----------

  function CompiledRow(lib: Library, yaml: Yaml, p: Policy, version: int, enabled: bool, layout: nat): Row {
    var compiled := lib.encode(p, layout);
    Row(version, enabled, p.priority, yaml, compiled, Sha256(compiled), p.targets)
  }

  function Stored(db: Db, name: Name, row: Row): Db {
    Db(db.policies[name := row], db.history + [Entry(name, row.version, row.yaml)])
  }

  /** `i32::try_from(version).unwrap_or(1)`. */
  function FirstVersion(version: U32): int {
    if version <= I32_MAX then version else 1
  }

  predicate MatchesAt(history: seq<Entry>, pick: nat, name: Name, version: int) {
    pick < |history| && history[pick].name == name && history[pick].version == version
  }

  function Apply(lib: Library, db: Db, op: Op): (Db, Option<ApiError>) {
    match op
    case Create(yaml, layout) =>
      var p := lib.parse(yaml);
      if p.None? || p.value.metadata.name in db.policies then (db, Some(BadRequest))
      else
        (Stored(db, p.value.metadata.name,
                CompiledRow(lib, yaml, p.value, FirstVersion(p.value.metadata.version), true, layout)), None)
    case Update(name, yaml, layout) =>
      var p := lib.parse(yaml);
      if p.None? || p.value.metadata.name != name then (db, Some(BadRequest))
      else if name !in db.policies then (db, Some(NotFound))
      else
        var prior := db.policies[name];
        (Stored(db, name, CompiledRow(lib, yaml, p.value, Bump(prior.version), prior.enabled, layout)), None)
    case Delete(name) =>
      if name in db.policies then (Db(db.policies - {name}, db.history), None) else (db, Some(NotFound))
    case Rollback(name, version, pick, layout) =>
      if !MatchesAt(db.history, pick, name, version) || name !in db.policies then (db, Some(NotFound))
      else
        var yaml := db.history[pick].yaml;
        var p := lib.parse(yaml);
        if p.None? then (db, Some(BadRequest))
        else
          var prior := db.policies[name];
          (Stored(db, name, CompiledRow(lib, yaml, p.value, Bump(prior.version), prior.enabled, layout)), None)
  }

  /** A rollback query that finds nothing has nothing to find. */
  ghost predicate Possible(db: Db, op: Op) {
    op.Rollback? && !MatchesAt(db.history, op.pick, op.name, op.version) ==>
      forall i: nat :: !MatchesAt(db.history, i, op.name, op.version)
  }

  ghost predicate Run(lib: Library, db: Db, ops: seq<Op>, end: Db)
    decreases |ops|
  {
    if ops == [] then db == end else Possible(db, ops[0]) && Run(lib, Apply(lib, db, ops[0]).0, ops[1..], end)
  }

  // ---------- history ----------

  /** The entry of a name that was inserted last. */
  function Newest(history: seq<Entry>, name: Name): Option<Entry> {
    if history == [] then None
    else if history[|history| - 1].name == name then Some(history[|history| - 1])
    else Newest(history[..|history| - 1], name)
  }

  /** The versions of a name from position `first` on, in insertion order. */
  function Trail(history: seq<Entry>, first: nat, name: Name): seq<int> {
    if |history| <= first then []
    else
      var n := |history| - 1;
      Trail(history[..n], first, name) + if history[n].name == name then [history[n].version] else []
  }

  /** Each version is the one before it plus one, in 32 bits. */
  predicate Consecutive(versions: seq<int>) {
    forall i | 0 < i < |versions| :: versions[i] == Bump(versions[i - 1])
  }

  lemma TrailSnoc(history: seq<Entry>, e: Entry, first: nat, name: Name)
    requires first <= |history|
    ensures Trail(history + [e], first, name)
         == Trail(history, first, name) + if e.name == name then [e.version] else []
    ensures Newest(history + [e], name) == if e.name == name then Some(e) else Newest(history, name)
  {
    assert (history + [e])[..|history|] == history;
  }

  lemma {:induction false} TrailBeyond(history: seq<Entry>, name: Name)
    ensures Trail(history, |history|, name) == []
  {
  }

  // ---------- the invariant ----------

  /** Every stored document parses, to a policy of the name it is filed under. */
  predicate HistorySound(lib: Library, history: seq<Entry>) {
    forall i | 0 <= i < |history| ::
      lib.parse(history[i].yaml).Some? && lib.parse(history[i].yaml).value.metadata.name == history[i].name
  }

  /** The columns of a row all come from its own document. */
  predicate RowSound(lib: Library, name: Name, row: Row) {
    var p := lib.parse(row.yaml);
    && p.Some? && p.value.metadata.name == name
    && lib.decode(row.compiled) == p && row.hash == Sha256(row.compiled)
    && row.priority == p.value.priority && row.targets == p.value.targets
  }

  /** The row is the newest entry of its name, and its versions since its creation at `first` are consecutive. */
  predicate TrailSound(history: seq<Entry>, name: Name, row: Row, first: nat) {
    var trail := Trail(history, first, name);
    && Newest(history, name) == Some(Entry(name, row.version, row.yaml))
    && first < |history| && history[first].name == name
    && trail != [] && trail[0] == history[first].version && trail[|trail| - 1] == row.version && Consecutive(trail)
  }

  /** `born` remembers where in the history each live policy was created. */
  ghost predicate Sound(lib: Library, db: Db, born: map<Name, nat>) {
    && HistorySound(lib, db.history)
    && forall n | n in db.policies :: n in born && RowSound(lib, n, db.policies[n])
                                      && TrailSound(db.history, n, db.policies[n], born[n])
  }

  /** A successful create is remembered at the position of the entry that it appends. */
  ghost function Births(lib: Library, db: Db, born: map<Name, nat>, op: Op): map<Name, nat> {
    if op.Create? && Apply(lib, db, op).1.None?
    then born[lib.parse(op.yaml).value.metadata.name := |db.history|]
    else born
  }

  lemma TrailOfOther(history: seq<Entry>, e: Entry, name: Name, row: Row, first: nat)
    requires TrailSound(history, name, row, first) && e.name != name
    ensures TrailSound(history + [e], name, row, first)
  {
    TrailSnoc(history, e, first, name);
    assert Trail(history, first, name) + [] == Trail(history, first, name);
  }

  lemma TrailOfEdited(history: seq<Entry>, name: Name, row: Row, first: nat, next: Row)
    requires TrailSound(history, name, row, first) && next.version == Bump(row.version)
    ensures TrailSound(history + [Entry(name, next.version, next.yaml)], name, next, first)
  {
    TrailSnoc(history, Entry(name, next.version, next.yaml), first, name);
  }

  lemma TrailOfCreated(history: seq<Entry>, name: Name, row: Row)
    ensures TrailSound(history + [Entry(name, row.version, row.yaml)], name, row, |history|)
  {
    TrailSnoc(history, Entry(name, row.version, row.yaml), |history|, name);
    TrailBeyond(history, name);
  }

  lemma HistoryGrows(lib: Library, history: seq<Entry>, e: Entry)
    requires HistorySound(lib, history) && lib.parse(e.yaml).Some? && lib.parse(e.yaml).value.metadata.name == e.name
    ensures HistorySound(lib, history + [e])
  {
  }

  lemma RowIsSound(lib: Library, yaml: Yaml, p: Policy, version: int, enabled: bool, layout: nat)
    requires Faithful(lib) && lib.parse(yaml) == Some(p)
    ensures RowSound(lib, p.metadata.name, CompiledRow(lib, yaml, p, version, enabled, layout))
  {
    assert lib.decode(lib.encode(p, layout)) == Some(p);
  }

  /** Storing a sound row with a sound trail of its own leaves every other row as it was. */
  lemma StoreKeepsSound(lib: Library, db: Db, born: map<Name, nat>, name: Name, row: Row, first: nat)
    requires Sound(lib, db, born) && RowSound(lib, name, row)
    requires TrailSound(db.history + [Entry(name, row.version, row.yaml)], name, row, first)
    ensures Sound(lib, Stored(db, name, row), born[name := first])
  {
    var e := Entry(name, row.version, row.yaml);
    HistoryGrows(lib, db.history, e);
    forall n | n in db.policies && n != name ensures TrailSound(db.history + [e], n, db.policies[n], born[n]) {
      TrailOfOther(db.history, e, n, db.policies[n], born[n]);
    }
  }

  lemma CreateKeepsSound(lib: Library, db: Db, born: map<Name, nat>, yaml: Yaml, layout: nat)
    requires Faithful(lib) && Sound(lib, db, born)
    ensures Sound(lib, Apply(lib, db, Create(yaml, layout)).0, Births(lib, db, born, Create(yaml, layout)))
  {
    if Apply(lib, db, Create(yaml, layout)).1.None? {
      var p := lib.parse(yaml).value;
      var row := CompiledRow(lib, yaml, p, FirstVersion(p.metadata.version), true, layout);
      RowIsSound(lib, yaml, p, row.version, true, layout);
      TrailOfCreated(db.history, p.metadata.name, row);
      StoreKeepsSound(lib, db, born, p.metadata.name, row, |db.history|);
    }
  }

  lemma EditKeepsSound(lib: Library, db: Db, born: map<Name, nat>, name: Name, yaml: Yaml, layout: nat)
    requires Faithful(lib) && Sound(lib, db, born) && name in db.policies
    requires lib.parse(yaml).Some? && lib.parse(yaml).value.metadata.name == name
    ensures var prior := db.policies[name];
            var p := lib.parse(yaml).value;
            Sound(lib, Stored(db, name, CompiledRow(lib, yaml, p, Bump(prior.version), prior.enabled, layout)), born)
  {
    var prior := db.policies[name];
    var p := lib.parse(yaml).value;
    var row := CompiledRow(lib, yaml, p, Bump(prior.version), prior.enabled, layout);
    RowIsSound(lib, yaml, p, row.version, prior.enabled, layout);
    TrailOfEdited(db.history, name, prior, born[name], row);
    StoreKeepsSound(lib, db, born, name, row, born[name]);
    assert born[name := born[name]] == born;
  }

  lemma StepKeepsSound(lib: Library, db: Db, born: map<Name, nat>, op: Op)
    requires Faithful(lib) && Sound(lib, db, born)
    ensures Sound(lib, Apply(lib, db, op).0, Births(lib, db, born, op))
  {
    match op {
      case Create(yaml, layout) => CreateKeepsSound(lib, db, born, yaml, layout);
      case Update(name, yaml, layout) =>
        if Apply(lib, db, op).1.None? {
          EditKeepsSound(lib, db, born, name, yaml, layout);
        }
      case Delete(name) =>
      case Rollback(name, version, pick, layout) =>
        if Apply(lib, db, op).1.None? {
          EditKeepsSound(lib, db, born, name, db.history[pick].yaml, layout);
        }
    }
  }

  /** Where each name was last created in a run. */
  ghost function BornAfter(lib: Library, db: Db, born: map<Name, nat>, ops: seq<Op>): map<Name, nat>
    decreases |ops|
  {
    if ops == [] then born
    else BornAfter(lib, Apply(lib, db, ops[0]).0, Births(lib, db, born, ops[0]), ops[1..])
  }

  lemma {:induction false} RunKeepsSound(lib: Library, db: Db, born: map<Name, nat>, ops: seq<Op>, end: Db)
    requires Faithful(lib) && Sound(lib, db, born) && Run(lib, db, ops, end)
    ensures Sound(lib, end, BornAfter(lib, db, born, ops))
    decreases |ops|
  {
    if ops != [] {
      StepKeepsSound(lib, db, born, ops[0]);
      RunKeepsSound(lib, Apply(lib, db, ops[0]).0, Births(lib, db, born, ops[0]), ops[1..], end);
    }
  }

  // ---------- theorems ----------

  /**
   After any sequence of handlers on an empty database: every live row agrees with the newest history
   entry of its name, its columns come from its own document, its versions since its creation are
   consecutive, and no history entry holds another policy's document.
   */
  lemma StoreIsConsistent(lib: Library, ops: seq<Op>, end: Db)
    requires Faithful(lib) && Run(lib, Db(map[], []), ops, end)
    ensures HistorySound(lib, end.history)
    ensures var born := BornAfter(lib, Db(map[], []), map[], ops);
            forall n | n in end.policies :: n in born && RowSound(lib, n, end.policies[n])
                                            && TrailSound(end.history, n, end.policies[n], born[n])
  {
    assert Sound(lib, Db(map[], []), map[]);
    RunKeepsSound(lib, Db(map[], []), map[], ops, end);
  }

  lemma {:induction false} CountsUp(versions: seq<int>, k: nat)
    requires Consecutive(versions) && k < |versions| && versions[0] + k <= I32_MAX
    ensures versions[k] == versions[0] + k
  {
    if k > 0 {
      CountsUp(versions, k - 1);
    }
  }

  /** The versions since creation count up by one exactly as long as they fit 32 bits. */
  lemma VersionsCountUpExactly(history: seq<Entry>, name: Name, row: Row, first: nat)
    requires TrailSound(history, name, row, first) && history[first].version <= I32_MAX
    ensures var trail := Trail(history, first, name);
            (forall i | 0 <= i < |trail| :: trail[i] == trail[0] + i) <==> trail[0] + |trail| - 1 <= I32_MAX
  {
    var trail := Trail(history, first, name);
    if trail[0] + |trail| - 1 <= I32_MAX {
      forall i | 0 <= i < |trail| ensures trail[i] == trail[0] + i {
        CountsUp(trail, i);
      }
    } else {
      var k := I32_MAX - trail[0];
      CountsUp(trail, k);
      assert trail[k + 1] == Bump(trail[k]) == I32_MIN;
    }
  }

  /**
   Rollback re-parses the stored document without comparing its name, yet on a consistent database it
   never fails to parse and never stores another policy's document.
   */
  lemma RollbackIsSafe(lib: Library, db: Db, born: map<Name, nat>, name: Name, version: int, pick: nat, layout: nat)
    requires Faithful(lib) && Sound(lib, db, born)
    ensures var (after, error) := Apply(lib, db, Rollback(name, version, pick, layout));
            && error != Some(BadRequest)
            && (error.None? <==> MatchesAt(db.history, pick, name, version) && name in db.policies)
            && (error.None? ==> after.policies[name].yaml == db.history[pick].yaml
                                && RowSound(lib, name, after.policies[name])
                                && after.policies[name].version == Bump(db.policies[name].version))
            && (forall n | n != name :: n in after.policies <==> n in db.policies)
            && (forall n | n != name && n in db.policies :: after.policies[n] == db.policies[n])
  {
    StepKeepsSound(lib, db, born, Rollback(name, version, pick, layout));
  }

  // ---------- the handlers ----------

  /** One stored document, column by column: the row of its name, and one more history entry. */
  ghost predicate Writes(lib: Library, before: Db, after: Db, yaml: Yaml, p: Policy, name: Name, version: int,
          enabled: bool, layout: nat)
  {
    var bytes := lib.encode(p, layout);
    && after.policies == before.policies[name :=
         Row(version, enabled, p.priority, yaml, bytes, Sha256(bytes), p.targets)]
    && after.history == before.history + [Entry(name, version, yaml)]
  }

  /** The same under a new version, one above the last and wrapping at 32 bits. */
  ghost predicate Rewrites(lib: Library, before: Db, after: Db, yaml: Yaml, name: Name, layout: nat) {
    && lib.parse(yaml).Some? && name in before.policies
    && var row := before.policies[name];
       Writes(lib, before, after, yaml, lib.parse(yaml).value, name,
              if row.version == 0x7fff_ffff then -0x8000_0000 else row.version + 1, row.enabled, layout)
  }

  class Store {
    const lib: Library
    var policies: map<Name, Row>
    var history: seq<Entry>

    constructor (lib: Library)
      ensures this.lib == lib && policies == map[] && history == []
    {
      this.lib, policies, history := lib, map[], [];
    }

    function Contents(): Db
      reads this
    {
      Db(policies, history)
    }

    method CreatePolicy(yaml: Yaml, layout: nat) returns (error: Option<ApiError>)
      modifies this
      ensures (Contents(), error) == Apply(lib, old(Contents()), Create(yaml, layout))
      ensures error == None <==>
                lib.parse(yaml).Some? && lib.parse(yaml).value.metadata.name !in old(policies)
      ensures error.Some? ==> error == Some(BadRequest) && Contents() == old(Contents())
      ensures error.None? ==>
                var p := lib.parse(yaml).value;
                Writes(lib, old(Contents()), Contents(), yaml, p, p.metadata.name,
                       if p.metadata.version <= 0x7fff_ffff then p.metadata.version else 1, true, layout)
    {
      var parsed := lib.parse(yaml);
      if parsed.None? {
        return Some(BadRequest);
      }
      var name := parsed.value.metadata.name;
      if name in policies {
        return Some(BadRequest);
      }
      var version := FirstVersion(parsed.value.metadata.version);
      policies := policies[name := CompiledRow(lib, yaml, parsed.value, version, true, layout)];
      history := history + [Entry(name, version, yaml)];
      error := None;
    }

    method UpdatePolicy(name: Name, yaml: Yaml, layout: nat) returns (error: Option<ApiError>)
      modifies this
      ensures (Contents(), error) == Apply(lib, old(Contents()), Update(name, yaml, layout))
      ensures error == Some(BadRequest) <==> lib.parse(yaml).None? || lib.parse(yaml).value.metadata.name != name
      ensures error == Some(NotFound) <==>
                lib.parse(yaml).Some? && lib.parse(yaml).value.metadata.name == name && name !in old(policies)
      ensures if error.Some? then Contents() == old(Contents())
              else Rewrites(lib, old(Contents()), Contents(), yaml, name, layout)
    {
      var parsed := lib.parse(yaml);
      if parsed.None? || parsed.value.metadata.name != name {
        return Some(BadRequest);
      }
      if name !in policies {
        return Some(NotFound);
      }
      var version := Bump(policies[name].version);
      policies := policies[name := CompiledRow(lib, yaml, parsed.value, version, policies[name].enabled, layout)];
      history := history + [Entry(name, version, yaml)];
      error := None;
    }

    method DeletePolicy(name: Name) returns (error: Option<ApiError>)
      modifies this
      ensures (Contents(), error) == Apply(lib, old(Contents()), Delete(name))
      ensures error == if name in old(policies) then None else Some(NotFound)
      ensures name !in policies && history == old(history)
      ensures forall n | n != name ::
                (n in policies <==> n in old(policies)) && (n in policies ==> policies[n] == old(policies)[n])
    {
      if name !in policies {
        return Some(NotFound);
      }
      policies := policies - {name};
      error := None;
    }

    /** Any of the history rows with this name and version may be the one that is restored. */
    method RollbackPolicy(name: Name, version: int, layout: nat) returns (error: Option<ApiError>)
      modifies this
      ensures exists pick :: Possible(old(Contents()), Rollback(name, version, pick, layout))
                             && (Contents(), error)
                             == Apply(lib, old(Contents()), Rollback(name, version, pick, layout))
      ensures error == Some(NotFound) <==>
                name !in old(policies) || forall e <- old(history) :: !(e.name == name && e.version == version)
      ensures error == Some(BadRequest) ==>
                exists e <- old(history) :: e.name == name && e.version == version && lib.parse(e.yaml).None?
      ensures error.Some? ==> Contents() == old(Contents())
      ensures error.None? ==>
                exists e <- old(history) :: e.name == name && e.version == version
                                            && Rewrites(lib, old(Contents()), Contents(), e.yaml, name, layout)
    {
      ghost var before := Contents();
      if !exists i :: 0 <= i < |history| && history[i].name == name && history[i].version == version {
        assert Possible(before, Rollback(name, version, 0, layout));
        return Some(NotFound);
      }
      var pick: int :| 0 <= pick < |history| && history[pick].name == name && history[pick].version == version;
      assert MatchesAt(before.history, pick, name, version);
      assert Possible(before, Rollback(name, version, pick, layout));
      if name !in policies {
        return Some(NotFound);
      }
      var yaml := history[pick].yaml;
      var parsed := lib.parse(yaml);
      if parsed.None? {
        return Some(BadRequest);
      }
      var newVersion := Bump(policies[name].version);
      policies := policies[name := CompiledRow(lib, yaml, parsed.value, newVersion, policies[name].enabled, layout)];
      history := history + [Entry(name, newVersion, yaml)];
      error := None;
      assert (Contents(), error) == Apply(lib, before, Rollback(name, version, pick, layout));
    }
  }
}
