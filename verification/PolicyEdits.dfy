/** The handlers seen from policy distribution: each is one edit step of the push protocol. */
module PolicyEdits {
  import opened PolicyTables
  import PolicyStore
  import PolicyPush

  /** The columns that the pending query reads. */
  function Pushed(r: PolicyStore.Row): PolicyRow {
    PolicyRow(r.version, r.enabled, r.priority, r.compiled)
  }

  function View(policies: map<Name, PolicyStore.Row>): Policies {
    map n | n in policies :: Pushed(policies[n])
  }

  /** The step of the push protocol that a successful handler performs. */
  function EditOf(lib: PolicyStore.Library, db: PolicyStore.Db, op: PolicyStore.Op): PolicyPush.Action
    requires PolicyStore.Apply(lib, db, op).1.None?
  {
    match op
    case Create(yaml, layout) =>
      var p := lib.parse(yaml).value;
      PolicyPush.Create(p.metadata.name, p.metadata.version, p.priority, lib.encode(p, layout))
    case Update(name, yaml, layout) =>
      var p := lib.parse(yaml).value;
      PolicyPush.Edit(name, p.priority, lib.encode(p, layout))
    case Delete(name) => PolicyPush.Delete(name)
    case Rollback(name, _, pick, layout) =>
      var p := lib.parse(db.history[pick].yaml).value;
      PolicyPush.Edit(name, p.priority, lib.encode(p, layout))
  }

  lemma ViewOfStored(policies: map<Name, PolicyStore.Row>, name: Name, row: PolicyStore.Row)
    ensures View(policies[name := row]) == View(policies)[name := Pushed(row)]
  {
  }

  /** A handler that succeeds changes the policies exactly as its step does; one that fails changes nothing. */
  lemma HandlersAreEdits(lib: PolicyStore.Library, db: PolicyStore.Db, op: PolicyStore.Op, s: PolicyPush.System)
    requires s.policies == View(db.policies)
    ensures var (after, error) := PolicyStore.Apply(lib, db, op);
            if error.Some? then after == db
            else PolicyPush.Enabled(s, EditOf(lib, db, op))
                 && PolicyPush.Next(s, EditOf(lib, db, op)).policies == View(after.policies)
  {
    var (after, error) := PolicyStore.Apply(lib, db, op);
    if error.None? {
      match op {
        case Create(yaml, layout) =>
          var name := lib.parse(yaml).value.metadata.name;
          ViewOfStored(db.policies, name, after.policies[name]);
        case Update(name, yaml, layout) =>
          ViewOfStored(db.policies, name, after.policies[name]);
        case Delete(name) =>
          assert View(db.policies - {name}) == View(db.policies) - {name};
        case Rollback(name, version, pick, layout) =>
          ViewOfStored(db.policies, name, after.policies[name]);
      }
    }
  }
}
