/**
 How often an event is stored when event ids may be malformed: the manager then generates a key for
 every insert, so a resend is stored again.
 */
module EventCopies {
  import opened EventTables
  import opened EventPipeline

  /** The rows that hold an event. */
  function Copies(table: Table, e: Event): set<Key> {
    set k | k in table && table[k] == e
  }

  function CountIn(events: seq<Event>, e: Event): nat {
    multiset(events)[e]
  }

  /** How often the inserted batches carry an event. */
  function Occurrences(sendings: seq<Sending>, e: Event): nat {
    if sendings == [] then 0
    else
      var last := sendings[|sendings| - 1];
      Occurrences(sendings[..|sendings| - 1], e) + if last.fate.Inserted? then CountIn(last.events, e) else 0
  }

  /** Generated ids are new: not in the table, not repeated, not the id of any event of the run. */
  ghost predicate NewIds(all: seq<Event>, table: Table, generated: seq<nat>) {
    && (forall i, j | 0 <= i < j < |generated| :: generated[i] != generated[j])
    && (forall k | k in table :: k.0 !in generated)
    && (forall e <- all :: e.eventId.Uuid? ==> e.eventId.id !in generated)
  }

  ghost predicate NewIdsRun(p: Pipe, actions: seq<Action>, all: seq<Event>)
    decreases |actions|
  {
    actions != [] ==>
      && Enabled(p, actions[0])
      && (actions[0].Deliver? ==> NewIds(all, p.table, actions[0].generated))
      && NewIdsRun(Next(p, actions[0]), actions[1..], all)
  }

  /** Events with a UUID have different keys. */
  ghost predicate DistinctUuids(all: seq<Event>) {
    forall e, f | e in all && f in all && e.eventId.Uuid? && f.eventId.Uuid? && KeyOf(e, 0) == KeyOf(f, 0) :: e == f
  }

  // ---------- one batch ----------

  lemma CopiesAfterInsert(table: Table, k: Key, x: Event, e: Event)
    requires k !in table
    ensures |Copies(table[k := x], e)| == |Copies(table, e)| + if x == e then 1 else 0
  {
    if x == e {
      assert Copies(table[k := x], e) == Copies(table, e) + {k};
    } else {
      assert Copies(table[k := x], e) == Copies(table, e);
    }
  }

  lemma CountCons(events: seq<Event>, e: Event)
    requires events != []
    ensures CountIn(events, e) == CountIn(events[1..], e) + if events[0] == e then 1 else 0
  {
    assert events == [events[0]] + events[1..];
  }

  /** After the first event of a batch the remaining generated ids are still new. */
  lemma NewIdsAfterFirst(all: seq<Event>, table: Table, x: Event, generated: seq<nat>)
    requires NewIds(all, table, generated) && generated != [] && x in all
    ensures NewIds(all, InsertEvent(table, x, generated[0]), generated[1..])
  {
    forall k | k in InsertEvent(table, x, generated[0]) ensures k.0 !in generated[1..] {
      assert k in table || k == KeyOf(x, generated[0]);
    }
  }

  lemma {:induction false} InsertAllCopies(all: seq<Event>, table: Table, events: seq<Event>,
          generated: seq<nat>, e: Event)
    requires |generated| == |events| && NewIds(all, table, generated) && (forall x <- events :: x in all)
    requires e.eventId.Malformed?
    ensures |Copies(InsertAll(table, events, generated), e)| == |Copies(table, e)| + CountIn(events, e)
    decreases |events|
  {
    if events != [] {
      var x, g := events[0], generated[0];
      assert x in events && g in generated;
      CountCons(events, e);
      if KeyOf(x, g) !in table {
        CopiesAfterInsert(table, KeyOf(x, g), x, e);
      }
      NewIdsAfterFirst(all, table, x, generated);
      InsertAllCopies(all, InsertEvent(table, x, g), events[1..], generated[1..], e);
    }
  }

  /** What a batch adds: rows of its own events, under their own id or a generated one; nothing is overwritten. */
  lemma {:induction false} InsertAllAdds(table: Table, events: seq<Event>, generated: seq<nat>)
    requires |generated| == |events|
    ensures var after := InsertAll(table, events, generated);
            && (forall k | k in table :: k in after && after[k] == table[k])
            && (forall k | k in after && k !in table :: after[k] in events
                  && if after[k].eventId.Uuid? then k == KeyOf(after[k], 0) else k.0 in generated)
            && (forall e <- events :: e.eventId.Uuid? ==> KeyOf(e, 0) in after)
    decreases |events|
  {
    if events != [] {
      var next := InsertEvent(table, events[0], generated[0]);
      InsertAllAdds(next, events[1..], generated[1..]);
      assert forall e :: e in events <==> e == events[0] || e in events[1..];
      assert forall g :: g in generated <==> g == generated[0] || g in generated[1..];
    }
  }

  // ---------- what every step keeps ----------

  ghost predicate ForeignId(all: seq<Event>, id: nat) {
    forall e <- all :: e.eventId.Uuid? ==> e.eventId.id != id
  }

  ghost predicate RowInv(all: seq<Event>, sendings: seq<Sending>, k: Key, e: Event) {
    if e.eventId.Uuid? then k == KeyOf(e, 0) && Occurrences(sendings, e) > 0 else ForeignId(all, k.0)
  }

  ghost predicate CopiesInv(all: seq<Event>, sendings: seq<Sending>, table: Table) {
    && (forall e: Event | e.eventId.Malformed? :: |Copies(table, e)| == Occurrences(sendings, e))
    && (forall k | k in table :: RowInv(all, sendings, k, table[k]))
    && (forall e <- all :: e.eventId.Uuid? && Occurrences(sendings, e) > 0 ==>
          KeyOf(e, 0) in table && table[KeyOf(e, 0)] == e)
  }

  lemma {:induction false} OccursInLog(log: seq<Event>, sendings: seq<Sending>, e: Event)
    requires IsChain(log, sendings) && Occurrences(sendings, e) > 0
    ensures e in log
  {
    var last := sendings[|sendings| - 1];
    if last.fate.Inserted? && e in last.events {
      assert IsSlice(log, last);
    } else {
      OccursInLog(log, sendings[..|sendings| - 1], e);
    }
  }

  lemma {:induction false} OccurrencesAfterFate(sendings: seq<Sending>, n: nat, fate: Fate, e: Event)
    requires n < |sendings| && sendings[n].fate.InFlight?
    ensures Occurrences(sendings[n := sendings[n].(fate := fate)], e)
         == Occurrences(sendings, e) + if fate.Inserted? then CountIn(sendings[n].events, e) else 0
  {
    var after := sendings[n := sendings[n].(fate := fate)];
    var m := |sendings| - 1;
    if n < m {
      OccurrencesAfterFate(sendings[..m], n, fate, e);
      assert after[..m] == sendings[..m][n := sendings[n].(fate := fate)];
    } else {
      assert after[..m] == sendings[..m];
    }
  }

  /** One delivered batch, in terms of what it adds to the table and to the count. */
  lemma DeliverKeeps(all: seq<Event>, s: Sending, before: seq<Sending>, after: seq<Sending>,
          table: Table, generated: seq<nat>)
    requires CopiesInv(all, before, table) && DistinctUuids(all) && NewIds(all, table, generated)
    requires |generated| == |s.events| && (forall e <- s.events :: e in all)
    requires forall e :: Occurrences(before, e) > 0 ==> e in all
    requires forall e :: Occurrences(after, e) == Occurrences(before, e) + CountIn(s.events, e)
    ensures CopiesInv(all, after, InsertAll(table, s.events, generated))
  {
    var table' := InsertAll(table, s.events, generated);
    InsertAllAdds(table, s.events, generated);
    forall e: Event | e.eventId.Malformed? ensures |Copies(table', e)| == Occurrences(after, e) {
      InsertAllCopies(all, table, s.events, generated, e);
    }
    forall k | k in table' ensures RowInv(all, after, k, table'[k]) {
      if k in table {
        assert RowInv(all, before, k, table[k]);
      }
    }
    forall e | e in all && e.eventId.Uuid? && Occurrences(after, e) > 0
      ensures KeyOf(e, 0) in table' && table'[KeyOf(e, 0)] == e
    {
      var k := KeyOf(e, 0);
      if Occurrences(before, e) == 0 {
        assert e in s.events && k in table';
        if k in table {
          assert RowInv(all, before, k, table[k]);
        }
      }
    }
  }

  lemma DeliverStep(all: seq<Event>, p: Pipe, a: Action)
    requires Inv(p) && Enabled(p, a) && a.Deliver? && p.log <= all
    requires CopiesInv(all, p.sendings, p.table) && DistinctUuids(all) && NewIds(all, p.table, a.generated)
    ensures CopiesInv(all, Next(p, a).sendings, Next(p, a).table)
  {
    var s := p.sendings[a.i];
    assert s in p.sendings && IsSlice(p.log, s);
    var after := p.sendings[a.i := s.(fate := Inserted)];
    forall e ensures Occurrences(after, e) == Occurrences(p.sendings, e) + CountIn(s.events, e) {
      OccurrencesAfterFate(p.sendings, a.i, Inserted, e);
    }
    forall e | Occurrences(p.sendings, e) > 0 ensures e in all {
      OccursInLog(p.log, p.sendings, e);
    }
    DeliverKeeps(all, s, p.sendings, after, p.table, a.generated);
  }

  lemma SameOccurrences(p: Pipe, a: Action, e: Event)
    requires Enabled(p, a) && !a.Deliver?
    ensures Occurrences(Next(p, a).sendings, e) == Occurrences(p.sendings, e)
  {
    if a.Lose? {
      OccurrencesAfterFate(p.sendings, a.i, Lost, e);
    } else if a.Send? {
      var q := Next(p, a);
      assert q.sendings[..|p.sendings|] == p.sendings;
    }
  }

  lemma CopiesFrame(all: seq<Event>, before: seq<Sending>, after: seq<Sending>, table: Table)
    requires CopiesInv(all, before, table) && forall e :: Occurrences(after, e) == Occurrences(before, e)
    ensures CopiesInv(all, after, table)
  {
    forall k | k in table ensures RowInv(all, after, k, table[k]) {
      assert RowInv(all, before, k, table[k]);
    }
  }

  lemma CopiesStep(all: seq<Event>, p: Pipe, a: Action)
    requires Inv(p) && Enabled(p, a) && p.log <= all && DistinctUuids(all)
    requires CopiesInv(all, p.sendings, p.table) && (a.Deliver? ==> NewIds(all, p.table, a.generated))
    ensures CopiesInv(all, Next(p, a).sendings, Next(p, a).table)
  {
    if a.Deliver? {
      DeliverStep(all, p, a);
    } else {
      OtherStep(p, a);
      forall e ensures Occurrences(Next(p, a).sendings, e) == Occurrences(p.sendings, e) {
        SameOccurrences(p, a, e);
      }
      CopiesFrame(all, p.sendings, Next(p, a).sendings, p.table);
    }
  }

  lemma CountsGrowth(p: Pipe, a: Action)
    requires Enabled(p, a) && p.inserted == |p.table|
    ensures Next(p, a).inserted == |Next(p, a).table|
  {
    if !a.Deliver? {
      OtherStep(p, a);
    }
  }

  lemma {:induction false} RunKeepsCopies(p: Pipe, actions: seq<Action>, q: Pipe)
    requires Inv(p) && Run(p, actions, q) && NewIdsRun(p, actions, q.log) && DistinctUuids(q.log)
    requires CopiesInv(q.log, p.sendings, p.table) && p.inserted == |p.table|
    ensures CopiesInv(q.log, q.sendings, q.table) && q.inserted == |q.table|
    decreases |actions|
  {
    if actions != [] {
      LogGrows(p, actions, q);
      Step(p, actions[0]);
      CopiesStep(q.log, p, actions[0]);
      CountsGrowth(p, actions[0]);
      RunKeepsCopies(Next(p, actions[0]), actions[1..], q);
    }
  }

  lemma EmptyCopies(all: seq<Event>)
    ensures CopiesInv(all, [], map[])
  {
    forall e: Event ensures |Copies(map[], e)| == 0 {
      assert Copies(map[], e) == {};
    }
  }

  lemma CopiesOfUuid(all: seq<Event>, sendings: seq<Sending>, table: Table, e: Event)
    requires CopiesInv(all, sendings, table) && e in all && e.eventId.Uuid?
    ensures Copies(table, e) == if Occurrences(sendings, e) > 0 then {KeyOf(e, 0)} else {}
  {
    forall k | k in table && table[k] == e ensures k == KeyOf(e, 0) && Occurrences(sendings, e) > 0 {
      assert RowInv(all, sendings, k, e);
    }
  }

  lemma InitialCopies(p: Pipe, all: seq<Event>)
    requires Initial(p)
    ensures Inv(p) && CopiesInv(all, p.sendings, p.table) && p.inserted == |p.table|
  {
    InitialFacts(p);
    EmptyCopies(all);
  }

  // ---------- theorems ----------

  /**
   In every run with new generated ids: an event without a UUID is stored as often as the inserted
   batches carry it, an event with one exactly once if some inserted batch carries it, and the counts
   still add up to the table.
   */
  lemma StoredAsDelivered(p: Pipe, actions: seq<Action>, q: Pipe)
    requires Initial(p) && Run(p, actions, q) && NewIdsRun(p, actions, q.log) && DistinctUuids(q.log)
    ensures forall e: Event | e.eventId.Malformed? :: |Copies(q.table, e)| == Occurrences(q.sendings, e)
    ensures forall e <- q.log :: e.eventId.Uuid? ==>
              Copies(q.table, e) == if Occurrences(q.sendings, e) > 0 then {KeyOf(e, 0)} else {}
    ensures q.inserted == |q.table|
  {
    InitialCopies(p, q.log);
    RunKeepsCopies(p, actions, q);
    forall e | e in q.log && e.eventId.Uuid?
      ensures Copies(q.table, e) == if Occurrences(q.sendings, e) > 0 then {KeyOf(e, 0)} else {}
    {
      CopiesOfUuid(q.log, q.sendings, q.table, e);
    }
  }

  /** How many inserted batches carry the event at position `i`. */
  function Carriers(sendings: seq<Sending>, i: nat): nat {
    if sendings == [] then 0
    else
      var last := sendings[|sendings| - 1];
      Carriers(sendings[..|sendings| - 1], i) + if last.fate.Inserted? && Carries(last, i) then 1 else 0
  }

  ghost predicate DistinctEvents(log: seq<Event>) {
    forall i, j | 0 <= i < j < |log| :: log[i] != log[j]
  }

  lemma {:induction false} CountOfPosition(events: seq<Event>, j: nat)
    requires j < |events| && forall x, y | 0 <= x < y < |events| :: events[x] != events[y]
    ensures CountIn(events, events[j]) == 1
  {
    CountCons(events, events[j]);
    if j > 0 {
      CountOfPosition(events[1..], j - 1);
    } else {
      assert events[0] !in events[1..];
    }
  }

  lemma CarriedCount(log: seq<Event>, s: Sending, i: nat)
    requires DistinctEvents(log) && IsSlice(log, s) && i < |log|
    ensures CountIn(s.events, log[i]) == if Carries(s, i) then 1 else 0
  {
    if Carries(s, i) {
      assert s.events[i - s.first] == log[i];
      CountOfPosition(s.events, i - s.first);
    } else {
      forall j | 0 <= j < |s.events| ensures s.events[j] != log[i] {
        assert s.events[j] == log[s.first + j] && s.first + j != i;
      }
    }
  }

  lemma {:induction false} OccurrencesAreCarriers(log: seq<Event>, sendings: seq<Sending>, i: nat)
    requires DistinctEvents(log) && IsChain(log, sendings) && i < |log|
    ensures Occurrences(sendings, log[i]) == Carriers(sendings, i)
  {
    if sendings != [] {
      var last := sendings[|sendings| - 1];
      assert last in sendings && IsSlice(log, last);
      CarriedCount(log, last, i);
      OccurrencesAreCarriers(log, sendings[..|sendings| - 1], i);
    }
  }

  lemma {:induction false} CarriedAtLeastOnce(sendings: seq<Sending>, n: nat, i: nat)
    requires n < |sendings| && sendings[n].fate.Inserted? && Carries(sendings[n], i)
    ensures Carriers(sendings, i) > 0
  {
    if n < |sendings| - 1 {
      CarriedAtLeastOnce(sendings[..|sendings| - 1], n, i);
    }
  }

  /**
   Once drained without a loss, every event that was sent is stored exactly once if and only if each
   one without a UUID was carried by exactly one batch.
   */
  lemma OnceExactlyWhenNotResent(p: Pipe, actions: seq<Action>, q: Pipe)
    requires Initial(p) && Run(p, actions, q) && NewIdsRun(p, actions, q.log) && DistinctUuids(q.log)
    requires DistinctEvents(q.log) && forall s <- q.sendings :: s.fate.Inserted?
    ensures Reach(q.sendings) <= |q.log|
    ensures forall i | 0 <= i < Reach(q.sendings) ::
              |Copies(q.table, q.log[i])| == if q.log[i].eventId.Uuid? then 1 else Carriers(q.sendings, i)
    ensures (forall i | 0 <= i < Reach(q.sendings) :: |Copies(q.table, q.log[i])| == 1) <==>
            (forall i | 0 <= i < Reach(q.sendings) && q.log[i].eventId.Malformed? :: Carriers(q.sendings, i) == 1)
  {
    ReachableFacts(p, actions, q);
    StoredAsDelivered(p, actions, q);
    forall i | 0 <= i < Reach(q.sendings)
      ensures |Copies(q.table, q.log[i])| == if q.log[i].eventId.Uuid? then 1 else Carriers(q.sendings, i)
    {
      var n := SomeBatchCarries(q.log, q.sendings, i);
      assert q.sendings[n] in q.sendings;
      CarriedAtLeastOnce(q.sendings, n, i);
      OccurrencesAreCarriers(q.log, q.sendings, i);
      assert q.log[i] in q.log;
    }
  }
}
