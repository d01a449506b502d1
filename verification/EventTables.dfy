/**
 The agent's persistent event queue and the manager's event table, with the statements that change
 them. A decoded payload is the event that was encoded.
 */
module EventTables {
  import opened Prelude

  /** `event_id` as the manager reads it: a UUID, or text it replaces by a fresh UUID. */
  datatype EventId = Uuid(id: nat) | Malformed(text: string)

  /** `timestamp` is in nanoseconds. */
  datatype Event = Event(eventId: EventId, timestamp: int, body: string)

  // ---------- events_pending ----------

  datatype Row = Row(id: int, sentAt: Option<int>, event: Event)

  datatype PendingEvent = PendingEvent(id: int, event: Event)

  /** Ids come from AUTOINCREMENT: ascending in insertion order and never reused. */
  ghost predicate Ordered(rows: seq<Row>, nextId: int) {
    && (forall i, j | 0 <= i < j < |rows| :: rows[i].id < rows[j].id)
    && (forall r <- rows :: 0 < r.id < nextId)
  }

  function Unsent(rows: seq<Row>): seq<Row> {
    if rows == [] then []
    else if rows[0].sentAt.None? then [rows[0]] + Unsent(rows[1..])
    else Unsent(rows[1..])
  }

  /** `take_batch`: the first `limit` unsent rows by id. */
  function Batch(rows: seq<Row>, limit: nat): seq<PendingEvent> {
    var unsent := Unsent(rows);
    seq(Min(limit, |unsent|), i requires 0 <= i < Min(limit, |unsent|) => PendingEvent(unsent[i].id, unsent[i].event))
  }

  function MarkRows(rows: seq<Row>, ids: seq<int>, now: int): seq<Row> {
    seq(|rows|, i requires 0 <= i < |rows| =>
      if rows[i].id in ids then rows[i].(sentAt := Some(now)) else rows[i])
  }

  predicate Purged(r: Row, cutoff: int) {
    r.sentAt.Some? && r.sentAt.value < cutoff
  }

  function Kept(rows: seq<Row>, cutoff: int): (kept: seq<Row>)
    ensures |kept| <= |rows|
  {
    if rows == [] then []
    else if Purged(rows[0], cutoff) then Kept(rows[1..], cutoff)
    else [rows[0]] + Kept(rows[1..], cutoff)
  }

  lemma {:induction false} UnsentConcat(a: seq<Row>, b: seq<Row>)
    ensures Unsent(a + b) == Unsent(a) + Unsent(b)
  {
    if a == [] {
      assert a + b == b;
    } else {
      UnsentConcat(a[1..], b);
      ConcatFirst(a, b);
    }
  }

  lemma {:induction false} KeptConcat(a: seq<Row>, b: seq<Row>, cutoff: int)
    ensures Kept(a + b, cutoff) == Kept(a, cutoff) + Kept(b, cutoff)
  {
    if a == [] {
      assert a + b == b;
    } else {
      KeptConcat(a[1..], b, cutoff);
      ConcatFirst(a, b);
    }
  }

  lemma {:induction false} UnsentMembers(rows: seq<Row>)
    ensures forall r :: r in Unsent(rows) <==> r in rows && r.sentAt.None?
  {
    if rows != [] {
      assert forall r :: r in rows <==> r == rows[0] || r in rows[1..];
      UnsentMembers(rows[1..]);
    }
  }

  lemma OrderedTail(rows: seq<Row>, nextId: int)
    requires Ordered(rows, nextId) && rows != []
    ensures Ordered(rows[1..], nextId) && 0 < rows[0].id < nextId && forall r <- rows[1..] :: rows[0].id < r.id
  {
    assert rows[0] in rows;
  }

  lemma OrderedCons(r: Row, rest: seq<Row>, nextId: int)
    requires Ordered(rest, nextId) && 0 < r.id < nextId && forall x <- rest :: r.id < x.id
    ensures Ordered([r] + rest, nextId)
  {
    var rows := [r] + rest;
    forall i, j | 0 <= i < j < |rows| ensures rows[i].id < rows[j].id {
      assert rows[j] == rest[j - 1] && rest[j - 1] in rest;
    }
  }

  /** What the query returns: exactly the unsent rows, in ascending id order. */
  lemma {:induction false} UnsentIsOrderedSelection(rows: seq<Row>, nextId: int)
    requires Ordered(rows, nextId)
    ensures Ordered(Unsent(rows), nextId)
    ensures forall r :: r in Unsent(rows) <==> r in rows && r.sentAt.None?
  {
    UnsentMembers(rows);
    if rows != [] {
      OrderedTail(rows, nextId);
      UnsentIsOrderedSelection(rows[1..], nextId);
      if rows[0].sentAt.None? {
        OrderedCons(rows[0], Unsent(rows[1..]), nextId);
      }
    }
  }

  /** In the columns: unsent rows in id order, up to the limit, which only rows of larger ids go beyond. */
  ghost predicate IsFirstUnsent(rows: seq<Row>, limit: nat, out: seq<PendingEvent>) {
    && |out| <= limit
    && (forall i, j | 0 <= i < j < |out| :: out[i].id < out[j].id)
    && (forall e <- out :: Row(e.id, None, e.event) in rows)
    && (forall r <- rows :: r.sentAt.None? ==>
          PendingEvent(r.id, r.event) in out || (|out| == limit && forall e <- out :: e.id < r.id))
  }

  lemma BatchIsFirstUnsent(rows: seq<Row>, nextId: int, limit: nat)
    requires Ordered(rows, nextId)
    ensures IsFirstUnsent(rows, limit, Batch(rows, limit))
  {
    var unsent, out := Unsent(rows), Batch(rows, limit);
    UnsentIsOrderedSelection(rows, nextId);
    forall e | e in out ensures Row(e.id, None, e.event) in rows {
      var i :| 0 <= i < |out| && out[i] == e;
      assert unsent[i] in unsent && unsent[i] == Row(e.id, None, e.event);
    }
    forall r | r in rows && r.sentAt.None?
      ensures PendingEvent(r.id, r.event) in out || (|out| == limit && forall e <- out :: e.id < r.id)
    {
      var i :| 0 <= i < |unsent| && unsent[i] == r;
      if i < |out| {
        assert out[i] == PendingEvent(r.id, r.event);
      }
    }
  }

  lemma FirstIsNew(rows: seq<Row>, nextId: int)
    requires Ordered(rows, nextId) && rows != []
    ensures rows[0] !in rows[1..] && Ordered(rows[1..], nextId)
    ensures forall r :: r in rows <==> r == rows[0] || r in rows[1..]
  {
    OrderedTail(rows, nextId);
  }

  ghost function UnsentSet(rows: seq<Row>): set<Row> {
    set r | r in rows && r.sentAt.None?
  }

  lemma UnsentSetCons(rows: seq<Row>, nextId: int)
    requires Ordered(rows, nextId) && rows != []
    ensures UnsentSet(rows) == if rows[0].sentAt.None? then UnsentSet(rows[1..]) + {rows[0]} else UnsentSet(rows[1..])
    ensures rows[0] !in UnsentSet(rows[1..])
  {
    FirstIsNew(rows, nextId);
  }

  lemma {:induction false} UnsentCount(rows: seq<Row>, nextId: int)
    requires Ordered(rows, nextId)
    ensures |Unsent(rows)| == |UnsentSet(rows)|
  {
    if rows != [] {
      UnsentSetCons(rows, nextId);
      OrderedTail(rows, nextId);
      UnsentCount(rows[1..], nextId);
    }
  }

  /** How a scan of the rows moves through the unsent ones. */
  lemma UnsentFrom(rows: seq<Row>, i: nat, k: nat)
    requires i < |rows| && k <= |Unsent(rows)| && Unsent(rows)[k..] == Unsent(rows[i..])
    ensures if rows[i].sentAt.None?
            then k < |Unsent(rows)| && Unsent(rows)[k] == rows[i] && Unsent(rows)[k + 1..] == Unsent(rows[i + 1..])
            else Unsent(rows)[k..] == Unsent(rows[i + 1..])
  {
    assert rows[i..][1..] == rows[i + 1..];
    if rows[i].sentAt.None? {
      assert Unsent(rows)[k..][1..] == Unsent(rows)[k + 1..] && Unsent(rows)[k] == Unsent(rows)[k..][0];
    }
  }

  class EventQueue {
    var rows: seq<Row>
    var nextId: int

    ghost predicate Valid()
      reads this
    {
      Ordered(rows, nextId) && nextId > 0
    }

    constructor ()
      ensures Valid() && rows == [] && nextId == 1
    {
      rows, nextId := [], 1;
    }

    method Enqueue(event: Event) returns (id: int)
      requires Valid()
      modifies this
      ensures Valid() && id == old(nextId) && nextId == id + 1
      ensures rows == old(rows) + [Row(id, None, event)]
    {
      id := nextId;
      rows := rows + [Row(id, None, event)];
      nextId := nextId + 1;
    }

    method TakeBatch(limit: nat) returns (out: seq<PendingEvent>)
      requires Valid()
      ensures out == Batch(rows, limit)
    {
      out := [];
      var i := 0;
      while i < |rows| && |out| < limit
        invariant i <= |rows| && |out| <= limit
        invariant |out| + |Unsent(rows[i..])| == |Unsent(rows)|
        invariant forall k | 0 <= k < |out| :: out[k] == PendingEvent(Unsent(rows)[k].id, Unsent(rows)[k].event)
        invariant Unsent(rows)[|out|..] == Unsent(rows[i..])
      {
        UnsentFrom(rows, i, |out|);
        if rows[i].sentAt.None? {
          out := out + [PendingEvent(rows[i].id, rows[i].event)];
        }
        i := i + 1;
      }
    }

    method MarkSent(ids: seq<int>, now: int)
      requires Valid()
      modifies this`rows
      ensures Valid() && rows == MarkRows(old(rows), ids, now) && |rows| == |old(rows)|
      ensures forall i | 0 <= i < |rows| :: rows[i].id == old(rows)[i].id && rows[i].event == old(rows)[i].event
      ensures forall i | 0 <= i < |rows| ::
                rows[i].sentAt == if rows[i].id in ids then Some(now) else old(rows)[i].sentAt
    {
      if ids == [] {
        assert MarkRows(rows, ids, now) == rows;
        return;
      }
      rows := MarkRows(rows, ids, now);
      assert forall i | 0 <= i < |rows| :: rows[i].id == old(rows)[i].id && old(rows)[i] in old(rows);
    }

    method PurgeSentOlderThan(cutoff: int) returns (removed: nat)
      requires Valid()
      modifies this`rows
      ensures Valid() && rows == Kept(old(rows), cutoff) && Unsent(rows) == Unsent(old(rows))
      ensures forall r :: r in rows <==> r in old(rows) && (r.sentAt.None? || r.sentAt.value >= cutoff)
      ensures removed == |SentBefore(old(rows), cutoff)|
    {
      KeptIsSelection(rows, nextId, cutoff);
      PurgedCount(rows, nextId, cutoff);
      removed := |rows| - |Kept(rows, cutoff)|;
      rows := Kept(rows, cutoff);
    }

    method PendingCount() returns (count: nat)
      requires Valid()
      ensures count == |UnsentSet(rows)|
    {
      UnsentCount(rows, nextId);
      count := 0;
      for i := 0 to |rows|
        invariant count + |Unsent(rows[i..])| == |Unsent(rows)|
      {
        assert rows[i..][1..] == rows[i + 1..];
        if rows[i].sentAt.None? {
          count := count + 1;
        }
      }
    }
  }

  lemma {:induction false} KeptMembers(rows: seq<Row>, cutoff: int)
    ensures forall r :: r in Kept(rows, cutoff) <==> r in rows && !Purged(r, cutoff)
  {
    if rows != [] {
      assert forall r :: r in rows <==> r == rows[0] || r in rows[1..];
      KeptMembers(rows[1..], cutoff);
    }
  }

  lemma {:induction false} KeptUnsent(rows: seq<Row>, cutoff: int)
    ensures Unsent(Kept(rows, cutoff)) == Unsent(rows)
  {
    if rows != [] {
      KeptUnsent(rows[1..], cutoff);
      assert rows == [rows[0]] + rows[1..];
      UnsentConcat([rows[0]], rows[1..]);
      UnsentConcat([rows[0]], Kept(rows[1..], cutoff));
    }
  }

  lemma {:induction false} KeptInOrder(rows: seq<Row>, nextId: int, cutoff: int)
    requires Ordered(rows, nextId)
    ensures Ordered(Kept(rows, cutoff), nextId)
  {
    if rows != [] {
      OrderedTail(rows, nextId);
      KeptInOrder(rows[1..], nextId, cutoff);
      KeptMembers(rows[1..], cutoff);
      if !Purged(rows[0], cutoff) {
        OrderedCons(rows[0], Kept(rows[1..], cutoff), nextId);
      }
    }
  }

  ghost function SentBefore(rows: seq<Row>, cutoff: int): set<Row> {
    set r | r in rows && r.sentAt.Some? && r.sentAt.value < cutoff
  }

  lemma SentBeforeCons(rows: seq<Row>, nextId: int, cutoff: int)
    requires Ordered(rows, nextId) && rows != []
    ensures SentBefore(rows, cutoff) ==
            if Purged(rows[0], cutoff) then SentBefore(rows[1..], cutoff) + {rows[0]} else SentBefore(rows[1..], cutoff)
    ensures rows[0] !in SentBefore(rows[1..], cutoff)
  {
    FirstIsNew(rows, nextId);
  }

  lemma {:induction false} PurgedCount(rows: seq<Row>, nextId: int, cutoff: int)
    requires Ordered(rows, nextId)
    ensures |rows| - |Kept(rows, cutoff)| == |SentBefore(rows, cutoff)|
  {
    if rows != [] {
      SentBeforeCons(rows, nextId, cutoff);
      OrderedTail(rows, nextId);
      PurgedCount(rows[1..], nextId, cutoff);
    }
  }

  /** Purging never touches an unsent or recently sent row and keeps the order of the rest. */
  lemma KeptIsSelection(rows: seq<Row>, nextId: int, cutoff: int)
    requires Ordered(rows, nextId)
    ensures Ordered(Kept(rows, cutoff), nextId) && Unsent(Kept(rows, cutoff)) == Unsent(rows)
    ensures forall r :: r in Kept(rows, cutoff) <==> r in rows && (r.sentAt.None? || r.sentAt.value >= cutoff)
  {
    KeptMembers(rows, cutoff);
    KeptUnsent(rows, cutoff);
    KeptInOrder(rows, nextId, cutoff);
  }

  // ---------- the manager's events table ----------

  /** The primary key: a UUID and a TIMESTAMPTZ, which keeps whole microseconds. */
  type Key = (nat, int)

  type Table = map<Key, Event>

  function Micros(nanos: int): int {
    nanos / 1000
  }

  /** `generated` is the UUID generated if the event has none. */
  function KeyOf(e: Event, generated: nat): Key {
    (if e.eventId.Uuid? then e.eventId.id else generated, Micros(e.timestamp))
  }

  /** Two events with UUIDs share a row exactly when the UUIDs agree and the times lie in one microsecond. */
  lemma SameKeyExactly(a: Event, b: Event, g: nat, h: nat, micro: int)
    requires a.eventId.Uuid? && b.eventId.Uuid? && 1000 * micro <= a.timestamp < 1000 * micro + 1000
    ensures KeyOf(a, g) == KeyOf(b, h) <==>
              a.eventId.id == b.eventId.id && 1000 * micro <= b.timestamp < 1000 * micro + 1000
  {
  }

  /** One INSERT .. ON CONFLICT DO NOTHING. */
  function InsertEvent(table: Table, e: Event, generated: nat): Table {
    if KeyOf(e, generated) in table then table else table[KeyOf(e, generated) := e]
  }

  function InsertAll(table: Table, events: seq<Event>, generated: seq<nat>): (after: Table)
    requires |generated| == |events|
    ensures |table| <= |after|
    decreases |events|
  {
    if events == [] then table else InsertAll(InsertEvent(table, events[0], generated[0]), events[1..], generated[1..])
  }

  class EventStore {
    var table: Table

    constructor ()
      ensures table == map[]
    {
      table := map[];
    }

    /** The whole batch in one transaction; the result counts the rows that were new. */
    method InsertEventBatch(events: seq<Event>, generated: seq<nat>) returns (inserted: nat)
      requires |generated| == |events|
      modifies this
      ensures table == InsertAll(old(table), events, generated)
      ensures inserted == |table| - |old(table)|
    {
      inserted := 0;
      for i := 0 to |events|
        invariant InsertAll(table, events[i..], generated[i..]) == InsertAll(old(table), events, generated)
        invariant |table| == |old(table)| + inserted
      {
        assert events[i..][1..] == events[i + 1..] && generated[i..][1..] == generated[i + 1..];
        var key := KeyOf(events[i], generated[i]);
        if key !in table {
          table := table[key := events[i]];
          inserted := inserted + 1;
        }
      }
    }
  }

  ghost predicate HasKey(events: seq<Event>, k: Key) {
    exists e <- events :: KeyOf(e, 0) == k
  }

  lemma HasKeyCons(events: seq<Event>, k: Key)
    requires events != []
    ensures HasKey(events, k) <==> KeyOf(events[0], 0) == k || HasKey(events[1..], k)
  {
    if HasKey(events, k) {
      var e :| e in events && KeyOf(e, 0) == k;
      assert e == events[0] || e in events[1..];
    }
    assert events[0] in events;
    if HasKey(events[1..], k) {
      var e :| e in events[1..] && KeyOf(e, 0) == k;
      assert e in events;
    }
  }

  lemma {:induction false} InsertAllAtKey(table: Table, events: seq<Event>, generated: seq<nat>, k: Key)
    requires |generated| == |events| && forall e <- events :: e.eventId.Uuid?
    ensures var after := InsertAll(table, events, generated);
            && (k in after <==> k in table || HasKey(events, k))
            && (k in table ==> after[k] == table[k])
            && (k in after && k !in table ==> after[k] in events && KeyOf(after[k], 0) == k)
    decreases |events|
  {
    if events != [] {
      assert events[0] in events;
      HasKeyCons(events, k);
      InsertAllAtKey(InsertEvent(table, events[0], generated[0]), events[1..], generated[1..], k);
    }
  }

  /** A batch of well-formed events adds exactly its own keys and overwrites nothing. */
  lemma InsertAllAddsKeys(table: Table, events: seq<Event>, generated: seq<nat>)
    requires |generated| == |events| && forall e <- events :: e.eventId.Uuid?
    ensures var after := InsertAll(table, events, generated);
            && (forall k :: k in after <==> k in table || HasKey(events, k))
            && (forall k | k in table :: after[k] == table[k])
            && (forall k | k in after && k !in table :: after[k] in events && KeyOf(after[k], 0) == k)
  {
    var after := InsertAll(table, events, generated);
    forall k
      ensures k in after <==> k in table || HasKey(events, k)
      ensures k in table ==> after[k] == table[k]
      ensures k in after && k !in table ==> after[k] in events && KeyOf(after[k], 0) == k
    {
      InsertAllAtKey(table, events, generated, k);
    }
  }
}
