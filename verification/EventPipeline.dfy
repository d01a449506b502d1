/**
 Events from the agent's queue to the manager's table as a step system: enqueue, the uploader's
 take, send and mark with an abort possible between any two of them, purges, and the fate of every
 sent batch. Batches may be delivered in any order, which covers overlapping sessions.
 */
module EventPipeline {
  import opened Prelude
  import opened EventTables

  const BATCH_LIMIT := 50

  datatype Fate = InFlight | Inserted | Lost

  /** A sent batch; `first` is the position of its first event in the enqueue order. */
  datatype Sending = Sending(first: nat, events: seq<Event>, fate: Fate) {
    function End(): nat { first + |events| }
  }

  datatype Phase = Idle | Taken(batch: seq<PendingEvent>) | Sent(ids: seq<int>)

  datatype Pipe = Pipe(
    rows: seq<Row>,
    nextId: int,
    phase: Phase,
    sendings: seq<Sending>,
    table: Table,
    inserted: nat,         // sum of the counts the manager logged
    log: seq<Event>,       // history: every event in enqueue order
    released: nat,         // history: how many events mark_sent has marked
    purged: nat)           // history: how many rows purges have removed

  datatype Action =
    | Enqueue(event: Event)
    | Take
    | Send
    | Mark(now: int)
    | Abort
    | Purge(cutoff: int)
    | Deliver(i: nat, generated: seq<nat>)
    | Lose(i: nat)  // the stream breaks, or the insert transaction fails

  ghost predicate Initial(p: Pipe) {
    && p.rows == [] && p.nextId == 1 && p.phase.Idle? && p.sendings == [] && p.table == map[] && p.inserted == 0
    && p.log == [] && p.released == 0 && p.purged == 0
  }

  predicate Enabled(p: Pipe, a: Action) {
    match a
    case Take => p.phase.Idle?
    case Send => p.phase.Taken? && p.phase.batch != [] && p.phase.batch[0].id > 0
    case Mark(_) => p.phase.Sent?
    case Deliver(i, g) => i < |p.sendings| && p.sendings[i].fate.InFlight? && |g| == |p.sendings[i].events|
    case Lose(i) => i < |p.sendings| && p.sendings[i].fate.InFlight?
    case _ => true
  }

  function Next(p: Pipe, a: Action): Pipe
    requires Enabled(p, a)
  {
    match a
    case Enqueue(e) =>
      p.(rows := p.rows + [Row(p.nextId, None, e)], nextId := p.nextId + 1, log := p.log + [e])
    case Take =>
      var batch := Batch(p.rows, BATCH_LIMIT);
      if batch == [] then p else p.(phase := Taken(batch))
    case Send =>
      var batch := p.phase.batch;
      var ids := seq(|batch|, i requires 0 <= i < |batch| => batch[i].id);
      var events := seq(|batch|, i requires 0 <= i < |batch| => batch[i].event);
      p.(phase := Sent(ids), sendings := p.sendings + [Sending(batch[0].id - 1, events, InFlight)])
    case Mark(now) =>
      p.(rows := MarkRows(p.rows, p.phase.ids, now), phase := Idle, released := p.released + |p.phase.ids|)
    case Abort =>
      p.(phase := Idle)
    case Purge(cutoff) =>
      var kept := Kept(p.rows, cutoff);
      p.(rows := kept, purged := p.purged + |p.rows| - |kept|)
    case Deliver(i, g) =>
      var table := InsertAll(p.table, p.sendings[i].events, g);
      p.(table := table, sendings := p.sendings[i := p.sendings[i].(fate := Inserted)],
         inserted := p.inserted + |table| - |p.table|)
    case Lose(i) =>
      p.(sendings := p.sendings[i := p.sendings[i].(fate := Lost)])
  }

  ghost predicate Run(p: Pipe, actions: seq<Action>, q: Pipe)
    decreases |actions|
  {
    if actions == [] then p == q
    else Enabled(p, actions[0]) && Run(Next(p, actions[0]), actions[1..], q)
  }

  // ---------- the queue: a purgeable sent part, then every event not yet marked ----------

  function PendingRows(log: seq<Event>, released: nat): seq<Row>
    requires released <= |log|
  {
    seq(|log| - released, i requires 0 <= i < |log| - released => Row(released + 1 + i, None, log[released + i]))
  }

  function SentCount(p: Pipe): int {
    |p.rows| - (|p.log| - p.released)
  }

  ghost predicate QueueInv(p: Pipe) {
    && p.nextId == |p.log| + 1
    && p.released <= |p.log|
    && 0 <= SentCount(p) && p.purged + SentCount(p) == p.released
    && p.rows[SentCount(p)..] == PendingRows(p.log, p.released)
    && (forall i, j | 0 <= i < j < SentCount(p) :: p.rows[i].id < p.rows[j].id)
    && (forall i | 0 <= i < SentCount(p) :: SentRow(p, p.rows[i]))
  }

  ghost predicate SentRow(p: Pipe, r: Row) {
    r.sentAt.Some? && 0 < r.id <= p.released && r.id <= |p.log| && r.event == p.log[r.id - 1]
  }

  lemma {:induction false} AllUnsent(rows: seq<Row>)
    requires forall r <- rows :: r.sentAt.None?
    ensures Unsent(rows) == rows
  {
    if rows != [] {
      AllUnsent(rows[1..]);
    }
  }

  lemma {:induction false} NoneUnsent(rows: seq<Row>)
    requires forall r <- rows :: r.sentAt.Some?
    ensures Unsent(rows) == []
  {
    if rows != [] {
      NoneUnsent(rows[1..]);
    }
  }

  lemma {:induction false} AllKept(rows: seq<Row>, cutoff: int)
    requires forall r <- rows :: r.sentAt.None?
    ensures Kept(rows, cutoff) == rows
  {
    if rows != [] {
      AllKept(rows[1..], cutoff);
    }
  }

  lemma UnsentIsPending(p: Pipe)
    requires QueueInv(p)
    ensures Unsent(p.rows) == PendingRows(p.log, p.released)
  {
    var s := SentCount(p);
    assert p.rows == p.rows[..s] + p.rows[s..];
    UnsentConcat(p.rows[..s], p.rows[s..]);
    NoneUnsent(p.rows[..s]);
    AllUnsent(p.rows[s..]);
  }

  /** The events at positions first, first + 1, .. of the enqueue order, as take_batch returns them. */
  function Slice(log: seq<Event>, first: nat, count: nat): seq<PendingEvent>
    requires first + count <= |log|
  {
    seq(count, i requires 0 <= i < count => PendingEvent(first + 1 + i, log[first + i]))
  }

  // ---------- the uploader and the chain of sent batches ----------

  ghost predicate PhaseInv(p: Pipe) {
    match p.phase
    case Idle => true
    case Taken(b) => 0 < |b| <= BATCH_LIMIT && p.released + |b| <= |p.log| && b == Slice(p.log, p.released, |b|)
    case Sent(ids) => 0 < |ids| <= BATCH_LIMIT && p.released + |ids| <= |p.log|
                      && ids == seq(|ids|, i => p.released + 1 + i)
  }

  /** A batch is a run of at most 50 consecutive events. */
  ghost predicate IsSlice(log: seq<Event>, s: Sending) {
    0 < |s.events| <= BATCH_LIMIT && s.End() <= |log| && s.events == log[s.first..s.End()]
  }

  /** The next batch starts where the last one did (a resend) or where it ended, and reaches no less far. */
  predicate Follows(a: Sending, b: Sending) {
    (b.first == a.first || b.first == a.End()) && a.End() <= b.End()
  }

  ghost predicate Chained(sendings: seq<Sending>) {
    && (sendings != [] ==> sendings[0].first == 0)
    && (forall i | 0 < i < |sendings| :: Follows(sendings[i - 1], sendings[i]))
  }

  /** How far the sent batches reach. */
  function Reach(sendings: seq<Sending>): nat {
    if sendings == [] then 0 else sendings[|sendings| - 1].End()
  }

  ghost predicate IsChain(log: seq<Event>, sendings: seq<Sending>) {
    (forall s <- sendings :: IsSlice(log, s)) && Chained(sendings)
  }

  ghost predicate ChainInv(p: Pipe) {
    && IsChain(p.log, p.sendings)
    && (p.sendings == [] ==> p.released == 0 && !p.phase.Sent?)
    && (p.sendings != [] ==>
          var last := p.sendings[|p.sendings| - 1];
          (p.released == last.first || p.released == last.End())
          && (p.phase.Sent? ==> p.released == last.first && p.released + |p.phase.ids| == last.End())
          && (p.phase.Taken? ==> last.End() <= p.released + |p.phase.batch|))
  }

  ghost predicate Inv(p: Pipe) {
    QueueInv(p) && PhaseInv(p) && ChainInv(p)
  }

  lemma PendingRowsSnoc(log: seq<Event>, released: nat, e: Event)
    requires released <= |log|
    ensures PendingRows(log + [e], released) == PendingRows(log, released) + [Row(|log| + 1, None, e)]
  {
  }

  lemma DropSnoc<T>(a: seq<T>, x: T, k: nat)
    requires k <= |a|
    ensures (a + [x])[k..] == a[k..] + [x]
  {
  }

  lemma EnqueueQueue(p: Pipe, e: Event)
    requires QueueInv(p)
    ensures QueueInv(Next(p, Enqueue(e)))
  {
    var q := Next(p, Enqueue(e));
    PendingRowsSnoc(p.log, p.released, e);
    DropSnoc(p.rows, Row(p.nextId, None, e), SentCount(p));
    forall i | 0 <= i < SentCount(q) ensures q.rows[i] == p.rows[i] && SentRow(q, q.rows[i]) {
      assert SentRow(p, p.rows[i]);
    }
  }

  lemma SliceOfLonger(log: seq<Event>, e: Event, s: Sending)
    requires IsSlice(log, s)
    ensures IsSlice(log + [e], s)
  {
    assert (log + [e])[s.first..s.End()] == log[s.first..s.End()];
  }

  lemma PendingOfLonger(log: seq<Event>, e: Event, first: nat, count: nat)
    requires first + count <= |log|
    ensures Slice(log + [e], first, count) == Slice(log, first, count)
  {
  }

  lemma EnqueueStep(p: Pipe, e: Event)
    requires Inv(p)
    ensures Inv(Next(p, Enqueue(e)))
  {
    EnqueueQueue(p, e);
    if p.phase.Taken? {
      PendingOfLonger(p.log, e, p.released, |p.phase.batch|);
    }
    forall s | s in p.sendings ensures IsSlice(p.log + [e], s) {
      SliceOfLonger(p.log, e, s);
    }
  }

  /** The next batch is the first 50 events not yet marked. */
  lemma BatchIsSlice(p: Pipe)
    requires QueueInv(p)
    ensures Batch(p.rows, BATCH_LIMIT) == Slice(p.log, p.released, Min(BATCH_LIMIT, |p.log| - p.released))
  {
    UnsentIsPending(p);
    var k := Min(BATCH_LIMIT, |p.log| - p.released);
    var batch := Batch(p.rows, BATCH_LIMIT);
    assert |batch| == k;
    forall i | 0 <= i < k ensures batch[i] == Slice(p.log, p.released, k)[i] {
      assert Unsent(p.rows)[i] == PendingRows(p.log, p.released)[i];
    }
  }

  lemma ReachInLog(log: seq<Event>, sendings: seq<Sending>)
    requires IsChain(log, sendings)
    ensures Reach(sendings) <= |log|
    ensures sendings != [] ==> IsSlice(log, sendings[|sendings| - 1])
  {
    if sendings != [] {
      assert sendings[|sendings| - 1] in sendings;
    }
  }

  lemma TakeStep(p: Pipe)
    requires Inv(p) && p.phase.Idle?
    ensures Inv(Next(p, Take))
    ensures Next(p, Take).phase ==
            if p.released == |p.log| then Idle
            else Taken(Slice(p.log, p.released, Min(BATCH_LIMIT, |p.log| - p.released)))
  {
    BatchIsSlice(p);
    ReachInLog(p.log, p.sendings);
    var q := Next(p, Take);
    assert q == p.(phase := q.phase);
  }

  lemma SendStep(p: Pipe)
    requires Inv(p) && Enabled(p, Send)
    ensures Inv(Next(p, Send))
  {
    var q := Next(p, Send);
    var sent := q.sendings[|p.sendings|];
    assert sent.events == p.log[sent.first..sent.End()];
    forall i | 0 < i < |q.sendings| ensures Follows(q.sendings[i - 1], q.sendings[i]) {
      if i < |p.sendings| {
        assert Follows(p.sendings[i - 1], p.sendings[i]);
      }
    }
  }

  lemma MarkedRow(p: Pipe, now: int, i: nat)
    requires QueueInv(p) && PhaseInv(p) && p.phase.Sent? && i < |p.rows|
    ensures var s, k, r := SentCount(p), |p.phase.ids|, MarkRows(p.rows, p.phase.ids, now)[i];
            if s <= i < s + k then r == Row(p.released + 1 + i - s, Some(now), p.log[p.released + i - s])
            else r == p.rows[i]
  {
    var s, k := SentCount(p), |p.phase.ids|;
    if i < s {
      assert SentRow(p, p.rows[i]);
    } else {
      assert p.rows[i] == p.rows[s..][i - s];
      if i < s + k {
        assert p.phase.ids[i - s] == p.rows[i].id;
      }
    }
  }

  lemma RowsAscend(p: Pipe, i: nat, j: nat)
    requires QueueInv(p) && i < j < |p.rows|
    ensures p.rows[i].id < p.rows[j].id
  {
    var s := SentCount(p);
    if s <= j {
      assert p.rows[j] == p.rows[s..][j - s];
      if s <= i {
        assert p.rows[i] == p.rows[s..][i - s];
      } else {
        assert SentRow(p, p.rows[i]);
      }
    }
  }

  lemma MarkedPart(p: Pipe, now: int, i: nat)
    requires QueueInv(p) && PhaseInv(p) && p.phase.Sent? && i < SentCount(p) + |p.phase.ids|
    ensures i < |p.rows| && SentRow(Next(p, Mark(now)), Next(p, Mark(now)).rows[i])
  {
    MarkedRow(p, now, i);
    if i < SentCount(p) {
      assert SentRow(p, p.rows[i]);
    }
  }

  lemma MarkedRest(p: Pipe, now: int, i: nat)
    requires QueueInv(p) && PhaseInv(p) && p.phase.Sent?
    requires var q := Next(p, Mark(now)); i < |PendingRows(q.log, q.released)|
    ensures var q := Next(p, Mark(now));
            var split := SentCount(p) + |p.phase.ids|;
            split + i < |q.rows| && q.rows[split + i] == PendingRows(q.log, q.released)[i]
  {
    var split := SentCount(p) + |p.phase.ids|;
    MarkedRow(p, now, split + i);
    assert p.rows[split + i] == p.rows[SentCount(p)..][|p.phase.ids| + i];
  }

  lemma MarkedTail(p: Pipe, now: int)
    requires QueueInv(p) && PhaseInv(p) && p.phase.Sent?
    ensures var q := Next(p, Mark(now));
            && q.released <= |q.log| && SentCount(q) == SentCount(p) + |p.phase.ids|
            && q.rows[SentCount(q)..] == PendingRows(q.log, q.released)
  {
    var q := Next(p, Mark(now));
    var rest := PendingRows(q.log, q.released);
    forall i | 0 <= i < |rest| ensures q.rows[SentCount(q)..][i] == rest[i] {
      MarkedRest(p, now, i);
    }
  }

  lemma MarkQueue(p: Pipe, now: int)
    requires QueueInv(p) && PhaseInv(p) && p.phase.Sent?
    ensures QueueInv(Next(p, Mark(now)))
  {
    var q := Next(p, Mark(now));
    MarkedTail(p, now);
    forall i | 0 <= i < SentCount(q) ensures SentRow(q, q.rows[i]) {
      MarkedPart(p, now, i);
    }
    forall i, j | 0 <= i < j < SentCount(q) ensures q.rows[i].id < q.rows[j].id {
      RowsAscend(p, i, j);
    }
  }

  lemma MarkStep(p: Pipe, now: int)
    requires Inv(p) && Enabled(p, Mark(now))
    ensures Inv(Next(p, Mark(now)))
  {
    MarkQueue(p, now);
  }

  /** A purge keeps the pending rows and takes only from the sent ones. */
  lemma PurgeSplits(p: Pipe, cutoff: int)
    requires QueueInv(p)
    ensures var s := SentCount(p);
            Kept(p.rows, cutoff) == Kept(p.rows[..s], cutoff) + p.rows[s..]
  {
    var s := SentCount(p);
    assert p.rows == p.rows[..s] + p.rows[s..];
    KeptConcat(p.rows[..s], p.rows[s..], cutoff);
    AllKept(p.rows[s..], cutoff);
  }

  lemma PurgedSentRows(p: Pipe, cutoff: int)
    requires QueueInv(p)
    ensures var kept := Kept(p.rows[..SentCount(p)], cutoff);
            && (forall i | 0 <= i < |kept| :: SentRow(p, kept[i]))
            && (forall i, j | 0 <= i < j < |kept| :: kept[i].id < kept[j].id)
  {
    var sent := p.rows[..SentCount(p)];
    forall r | r in sent ensures SentRow(p, r) {
      var i :| 0 <= i < |sent| && sent[i] == r;
    }
    assert Ordered(sent, p.nextId);
    KeptIsSelection(sent, p.nextId, cutoff);
    var kept := Kept(sent, cutoff);
    forall i | 0 <= i < |kept| ensures SentRow(p, kept[i]) {
      assert kept[i] in kept;
    }
  }

  lemma PurgeQueue(p: Pipe, cutoff: int)
    requires QueueInv(p)
    ensures QueueInv(Next(p, Purge(cutoff)))
  {
    var q := Next(p, Purge(cutoff));
    var kept := Kept(p.rows[..SentCount(p)], cutoff);
    PurgeSplits(p, cutoff);
    PurgedSentRows(p, cutoff);
    assert SentCount(q) == |kept|;
    assert q.rows[|kept|..] == p.rows[SentCount(p)..];
    forall i | 0 <= i < |kept| ensures q.rows[i] == kept[i] && SentRow(q, q.rows[i]) {
      assert SentRow(p, kept[i]);
    }
  }

  lemma PurgeStep(p: Pipe, cutoff: int)
    requires Inv(p)
    ensures Inv(Next(p, Purge(cutoff)))
  {
    PurgeQueue(p, cutoff);
  }

  lemma ChainAfterFate(log: seq<Event>, sendings: seq<Sending>, n: nat, fate: Fate)
    requires IsChain(log, sendings) && n < |sendings|
    ensures IsChain(log, sendings[n := sendings[n].(fate := fate)])
  {
    var after := sendings[n := sendings[n].(fate := fate)];
    forall s | s in after ensures IsSlice(log, s) {
      var m :| 0 <= m < |after| && after[m] == s;
      assert IsSlice(log, sendings[m]);
    }
    forall i | 0 < i < |after| ensures Follows(after[i - 1], after[i]) {
      assert Follows(sendings[i - 1], sendings[i]);
    }
  }

  lemma FateStep(p: Pipe, n: nat, fate: Fate, q: Pipe)
    requires Inv(p) && n < |p.sendings|
    requires q == p.(sendings := p.sendings[n := p.sendings[n].(fate := fate)],
                     table := q.table, inserted := q.inserted)
    ensures Inv(q)
  {
    ChainAfterFate(p.log, p.sendings, n, fate);
  }

  lemma AbortStep(p: Pipe)
    requires Inv(p)
    ensures Inv(Next(p, Abort))
  {
  }

  lemma Step(p: Pipe, a: Action)
    requires Inv(p) && Enabled(p, a)
    ensures Inv(Next(p, a))
  {
    match a
    case Enqueue(e) => EnqueueStep(p, e);
    case Take => TakeStep(p);
    case Send => SendStep(p);
    case Mark(now) => MarkStep(p, now);
    case Purge(cutoff) => PurgeStep(p, cutoff);
    case Deliver(i, _) => FateStep(p, i, Inserted, Next(p, a));
    case Lose(i) => FateStep(p, i, Lost, Next(p, a));
    case Abort => AbortStep(p);
  }

  lemma {:induction false} RunKeepsInv(p: Pipe, actions: seq<Action>, q: Pipe)
    requires Inv(p) && Run(p, actions, q)
    ensures Inv(q)
    decreases |actions|
  {
    if actions != [] {
      Step(p, actions[0]);
      RunKeepsInv(Next(p, actions[0]), actions[1..], q);
    }
  }

  lemma InvFacts(p: Pipe)
    requires Inv(p)
    ensures QueueInv(p) && IsChain(p.log, p.sendings) && p.released <= Reach(p.sendings) <= |p.log|
  {
    ReachInLog(p.log, p.sendings);
  }

  lemma ReachableFacts(p: Pipe, actions: seq<Action>, q: Pipe)
    requires Initial(p) && Run(p, actions, q)
    ensures QueueInv(q) && IsChain(q.log, q.sendings) && q.released <= Reach(q.sendings) <= |q.log|
  {
    RunKeepsInv(p, actions, q);
    InvFacts(q);
  }

  lemma SentRowsFirst(p: Pipe, i: nat)
    requires QueueInv(p) && i < |p.rows|
    ensures p.rows[i].sentAt.Some? <==> i < SentCount(p)
  {
    if i < SentCount(p) {
      assert SentRow(p, p.rows[i]);
    } else {
      assert p.rows[i] == p.rows[SentCount(p)..][i - SentCount(p)];
    }
  }

  /**
   In every run the unsent rows are exactly the events not yet marked, in order; every sent row
   precedes every pending one; nothing is marked before it was in a sent batch; and every event is
   pending, sent or purged.
   */
  lemma QueueConserves(p: Pipe, actions: seq<Action>, q: Pipe)
    requires Initial(p) && Run(p, actions, q)
    ensures q.released <= Reach(q.sendings) <= |q.log|
    ensures Unsent(q.rows) == PendingRows(q.log, q.released)
    ensures forall i, j | 0 <= i < |q.rows| && 0 <= j < |q.rows| && q.rows[i].sentAt.Some? && q.rows[j].sentAt.None? ::
              q.rows[i].id < q.rows[j].id
    ensures |q.log| == |q.rows| + q.purged
  {
    ReachableFacts(p, actions, q);
    UnsentIsPending(q);
    forall i, j | 0 <= i < |q.rows| && 0 <= j < |q.rows| && q.rows[i].sentAt.Some? && q.rows[j].sentAt.None?
      ensures q.rows[i].id < q.rows[j].id
    {
      SentRowsFirst(q, i);
      SentRowsFirst(q, j);
      RowsAscend(q, i, j);
    }
  }

  /** What a reader of the batches holds that drops the events it has already seen. */
  function Collected(sendings: seq<Sending>): seq<Event> {
    if sendings == [] then []
    else
      var last := sendings[|sendings| - 1];
      var before := Collected(sendings[..|sendings| - 1]);
      if last.first <= |before| <= last.End() then before + last.events[|before| - last.first..] else before
  }

  lemma JoinSlices(log: seq<Event>, have: nat, first: nat, end: nat)
    requires first <= have <= end <= |log|
    ensures log[..have] + log[first..end][have - first..] == log[..end]
  {
    assert log[first..end][have - first..] == log[have..end];
  }

  lemma {:induction false} CollectedIsPrefix(log: seq<Event>, sendings: seq<Sending>)
    requires IsChain(log, sendings)
    ensures Reach(sendings) <= |log| && Collected(sendings) == log[..Reach(sendings)]
  {
    if sendings != [] {
      var front, last := sendings[..|sendings| - 1], sendings[|sendings| - 1];
      assert IsSlice(log, last);
      CollectedIsPrefix(log, front);
      var before := Collected(front);
      if front != [] {
        assert Follows(front[|front| - 1], last);
        assert IsSlice(log, front[|front| - 1]);
      }
      JoinSlices(log, |before|, last.first, last.End());
    }
  }

  /**
   Every batch is the next run of at most 50 events, starting where the previous batch started or
   ended; with the repeats dropped the batches are exactly a prefix of the enqueue order.
   */
  lemma BatchesFormPrefix(p: Pipe, actions: seq<Action>, q: Pipe)
    requires Initial(p) && Run(p, actions, q)
    ensures IsChain(q.log, q.sendings)
    ensures Reach(q.sendings) <= |q.log| && Collected(q.sendings) == q.log[..Reach(q.sendings)]
    ensures forall s <- q.sendings :: 0 < |s.events| <= 50
  {
    ReachableFacts(p, actions, q);
    CollectedIsPrefix(q.log, q.sendings);
  }

  // ---------- the manager's table ----------

  ghost predicate WellFormed(log: seq<Event>) {
    forall i | 0 <= i < |log| :: log[i].eventId.Uuid?
  }

  ghost predicate DistinctKeys(log: seq<Event>) {
    forall i, j | 0 <= i < j < |log| :: KeyOf(log[i], 0) != KeyOf(log[j], 0)
  }

  predicate Carries(s: Sending, i: nat) {
    s.first <= i < s.End()
  }

  /** An inserted batch carries the event at position `i`. */
  ghost predicate Delivered(sendings: seq<Sending>, i: nat) {
    exists n :: 0 <= n < |sendings| && sendings[n].fate.Inserted? && Carries(sendings[n], i)
  }

  ghost predicate HoldsEvent(log: seq<Event>, sendings: seq<Sending>, table: Table, k: Key, i: nat) {
    && k in table
    && i < |log| && table[k] == log[i] && KeyOf(log[i], 0) == k
    && Delivered(sendings, i)
  }

  ghost predicate Held(log: seq<Event>, sendings: seq<Sending>, table: Table, k: Key) {
    exists i: nat :: HoldsEvent(log, sendings, table, k, i)
  }

  /** The table holds the delivered events under their own keys, and nothing else. */
  ghost predicate TableInv(log: seq<Event>, sendings: seq<Sending>, table: Table) {
    && (forall k | k in table :: Held(log, sendings, table, k))
    && (forall i: nat | i < |log| && Delivered(sendings, i) :: KeyOf(log[i], 0) in table)
  }

  lemma DeliveredAfterFate(sendings: seq<Sending>, n: nat, fate: Fate, i: nat)
    requires n < |sendings| && sendings[n].fate.InFlight?
    ensures Delivered(sendings[n := sendings[n].(fate := fate)], i) <==>
            Delivered(sendings, i) || (fate.Inserted? && Carries(sendings[n], i))
  {
    var after := sendings[n := sendings[n].(fate := fate)];
    if Delivered(sendings, i) {
      var m :| 0 <= m < |sendings| && sendings[m].fate.Inserted? && Carries(sendings[m], i);
      assert after[m] == sendings[m];
    }
    if fate.Inserted? && Carries(sendings[n], i) {
      assert after[n].fate.Inserted? && Carries(after[n], i);
    }
  }

  lemma HeldInBatch(log: seq<Event>, s: Sending, after: seq<Sending>, table: Table, k: Key)
    requires IsSlice(log, s) && k in table && table[k] in s.events && KeyOf(table[k], 0) == k
    requires forall i: nat | Carries(s, i) :: Delivered(after, i)
    ensures Held(log, after, table, k)
  {
    var j :| 0 <= j < |s.events| && s.events[j] == table[k];
    assert log[s.first + j] == s.events[j] && Carries(s, s.first + j);
    assert HoldsEvent(log, after, table, k, s.first + j);
  }

  lemma HeldBefore(log: seq<Event>, before: seq<Sending>, after: seq<Sending>, table: Table, table': Table, k: Key)
    requires Held(log, before, table, k) && k in table' && table'[k] == table[k]
    requires forall i: nat | Delivered(before, i) :: Delivered(after, i)
    ensures Held(log, after, table', k)
  {
    var i: nat :| HoldsEvent(log, before, table, k, i);
    assert HoldsEvent(log, after, table', k, i);
  }

  lemma CarriedKey(log: seq<Event>, s: Sending, i: nat)
    requires IsSlice(log, s) && Carries(s, i)
    ensures i < |log| && HasKey(s.events, KeyOf(log[i], 0))
  {
    assert s.events[i - s.first] == log[i];
  }

  /** Delivering one more batch, in terms of what it adds. */
  lemma TableGrows(log: seq<Event>, s: Sending, before: seq<Sending>, after: seq<Sending>, table: Table, table': Table)
    requires TableInv(log, before, table) && IsSlice(log, s)
    requires forall i: nat :: Delivered(after, i) <==> Delivered(before, i) || Carries(s, i)
    requires forall k :: k in table' <==> k in table || HasKey(s.events, k)
    requires forall k | k in table :: table'[k] == table[k]
    requires forall k | k in table' && k !in table :: table'[k] in s.events && KeyOf(table'[k], 0) == k
    ensures TableInv(log, after, table')
  {
    forall k | k in table' ensures Held(log, after, table', k) {
      if k in table {
        HeldBefore(log, before, after, table, table', k);
      } else {
        HeldInBatch(log, s, after, table', k);
      }
    }
    forall i: nat | i < |log| && Delivered(after, i) ensures KeyOf(log[i], 0) in table' {
      if Carries(s, i) {
        CarriedKey(log, s, i);
      }
    }
  }

  lemma DeliverTable(log: seq<Event>, sendings: seq<Sending>, table: Table, n: nat, generated: seq<nat>)
    requires WellFormed(log) && TableInv(log, sendings, table)
    requires n < |sendings| && sendings[n].fate.InFlight? && IsSlice(log, sendings[n])
    requires |generated| == |sendings[n].events|
    ensures TableInv(log, sendings[n := sendings[n].(fate := Inserted)],
                     InsertAll(table, sendings[n].events, generated))
  {
    var s := sendings[n];
    var after := sendings[n := s.(fate := Inserted)];
    InsertAllAddsKeys(table, s.events, generated);
    forall i: nat ensures Delivered(after, i) <==> Delivered(sendings, i) || Carries(s, i) {
      DeliveredAfterFate(sendings, n, Inserted, i);
    }
    TableGrows(log, s, sendings, after, table, InsertAll(table, s.events, generated));
  }

  /** A step that delivers nothing new keeps the table right. */
  lemma TableFrame(log: seq<Event>, sendings: seq<Sending>, log': seq<Event>, sendings': seq<Sending>, table: Table)
    requires TableInv(log, sendings, table) && log <= log'
    requires forall i: nat :: Delivered(sendings', i) <==> Delivered(sendings, i)
    requires forall i: nat | Delivered(sendings, i) :: i < |log|
    ensures TableInv(log', sendings', table)
  {
    forall k | k in table ensures Held(log', sendings', table, k) {
      assert Held(log, sendings, table, k);
      var i: nat :| HoldsEvent(log, sendings, table, k, i);
      assert HoldsEvent(log', sendings', table, k, i);
    }
  }

  lemma DeliveredInLog(log: seq<Event>, sendings: seq<Sending>, i: nat)
    requires IsChain(log, sendings) && Delivered(sendings, i)
    ensures i < |log|
  {
    var n :| 0 <= n < |sendings| && sendings[n].fate.Inserted? && Carries(sendings[n], i);
    assert IsSlice(log, sendings[n]);
  }

  lemma SameDelivered(p: Pipe, a: Action, i: nat)
    requires Enabled(p, a) && !a.Deliver?
    ensures Delivered(Next(p, a).sendings, i) <==> Delivered(p.sendings, i)
  {
    if a.Lose? {
      DeliveredAfterFate(p.sendings, a.i, Lost, i);
    } else if Delivered(p.sendings, i) {
      var m :| 0 <= m < |p.sendings| && p.sendings[m].fate.Inserted? && Carries(p.sendings[m], i);
      assert Next(p, a).sendings[m] == p.sendings[m];
    }
  }

  lemma OtherStep(p: Pipe, a: Action)
    requires Enabled(p, a) && !a.Deliver?
    ensures var q := Next(p, a); p.log <= q.log && q.table == p.table && q.inserted == p.inserted
  {
  }

  lemma OtherTableStep(p: Pipe, a: Action, q: Pipe)
    requires IsChain(p.log, p.sendings) && Enabled(p, a) && !a.Deliver? && q == Next(p, a)
    requires TableInv(p.log, p.sendings, p.table)
    ensures TableInv(q.log, q.sendings, q.table)
  {
    OtherStep(p, a);
    forall i: nat
      ensures Delivered(q.sendings, i) <==> Delivered(p.sendings, i)
      ensures Delivered(p.sendings, i) ==> i < |p.log|
    {
      SameDelivered(p, a, i);
      if Delivered(p.sendings, i) {
        DeliveredInLog(p.log, p.sendings, i);
      }
    }
    TableFrame(p.log, p.sendings, q.log, q.sendings, p.table);
  }

  lemma TableStep(p: Pipe, a: Action, q: Pipe)
    requires IsChain(p.log, p.sendings) && WellFormed(p.log) && Enabled(p, a) && q == Next(p, a)
    requires TableInv(p.log, p.sendings, p.table) && p.inserted == |p.table|
    ensures TableInv(q.log, q.sendings, q.table) && q.inserted == |q.table|
  {
    if a.Deliver? {
      assert p.sendings[a.i] in p.sendings;
      DeliverTable(p.log, p.sendings, p.table, a.i, a.generated);
    } else {
      OtherTableStep(p, a, q);
      OtherStep(p, a);
    }
  }

  lemma {:induction false} LogGrows(p: Pipe, actions: seq<Action>, q: Pipe)
    requires Run(p, actions, q)
    ensures p.log <= q.log
    decreases |actions|
  {
    if actions != [] {
      LogGrows(Next(p, actions[0]), actions[1..], q);
    }
  }

  lemma {:induction false} RunKeepsTable(p: Pipe, actions: seq<Action>, q: Pipe)
    requires Inv(p) && TableInv(p.log, p.sendings, p.table) && p.inserted == |p.table|
    requires Run(p, actions, q) && WellFormed(q.log)
    ensures TableInv(q.log, q.sendings, q.table) && q.inserted == |q.table|
    decreases |actions|
  {
    if actions != [] {
      LogGrows(p, actions, q);
      assert forall i | 0 <= i < |p.log| :: p.log[i] == q.log[i];
      Step(p, actions[0]);
      TableStep(p, actions[0], Next(p, actions[0]));
      RunKeepsTable(Next(p, actions[0]), actions[1..], q);
    }
  }

  lemma EmptyQueue(p: Pipe)
    requires Initial(p)
    ensures QueueInv(p)
  {
    assert |PendingRows(p.log, 0)| == 0 && |p.rows[0..]| == 0;
  }

  lemma EmptyChain(p: Pipe)
    requires Initial(p)
    ensures PhaseInv(p) && ChainInv(p)
  {
  }

  lemma EmptyTable(sendings: seq<Sending>)
    ensures TableInv([], sendings, map[])
  {
  }

  lemma InitialFacts(p: Pipe)
    requires Initial(p)
    ensures Inv(p) && TableInv(p.log, p.sendings, p.table) && p.inserted == |p.table|
  {
    EmptyQueue(p);
    EmptyChain(p);
    EmptyTable(p.sendings);
  }

  lemma ReachableTable(p: Pipe, actions: seq<Action>, q: Pipe)
    requires Initial(p) && Run(p, actions, q) && WellFormed(q.log)
    ensures TableInv(q.log, q.sendings, q.table) && q.inserted == |q.table|
  {
    InitialFacts(p);
    RunKeepsTable(p, actions, q);
  }

  lemma StoredExactlyWhenDelivered(p: Pipe, i: nat)
    requires TableInv(p.log, p.sendings, p.table) && DistinctKeys(p.log) && i < |p.log|
    ensures KeyOf(p.log[i], 0) in p.table <==> Delivered(p.sendings, i)
    ensures KeyOf(p.log[i], 0) in p.table ==> p.table[KeyOf(p.log[i], 0)] == p.log[i]
  {
    var k := KeyOf(p.log[i], 0);
    if k in p.table {
      assert Held(p.log, p.sendings, p.table, k);
      var j: nat :| HoldsEvent(p.log, p.sendings, p.table, k, j);
      assert i == j;
    }
  }

  lemma {:induction false} SomeBatchCarries(log: seq<Event>, sendings: seq<Sending>, i: nat) returns (n: nat)
    requires IsChain(log, sendings) && i < Reach(sendings)
    ensures n < |sendings| && Carries(sendings[n], i)
  {
    var front, last := sendings[..|sendings| - 1], sendings[|sendings| - 1];
    if last.first <= i {
      n := |sendings| - 1;
    } else {
      assert Follows(front[|front| - 1], last);
      assert IsSlice(log, front[|front| - 1]);
      n := SomeBatchCarries(log, front, i);
    }
  }

  lemma {:induction false} EndsWithinReach(log: seq<Event>, sendings: seq<Sending>, n: nat)
    requires IsChain(log, sendings) && n < |sendings|
    ensures sendings[n].End() <= Reach(sendings)
  {
    var front, last := sendings[..|sendings| - 1], sendings[|sendings| - 1];
    if n < |front| {
      EndsWithinReach(log, front, n);
      assert Follows(front[|front| - 1], last);
    }
  }

  function KeysBelow(log: seq<Event>, h: nat): set<Key>
    requires h <= |log|
  {
    set i | 0 <= i < h :: KeyOf(log[i], 0)
  }

  lemma {:induction false} KeysCount(log: seq<Event>, h: nat)
    requires h <= |log| && DistinctKeys(log)
    ensures |KeysBelow(log, h)| == h
  {
    if h > 0 {
      KeysCount(log, h - 1);
      var last := KeyOf(log[h - 1], 0);
      assert last !in KeysBelow(log, h - 1);
      assert KeysBelow(log, h) == KeysBelow(log, h - 1) + {last};
    }
  }

  lemma DeliveredBelowReach(log: seq<Event>, sendings: seq<Sending>, i: nat)
    requires IsChain(log, sendings) && forall s <- sendings :: s.fate.Inserted?
    ensures Delivered(sendings, i) <==> i < Reach(sendings)
  {
    if i < Reach(sendings) {
      var n := SomeBatchCarries(log, sendings, i);
      assert sendings[n] in sendings;
    } else if Delivered(sendings, i) {
      var n :| 0 <= n < |sendings| && sendings[n].fate.Inserted? && Carries(sendings[n], i);
      EndsWithinReach(log, sendings, n);
    }
  }

  lemma HeldKeyBelow(log: seq<Event>, sendings: seq<Sending>, table: Table, k: Key)
    requires IsChain(log, sendings) && (forall s <- sendings :: s.fate.Inserted?) && Reach(sendings) <= |log|
    requires Held(log, sendings, table, k)
    ensures k in KeysBelow(log, Reach(sendings))
  {
    var i: nat :| HoldsEvent(log, sendings, table, k, i);
    DeliveredBelowReach(log, sendings, i);
  }

  /**
   When nothing is in flight any more and no batch was lost, the table holds exactly the first
   `Reach` enqueued events, each once and unchanged, and the logged counts add up to its size.
   */
  lemma ExactlyOnce(p: Pipe, actions: seq<Action>, q: Pipe)
    requires Initial(p) && Run(p, actions, q) && WellFormed(q.log) && DistinctKeys(q.log)
    requires forall s <- q.sendings :: s.fate.Inserted?
    ensures Reach(q.sendings) <= |q.log|
    ensures q.table.Keys == KeysBelow(q.log, Reach(q.sendings))
    ensures forall i | 0 <= i < Reach(q.sendings) ::
              KeyOf(q.log[i], 0) in q.table && q.table[KeyOf(q.log[i], 0)] == q.log[i]
    ensures |q.table| == q.inserted == Reach(q.sendings)
  {
    ReachableFacts(p, actions, q);
    ReachableTable(p, actions, q);
    var h := Reach(q.sendings);
    forall i: nat | i < |q.log|
      ensures KeyOf(q.log[i], 0) in q.table <==> i < h
      ensures i < h ==> q.table[KeyOf(q.log[i], 0)] == q.log[i]
    {
      StoredExactlyWhenDelivered(q, i);
      DeliveredBelowReach(q.log, q.sendings, i);
    }
    forall k | k in q.table ensures k in KeysBelow(q.log, h) {
      HeldKeyBelow(q.log, q.sendings, q.table, k);
    }
    KeysCount(q.log, h);
    assert q.table.Keys == KeysBelow(q.log, h);
  }

  /** With losses: once drained, a sent event is missing exactly when every batch that carried it was lost. */
  lemma MissingExactlyWhenLost(p: Pipe, actions: seq<Action>, q: Pipe, i: nat)
    requires Initial(p) && Run(p, actions, q) && WellFormed(q.log) && DistinctKeys(q.log)
    requires forall s <- q.sendings :: !s.fate.InFlight?
    requires i < Reach(q.sendings)
    ensures i < |q.log|
    ensures KeyOf(q.log[i], 0) !in q.table <==>
              forall n | 0 <= n < |q.sendings| && Carries(q.sendings[n], i) :: q.sendings[n].fate.Lost?
    ensures |q.table| == q.inserted
  {
    ReachableFacts(p, actions, q);
    ReachableTable(p, actions, q);
    StoredExactlyWhenDelivered(q, i);
    forall n | 0 <= n < |q.sendings| ensures q.sendings[n].fate.Lost? <==> !q.sendings[n].fate.Inserted? {
      assert q.sendings[n] in q.sendings;
    }
  }
}
