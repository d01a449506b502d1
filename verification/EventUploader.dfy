/** One undisturbed cycle of the uploader, and the steps of EventPipeline that it stands for. */
module EventUploader {
  import opened Prelude
  import opened EventTables
  import opened EventPipeline

  function IdsOf(batch: seq<PendingEvent>): seq<int> {
    seq(|batch|, i requires 0 <= i < |batch| => batch[i].id)
  }

  function EventsOf(batch: seq<PendingEvent>): seq<Event> {
    seq(|batch|, i requires 0 <= i < |batch| => batch[i].event)
  }

  class Uploader {
    const queue: EventQueue
    var channel: seq<seq<Event>>
    var channelOpen: bool

    constructor (queue: EventQueue)
      ensures this.queue == queue && channel == [] && channelOpen
    {
      this.queue := queue;
      channel, channelOpen := [], true;
    }

    /**
     Take, send, mark. A failing query or a closed channel is an error that leaves the batch pending;
     so is a failing mark, but by then the batch has been sent and will be sent again.
     */
    method DrainOnce(now: int, takeOk: bool, markOk: bool) returns (ok: bool)
      requires queue.Valid()
      modifies this`channel, queue`rows
      ensures queue.Valid()
      ensures ok <==> takeOk && (Batch(old(queue.rows), 50) == [] || (channelOpen && markOk))
      ensures channel == if takeOk && channelOpen && Batch(old(queue.rows), 50) != []
                         then old(channel) + [EventsOf(Batch(old(queue.rows), 50))] else old(channel)
      ensures queue.rows == if ok && Batch(old(queue.rows), 50) != []
                            then MarkRows(old(queue.rows), IdsOf(Batch(old(queue.rows), 50)), now)
                            else old(queue.rows)
    {
      if !takeOk {
        return false;
      }
      var batch := queue.TakeBatch(BATCH_LIMIT);
      if batch == [] {
        return true;
      }
      if !channelOpen {
        return false;
      }
      channel := channel + [EventsOf(batch)];
      if !markOk {
        return false;
      }
      queue.MarkSent(IdsOf(batch), now);
      ok := true;
    }
  }

  lemma TakenBatch(p: Pipe)
    requires Inv(p) && p.phase.Idle? && p.released < |p.log|
    ensures Next(p, Take).phase == Taken(Batch(p.rows, 50))
    ensures Batch(p.rows, 50) == Slice(p.log, p.released, Min(50, |p.log| - p.released))
  {
    TakeStep(p);
  }

  /** From an idle uploader with something pending, take, send and mark have exactly DrainOnce's effect. */
  lemma DrainIsTakeSendMark(p: Pipe, now: int)
    requires Inv(p) && p.phase.Idle? && p.released < |p.log|
    ensures var taken := Next(p, Take);
            Enabled(taken, Send) &&
            var sent := Next(taken, Send);
            Enabled(sent, Mark(now)) &&
            var q := Next(sent, Mark(now));
            var batch := Batch(p.rows, 50);
            && q.phase.Idle? && q.rows == MarkRows(p.rows, IdsOf(batch), now)
            && q.sendings == p.sendings + [Sending(p.released, EventsOf(batch), InFlight)]
            && q.released == p.released + |batch| && |batch| == Min(50, |p.log| - p.released)
  {
    TakenBatch(p);
    var sent := Next(Next(p, Take), Send);
    assert sent.phase.ids == IdsOf(Batch(p.rows, BATCH_LIMIT));
    assert sent.sendings[|p.sendings|].events == EventsOf(Batch(p.rows, BATCH_LIMIT));
  }

  /** A cycle whose mark fails is take, send and abort: the batch is in flight and still pending. */
  lemma FailedMarkIsAbort(p: Pipe)
    requires Inv(p) && p.phase.Idle? && p.released < |p.log|
    ensures var taken := Next(p, Take);
            Enabled(taken, Send) &&
            var q := Next(Next(taken, Send), Abort);
            && q.phase.Idle? && q.rows == p.rows && q.released == p.released
            && q.sendings == p.sendings + [Sending(p.released, EventsOf(Batch(p.rows, 50)), InFlight)]
  {
    TakenBatch(p);
    var sent := Next(Next(p, Take), Send);
    assert sent.sendings[|p.sendings|].events == EventsOf(Batch(p.rows, BATCH_LIMIT));
  }
}
