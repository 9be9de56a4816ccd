/** The output worker: peek a batch, send it, then confirm it or step back and
    retry later, until cancelled; then one last attempt. */
module OutputWorkers {
  import opened Naturals
  import opened Options
  import opened Records
  import opened QueueLog
  import opened QueuePush
  import opened QueuePeek
  import opened QueueRuns
  import opened QueueAccounts
  import opened QueueBytes
  import opened Deliveries
  import opened WorkerRuns
  import opened DiskQueues

  const UNHEALTHY_AFTER := 3

  /** The wait after `failures` consecutive failures. */
  function Backoff(initial: nat, max: nat, failures: nat): nat {
    if failures == 0 then initial else Min(Backoff(initial, max, failures - 1) * 2, max)
  }

  function Pow2(k: nat): nat {
    if k == 0 then 1 else 2 * Pow2(k - 1)
  }

  /** The wait doubles with every failure up to the maximum. */
  lemma {:induction false} BackoffDoubles(initial: nat, max: nat, failures: nat)
    ensures Backoff(initial, max, failures)
            == if failures == 0 then initial else Min(initial * Pow2(failures), max)
  {
    if failures > 0 {
      BackoffDoubles(initial, max, failures - 1);
      assert initial * Pow2(failures) == 2 * (initial * Pow2(failures - 1));
    }
  }

  class OutputWorker {
    const queue: DiskQueue
    const initialBackoff: nat
    const maxBackoff: nat
    const batchSize: nat

    var backoff: nat
    var eventsSent: nat
    var eventsFailed: nat
    var retries: nat
    var consecutiveFailures: nat
    var healthy: bool
    var connected: bool

    ghost const start: Log              // the queue when the worker was made
    ghost var ranges: seq<(nat, nat)>   // the batches the sink took whole, by index
    ghost var sent: set<nat>            // the records in them
    ghost var wire: seq<seq<Byte>>      // their payloads, one batch after the other
    ghost var quiet: bool               // nothing has been evicted since
    ghost var short: set<nat>           // acknowledged at shutdown, though the sink had not taken them

    constructor (queue: DiskQueue, initialBackoff: nat, maxBackoff: nat, batchSize: nat)
      requires queue.Valid() && Inv(queue.log) && Idle(queue.log)
      ensures Valid() && Idle(queue.log) && this.queue == queue && start == queue.log
      ensures ranges == [] && wire == [] && short == {}
    {
      this.queue, this.initialBackoff, this.maxBackoff, this.batchSize := queue, initialBackoff, maxBackoff, batchSize;
      backoff := initialBackoff;
      eventsSent, eventsFailed, retries, consecutiveFailures := 0, 0, 0, 0;
      healthy, connected := true, false;
      start, ranges, sent, wire, quiet, short := queue.log, [], {}, [], true, {};
      new;
      CursorBounds(queue.log);
      EmptyWire(queue.log);
    }

    /** The queue is sound, only delivered records are behind the cursor, or those of
        a short answer, no record was delivered twice or out of order, and while
        nothing is evicted or short what was delivered is exactly what is behind it. */
    ghost predicate Valid()
      reads this, queue, queue.disk
    {
      && queue.Valid() && Inv(queue.log)
      && OnlySent(start, queue.log, sent + short)
      && Covers(start.cursor.at, queue.log, ranges, wire) && sent == SentIn(ranges)
      && (quiet ==> InOrder(start.cursor.at, queue.log, wire))
      && (quiet || queue.cfg.policy.DropOldest? || short != {})
      && (healthy <==> consecutiveFailures < UNHEALTHY_AFTER)
      && eventsSent == |wire|
    }

    function Settings(): Setup {
      Setup(queue.cfg, queue.sum, batchSize)
    }

    /** The router pushes while the worker waits. */
    method RouterPushes(ps: seq<PushRequest>)
      requires Valid() && AllPushable(queue.cfg, ps)
      modifies queue, queue.disk`files, this`quiet
      ensures Valid() && Inv(old(queue.log)) && Slides(old(queue.log), queue.log)
      ensures quiet ==> old(quiet) && queue.log.cursor.at == old(queue.log.cursor.at)
      ensures queue.log == PushAll(old(queue.log), Settings(), ps)
    {
      hide Rep, Inv, Tracks, Shape, Slides, OnlySent, InOrder, PushOp, Idle, Covers, SentIn, PushAll;
      ghost var l := queue.log;
      SelfSlides(l);
      NoPush(l, Settings());
      for i := 0 to |ps|
        invariant Valid() && Slides(l, queue.log)
        invariant quiet ==> old(quiet) && queue.log.cursor.at == l.cursor.at
        invariant queue.log == PushAll(l, Settings(), ps[..i])
      {
        PushNext(l, Settings(), ps, i);
        ghost var before := queue.log;
        ghost var r := Fresh(queue.sum, ps[i].payload);
        PushSlides(before, queue.cfg, r, ps[i].io);
        if !queue.cfg.policy.DropOldest? { PushStays(before, queue.cfg, r, ps[i].io); }
        var res := queue.Push(ps[i].payload, ps[i].io);
        SlidesKeeps(start, before, queue.log, sent + short);
        SlidesCovers(start.cursor.at, before, queue.log, ranges, wire);
        SlidesTrans(l, before, queue.log);
        quiet := quiet && queue.log.cursor.at == before.cursor.at;
        if quiet { SlidesInOrder(before, queue.log, start.cursor.at, wire); }
      }
      assert ps[..|ps|] == ps;
    }

    /** The loop of the worker, and its last attempt.  However the sink, the disk and the
        router behave, the cursor passes a good record only if the sink took it or it was
        evicted, or if the answer to the last attempt fell short of its batch; the
        records taken are the good ones of index ranges that follow each other, so
        nothing the sink took whole is sent again and nothing is out of order even
        around evictions; and where nothing can be evicted, they are exactly the
        acknowledged part of the queue.  What becomes of the queue and what is delivered
        is what `RunOf` says, which `RunProgress` and `RunDelivers` are about. */
    method Run(script: seq<Turn>, last: Turn)
      requires Valid() && Idle(queue.log) && backoff == Backoff(initialBackoff, maxBackoff, consecutiveFailures)
      requires ScriptPushable(queue.cfg, script) && TurnPushable(queue.cfg, last)
      modifies this, queue, queue.disk
      ensures Valid() && !connected
      ensures PassedOnly(start, queue.log, sent + short) && sent == SentIn(ranges)
      ensures !last.send.SomeSent? ==> short == old(short)
      ensures Covers(start.cursor.at, queue.log, ranges, wire)
      ensures !queue.cfg.policy.DropOldest? && short == {} ==> InOrder(start.cursor.at, queue.log, wire)
      ensures var o := RunOf(old(queue.log), Settings(), script, last);
        queue.log == o.log && wire == old(wire) + o.out
    {
      hide Rep, Inv, Tracks, Shape, Slides, OnlySent, InOrder, Idle, PassedOnly, Covers, SentIn, LoopOf, FinalOf;
      Loop(script);
      ghost var batch, c, b := FinalFlush(last);
      connected := false;
      Passed(start, queue.log, sent + short);
    }

    /** The turns of a script, until one of them leaves the loop. */
    method Loop(script: seq<Turn>)
      requires Valid() && Idle(queue.log) && backoff == Backoff(initialBackoff, maxBackoff, consecutiveFailures)
      requires ScriptPushable(queue.cfg, script)
      modifies this, queue, queue.disk
      ensures Valid() && Idle(queue.log) && short == old(short)
      ensures var o := LoopOf(old(queue.log), Settings(), script); queue.log == o.log && wire == old(wire) + o.out
    {
      hide Rep, Inv, Tracks, Shape, Slides, OnlySent, InOrder, Idle, Covers, SentIn, LoopOf, TurnOf, Backoff;
      ghost var l, w0 := queue.log, wire;
      StartLoop(l, Settings(), script);
      var t := 0;
      var running := true;
      while t < |script| && running
        invariant 0 <= t <= |script| && Valid() && Idle(queue.log) && short == old(short)
        invariant running ==> backoff == Backoff(initialBackoff, maxBackoff, consecutiveFailures)
        invariant wire == w0 + LoopOf(l, Settings(), script[..t]).out
        invariant var o := LoopOf(l, Settings(), script[..t]); o == Outcome(queue.log, o.out, running)
      {
        LoopNext(l, Settings(), script, t);
        running := OneTurn(script[t]);
        t := t + 1;
      }
      EndLoop(l, Settings(), script, t);
    }

    /** One iteration; false means the loop was left. */
    method OneTurn(t: Turn) returns (running: bool)
      requires Valid() && Idle(queue.log) && TurnPushable(queue.cfg, t)
      requires backoff == Backoff(initialBackoff, maxBackoff, consecutiveFailures)
      modifies this, queue, queue.disk
      ensures Valid() && Idle(queue.log)
      ensures running ==> backoff == Backoff(initialBackoff, maxBackoff, consecutiveFailures)
      ensures short == old(short)
      ensures var o := TurnOf(old(queue.log), Settings(), t);
        queue.log == o.log && wire == old(wire) + o.out && running == o.running
    {
      hide Rep, Inv, Tracks, Shape, Slides, OnlySent, InOrder, Idle, Carrying, Bears, Covers, SentIn, PushAll, SendOf;
      ghost var l := queue.log;
      RouterPushes(t.waiting);
      SlidesKeeps(start, l, queue.log, sent + short);
      if t.cancelled { return false; }
      var has := queue.DataReady();
      if !has { return true; }
      ghost var batch;
      running, batch := SendBatch(t);
    }

    /** Peek, send, and confirm or step back: the batch joins what was delivered if
        and only if the sink took all of it, and else all of it will be peeked again. */
    method SendBatch(t: Turn) returns (running: bool, ghost batch: seq<seq<Byte>>)
      requires Valid() && Idle(queue.log) && TurnPushable(queue.cfg, t)
      requires backoff == Backoff(initialBackoff, maxBackoff, consecutiveFailures)
      modifies this, queue, queue.disk
      ensures Valid() && Idle(queue.log)
      ensures running ==> backoff == Backoff(initialBackoff, maxBackoff, consecutiveFailures)
      ensures batch == PeekedBatch(old(queue.log), t.flush, batchSize)
      ensures short == old(short)
      ensures wire == if TookAll(t.send, |batch|) then old(wire) + batch else old(wire)
      ensures TookAll(t.send, |batch|) && batch != [] ==>
        running && consecutiveFailures == 0 && healthy && connected && backoff == initialBackoff
      ensures !TookAll(t.send, |batch|) && batch != [] ==>
        && queue.peek == queue.cursor && running == !t.cancelledInBackoff
        && consecutiveFailures == old(consecutiveFailures) + 1 && eventsFailed == old(eventsFailed) + |batch|
      ensures var o := SendOf(old(queue.log), Settings(), t);
        queue.log == o.log && wire == old(wire) + o.out && running == o.running
    {
      hide PeekOp, PushAll, AckedOf, ResetOp, PeekedBatch, Rep, Inv, Tracks, Shape, Slides, OnlySent, InOrder, Idle,
        Carrying, Bears, IsBatch, Covers, SentIn, Ascending;
      ghost var a, b;
      var peeked;
      peeked, a, b := Peek(t.flush);
      batch := peeked;
      if peeked == [] {
        return true, batch;
      }
      Sending(t.sending, peeked, a, b);
      var n := match t.send case AllSent => |peeked| case SomeSent(k) => Min(k, |peeked|) case SendError => 0;
      if !t.send.SendError? && n >= |peeked| {
        Succeed(n, peeked, a, b, t);
        running := true;
      } else {
        running := Fail(peeked, t.cancelledInBackoff);
      }
    }

    /** The sink took the batch. */
    method Succeed(n: nat, ghost batch: seq<seq<Byte>>, ghost a: nat, ghost b: nat, t: Turn)
      requires Valid() && Carrying(queue.log, a, b) && n == queue.log.handed == |batch| && TurnPushable(queue.cfg, t)
      requires quiet ==> Bears(queue.log, batch)
      requires IsBatch(queue.log, a, b, batch) && Ascending(ranges, start.cursor.at, a) && start.cursor.at <= a
      modifies this, queue, queue.disk
      ensures Valid() && Idle(queue.log)
      ensures wire == old(wire) + batch && short == old(short)
      ensures queue.log == AckedOf(old(queue.log), Settings(), n, t)
      ensures consecutiveFailures == 0 && healthy && connected && backoff == initialBackoff
      ensures eventsFailed == old(eventsFailed)
    {
      hide Rep, Inv, Tracks, Shape, Slides, OnlySent, InOrder, Idle, Carrying, Bears, IsBatch, Covers, SentIn,
        Ascending, AckedOf;
      backoff := initialBackoff;
      healthy, connected, consecutiveFailures := true, true, 0;
      Acknowledge(n, batch, batch, a, b, b, t);
    }

    /** It did not: all of the batch will be peeked again. */
    method Fail(batch: seq<seq<Byte>>, cancelled: bool) returns (running: bool)
      requires Valid() && backoff == Backoff(initialBackoff, maxBackoff, consecutiveFailures)
      modifies this`eventsFailed, this`retries, this`consecutiveFailures, this`connected, this`healthy, this`backoff,
               queue`peek, queue`log
      ensures Valid() && Idle(queue.log) && queue.peek == queue.cursor
      ensures running == !cancelled && consecutiveFailures == old(consecutiveFailures) + 1
      ensures running ==> backoff == Backoff(initialBackoff, maxBackoff, consecutiveFailures)
      ensures eventsFailed == old(eventsFailed) + |batch| && queue.log == ResetOp(old(queue.log))
    {
      hide ResetOp, Rep, Inv, Tracks, Shape, OnlySent, InOrder, Idle, Covers, SentIn;
      StepBack();
      eventsFailed := eventsFailed + |batch|;
      running := CountFailure(cancelled);
    }

    /** The failure is counted, and unless cancelled meanwhile the wait grows. */
    method CountFailure(cancelled: bool) returns (running: bool)
      requires Valid() && backoff == Backoff(initialBackoff, maxBackoff, consecutiveFailures)
      modifies this`retries, this`consecutiveFailures, this`connected, this`healthy, this`backoff
      ensures Valid() && running == !cancelled && consecutiveFailures == old(consecutiveFailures) + 1
      ensures running ==> backoff == Backoff(initialBackoff, maxBackoff, consecutiveFailures)
      ensures retries == old(retries) + 1 && !connected
    {
      hide Rep, Inv, OnlySent, InOrder, Covers, SentIn;
      retries := retries + 1;
      consecutiveFailures := consecutiveFailures + 1;
      connected := false;
      healthy := consecutiveFailures < UNHEALTHY_AFTER;
      if cancelled { return false; }
      backoff := Min(backoff * 2, maxBackoff);
      return true;
    }

    /** Peek a batch; `a..b` are the records it covers. */
    method Peek(fails: Option<nat>) returns (batch: seq<seq<Byte>>, ghost a: nat, ghost b: nat)
      requires Valid() && Idle(queue.log)
      modifies queue`writer, queue`peek, queue`corrupt, queue`log, queue.disk`files
      ensures Valid() && Carrying(queue.log, a, b) && queue.log.handed == |batch|
      ensures queue.log == PeekOp(old(queue.log), fails, batchSize, PEEK_MAX_BYTES)
      ensures batch == PeekedBatch(old(queue.log), fails, batchSize)
      ensures batch == [] ==> Idle(queue.log)
      ensures a <= b <= |queue.log.hist| && queue.log.hist == old(queue.log).hist
      ensures Bears(queue.log, batch)
      ensures IsBatch(queue.log, a, b, batch) && Ascending(ranges, start.cursor.at, a) && start.cursor.at <= a
    {
      hide Rep, Inv, Tracks, Shape, OnlySent, InOrder, Idle, PeekOp, Carrying, Payloads, Bears, IsBatch, Covers, SentIn;
      ghost var l := queue.log;
      PeekCarries(l, fails, batchSize, start, sent + short, start.cursor.at, wire);
      PeekCovers(l, fails, batchSize, start.cursor.at, ranges, wire);
      a := l.peek.at;
      batch := queue.PeekBatch(fails, batchSize, PEEK_MAX_BYTES);
      b := queue.log.peek.at;
    }

    /** The router goes on pushing while the batch is being sent. */
    method Sending(ps: seq<PushRequest>, ghost batch: seq<seq<Byte>>, ghost a: nat, ghost b: nat)
      requires Valid() && AllPushable(queue.cfg, ps) && Carrying(queue.log, a, b) && queue.log.handed == |batch|
      requires Bears(queue.log, batch) && IsBatch(queue.log, a, b, batch)
      modifies queue, queue.disk`files, this`quiet
      ensures Valid() && Carrying(queue.log, a, b) && queue.log.handed == |batch|
      ensures IsBatch(queue.log, a, b, batch)
      ensures Inv(old(queue.log)) && Slides(old(queue.log), queue.log)
      ensures quiet ==> Bears(queue.log, batch)
      ensures queue.log == PushAll(old(queue.log), Settings(), ps)
    {
      hide Rep, Inv, Tracks, Shape, OnlySent, InOrder, Carrying, Payloads, Bears, Covers, SentIn, PushAll;
      ghost var l := queue.log;
      RouterPushes(ps);
      SlidesCarries(l, queue.log, a, b);
      SlidesBatch(l, queue.log, a, b, batch);
      if quiet { SlidesBears(l, queue.log, batch); }
    }

    /** The sink took the records `a..c` of the batch `a..b`: confirm all of it, then
        persist the cursor while pushes go on. */
    method Acknowledge(n: nat, ghost part: seq<seq<Byte>>, ghost batch: seq<seq<Byte>>,
                       ghost a: nat, ghost b: nat, ghost c: nat, t: Turn)
      requires Valid() && Carrying(queue.log, a, b) && TurnPushable(queue.cfg, t)
      requires quiet ==> Bears(queue.log, batch)
      requires IsBatch(queue.log, a, b, batch) && Ascending(ranges, start.cursor.at, a) && start.cursor.at <= a
      requires IsBatch(queue.log, a, c, part) && c <= b && n == |part|
      modifies queue, queue.disk, this`quiet, this`ranges, this`sent, this`wire, this`short, this`eventsSent
      ensures Valid() && Idle(queue.log)
      ensures ranges == old(ranges) + [(a, c)] && wire == old(wire) + part
      ensures short == old(short) + Indices(c, b)
      ensures queue.log == AckedOf(old(queue.log), Settings(), n, t)
    {
      hide Rep, Inv, Tracks, Shape, Slides, OnlySent, InOrder, Idle, Carrying, AckOp, SaveOp, ResetOp,
        Payloads, Bears, IsBatch, Covers, SentIn, Ascending, Indices, PushAll;
      ghost var l := queue.log;
      AckShares(l, n, start, sent, short, ranges, wire, a, b, c, batch, part);
      eventsSent := eventsSent + n;
      queue.AckLocked(n);
      ranges, sent, short, wire := ranges + [(a, c)], sent + Indices(a, c), short + Indices(c, b), wire + part;
      quiet := quiet && c == b;
      ghost var m := queue.log;
      RouterPushes(t.acking);
      SlidesKeeps(start, m, queue.log, sent + short);
      SaveResetKeep(queue.log, t.saved, start, sent + short, start.cursor.at, wire);
      SaveResetCovers(queue.log, t.saved, start.cursor.at, ranges, wire);
      queue.PersistCursor(t.saved);
    }

    /** The send failed: the batch will be peeked again. */
    method StepBack()
      requires Valid()
      modifies queue`peek, queue`log
      ensures Valid() && Idle(queue.log) && queue.peek == queue.cursor
      ensures queue.log == ResetOp(old(queue.log))
    {
      hide Rep, Inv, Tracks, Shape, OnlySent, InOrder, Idle, SaveOp, ResetOp, Covers, SentIn;
      SaveResetKeep(queue.log, true, start, sent + short, start.cursor.at, wire);
      SaveResetCovers(queue.log, true, start.cursor.at, ranges, wire);
      queue.ResetPeek();
    }

    /** One bounded attempt on shutdown.  Any answer but an error has the whole batch
        acknowledged: what the sink did not take of it, the records `c..b`, is lost. */
    method FinalFlush(t: Turn) returns (ghost batch: seq<seq<Byte>>, ghost c: nat, ghost b: nat)
      requires Valid() && Idle(queue.log) && TurnPushable(queue.cfg, t)
      modifies this, queue, queue.disk
      ensures Valid()
      ensures batch == PeekedBatch(old(queue.log), t.flush, batchSize)
      ensures c <= b <= |old(queue.log).hist| && short == old(short) + Indices(c, b)
      ensures match Claimed(t.send, |batch|)
              case Some(n) =>
                && wire == old(wire) + batch[..n] && Payloads(old(queue.log).hist, c, b) == batch[n..]
                && (n == |batch| <==> c == b)
              case None => wire == old(wire) && c == b
      ensures var o := FinalOf(old(queue.log), Settings(), t); queue.log == o.log && wire == old(wire) + o.out
    {
      hide Rep, Inv, Tracks, Shape, Slides, OnlySent, InOrder, Idle, Carrying, Bears, Covers, SentIn,
        PeekOp, AckedOf, ResetOp, IsBatch, Payloads, Indices, Ascending, PushAll, PeekedBatch;
      ghost var l := queue.log;
      ghost var a;
      var peeked;
      peeked, a, b := Peek(t.flush);
      batch, c := peeked, b;
      ghost var p := queue.log;
      NothingLeft(l.hist, b);
      if peeked != [] {
        Sending(t.sending, peeked, a, b);
        var claimed := Claimed(t.send, |peeked|);
        if claimed.Some? {
          c := PartOfBatch(p, queue.log, a, b, peeked, claimed.value);
          Acknowledge(claimed.value, peeked[..claimed.value], peeked, a, b, c, t);
        } else {
          StepBack();
        }
      }
    }
  }
}
