/** The output worker as a function: what a script of sink answers, router pushes, I/O
    outcomes and cancellation makes of the queue, and what is delivered on the way. */
module WorkerRuns {
  import opened Naturals
  import opened Options
  import opened Records
  import opened QueueLog
  import opened QueuePush
  import opened QueuePeek
  import opened QueueRuns
  import opened QueueAccounts
  import opened Deliveries

  /** What the sink answers: the whole batch, `n` events of it, or an error.  No
      sink claims more than it was given. */
  datatype SendResult = AllSent | SomeSent(n: nat) | SendError

  /** A push by the router, on its own thread. */
  datatype PushRequest = PushRequest(payload: seq<Byte>, io: PushIo)

  /** What happens around one iteration of the loop: pushes at each point where
      the worker waits, the outcome of the flush, the send and the cursor write,
      and whether the cancellation token is seen. */
  datatype Turn = Turn(
    waiting: seq<PushRequest>,
    cancelled: bool,
    flush: Option<nat>,
    sending: seq<PushRequest>,
    send: SendResult,
    acking: seq<PushRequest>,
    saved: bool,
    cancelledInBackoff: bool)

  /** What a worker is set up with. */
  datatype Setup = Setup(cfg: Config, sum: Checksum, batchSize: nat)

  predicate Pushable(cfg: Config, p: PushRequest) {
    && 1 <= |p.payload| < WORD
    && (cfg.policy.DropOldest? ==> HEADER + |p.payload| <= cfg.maxBytes)
  }

  predicate AllPushable(cfg: Config, ps: seq<PushRequest>) {
    forall i :: 0 <= i < |ps| ==> Pushable(cfg, ps[i])
  }

  predicate TurnPushable(cfg: Config, t: Turn) {
    AllPushable(cfg, t.waiting) && AllPushable(cfg, t.sending) && AllPushable(cfg, t.acking)
  }

  predicate ScriptPushable(cfg: Config, script: seq<Turn>) {
    forall i :: 0 <= i < |script| ==> TurnPushable(cfg, script[i])
  }

  /** Whether the sink took the whole batch. */
  predicate TookAll(send: SendResult, size: nat) {
    send.AllSent? || (send.SomeSent? && send.n >= size)
  }

  /** How many events of a batch an answer claims, if it is not an error. */
  function Claimed(send: SendResult, size: nat): Option<nat> {
    match send case AllSent => Some(size) case SomeSent(k) => Some(Min(k, size)) case SendError => None
  }

  // ------------------------------------------------------------------- one turn

  /** The queue after the router's pushes. */
  ghost function PushAll(l: Log, w: Setup, ps: seq<PushRequest>): (m: Log)
    requires Inv(l) && AllPushable(w.cfg, ps)
    ensures Inv(m)
    decreases |ps|
  {
    hide Tracks, Shape, Slides, PushOp;
    if ps == [] then l
    else
      var m, p := PushAll(l, w, ps[..|ps| - 1]), ps[|ps| - 1];
      PushSlides(m, w.cfg, Fresh(w.sum, p.payload), p.io);
      PushOp(m, w.cfg, Fresh(w.sum, p.payload), p.io).0
  }

  lemma {:induction false} PushAllSlides(l: Log, w: Setup, ps: seq<PushRequest>)
    requires Inv(l) && AllPushable(w.cfg, ps)
    ensures Slides(l, PushAll(l, w, ps))
    decreases |ps|
  {
    hide Inv, Slides, PushOp;
    if ps == [] {
      SelfSlides(l);
    } else {
      var init, p := ps[..|ps| - 1], ps[|ps| - 1];
      PushAllSlides(l, w, init);
      var m := PushAll(l, w, init);
      PushSlides(m, w.cfg, Fresh(w.sum, p.payload), p.io);
      SlidesTrans(l, m, PushAll(l, w, ps));
    }
  }

  /** One push more. */
  lemma PushNext(l: Log, w: Setup, ps: seq<PushRequest>, i: nat)
    requires Inv(l) && AllPushable(w.cfg, ps) && i < |ps|
    ensures var r, m := Fresh(w.sum, ps[i].payload), PushAll(l, w, ps[..i]);
      && Pushable(w.cfg, ps[i])
      && PushAll(l, w, ps[..i + 1]) == PushOp(m, w.cfg, r, ps[i].io).0
  {
    hide Inv, PushOp;
    assert ps[..i + 1][..i] == ps[..i];
  }

  lemma NoPush(l: Log, w: Setup)
    requires Inv(l)
    ensures PushAll(l, w, []) == l
  {
    hide Inv;
  }

  /** What the worker waits for. */
  predicate HasData(l: Log)
    requires Shape(l)
  {
    l.peek != Pos(Last(l), |l.hist|) && l.count > 0
  }

  /** The payloads of the records the peek of one turn hands out. */
  ghost function PeekedBatch(l: Log, fails: Option<nat>, max: nat): seq<seq<Byte>>
    requires Inv(l)
  {
    PeekIsLongestRun(l, fails, max, PEEK_MAX_BYTES);
    Payloads(l.hist, l.peek.at, PeekOp(l, fails, max, PEEK_MAX_BYTES).peek.at)
  }

  /** The queue afterwards, the payloads the sink took, and whether the loop goes on. */
  datatype Outcome = Outcome(log: Log, out: seq<seq<Byte>>, running: bool)

  /** Acknowledging `n` events, with pushes between the halves of the ack. */
  ghost function AckedOf(l: Log, w: Setup, n: nat, t: Turn): (m: Log)
    requires Inv(l) && TurnPushable(w.cfg, t)
    ensures Inv(m)
  {
    hide Tracks, Shape, AckOp, SaveOp, PushAll;
    AckSafe(l, n);
    var m := PushAll(AckOp(l, n), w, t.acking);
    SaveSafe(m, t.saved);
    SaveOp(m, t.saved)
  }

  /** Peek, send, and confirm or step back. */
  ghost function SendOf(l: Log, w: Setup, t: Turn): (o: Outcome)
    requires Inv(l) && TurnPushable(w.cfg, t)
    ensures Inv(o.log)
  {
    hide Tracks, Shape, PeekOp, ResetOp, PushAll;
    PeekSafe(l, t.flush, w.batchSize, PEEK_MAX_BYTES);
    var p := PeekOp(l, t.flush, w.batchSize, PEEK_MAX_BYTES);
    var batch := PeekedBatch(l, t.flush, w.batchSize);
    if batch == [] then Outcome(p, [], true)
    else
      var q := PushAll(p, w, t.sending);
      if TookAll(t.send, |batch|) then Outcome(AckedOf(q, w, |batch|, t), batch, true)
      else
        ResetSafe(q);
        Outcome(ResetOp(q), [], !t.cancelledInBackoff)
  }

  /** One iteration of the loop. */
  ghost function TurnOf(l: Log, w: Setup, t: Turn): (o: Outcome)
    requires Inv(l) && TurnPushable(w.cfg, t)
    ensures Inv(o.log)
  {
    hide Tracks, PushAll, SendOf;
    var m := PushAll(l, w, t.waiting);
    if t.cancelled then Outcome(m, [], false)
    else if !HasData(m) then Outcome(m, [], true)
    else SendOf(m, w, t)
  }

  /** The iterations of a script, until one of them leaves the loop. */
  ghost function LoopOf(l: Log, w: Setup, script: seq<Turn>): (o: Outcome)
    requires Inv(l) && ScriptPushable(w.cfg, script)
    ensures Inv(o.log)
    decreases |script|
  {
    hide Inv, TurnOf;
    if script == [] then Outcome(l, [], true)
    else
      var o := LoopOf(l, w, script[..|script| - 1]);
      if !o.running then o
      else
        var p := TurnOf(o.log, w, script[|script| - 1]);
        Outcome(p.log, o.out + p.out, p.running)
  }

  /** The last attempt: any answer but an error has the whole batch acknowledged. */
  ghost function FinalOf(l: Log, w: Setup, t: Turn): (o: Outcome)
    requires Inv(l) && TurnPushable(w.cfg, t)
    ensures Inv(o.log)
  {
    hide Tracks, Shape, PeekOp, ResetOp, PushAll;
    PeekSafe(l, t.flush, w.batchSize, PEEK_MAX_BYTES);
    var p := PeekOp(l, t.flush, w.batchSize, PEEK_MAX_BYTES);
    var batch := PeekedBatch(l, t.flush, w.batchSize);
    if batch == [] then Outcome(p, [], false)
    else
      var q := PushAll(p, w, t.sending);
      match Claimed(t.send, |batch|)
      case Some(n) => Outcome(AckedOf(q, w, n, t), batch[..n], false)
      case None =>
        ResetSafe(q);
        Outcome(ResetOp(q), [], false)
  }

  /** A whole run: the loop, and the last attempt after it. */
  ghost function RunOf(l: Log, w: Setup, script: seq<Turn>, last: Turn): (o: Outcome)
    requires Inv(l) && ScriptPushable(w.cfg, script) && TurnPushable(w.cfg, last)
    ensures Inv(o.log)
  {
    hide Inv, LoopOf, FinalOf;
    var o := LoopOf(l, w, script);
    var p := FinalOf(o.log, w, last);
    Outcome(p.log, o.out + p.out, false)
  }

  lemma LoopNext(l: Log, w: Setup, script: seq<Turn>, i: nat)
    requires Inv(l) && ScriptPushable(w.cfg, script) && i < |script|
    ensures TurnPushable(w.cfg, script[i])
    ensures var o := LoopOf(l, w, script[..i]);
      o.running ==>
        var p := TurnOf(o.log, w, script[i]);
        LoopOf(l, w, script[..i + 1]) == Outcome(p.log, o.out + p.out, p.running)
    ensures var o := LoopOf(l, w, script[..i]); !o.running ==> LoopOf(l, w, script[..i + 1]) == o
  {
    hide Inv, TurnOf;
    assert script[..i + 1][..i] == script[..i];
  }

  lemma StartLoop(l: Log, w: Setup, script: seq<Turn>)
    requires Inv(l) && ScriptPushable(w.cfg, script)
    ensures LoopOf(l, w, script[..0]) == Outcome(l, [], true)
  {
    hide Inv;
  }

  /** Where the loop ends, all of the script is used up or the loop was left. */
  lemma EndLoop(l: Log, w: Setup, script: seq<Turn>, i: nat)
    requires Inv(l) && ScriptPushable(w.cfg, script) && i <= |script|
    requires i < |script| ==> !LoopOf(l, w, script[..i]).running
    ensures LoopOf(l, w, script) == LoopOf(l, w, script[..i])
  {
    hide Inv, LoopOf;
    if i < |script| { LoopLeft(l, w, script, i); } else { assert script[..i] == script; }
  }

  /** Once left, the loop is left for good. */
  lemma {:induction false} LoopLeft(l: Log, w: Setup, script: seq<Turn>, i: nat)
    requires Inv(l) && ScriptPushable(w.cfg, script) && i <= |script| && !LoopOf(l, w, script[..i]).running
    ensures LoopOf(l, w, script) == LoopOf(l, w, script[..i])
    decreases |script| - i
  {
    hide Inv, LoopOf;
    if i < |script| {
      LoopNext(l, w, script, i);
      LoopLeft(l, w, script, i + 1);
    } else {
      assert script[..i] == script;
    }
  }

  // ------------------------------------------------------------------- progress

  /** The count is right, and at most `n` good records are unread. */
  ghost predicate Left(l: Log, n: nat)
    requires Inv(l)
  {
    CursorInside(l);
    l.count == Unread(l) <= n
  }

  /** What is peeked from rest is all that is in flight, and something if anything is left. */
  lemma PeekLeft(l: Log, fails: Option<nat>, max: nat, n: nat)
    requires Inv(l) && Idle(l) && Left(l, n)
    ensures var p := PeekOp(l, fails, max, PEEK_MAX_BYTES);
      && Inv(p) && Left(p, n) && FlightExact(p)
      && (fails.None? && max >= 1 && p.handed == 0 ==> Left(p, 0))
  {
    hide Tracks, Shape, Whole, Span, GoodIn, Good, Off, Payloads, PeekOp, LongestRun;
    PeekSafe(l, fails, max, PEEK_MAX_BYTES);
    PeekIsLongestRun(l, fails, max, PEEK_MAX_BYTES);
    var p := PeekOp(l, fails, max, PEEK_MAX_BYTES);
    HandedCovers(l);
    HandedCovers(p);
    CursorBounds(l);
    CursorBounds(p);
    PayloadCount(l.hist, l.peek.at, p.peek.at);
    SpanAdd(l.hist, l.cursor.at, l.peek.at, p.peek.at);
    SpanAdd(l.hist, l.cursor.at, l.peek.at, |l.hist|);
  }

  /** Confirming all that is in flight takes it off both sides. */
  lemma AckLeft(l: Log, saved: bool, n: nat)
    requires Inv(l) && FlightExact(l) && Left(l, n)
    ensures var m := SaveOp(AckOp(l, l.handed), saved); Inv(m) && Left(m, Minus(n, l.handed))
  {
    hide Tracks, Shape, Whole, Span, GoodIn, Good, Off, UnlinkOp, Keeps, AckOp;
    AckSafe(l, l.handed);
    SaveSafe(AckOp(l, l.handed), saved);
    AckFields(l, l.handed);
    AckCount(l, l.handed);
    CursorBounds(l);
    HandedCovers(l);
    SpanAdd(l.hist, l.cursor.at, l.peek.at, |l.hist|);
  }

  /** At rest, with an exact count and nothing to wait for, nothing is unread. */
  lemma NoDataNothing(l: Log, n: nat)
    requires Inv(l) && Idle(l) && Left(l, n) && !HasData(l)
    ensures Left(l, 0)
  {
    hide Tracks, Shape, Whole, Span, GoodIn, Good, Off;
    HandedCovers(l);
    SpanAdd(l.hist, l.cursor.at, l.peek.at, |l.hist|);
    SpanZero(l.hist, |l.hist|, |l.hist|);
  }

  /** The worker peeks what it can, every file works, nothing is pushed, and the sink
      takes the whole batch. */
  predicate Smooth(t: Turn) {
    t.waiting == [] && !t.cancelled && SmoothSend(t)
  }

  predicate SmoothSend(t: Turn) {
    t.sending == [] && t.acking == [] && t.flush.None? && t.send.AllSent?
  }

  /** What peeking, sending and acknowledging without pushes leaves, at rest again. */
  lemma SmoothLeft(l: Log, w: Setup, t: Turn, n: nat)
    requires Inv(l) && Idle(l) && Left(l, n) && w.batchSize >= 1 && TurnPushable(w.cfg, t) && SmoothSend(t)
    ensures SendOf(l, w, t).running && Idle(SendOf(l, w, t).log) && Left(SendOf(l, w, t).log, Minus(n, 1))
    ensures FinalOf(l, w, t).log == SendOf(l, w, t).log
  {
    hide Inv, PeekOp, AckOp, SaveOp, Idle, FlightExact, PushAll, Payloads, OnlySent, InOrder, Carrying, Bears, IsBatch;
    var p := PeekOp(l, None, w.batchSize, PEEK_MAX_BYTES);
    PeekLeft(l, None, w.batchSize, n);
    PeekCarries(l, None, w.batchSize, l, {}, 0, []);
    NoPush(p, w);
    if p.handed > 0 {
      AckLeft(p, t.saved, n);
      AckDelivers(p, p.handed, l.peek.at, p.peek.at, l, {}, 0, [], []);
      NoPush(AckOp(p, p.handed), w);
      SaveResetKeep(AckOp(p, p.handed), t.saved, l, {}, 0, []);
    }
  }

  /** Every such turn leaves at least one good record fewer, until none is left. */
  lemma TurnProgress(l: Log, w: Setup, t: Turn, n: nat)
    requires Inv(l) && Idle(l) && Left(l, n) && w.batchSize >= 1 && TurnPushable(w.cfg, t) && Smooth(t)
    ensures var o := TurnOf(l, w, t); o.running && Idle(o.log) && Left(o.log, Minus(n, 1))
  {
    hide Tracks, Shape, Idle, PushAll, SendOf, HasData, Left;
    NoPush(l, w);
    if HasData(l) {
      SmoothLeft(l, w, t, n);
    } else {
      NoDataNothing(l, n);
      FewerLeft(l, Minus(n, 1));
    }
  }

  lemma FewerLeft(l: Log, n: nat)
    requires Inv(l) && Left(l, 0)
    ensures Left(l, n)
  {
    hide Tracks;
  }

  lemma {:induction false} LoopProgress(l: Log, w: Setup, script: seq<Turn>, n: nat)
    requires Inv(l) && Idle(l) && Left(l, n) && w.batchSize >= 1 && ScriptPushable(w.cfg, script)
    requires forall i :: 0 <= i < |script| ==> Smooth(script[i])
    ensures var o := LoopOf(l, w, script); o.running && Idle(o.log) && Left(o.log, Minus(n, |script|))
    decreases |script|
  {
    hide Inv, Idle, TurnOf, Smooth, Left;
    if script != [] {
      var init := script[..|script| - 1];
      LoopProgress(l, w, init, n);
      TurnProgress(LoopOf(l, w, init).log, w, script[|script| - 1], Minus(n, |init|));
    }
  }

  /** A run gets somewhere: with nothing pushed, working files and a sink that takes
      everything, from rest and an exact count, the turns of the loop and the last
      attempt each take at least one unread record, until none is left. */
  lemma RunProgress(l: Log, w: Setup, script: seq<Turn>, last: Turn, n: nat)
    requires Inv(l) && Idle(l) && Left(l, n) && w.batchSize >= 1
    requires ScriptPushable(w.cfg, script) && TurnPushable(w.cfg, last)
    requires (forall i :: 0 <= i < |script| ==> Smooth(script[i])) && SmoothSend(last)
    ensures Left(RunOf(l, w, script, last).log, Minus(n, |script| + 1))
  {
    hide Inv, Idle, LoopOf, FinalOf, SendOf, Smooth, SmoothSend;
    LoopProgress(l, w, script, n);
    SmoothLeft(LoopOf(l, w, script).log, w, last, Minus(n, |script|));
  }

  /** What a turn delivers, whatever is pushed before and after: nothing once cancelled,
      and otherwise, from rest and an exact count with a flush that works, the longest
      run of what is unread after the pushes, or nothing if the sink did not take it all. */
  lemma TurnDelivers(l: Log, w: Setup, t: Turn)
    requires Inv(l) && Idle(l) && CountExact(l) && w.batchSize >= 1 && TurnPushable(w.cfg, t)
    ensures var m := PushAll(l, w, t.waiting);
      var batch := PeekedBatch(m, t.flush, w.batchSize);
      var o := TurnOf(l, w, t);
      && (t.cancelled ==> o == Outcome(m, [], false))
      && (!t.cancelled && t.flush.None? ==>
            && (CursorInside(m); Unread(m) > 0 ==> batch != [])
            && var whole := t.send.AllSent? || (t.send.SomeSent? && t.send.n >= |batch|);
            && o.out == (if whole then batch else [])
            && o.running == (batch == [] || whole || !t.cancelledInBackoff)
            && (batch != [] && !whole ==> o.log.peek == o.log.cursor && o.log.acked == l.acked))
  {
    hide Inv, Idle, PushAll, PeekOp, CountExact, Slides, PeekedBatch, AckedOf, ResetOp, HasData, Unread;
    PushAllSlides(l, w, t.waiting);
    var m := PushAll(l, w, t.waiting);
    SlidesKeeps(l, l, m, {});
    if CountExact(l) { SlidesCount(l, m); }
    BatchIfUnread(m, w.batchSize);
    SlidesKeepAcks(l, m);
    NotTaken(m, w, t);
  }

  lemma SlidesKeepAcks(l: Log, m: Log)
    requires Inv(l) && Inv(m) && Slides(l, m)
    ensures m.acked == l.acked
  {
    hide Inv, CountExact, CountWithin, Keeps;
  }

  /** A batch the sink did not take whole is not acknowledged, and all of it is peeked again. */
  lemma NotTaken(l: Log, w: Setup, t: Turn)
    requires Inv(l) && TurnPushable(w.cfg, t)
    ensures var batch := PeekedBatch(l, t.flush, w.batchSize);
      var m := SendOf(l, w, t).log;
      batch != [] && !TookAll(t.send, |batch|) ==> m.peek == m.cursor && m.acked == l.acked
  {
    hide Inv, PushAll, Slides, PeekedBatch, AckedOf, PeekOp, LongestRun, Payloads;
    PeekSafe(l, t.flush, w.batchSize, PEEK_MAX_BYTES);
    PeekIsLongestRun(l, t.flush, w.batchSize, PEEK_MAX_BYTES);
    var p := PeekOp(l, t.flush, w.batchSize, PEEK_MAX_BYTES);
    PushAllSlides(p, w, t.sending);
    SlidesKeepAcks(p, PushAll(p, w, t.sending));
  }

  lemma BatchIfUnread(l: Log, max: nat)
    requires Inv(l) && Idle(l) && CountExact(l) && max >= 1
    ensures l.cursor.at <= |l.hist|
    ensures Unread(l) > 0 <==> PeekedBatch(l, None, max) != []
    ensures Unread(l) > 0 ==> HasData(l)
  {
    hide Tracks, Shape, Whole, Span, GoodIn, Good, Off, Payloads, PeekOp, LongestRun;
    HandedCovers(l);
    CursorBounds(l);
    PeekIsLongestRun(l, None, max, PEEK_MAX_BYTES);
    var p := PeekOp(l, None, max, PEEK_MAX_BYTES);
    PeekSafe(l, None, max, PEEK_MAX_BYTES);
    CursorBounds(p);
    SpanAdd(l.hist, l.cursor.at, l.peek.at, |l.hist|);
    SpanAdd(l.hist, l.peek.at, p.peek.at, |l.hist|);
    SpanZero(l.hist, |l.hist|, |l.hist|);
  }

  /** What the last attempt delivers: the claimed part of what a peek hands out, and then
      the cursor is past all of it. */
  lemma FinalDelivers(l: Log, w: Setup, t: Turn)
    requires Inv(l) && TurnPushable(w.cfg, t)
    ensures var batch := PeekedBatch(l, t.flush, w.batchSize);
      var o := FinalOf(l, w, t);
      && o.out == (match t.send
                   case AllSent => batch
                   case SomeSent(n) => if n < |batch| then batch[..n] else batch
                   case SendError => [])
      && (batch != [] && !t.send.SendError? ==>
            o.log.cursor.at >= PeekOp(l, t.flush, w.batchSize, PEEK_MAX_BYTES).peek.at)
      && (batch != [] && t.send.SendError? ==> o.log.peek == o.log.cursor)
  {
    hide Inv, PushAll, PeekOp, Slides, PeekedBatch, AckOp, SaveOp;
    var p := PeekOp(l, t.flush, w.batchSize, PEEK_MAX_BYTES);
    var batch := PeekedBatch(l, t.flush, w.batchSize);
    PeekSafe(l, t.flush, w.batchSize, PEEK_MAX_BYTES);
    if batch != [] {
      PushAllSlides(p, w, t.sending);
      var q := PushAll(p, w, t.sending);
      SlidesAhead(p, q);
      var claimed := Claimed(t.send, |batch|);
      assert batch[..|batch|] == batch;
      if claimed.Some? { AckedPast(q, w, claimed.value, t); }
    }
  }

  /** A run ends with that attempt, whether or not its loop was left early: what it
      delivers is what the loop did, and then the claimed part of the next batch. */
  lemma RunDelivers(l: Log, w: Setup, script: seq<Turn>, last: Turn)
    requires Inv(l) && ScriptPushable(w.cfg, script) && TurnPushable(w.cfg, last)
    ensures var m := LoopOf(l, w, script);
      var batch := PeekedBatch(m.log, last.flush, w.batchSize);
      RunOf(l, w, script, last).out == m.out + match last.send
        case AllSent => batch
        case SomeSent(n) => if n < |batch| then batch[..n] else batch
        case SendError => []
    ensures script == [] ==> LoopOf(l, w, script) == Outcome(l, [], true)
  {
    hide Inv, FinalOf, LoopOf, PeekedBatch;
    FinalDelivers(LoopOf(l, w, script).log, w, last);
    if script == [] {
      assert script[..0] == script;
      StartLoop(l, w, script);
    }
  }

  lemma SlidesAhead(l: Log, m: Log)
    requires Inv(l) && Inv(m) && Slides(l, m)
    ensures l.cursor.at <= m.cursor.at && l.peek.at <= m.peek.at
  {
    hide Inv, CountExact, CountWithin, Keeps;
  }

  lemma AckedPast(l: Log, w: Setup, n: nat, t: Turn)
    requires Inv(l) && TurnPushable(w.cfg, t)
    ensures AckedOf(l, w, n, t).cursor.at >= l.peek.at
  {
    hide Inv, PushAll, Slides, AckOp;
    AckSafe(l, n);
    AckFields(l, n);
    PushAllSlides(AckOp(l, n), w, t.acking);
    SlidesAhead(AckOp(l, n), PushAll(AckOp(l, n), w, t.acking));
  }
}
