/** The byte budget of the input channel: any number of senders acquire permits
    before an event is admitted, and the pipeline gives them back when it takes the
    event out.  Every step between two awaits, or two atomic operations, is a step
    of its own. */
module ChannelBudget {
  import opened Naturals
  import opened Options
  import opened Records

  /** The texts of an event, which are what it weighs. */
  datatype Body = Body(message: seq<Byte>, raw: Option<seq<Byte>>)

  function EventBytes(ev: Body): nat {
    |ev.message| + if ev.raw.Some? then |ev.raw.value| else 0
  }

  function DivCeil(a: nat, b: nat): nat
    requires b > 0
  {
    (a + b - 1) / b
  }

  /** Kilobytes, rounded up, at least one, cast to 32 bits. */
  function PermitsFor(ev: Body): nat {
    var n := DivCeil(EventBytes(ev), 1024);
    (if n < 1 then 1 else n) % WORD
  }

  /** All the text of an event. */
  function WholeText(ev: Body): seq<Byte> {
    ev.message + if ev.raw.Some? then ev.raw.value else []
  }

  /** The permits pay for all the text exactly when the cast loses nothing, and then one
      fewer would not, unless it is the one that even an empty event costs. */
  lemma PermitsCoverIff(ev: Body)
    ensures 1024 * PermitsFor(ev) >= |WholeText(ev)| <==> |WholeText(ev)| <= 1024 * (WORD - 1)
    ensures |WholeText(ev)| <= 1024 * (WORD - 1) ==>
              PermitsFor(ev) == 1 || (PermitsFor(ev) > 1 && 1024 * (PermitsFor(ev) - 1) < |WholeText(ev)|)
    ensures EventBytes(ev) == |WholeText(ev)|
  {
    var n := DivCeil(EventBytes(ev), 1024);
    assert 1024 * n >= EventBytes(ev) && (n > 0 ==> 1024 * (n - 1) < EventBytes(ev));
    if n >= WORD {
      assert 1024 * (n - 1) >= 1024 * (WORD - 1);
      assert PermitsFor(ev) <= WORD - 1;
    }
  }

  /** An event somewhere on its way, and whether permits were acquired for it. */
  datatype Item = Item(ev: Body, paid: bool)

  datatype Sender =
    | Idle
    | Waiting(ev: Body)         // for permits
    | Holding(item: Item)       // permits acquired, or given up on
    | Credited(item: Item)      // in the gauge, waiting for room in the channel
    | Sent                      // admitted; the permit is about to be forgotten

  datatype State = State(
    available: nat,
    gauge: nat,
    channel: seq<Item>,
    taken: Option<Item>,        // out of the channel, not yet released
    senders: seq<Sender>,
    total: nat)

  datatype Step =
    | Begin(i: nat, ev: Body)
    | Acquire(i: nat)
    | GiveUp(i: nat)            // blocking_send, cancelled while waiting for permits
    | Credit(i: nat)
    | Enqueue(i: nat)
    | Forget(i: nat)
    | Reject(i: nat)            // the channel is closed
    | Drop(i: nat)              // the future of an async send is dropped
    | Dequeue
    | Release

  function Start(bytes: nat, senders: nat): State {
    State(bytes / 1024, 0, [], None, seq(senders, _ => Idle), bytes / 1024)
  }

  // ---------------------------------------------------------------- accounts

  function Paid(it: Item): nat {
    if it.paid then PermitsFor(it.ev) else 0
  }

  function PermitsHeld(s: Sender): nat {
    match s
    case Holding(it) => Paid(it)
    case Credited(it) => Paid(it)
    case _ => 0
  }

  function BytesCredited(s: Sender): nat {
    if s.Credited? then EventBytes(s.item.ev) else 0
  }

  function Sum<T>(f: T -> nat, s: seq<T>): nat {
    if s == [] then 0 else f(s[0]) + Sum(f, s[1..])
  }

  lemma {:induction false} SumUpdate<T>(f: T -> nat, s: seq<T>, i: nat, x: T)
    requires i < |s|
    ensures Sum(f, s[i := x]) + f(s[i]) == Sum(f, s) + f(x)
  {
    var t := s[i := x];
    if i == 0 {
      assert t[1..] == s[1..];
    } else {
      assert t[1..] == s[1..][i - 1 := x];
      SumUpdate(f, s[1..], i - 1, x);
    }
  }

  lemma {:induction false} SumAppend<T>(f: T -> nat, s: seq<T>, x: T)
    ensures Sum(f, s + [x]) == Sum(f, s) + f(x)
  {
    if s != [] {
      assert (s + [x])[1..] == s[1..] + [x];
      SumAppend(f, s[1..], x);
    }
  }

  function BytesOf(it: Item): nat {
    EventBytes(it.ev)
  }

  function PermitsOut(s: State): nat {
    Sum(PermitsHeld, s.senders) + Sum(Paid, s.channel) + if s.taken.Some? then Paid(s.taken.value) else 0
  }

  function BytesIn(s: State): nat {
    Sum(BytesCredited, s.senders) + Sum(BytesOf, s.channel) + if s.taken.Some? then BytesOf(s.taken.value) else 0
  }

  /** Permits and gauge, up to `made` permits that nobody had acquired and `lost`
      bytes of credit that nobody will take back. */
  predicate Balanced(s: State, lost: nat, made: nat) {
    && s.available + PermitsOut(s) == s.total + made
    && s.gauge == BytesIn(s) + lost
  }

  // ------------------------------------------------------------------- steps

  predicate Enabled(s: State, step: Step) {
    match step
    case Begin(i, _) => i < |s.senders| && s.senders[i].Idle?
    case Acquire(i) => i < |s.senders| && s.senders[i].Waiting? && PermitsFor(s.senders[i].ev) <= s.available
    case GiveUp(i) => i < |s.senders| && s.senders[i].Waiting?
    case Credit(i) => i < |s.senders| && s.senders[i].Holding?
    case Enqueue(i) => i < |s.senders| && s.senders[i].Credited?
    case Forget(i) => i < |s.senders| && s.senders[i].Sent?
    case Reject(i) => i < |s.senders| && s.senders[i].Credited?
    case Drop(i) => i < |s.senders| && (s.senders[i].Waiting? || (s.senders[i].Credited? && s.senders[i].item.paid))
    case Dequeue => s.taken.None? && s.channel != []
    case Release => s.taken.Some?
  }

  function Next(s: State, step: Step): State
    requires Enabled(s, step)
  {
    match step
    case Begin(i, ev) => s.(senders := s.senders[i := Waiting(ev)])
    case Acquire(i) =>
      var ev := s.senders[i].ev;
      s.(available := s.available - PermitsFor(ev), senders := s.senders[i := Holding(Item(ev, true))])
    case GiveUp(i) => s.(senders := s.senders[i := Holding(Item(s.senders[i].ev, false))])
    case Credit(i) =>
      var it := s.senders[i].item;
      s.(gauge := s.gauge + EventBytes(it.ev), senders := s.senders[i := Credited(it)])
    case Enqueue(i) => s.(channel := s.channel + [s.senders[i].item], senders := s.senders[i := Sent])
    case Forget(i) => s.(senders := s.senders[i := Idle])
    case Reject(i) =>
      var it := s.senders[i].item;
      s.(gauge := Minus(s.gauge, EventBytes(it.ev)), available := s.available + Paid(it),
         senders := s.senders[i := Idle])
    case Drop(i) =>
      if s.senders[i].Waiting? then s.(senders := s.senders[i := Idle])
      else
        var it := s.senders[i].item;
        s.(available := s.available + Paid(it), senders := s.senders[i := Idle])
    case Dequeue => s.(taken := Some(s.channel[0]), channel := s.channel[1..])
    case Release =>
      var it := s.taken.value;
      s.(available := s.available + PermitsFor(it.ev),
         gauge := Minus(s.gauge, EventBytes(it.ev)),
         taken := None)
  }

  /** A send whose future is dropped after its bytes were credited. */
  predicate DropsCredit(s: State, step: Step)
    requires Enabled(s, step)
  {
    step.Drop? && s.senders[step.i].Credited? && EventBytes(s.senders[step.i].item.ev) > 0
  }

  function CreditLost(s: State, step: Step): nat
    requires Enabled(s, step)
  {
    if DropsCredit(s, step) then EventBytes(s.senders[step.i].item.ev) else 0
  }

  /** An event admitted after giving up on its permits is released. */
  predicate ReleasesUnpaid(s: State, step: Step)
    requires Enabled(s, step)
  {
    step.Release? && !s.taken.value.paid && PermitsFor(s.taken.value.ev) > 0
  }

  function PermitsMade(s: State, step: Step): nat
    requires Enabled(s, step)
  {
    if ReleasesUnpaid(s, step) then PermitsFor(s.taken.value.ev) else 0
  }

  lemma {:induction false} SumAtLeast<T>(f: T -> nat, s: seq<T>, i: nat)
    requires i < |s|
    ensures Sum(f, s) >= f(s[i])
  {
    if i > 0 { SumAtLeast(f, s[1..], i - 1); }
  }

  /** Every step keeps both balances but for what those two steps lose and make; in
      particular no subtraction from the gauge ever saturates. */
  lemma StepBalanced(s: State, step: Step, lost: nat, made: nat)
    requires Balanced(s, lost, made) && Enabled(s, step)
    ensures Balanced(Next(s, step), lost + CreditLost(s, step), made + PermitsMade(s, step))
    ensures step.Release? ==> s.gauge >= EventBytes(s.taken.value.ev)
    ensures step.Reject? ==> s.gauge >= EventBytes(s.senders[step.i].item.ev)
  {
    hide Sum, PermitsFor, EventBytes, PermitsOut, BytesIn, PermitsMade, CreditLost, Next;
    StepPermits(s, step, made);
    StepGauge(s, step, lost);
  }

  lemma StepPermits(s: State, step: Step, made: nat)
    requires s.available + PermitsOut(s) == s.total + made && Enabled(s, step)
    ensures var t := Next(s, step); t.available + PermitsOut(t) == t.total + made + PermitsMade(s, step)
  {
    hide Sum, PermitsFor, EventBytes, BytesIn;
    match step
    case Dequeue => FirstOf(Paid, s.channel);
    case Release =>
    case Enqueue(i) => SenderMoves(s, step); SumAppend(Paid, s.channel, s.senders[i].item);
    case _ => SenderMoves(s, step);
  }

  lemma StepGauge(s: State, step: Step, lost: nat)
    requires s.gauge == BytesIn(s) + lost && Enabled(s, step)
    ensures var t := Next(s, step); t.gauge == BytesIn(t) + lost + CreditLost(s, step)
    ensures step.Release? ==> s.gauge >= EventBytes(s.taken.value.ev)
    ensures step.Reject? ==> s.gauge >= EventBytes(s.senders[step.i].item.ev)
  {
    hide Sum, PermitsFor, EventBytes, PermitsOut;
    match step
    case Dequeue => FirstOf(BytesOf, s.channel);
    case Release =>
    case Enqueue(i) => SenderMoves(s, step); SumAppend(BytesOf, s.channel, s.senders[i].item);
    case Reject(i) => SenderMoves(s, step); SumAtLeast(BytesCredited, s.senders, i);
    case _ => SenderMoves(s, step);
  }

  /** What the step of one sender does to the sums over all of them. */
  lemma SenderMoves(s: State, step: Step)
    requires Enabled(s, step) && !step.Dequeue? && !step.Release?
    ensures step.i < |s.senders|
    ensures var t := Next(s, step);
      && |t.senders| == |s.senders|
      && Sum(PermitsHeld, t.senders) + PermitsHeld(s.senders[step.i])
         == Sum(PermitsHeld, s.senders) + PermitsHeld(t.senders[step.i])
      && Sum(BytesCredited, t.senders) + BytesCredited(s.senders[step.i])
         == Sum(BytesCredited, s.senders) + BytesCredited(t.senders[step.i])
  {
    hide Sum, PermitsFor, EventBytes, PermitsHeld, BytesCredited;
    var t := Next(s, step);
    assert t.senders == s.senders[step.i := t.senders[step.i]];
    Updated(s, step.i, t.senders[step.i]);
  }

  lemma Updated(s: State, i: nat, x: Sender)
    requires i < |s.senders|
    ensures var t := s.senders[i := x];
      && Sum(PermitsHeld, t) + PermitsHeld(s.senders[i]) == Sum(PermitsHeld, s.senders) + PermitsHeld(x)
      && Sum(BytesCredited, t) + BytesCredited(s.senders[i]) == Sum(BytesCredited, s.senders) + BytesCredited(x)
  {
    SumUpdate(PermitsHeld, s.senders, i, x);
    SumUpdate(BytesCredited, s.senders, i, x);
  }

  lemma FirstOf<T>(f: T -> nat, s: seq<T>)
    requires s != []
    ensures Sum(f, s) == f(s[0]) + Sum(f, s[1..])
  {
  }

  // -------------------------------------------------------------------- runs

  ghost predicate Runs(s: State, steps: seq<Step>)
    decreases |steps|
  {
    steps == [] || (Enabled(s, steps[0]) && Runs(Next(s, steps[0]), steps[1..]))
  }

  ghost function After(s: State, steps: seq<Step>): State
    requires Runs(s, steps)
    decreases |steps|
  {
    if steps == [] then s else After(Next(s, steps[0]), steps[1..])
  }

  ghost predicate NeverDropsCredit(s: State, steps: seq<Step>)
    requires Runs(s, steps)
    decreases |steps|
  {
    steps == [] || (!DropsCredit(s, steps[0]) && NeverDropsCredit(Next(s, steps[0]), steps[1..]))
  }

  ghost predicate NeverReleasesUnpaid(s: State, steps: seq<Step>)
    requires Runs(s, steps)
    decreases |steps|
  {
    steps == [] || (!ReleasesUnpaid(s, steps[0]) && NeverReleasesUnpaid(Next(s, steps[0]), steps[1..]))
  }

  /** Each drop of a credited send, and each release of an unpaid event, is felt for
      good: nothing later makes up for it. */
  lemma {:induction false} RunBalanced(s: State, steps: seq<Step>, lost: nat, made: nat)
    returns (lost': nat, made': nat)
    requires Balanced(s, lost, made) && Runs(s, steps)
    ensures Balanced(After(s, steps), lost', made') && After(s, steps).total == s.total
    ensures lost' >= lost && made' >= made
    ensures lost' == lost <==> NeverDropsCredit(s, steps)
    ensures made' == made <==> NeverReleasesUnpaid(s, steps)
    decreases |steps|
  {
    hide Enabled, Balanced, DropsCredit, ReleasesUnpaid;
    if steps == [] {
      lost', made' := lost, made;
    } else {
      var step := steps[0];
      StepBalanced(s, step, lost, made);
      StepTotal(s, step);
      StepDrift(s, step);
      lost', made' :=
        RunBalanced(Next(s, step), steps[1..], lost + CreditLost(s, step), made + PermitsMade(s, step));
    }
  }

  lemma StepDrift(s: State, step: Step)
    requires Enabled(s, step)
    ensures CreditLost(s, step) > 0 <==> DropsCredit(s, step)
    ensures PermitsMade(s, step) > 0 <==> ReleasesUnpaid(s, step)
  {
  }

  /** No blocking send is cancelled while it waits for permits. */
  ghost predicate NoneGivesUp(steps: seq<Step>) {
    forall k :: 0 <= k < |steps| ==> !steps[k].GiveUp?
  }

  /** No async send is dropped. */
  ghost predicate NoneDropped(steps: seq<Step>) {
    forall k :: 0 <= k < |steps| ==> !steps[k].Drop?
  }

  predicate AllPaid(s: State) {
    && (forall i :: 0 <= i < |s.senders| ==>
          (s.senders[i].Holding? || s.senders[i].Credited? ==> s.senders[i].item.paid))
    && (forall i :: 0 <= i < |s.channel| ==> s.channel[i].paid)
    && (s.taken.Some? ==> s.taken.value.paid)
  }

  lemma StepTotal(s: State, step: Step)
    requires Enabled(s, step)
    ensures Next(s, step).total == s.total
  {
  }

  lemma StepPaid(s: State, step: Step)
    requires AllPaid(s) && Enabled(s, step) && !step.GiveUp?
    ensures AllPaid(Next(s, step)) && !ReleasesUnpaid(s, step)
  {
    hide PermitsFor, EventBytes;
  }

  lemma {:induction false} RunPaid(s: State, steps: seq<Step>)
    requires AllPaid(s) && Runs(s, steps) && NoneGivesUp(steps)
    ensures AllPaid(After(s, steps)) && NeverReleasesUnpaid(s, steps)
    decreases |steps|
  {
    hide Enabled, AllPaid, Next, ReleasesUnpaid;
    if steps != [] {
      StepPaid(s, steps[0]);
      RunPaid(Next(s, steps[0]), steps[1..]);
    }
  }

  lemma {:induction false} RunKeepsCredit(s: State, steps: seq<Step>)
    requires Runs(s, steps) && NoneDropped(steps)
    ensures NeverDropsCredit(s, steps)
    decreases |steps|
  {
    hide Enabled, Next;
    if steps != [] { RunKeepsCredit(Next(s, steps[0]), steps[1..]); }
  }

  lemma {:induction false} IdleSums(n: nat)
    ensures Sum(PermitsHeld, seq(n, _ => Idle)) == 0 && Sum(BytesCredited, seq(n, _ => Idle)) == 0
  {
    if n > 0 {
      var s: seq<Sender> := seq(n, _ => Idle);
      assert s[1..] == seq(n - 1, _ => Idle);
      IdleSums(n - 1);
    }
  }

  lemma StartBalanced(bytes: nat, senders: nat)
    ensures Balanced(Start(bytes, senders), 0, 0) && AllPaid(Start(bytes, senders))
  {
    IdleSums(senders);
  }

  /** In every interleaving in which no blocking send gives up, the permits available,
      held by senders, by queued events and by the event being released add up to the
      initial total; and in every one in which no async send is dropped, the gauge is
      the bytes of the credited events not yet released. */
  lemma BudgetConserved(bytes: nat, senders: nat, steps: seq<Step>)
    requires Runs(Start(bytes, senders), steps)
    ensures var t := After(Start(bytes, senders), steps);
      && (NoneGivesUp(steps) ==> t.available + PermitsOut(t) == bytes / 1024)
      && (NoneDropped(steps) ==> t.gauge == BytesIn(t))
  {
    hide Sum, PermitsFor, EventBytes, Runs, After, NeverDropsCredit, NeverReleasesUnpaid;
    StartBalanced(bytes, senders);
    if NoneGivesUp(steps) { RunPaid(Start(bytes, senders), steps); }
    if NoneDropped(steps) { RunKeepsCredit(Start(bytes, senders), steps); }
    DriftIff(bytes, senders, steps);
  }

  /** Whatever is cancelled, the gauge reads right if and only if no send with bytes
      to its name was dropped between being credited and being admitted; and the
      permits add up if and only if no event admitted without permits was released. */
  lemma DriftIff(bytes: nat, senders: nat, steps: seq<Step>)
    requires Runs(Start(bytes, senders), steps)
    ensures var s := Start(bytes, senders); var t := After(s, steps);
      && (t.gauge == BytesIn(t) <==> NeverDropsCredit(s, steps))
      && (t.available + PermitsOut(t) == bytes / 1024 <==> NeverReleasesUnpaid(s, steps))
  {
    hide Sum, PermitsFor, EventBytes, Runs, After, NeverDropsCredit, NeverReleasesUnpaid;
    StartBalanced(bytes, senders);
    var lost, made := RunBalanced(Start(bytes, senders), steps, 0, 0);
  }

  /** Both do happen: a send dropped while it waits for room leaves its bytes in the
      gauge for good. */
  lemma DropWitness(ev: Body, bytes: nat)
    requires 0 < EventBytes(ev) && PermitsFor(ev) <= bytes / 1024
    ensures var s, steps := Start(bytes, 1), [Begin(0, ev), Acquire(0), Credit(0), Drop(0)];
      Runs(s, steps) && After(s, steps).gauge == EventBytes(ev) && BytesIn(After(s, steps)) == 0
  {
    hide PermitsFor, EventBytes, Runs, After, Sum;
    var s0 := Start(bytes, 1);
    var s1 := Next(s0, Begin(0, ev));
    var s2 := Next(s1, Acquire(0));
    var s3 := Next(s2, Credit(0));
    var s4 := Next(s3, Drop(0));
    NoSteps(s4);
    Prepend(s3, Drop(0), []);
    assert [Drop(0)] + [] == [Drop(0)];
    Prepend(s2, Credit(0), [Drop(0)]);
    Prepend(s1, Acquire(0), [Credit(0)] + [Drop(0)]);
    Prepend(s0, Begin(0, ev), [Acquire(0)] + ([Credit(0)] + [Drop(0)]));
    assert [Begin(0, ev), Acquire(0), Credit(0), Drop(0)]
        == [Begin(0, ev)] + ([Acquire(0)] + ([Credit(0)] + [Drop(0)]));
    IdleSums(1);
    assert s4.senders == seq(1, _ => Idle);
    NothingSums();
  }

  /** And an event sent on after giving up makes permits when it is released. */
  lemma GiveUpWitness(ev: Body, bytes: nat)
    ensures var s, steps := Start(bytes, 1), [Begin(0, ev), GiveUp(0), Credit(0), Enqueue(0), Dequeue, Release];
      Runs(s, steps) && After(s, steps).available == bytes / 1024 + PermitsFor(ev)
  {
    hide PermitsFor, EventBytes, Runs, After, Sum;
    var s0 := Start(bytes, 1);
    var s1 := Next(s0, Begin(0, ev));
    var s2 := Next(s1, GiveUp(0));
    var s3 := Next(s2, Credit(0));
    var s4 := Next(s3, Enqueue(0));
    var s5 := Next(s4, Dequeue);
    var s6 := Next(s5, Release);
    var r3 := [Enqueue(0)] + ([Dequeue] + [Release]);
    NoSteps(s6);
    Prepend(s5, Release, []);
    assert [Release] + [] == [Release];
    Prepend(s4, Dequeue, [Release]);
    Prepend(s3, Enqueue(0), [Dequeue] + [Release]);
    Prepend(s2, Credit(0), r3);
    Prepend(s1, GiveUp(0), [Credit(0)] + r3);
    Prepend(s0, Begin(0, ev), [GiveUp(0)] + ([Credit(0)] + r3));
    assert [Begin(0, ev), GiveUp(0), Credit(0), Enqueue(0), Dequeue, Release]
        == [Begin(0, ev)] + ([GiveUp(0)] + ([Credit(0)] + r3));
  }

  lemma NoSteps(s: State)
    ensures Runs(s, []) && After(s, []) == s
  {
  }

  lemma NothingSums()
    ensures Sum(BytesOf, []) == 0
  {
  }

  lemma Prepend(s: State, step: Step, rest: seq<Step>)
    requires Enabled(s, step) && Runs(Next(s, step), rest)
    ensures Runs(s, [step] + rest) && After(s, [step] + rest) == After(Next(s, step), rest)
  {
    hide Enabled, Next;
    assert ([step] + rest)[1..] == rest;
  }

  /** All the text of a queue of events. */
  function Texts(s: seq<Item>): seq<Byte> {
    if s == [] then [] else WholeText(s[0].ev) + Texts(s[1..])
  }

  lemma {:induction false} TextsWeigh(s: seq<Item>)
    ensures |Texts(s)| == Sum(BytesOf, s)
  {
    hide PermitsFor, EventBytes, WholeText;
    if s != [] {
      PermitsCoverIff(s[0].ev);
      TextsWeigh(s[1..]);
    }
  }

  function PaidBytes(it: Item): nat {
    if it.paid then EventBytes(it.ev) else 0
  }

  /** Its permits, if it has any, pay for its bytes. */
  predicate Covered(it: Item) {
    it.paid ==> |WholeText(it.ev)| <= 1024 * (WORD - 1)
  }

  lemma {:induction false} BytesPaidFor(s: seq<Item>)
    requires forall i :: 0 <= i < |s| ==> Covered(s[i])
    ensures Sum(PaidBytes, s) <= 1024 * Sum(Paid, s)
  {
    hide PermitsFor, EventBytes, WholeText;
    if s != [] {
      PermitsCoverIff(s[0].ev);
      BytesPaidFor(s[1..]);
    }
  }

  lemma {:induction false} AllBytesPaid(s: seq<Item>)
    requires forall i :: 0 <= i < |s| ==> s[i].paid
    ensures Sum(PaidBytes, s) == Sum(BytesOf, s)
  {
    if s != [] { AllBytesPaid(s[1..]); }
  }

  /** Whatever is cancelled, as long as no event admitted without permits has been
      released the bytes of the queued events that paid stay within the budget. */
  lemma PaidWithinBudget(bytes: nat, senders: nat, steps: seq<Step>)
    requires Runs(Start(bytes, senders), steps) && NeverReleasesUnpaid(Start(bytes, senders), steps)
    requires var t := After(Start(bytes, senders), steps);
      forall i :: 0 <= i < |t.channel| ==> Covered(t.channel[i])
    ensures Sum(PaidBytes, After(Start(bytes, senders), steps).channel) <= bytes
  {
    hide Sum, PermitsFor, EventBytes, Runs, After, NeverReleasesUnpaid, NeverDropsCredit, Covered;
    DriftIff(bytes, senders, steps);
    BytesPaidFor(After(Start(bytes, senders), steps).channel);
  }

  /** If no blocking send gives up, those are all the bytes queued, however many async
      sends are dropped. */
  lemma QueuedWithinBudget(bytes: nat, senders: nat, steps: seq<Step>)
    requires Runs(Start(bytes, senders), steps) && NoneGivesUp(steps)
    requires var t := After(Start(bytes, senders), steps);
      forall i :: 0 <= i < |t.channel| ==> Covered(t.channel[i])
    ensures |Texts(After(Start(bytes, senders), steps).channel)| <= bytes
  {
    hide Sum, PermitsFor, EventBytes, Runs, After, NeverReleasesUnpaid, Covered, Texts;
    StartBalanced(bytes, senders);
    RunPaid(Start(bytes, senders), steps);
    PaidWithinBudget(bytes, senders, steps);
    AllBytesPaid(After(Start(bytes, senders), steps).channel);
    TextsWeigh(After(Start(bytes, senders), steps).channel);
  }

  /** And if one does, an event of any size is queued without a permit. */
  lemma GiveUpExceedsBudget(ev: Body, bytes: nat)
    requires |WholeText(ev)| > bytes
    ensures var s, steps := Start(bytes, 1), [Begin(0, ev), GiveUp(0), Credit(0), Enqueue(0)];
      && Runs(s, steps) && NeverReleasesUnpaid(s, steps)
      && |Texts(After(s, steps).channel)| > bytes
  {
    hide PermitsFor, EventBytes, Runs, After, Sum, NeverReleasesUnpaid, Texts;
    var s0 := Start(bytes, 1);
    var s1 := Next(s0, Begin(0, ev));
    var s2 := Next(s1, GiveUp(0));
    var s3 := Next(s2, Credit(0));
    var s4 := Next(s3, Enqueue(0));
    NoSteps(s4);
    Prepend(s3, Enqueue(0), []);
    assert [Enqueue(0)] + [] == [Enqueue(0)];
    Prepend(s2, Credit(0), [Enqueue(0)]);
    Prepend(s1, GiveUp(0), [Credit(0)] + [Enqueue(0)]);
    Prepend(s0, Begin(0, ev), [GiveUp(0)] + ([Credit(0)] + [Enqueue(0)]));
    assert [Begin(0, ev), GiveUp(0), Credit(0), Enqueue(0)]
        == [Begin(0, ev)] + ([GiveUp(0)] + ([Credit(0)] + [Enqueue(0)]));
    assert s4.channel == [Item(ev, false)];
    SumAppend(BytesOf, [], Item(ev, false));
    NoneReleased(s0, [Begin(0, ev), GiveUp(0), Credit(0), Enqueue(0)]);
    assert [] + [Item(ev, false)] == [Item(ev, false)];
    PermitsCoverIff(ev);
    TextsWeigh(s4.channel);
  }

  lemma {:induction false} NoneReleased(s: State, steps: seq<Step>)
    requires Runs(s, steps) && forall k :: 0 <= k < |steps| ==> !steps[k].Release?
    ensures NeverReleasesUnpaid(s, steps)
    decreases |steps|
  {
    hide Enabled, Next;
    if steps != [] { NoneReleased(Next(s, steps[0]), steps[1..]); }
  }
}
