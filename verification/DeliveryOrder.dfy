/**
 How far the order of sends is the order of writes, and why deferred copies cannot get stuck:
 up to one message more than the queue holds the orders agree, with two more a spilled copy can be
 overtaken, and from every reachable state the writers can make room for every copy a spill task holds.
 */
module DeliveryOrder {
  import opened Wrappers
  import opened Messages
  import opened Membership
  import opened Delivery
  import opened DeliveryLedger
  import opened DeliverySent

  // ---- The bound up to which sends are written in order ----

  /** Once the queue was full, more was sent than it holds; with one message more, only the last one can be late. */
  predicate OnlyLastLate(ch: Channel) {
    ch.wasFull ==>
      && |ch.accepted| > CHANNEL_BUFFER_SIZE
      && (|ch.accepted| == CHANNEL_BUFFER_SIZE + 1 ==>
            ch.enqueued == ch.accepted[..CHANNEL_BUFFER_SIZE] || ch.enqueued == ch.accepted)
  }

  lemma OfferKeepsLast(ch: Channel, item: Item)
    requires ChannelOk(ch) && OnlyLastLate(ch)
    ensures OnlyLastLate(ch.Offer(item))
  {
    if !ch.wasFull && ch.TrySend().Full? {
      assert ch.enqueued == ch.written + ch.Hand() + ch.queue;
      assert ch.accepted == ch.enqueued;
      assert (ch.accepted + [item])[..|ch.accepted|] == ch.accepted;
    }
  }

  /** A deferred copy that enters the queue is one that has not been there, so it is the last one sent. */
  lemma DeliverKeepsLast(ch: Channel, item: Item, held: int)
    requires ChannelOk(ch) && OnlyLastLate(ch) && !ch.TrySend().Full?
    requires Conserved(ch, held, item) && held > 0
    ensures OnlyLastLate(ch.Deliver(item))
  {
    var n := CHANNEL_BUFFER_SIZE;
    if ch.TrySend().Sent? && ch.wasFull && |ch.accepted| == n + 1 {
      CountConcat(ch.written + ch.Hand(), ch.queue, item);
      CountConcat(ch.written, ch.Hand(), item);
      assert Count(ch.accepted, item) > Count(ch.enqueued, item);
      assert ch.accepted == ch.accepted[..n] + [ch.accepted[n]];
      CountConcat(ch.accepted[..n], [ch.accepted[n]], item);
      CountOne(ch.accepted[n], item);
    }
  }

  lemma ApplyKeepsLast(ch: Channel, c: Change, held: int)
    requires ChannelOk(ch) && OnlyLastLate(ch) && CanApply(ch, c)
    requires c.Delivered? ==> Conserved(ch, held, c.item) && held > 0
    ensures OnlyLastLate(Apply(ch, c))
  {
    hide ChannelOk, Conserved, Channel.Offer, Channel.Deliver;
    match c
    case Offered(item) => OfferKeepsLast(ch, item);
    case Delivered(item) => DeliverKeepsLast(ch, item, held);
    case _ =>
  }

  lemma LastLateStep(st: State, e: Event, s: nat)
    requires Enabled(st, e) && Sound(st) && Balanced(st) && st.Has(s) && OnlyLastLate(st.channels[s])
    ensures Step(st, e).Has(s) && OnlyLastLate(Step(st, e).channels[s])
  {
    var c := ChangeTo(st, e, s);
    StepChannel(st, e, s);
    assert ChannelOk(st.channels[s]);
    hide Step, Sound, Enabled, ChangeTo, OnlyLastLate, ChannelOk, Held;
    var held := 0;
    if c.Delivered? {
      held := Held(st.tasks, s, c.item);
      HeldStep(st, e, s, c.item);
      assert Conserved(st.channels[s], held, c.item);
    }
    ApplyKeepsLast(st.channels[s], c, held);
  }

  lemma {:induction false} RunLastLate(run: Run, k: nat, s: nat)
    requires run.Valid() && k < |run.states| && run.states[k].Has(s)
    ensures OnlyLastLate(run.states[k].channels[s])
  {
    if k > 0 {
      hide Step, Sound, Balanced, Enabled;
      var st, e := run.states[k - 1], run.events[k - 1];
      assert run.StepAt(k - 1);
      StepCount(st, e);
      if st.Has(s) {
        RunLastLate(run, k - 1, s);
        RunSound(run, k - 1);
        RunBalanced(run, k - 1);
        LastLateStep(st, e, s);
      }
    }
  }

  /** Up to 10001 messages for a connection are written in the order in which they were sent, whatever else runs. */
  lemma OrderedWithinBuffer(run: Run, k: nat, s: nat)
    requires run.Valid() && k < |run.states| && run.states[k].Has(s)
    requires |SentTo(run, k, s)| <= 10001
    ensures run.states[k].channels[s].written <= SentTo(run, k, s)
  {
    AcceptedExactly(run, k, s);
    RunLastLate(run, k, s);
    WrittenInOrder(run, k, s);
  }

  // ---- Progress ----

  ghost predicate Extends(longer: Run, run: Run) {
    longer.Valid() && run.states <= longer.states && run.events <= longer.events
  }

  lemma Extend(run: Run, e: Event) returns (longer: Run)
    requires run.Valid() && Enabled(run.Last(), e)
    ensures Extends(longer, run) && longer.Last() == Step(run.Last(), e)
  {
    longer := run.Then(e);
    ThenValid(run, e);
  }

  lemma LastSound(run: Run)
    requires run.Valid()
    ensures Sound(run.Last())
  {
    RunSound(run, |run.states| - 1);
  }

  /** Whatever a channel is doing, its writer can bring it to accept one more copy. */
  lemma MakeRoom(run: Run, s: nat) returns (longer: Run)
    requires run.Valid() && run.Last().Has(s)
    ensures Extends(longer, run) && longer.Last().tasks == run.Last().tasks
    ensures longer.Last().Has(s) && !longer.Last().channels[s].TrySend().Full?
  {
    longer := run;
    LastSound(longer);
    assert ChannelOk(longer.Last().channels[s]);
    if longer.Last().channels[s].TrySend().Full? {
      if longer.Last().channels[s].writer.NotStarted? {
        longer := Extend(longer, Spawn(s));
      } else if longer.Last().channels[s].writer.Holding? {
        longer := Extend(longer, WriteOk(s));
      }
      if !longer.Last().channels[s].writer.Stopped? {
        longer := Extend(longer, Recv(s));
      }
    }
  }

  /** A spill task is never stuck for good: every run can be continued to one where it has sent all its entries. */
  lemma {:induction false} SpillCanFinish(run: Run, t: nat) returns (longer: Run)
    requires run.Valid() && run.Last().HasTask(t) && run.Last().tasks[t].Spill?
    ensures Extends(longer, run)
    ensures longer.Last().HasTask(t) && longer.Last().tasks[t] == Spill([])
    decreases |run.Last().tasks[t].entries|
  {
    var entries := run.Last().tasks[t].entries;
    if entries == [] {
      longer := run;
    } else {
      LastSound(run);
      assert EntryOk(run.Last(), run.Last().tasks[t].Entries()[0]);
      var ready := MakeRoom(run, entries[0].to);
      var sent := Extend(ready, SpillSend(t));
      longer := SpillCanFinish(sent, t);
    }
  }

  lemma WriteNext(run: Run, s: nat) returns (longer: Run)
    requires run.Valid() && run.Last().Has(s)
    requires run.Last().channels[s].writer.Idle? && run.Last().channels[s].queue != []
    requires !run.Last().channels[s].queue[0].msg.Close?
    ensures Extends(longer, run) && longer.Last().Has(s) && longer.Last().tasks == run.Last().tasks
    ensures var ch := run.Last().channels[s];
      longer.Last().channels[s] == ch.(queue := ch.queue[1..], written := ch.written + [ch.queue[0]])
  {
    var received := Extend(run, Recv(s));
    longer := Extend(received, WriteOk(s));
  }

  /** A writer that meets no Close can write all that is queued. */
  lemma {:induction false} CatchUp(run: Run, s: nat) returns (longer: Run)
    requires run.Valid() && run.Last().Has(s)
    requires run.Last().channels[s].writer.Idle? && NoClose(run.Last().channels[s].queue)
    ensures Extends(longer, run) && longer.Last().Has(s)
    ensures longer.Last().channels[s].written == run.Last().channels[s].enqueued
    ensures longer.Last().channels[s].accepted == run.Last().channels[s].accepted
    decreases |run.Last().channels[s].queue|
  {
    hide Step;
    var ch := run.Last().channels[s];
    if ch.queue == [] {
      longer := run;
      LastSound(run);
      assert ChannelOk(ch);
    } else {
      var wrote := WriteNext(run, s);
      longer := CatchUp(wrote, s);
    }
  }

  // ---- Past the bound ----

  const FILLER := Item(Text(""), Direct)

  function Filler(n: nat): seq<Item> {
    seq(n, _ => FILLER)
  }

  function Filled(n: nat): State {
    State([FRESH.(queue := Filler(n), writer := Idle, phase := Live, accepted := Filler(n), enqueued := Filler(n))],
          map[1 := 0], map[], {}, [])
  }

  lemma {:induction false} FillUp(n: nat) returns (run: Run)
    requires n <= CHANNEL_BUFFER_SIZE
    ensures run.Valid() && run.Last() == Filled(n)
  {
    if n == 0 {
      run := Extend(START, Register);
      run := Extend(run, Spawn(0));
      assert IdOf(0) == 1;
    } else {
      run := FillUp(n - 1);
      run := Extend(run, Send(0, Text("")));
      assert Filler(n - 1) + [FILLER] == Filler(n);
    }
  }

  /** With the queue full a is left to a spill task; the writer frees one slot and b takes it. */
  lemma SpillThenSend(a: Message, b: Message) returns (run: Run)
    ensures run.Valid() && run.Last().Has(0)
    ensures run.Last().tasks == [Spill([Entry(0, Item(a, Direct))])]
    ensures var ch, filler := run.Last().channels[0], Filler(CHANNEL_BUFFER_SIZE);
      && ch.accepted == filler + [Item(a, Direct), Item(b, Direct)]
      && ch.enqueued == filler + [Item(b, Direct)]
      && ch.queue == filler[1..] + [Item(b, Direct)]
      && ch.writer.Idle?
  {
    var filler, x, y := Filler(CHANNEL_BUFFER_SIZE), Item(a, Direct), Item(b, Direct);
    run := FillUp(CHANNEL_BUFFER_SIZE);
    run := Extend(run, Send(0, a));
    assert run.Last().tasks == [Spill([Entry(0, x)])];
    run := WriteNext(run, 0);
    run := Extend(run, Send(0, b));
    assert filler + [x] + [y] == filler + [x, y];
  }

  /** With 10000 messages queued, a message a that finds the queue full is overtaken by b, sent after it. */
  lemma Overtaken(a: Message, b: Message) returns (run: Run)
    requires !a.Close? && !b.Close? && a != b
    ensures run.Valid() && run.Last().Has(0)
    ensures run.Last().channels[0].accepted == Filler(CHANNEL_BUFFER_SIZE) + [Item(a, Direct), Item(b, Direct)]
    ensures SentTo(run, |run.states| - 1, 0) == run.Last().channels[0].accepted
    ensures run.Last().channels[0].written == Filler(CHANNEL_BUFFER_SIZE) + [Item(b, Direct), Item(a, Direct)]
    ensures !(run.Last().channels[0].written <= run.Last().channels[0].accepted)
  {
    hide Step, Sound;
    var filler, x, y := Filler(CHANNEL_BUFFER_SIZE), Item(a, Direct), Item(b, Direct);
    run := SpillThenSend(a, b);
    run := WriteNext(run, 0);
    StepChannel(run.Last(), SpillSend(0), 0);
    run := Extend(run, SpillSend(0));
    assert run.Last().channels[0].enqueued == filler + [y, x];
    run := CatchUp(run, 0);
    AcceptedExactly(run, |run.states| - 1, 0);
    assert run.Last().channels[0].written[|filler|] == y != x == run.Last().channels[0].accepted[|filler|];
  }

  /** In every run, a connection that was sent at most n messages has had them written in the order of the sends. */
  ghost predicate OrderKept(n: nat) {
    forall run: Run, k: nat, s: nat |
      run.Valid() && k < |run.states| && run.states[k].Has(s) && |SentTo(run, k, s)| <= n ::
        run.states[k].channels[s].written <= SentTo(run, k, s)
  }

  /** The order of sends is kept for as many messages as the queue holds and one more, and no further. */
  lemma OrderExactly(n: nat)
    ensures OrderKept(n) <==> n <= 10001
  {
    if n <= 10001 {
      forall run: Run, k: nat, s: nat |
        run.Valid() && k < |run.states| && run.states[k].Has(s) && |SentTo(run, k, s)| <= n
        ensures run.states[k].channels[s].written <= SentTo(run, k, s)
      {
        OrderedWithinBuffer(run, k, s);
      }
    } else {
      var run := Overtaken(Text("a"), Text("b"));
      var k := |run.states| - 1;
      AcceptedExactly(run, k, 0);
      assert run.states[k].Has(0) && |SentTo(run, k, 0)| <= n;
    }
  }
}
