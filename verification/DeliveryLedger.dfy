/**
 What every reachable state of the delivery system keeps: no copy is lost or duplicated outside the
 counted places, written frames follow the queue's order, and a Close ends the written frames.
 */
module DeliveryLedger {
  import opened Wrappers
  import opened Messages
  import opened Membership
  import opened Delivery

  // ---- One channel ----

  predicate NoClose(items: seq<Item>) {
    forall k | 0 <= k < |items| :: !items[k].msg.Close?
  }

  predicate ChannelOk(ch: Channel) {
    && |ch.queue| <= CHANNEL_BUFFER_SIZE
    && (ch.phase.Setup? <==> ch.writer.NotStarted?)
    && (!ch.writer.Stopped? ==>
          && ch.lost == [] && ch.refused == []
          && ch.enqueued == ch.written + ch.Hand() + ch.queue
          && NoClose(ch.written))
    && (ch.writer.Stopped? ==>
          && ch.queue == []
          && ch.enqueued == ch.written + ch.lost
          && (ch.writer.why.Drained? ==> ch.lost == [])
          && (ch.writer.why.SawClose? ==>
                ch.written != [] && ch.written[|ch.written| - 1].msg.Close? && NoClose(ch.written[..|ch.written| - 1]))
          && (!ch.writer.why.SawClose? ==> NoClose(ch.written)))
    && (!ch.wasFull ==> ch.accepted == ch.enqueued + ch.refused)
  }

  lemma OfferKeeps(ch: Channel, item: Item)
    requires ChannelOk(ch)
    ensures ChannelOk(ch.Offer(item))
  {
    if ch.TrySend().Sent? {
      assert ch.written + ch.Hand() + (ch.queue + [item]) == (ch.written + ch.Hand() + ch.queue) + [item];
      assert ch.enqueued + ch.refused + [item] == ch.enqueued + [item] + ch.refused || ch.refused != [];
    } else if ch.TrySend().Closed? {
      assert ch.enqueued + ch.refused + [item] == ch.enqueued + (ch.refused + [item]);
    }
  }

  lemma DeliverKeeps(ch: Channel, item: Item)
    requires ChannelOk(ch) && ch.wasFull && !ch.TrySend().Full?
    ensures ChannelOk(ch.Deliver(item))
  {
    if ch.TrySend().Sent? {
      assert ch.written + ch.Hand() + (ch.queue + [item]) == (ch.written + ch.Hand() + ch.queue) + [item];
    }
  }

  lemma StopKeeps(ch: Channel, why: StopReason)
    requires ChannelOk(ch) && (ch.writer.Idle? || ch.writer.Holding?) && !why.SawClose?
    requires why.Drained? ==> ch.writer.Idle? && ch.queue == []
    ensures ChannelOk(ch.Stop(why))
  {
    assert ch.written + ch.Hand() + ch.queue == ch.written + ([] + ch.Hand() + ch.queue);
    assert ch.lost + ch.Hand() + ch.queue == [] + ch.Hand() + ch.queue;
  }

  lemma WroteKeeps(ch: Channel)
    requires ChannelOk(ch) && ch.writer.Holding?
    ensures ChannelOk(ch.Wrote())
  {
    if ch.writer.item.msg.Close? { WroteCloseKeeps(ch); } else { WroteOtherKeeps(ch); }
  }

  lemma WroteOtherKeeps(ch: Channel)
    requires ChannelOk(ch) && ch.writer.Holding? && !ch.writer.item.msg.Close?
    ensures ChannelOk(ch.Wrote())
  {
    var done := ch.Wrote();
    assert ch.written + [ch.writer.item] + ch.queue == done.written + done.Hand() + done.queue;
  }

  lemma WroteCloseKeeps(ch: Channel)
    requires ChannelOk(ch) && ch.writer.Holding? && ch.writer.item.msg.Close?
    ensures ChannelOk(ch.Wrote())
  {
    var done := ch.Wrote();
    assert done.written[..|done.written| - 1] == ch.written;
    assert done.lost == [] + [] + ch.queue == ch.queue;
  }

  lemma RecvKeeps(ch: Channel)
    requires ChannelOk(ch) && ch.writer.Idle? && ch.queue != []
    ensures ChannelOk(ch.(writer := Holding(ch.queue[0]), queue := ch.queue[1..]))
  {
    assert ch.queue == [ch.queue[0]] + ch.queue[1..];
    assert ch.written + ch.Hand() + ch.queue == ch.written + [ch.queue[0]] + ch.queue[1..];
  }

  // ---- All channels, senders and deferred copies ----

  predicate EntryOk(st: State, e: Entry) {
    e.to < |st.channels| && st.channels[e.to].wasFull
  }

  predicate EntriesOk(st: State, es: seq<Entry>) {
    forall k | 0 <= k < |es| :: EntryOk(st, es[k])
  }

  predicate SenderOk(st: State, id: ConnId) {
    id in st.senders ==> st.senders[id] < |st.channels| && IdOf(st.senders[id]) == id
  }

  ghost predicate Sound(st: State) {
    && (forall s | 0 <= s < |st.channels| :: ChannelOk(st.channels[s]))
    && (forall id: ConnId :: SenderOk(st, id))
    && (forall t | 0 <= t < |st.tasks| :: EntriesOk(st, st.tasks[t].Entries()))
  }

  /** Nothing an event does takes back that a queue was once full. */
  lemma StillFull(st: State, e: Event, es: seq<Entry>)
    requires Enabled(st, e) && EntriesOk(st, es)
    ensures EntriesOk(Step(st, e), es)
  {
    hide Step;
    forall k | 0 <= k < |es| ensures EntryOk(Step(st, e), es[k]) {
      assert EntryOk(st, es[k]);
      StepChannel(st, e, es[k].to);
    }
  }

  lemma ApplyKeeps(ch: Channel, c: Change)
    requires ChannelOk(ch) && CanApply(ch, c) && (c.Delivered? ==> ch.wasFull)
    ensures ChannelOk(Apply(ch, c))
  {
    match c
    case Offered(item) => OfferKeeps(ch, item);
    case Delivered(item) => DeliverKeeps(ch, item);
    case Received => RecvKeeps(ch);
    case Written => WroteKeeps(ch);
    case Halted(why) => StopKeeps(ch, why);
    case _ =>
  }

  lemma ChannelStep(st: State, e: Event, s: nat)
    requires Enabled(st, e) && Sound(st) && s < |Step(st, e).channels|
    ensures ChannelOk(Step(st, e).channels[s])
  {
    hide Step;
    StepCount(st, e);
    if s < |st.channels| {
      StepChannel(st, e, s);
      if e.SpillSend? { assert EntryOk(st, st.tasks[e.t].Entries()[0]); }
      ApplyKeeps(st.channels[s], ChangeTo(st, e, s));
    }
  }

  lemma SenderStep(st: State, e: Event, id: ConnId)
    requires Enabled(st, e) && Sound(st)
    ensures SenderOk(Step(st, e), id)
  {
    assert SenderOk(st, id);
    StepCount(st, e);
    StepSenders(st, e);
    hide Step, Enabled, Sound;
  }

  lemma TaskStep(st: State, e: Event, t: nat)
    requires Enabled(st, e) && Sound(st) && t < |Step(st, e).tasks|
    ensures EntriesOk(Step(st, e), Step(st, e).tasks[t].Entries())
  {
    hide Step;
    StepTasks(st, e);
    if t < |st.tasks| {
      AdvancedEntries(st, e, t);
    } else {
      SpawnedEntries(st, e);
    }
  }

  lemma AdvancedEntries(st: State, e: Event, t: nat)
    requires Enabled(st, e) && Sound(st) && t < |st.tasks|
    ensures EntriesOk(Step(st, e), TaskAfter(st, e, t).Entries())
  {
    hide Step;
    StillFull(st, e, st.tasks[t].Entries());
    if e.CastVisit? && e.b == t && Reaches(st, t, e.id) {
      StepChannel(st, e, st.senders[e.id]);
    }
  }

  lemma SpawnedEntries(st: State, e: Event)
    requires Enabled(st, e) && Sound(st)
    ensures forall k | 0 <= k < |Spawned(st, e)| :: EntriesOk(Step(st, e), Spawned(st, e)[k].Entries())
  {
    hide Step;
    match e
    case CastEnd(b) => StillFull(st, e, st.tasks[b].Entries());
    case Send(s, msg) => StepChannel(st, e, s);
    case _ =>
  }

  lemma SoundStep(st: State, e: Event)
    requires Enabled(st, e) && Sound(st)
    ensures Sound(Step(st, e))
  {
    var next := Step(st, e);
    forall s | 0 <= s < |next.channels| ensures ChannelOk(next.channels[s]) { ChannelStep(st, e, s); }
    forall id: ConnId ensures SenderOk(next, id) { SenderStep(st, e, id); }
    forall t | 0 <= t < |next.tasks| ensures EntriesOk(next, next.tasks[t].Entries()) { TaskStep(st, e, t); }
  }

  lemma {:induction false} RunSound(run: Run, k: nat)
    requires run.Valid() && k < |run.states|
    ensures Sound(run.states[k])
  {
    hide Step;
    if k > 0 {
      RunSound(run, k - 1);
      assert run.StepAt(k - 1);
      SoundStep(run.states[k - 1], run.events[k - 1]);
    }
  }

  // ---- Conservation ----

  function Count(items: seq<Item>, x: Item): nat {
    multiset(items)[x]
  }

  /** How often the entries hold copy x for channel s. */
  function EntriesFor(es: seq<Entry>, s: nat, x: Item): nat {
    if es == [] then 0
    else (if es[0] == Entry(s, x) then 1 else 0) + EntriesFor(es[1..], s, x)
  }

  lemma {:induction false} EntriesForAppend(es: seq<Entry>, e: Entry, s: nat, x: Item)
    ensures EntriesFor(es + [e], s, x) == EntriesFor(es, s, x) + (if e == Entry(s, x) then 1 else 0)
  {
    if es == [] {
      assert es + [e] == [e];
    } else {
      EntriesForAppend(es[1..], e, s, x);
      assert (es + [e])[1..] == es[1..] + [e];
    }
  }

  /** How often broadcasts and spill tasks still hold copy x for channel s. */
  function Held(tasks: seq<Task>, s: nat, x: Item): nat {
    if tasks == [] then 0
    else Held(tasks[..|tasks| - 1], s, x) + EntriesFor(tasks[|tasks| - 1].Entries(), s, x)
  }

  lemma HeldAppend(tasks: seq<Task>, t: Task, s: nat, x: Item)
    ensures Held(tasks + [t], s, x) == Held(tasks, s, x) + EntriesFor(t.Entries(), s, x)
  {
    assert (tasks + [t])[..|tasks|] == tasks;
  }

  lemma {:induction false} HeldUpdate(tasks: seq<Task>, i: nat, t: Task, s: nat, x: Item)
    requires i < |tasks|
    ensures Held(tasks[i := t], s, x)
         == Held(tasks, s, x) - EntriesFor(tasks[i].Entries(), s, x) + EntriesFor(t.Entries(), s, x)
  {
    var n := |tasks| - 1;
    if i == n {
      assert tasks[i := t][..n] == tasks[..n];
    } else {
      HeldUpdate(tasks[..n], i, t, s, x);
      assert tasks[i := t][..n] == tasks[..n][i := t];
    }
  }

  /** What the step gives to, or takes from, the holders of copies for channel s. */
  function HeldDelta(ch: Channel, c: Change, x: Item): int {
    match c
    case Offered(item) => if ch.TrySend().Full? && item == x then 1 else 0
    case Delivered(item) => if item == x then -1 else 0
    case _ => 0
  }

  lemma HeldAppendAll(tasks: seq<Task>, more: seq<Task>, s: nat, x: Item)
    requires |more| <= 1
    ensures Held(tasks + more, s, x)
         == Held(tasks, s, x) + (if more == [] then 0 else EntriesFor(more[0].Entries(), s, x))
  {
    if more == [] {
      assert tasks + more == tasks;
    } else {
      assert more == [more[0]];
      HeldAppend(tasks, more[0], s, x);
    }
  }

  /** The part of the change that lies in the advanced task, and the part in a new one. */
  lemma AdvancedDelta(st: State, e: Event, t: nat, s: nat, x: Item)
    requires Enabled(st, e) && st.Has(s) && st.HasTask(t) && Advanced(e) == Some(t) && !e.CastEnd?
    ensures EntriesFor(TaskAfter(st, e, t).Entries(), s, x)
         == EntriesFor(st.tasks[t].Entries(), s, x) + HeldDelta(st.channels[s], ChangeTo(st, e, s), x)
  {
    if e.CastVisit? && Reaches(st, t, e.id) {
      var c := st.tasks[t];
      EntriesForAppend(c.blocked, Entry(st.senders[e.id], Copy(t, c.msg, c.groups, c.pos)), s, x);
    }
  }

  /** What a new task holds. */
  function InSpawned(st: State, e: Event, s: nat, x: Item): nat
    requires Enabled(st, e)
  {
    if Spawned(st, e) == [] then 0 else EntriesFor(Spawned(st, e)[0].Entries(), s, x)
  }

  lemma SpawnedDelta(st: State, e: Event, s: nat, x: Item)
    requires Enabled(st, e) && st.Has(s) && !e.CastEnd?
    ensures InSpawned(st, e, s, x) == if e.Send? then HeldDelta(st.channels[s], ChangeTo(st, e, s), x) else 0
    ensures !e.Send? && Advanced(e) == None ==> HeldDelta(st.channels[s], ChangeTo(st, e, s), x) == 0
  {
    if e.Send? {
      var es := [Entry(e.s, Item(e.msg, Direct))];
      assert EntriesFor(es[1..], s, x) == 0;
    }
  }

  /** The end of a broadcast hands what it holds to the spill task. */
  lemma CastEndDelta(st: State, e: Event, s: nat, x: Item)
    requires Enabled(st, e) && st.Has(s) && e.CastEnd?
    ensures EntriesFor(TaskAfter(st, e, e.b).Entries(), s, x) + InSpawned(st, e, s, x)
         == EntriesFor(st.tasks[e.b].Entries(), s, x) + HeldDelta(st.channels[s], ChangeTo(st, e, s), x)
  {
  }

  lemma HeldStep(st: State, e: Event, s: nat, x: Item)
    requires Enabled(st, e) && st.Has(s)
    ensures Held(Step(st, e).tasks, s, x) == Held(st.tasks, s, x) + HeldDelta(st.channels[s], ChangeTo(st, e, s), x)
  {
    StepTasks(st, e);
    hide Step, Enabled, TaskAfter, ChangeTo, HeldDelta, Held, EntriesFor;
    assert |Spawned(st, e)| <= 1;
    hide Spawned;
    if !e.CastEnd? { SpawnedDelta(st, e, s, x); }
    match Advanced(e)
    case Some(t) =>
      var after := TaskAfter(st, e, t);
      HeldUpdate(st.tasks, t, after, s, x);
      HeldAppendAll(st.tasks[t := after], Spawned(st, e), s, x);
      if e.CastEnd? { CastEndDelta(st, e, s, x); } else { AdvancedDelta(st, e, t, s, x); }
    case None =>
      HeldAppendAll(st.tasks, Spawned(st, e), s, x);
  }

  /** Every copy offered to the channel is in exactly one place. */
  predicate Conserved(ch: Channel, held: int, x: Item) {
    Count(ch.accepted, x) ==
      Count(ch.written, x) + Count(ch.Hand(), x) + Count(ch.queue, x)
      + held + Count(ch.lost, x) + Count(ch.refused, x)
  }

  lemma CountConcat(a: seq<Item>, b: seq<Item>, x: Item)
    ensures Count(a + b, x) == Count(a, x) + Count(b, x)
  {
  }

  lemma CountOne(i: Item, x: Item)
    ensures Count([i], x) == if i == x then 1 else 0
  {
  }

  lemma StopConserves(ch: Channel, why: StopReason, held: int, x: Item)
    requires Conserved(ch, held, x)
    ensures Conserved(ch.Stop(why), held, x)
  {
    CountConcat(ch.lost, ch.Hand(), x);
    CountConcat(ch.lost + ch.Hand(), ch.queue, x);
  }

  lemma WroteConserves(ch: Channel, held: int, x: Item)
    requires Conserved(ch, held, x) && ch.writer.Holding?
    ensures Conserved(ch.Wrote(), held, x)
  {
    var done := ch.(written := ch.written + [ch.writer.item], writer := Idle);
    CountConcat(ch.written, [ch.writer.item], x);
    StopConserves(done, SawClose, held, x);
  }

  lemma DeliverConserves(ch: Channel, item: Item, held: int, x: Item)
    requires Conserved(ch, held, x) && !ch.TrySend().Full?
    ensures Conserved(ch.Deliver(item), held - (if item == x then 1 else 0), x)
  {
    CountOne(item, x);
    if ch.TrySend().Sent? { CountConcat(ch.queue, [item], x); } else { CountConcat(ch.refused, [item], x); }
  }

  lemma OfferConserves(ch: Channel, item: Item, held: int, x: Item)
    requires Conserved(ch, held, x)
    ensures Conserved(ch.Offer(item), if ch.TrySend().Full? && item == x then held + 1 else held, x)
  {
    CountOne(item, x);
    CountConcat(ch.accepted, [item], x);
    var noted := ch.(accepted := ch.accepted + [item]);
    if !ch.TrySend().Full? {
      var extra := if item == x then 1 else 0;
      assert Conserved(noted, held + extra, x);
      DeliverConserves(noted, item, held + extra, x);
    }
  }

  lemma RecvConserves(ch: Channel, held: int, x: Item)
    requires Conserved(ch, held, x) && ch.writer.Idle? && ch.queue != []
    ensures Conserved(ch.(writer := Holding(ch.queue[0]), queue := ch.queue[1..]), held, x)
  {
    CountConcat([ch.queue[0]], ch.queue[1..], x);
    assert ch.queue == [ch.queue[0]] + ch.queue[1..];
  }

  lemma ApplyConserves(ch: Channel, c: Change, held: int, x: Item)
    requires CanApply(ch, c) && Conserved(ch, held, x)
    ensures Conserved(Apply(ch, c), held + HeldDelta(ch, c, x), x)
  {
    match c
    case Offered(item) => OfferConserves(ch, item, held, x);
    case Delivered(item) => DeliverConserves(ch, item, held, x);
    case Received => RecvConserves(ch, held, x);
    case Written => WroteConserves(ch, held, x);
    case Halted(why) => StopConserves(ch, why, held, x);
    case _ =>
  }

  lemma FreshConserves(s: nat, x: Item)
    ensures Conserved(FRESH, 0, x)
  {
  }

  ghost predicate Balanced(st: State) {
    && (forall s, x | 0 <= s < |st.channels| :: Conserved(st.channels[s], Held(st.tasks, s, x), x))
    && (forall s: nat, x | s >= |st.channels| :: Held(st.tasks, s, x) == 0)
  }

  lemma {:induction false} NoEntriesForStrangers(st: State, es: seq<Entry>, s: nat, x: Item)
    requires EntriesOk(st, es) && s >= |st.channels|
    ensures EntriesFor(es, s, x) == 0
  {
    if es != [] {
      assert EntryOk(st, es[0]);
      forall k | 0 <= k < |es[1..]| ensures EntryOk(st, es[1..][k]) { assert EntryOk(st, es[k + 1]); }
      NoEntriesForStrangers(st, es[1..], s, x);
    }
  }

  lemma {:induction false} NothingHeldForStrangers(st: State, n: nat, s: nat, x: Item)
    requires Sound(st) && s >= |st.channels| && n <= |st.tasks|
    ensures Held(st.tasks[..n], s, x) == 0
  {
    if n > 0 {
      NothingHeldForStrangers(st, n - 1, s, x);
      NoEntriesForStrangers(st, st.tasks[n - 1].Entries(), s, x);
      assert st.tasks[..n][..n - 1] == st.tasks[..n - 1];
    }
  }

  lemma ConservedStep(st: State, e: Event, s: nat, x: Item)
    requires Enabled(st, e) && Balanced(st) && s < |Step(st, e).channels|
    ensures Conserved(Step(st, e).channels[s], Held(Step(st, e).tasks, s, x), x)
  {
    hide Step, Conserved, Held, ChangeTo, Enabled;
    StepCount(st, e);
    if s < |st.channels| {
      StepChannel(st, e, s);
      HeldStep(st, e, s, x);
      ApplyConserves(st.channels[s], ChangeTo(st, e, s), Held(st.tasks, s, x), x);
    } else {
      StepTasks(st, e);
      assert Step(st, e).tasks == st.tasks;
      FreshConserves(s, x);
    }
  }

  lemma BalancedStep(st: State, e: Event)
    requires Enabled(st, e) && Sound(st) && Balanced(st)
    ensures Balanced(Step(st, e))
  {
    hide Step, Conserved, Held, Sound, Enabled;
    var next := Step(st, e);
    SoundStep(st, e);
    forall s: nat, x | s >= |next.channels| ensures Held(next.tasks, s, x) == 0 {
      NothingHeldForStrangers(next, |next.tasks|, s, x);
      assert next.tasks[..|next.tasks|] == next.tasks;
    }
    forall s, x | 0 <= s < |next.channels| ensures Conserved(next.channels[s], Held(next.tasks, s, x), x) {
      ConservedStep(st, e, s, x);
    }
  }

  lemma {:induction false} RunBalanced(run: Run, k: nat)
    requires run.Valid() && k < |run.states|
    ensures Balanced(run.states[k])
  {
    hide Step;
    if k > 0 {
      RunBalanced(run, k - 1);
      RunSound(run, k - 1);
      assert run.StepAt(k - 1);
      BalancedStep(run.states[k - 1], run.events[k - 1]);
    }
  }

  // ---- Main results ----

  /**
   Conservation, at every point of every run: a copy accepted for a connection has been written, is
   with the writer, is queued, is held by a broadcast or spill task, was dropped with the receiver,
   or was offered after the receiver was gone. While the writer lives nothing at all is dropped, and
   a writer that saw the end of the channel dropped nothing either.
   */
  lemma Conservation(run: Run, k: nat, s: nat, x: Item)
    requires run.Valid() && k < |run.states| && s < |run.states[k].channels|
    ensures var ch := run.states[k].channels[s];
      && Count(ch.accepted, x) ==
           Count(ch.written, x) + Count(ch.Hand(), x) + Count(ch.queue, x) + Held(run.states[k].tasks, s, x)
           + Count(ch.lost, x) + Count(ch.refused, x)
      && (!ch.writer.Stopped? ==> ch.lost == [] && ch.refused == [])
      && (ch.writer == Stopped(Drained) ==> ch.lost == [])
  {
    RunBalanced(run, k);
    RunSound(run, k);
    assert Conserved(run.states[k].channels[s], Held(run.states[k].tasks, s, x), x);
    assert ChannelOk(run.states[k].channels[s]);
  }

  /**
   Order: what was written is a prefix of what entered the queue, in the same order. If no offer
   found the queue full it is a prefix of the order in which the copies were sent.
   */
  lemma WrittenInOrder(run: Run, k: nat, s: nat)
    requires run.Valid() && k < |run.states| && s < |run.states[k].channels|
    ensures var ch := run.states[k].channels[s];
      && |ch.queue| <= CHANNEL_BUFFER_SIZE
      && ch.written <= ch.enqueued
      && (!ch.wasFull ==> ch.written <= ch.accepted)
  {
    RunSound(run, k);
    assert ChannelOk(run.states[k].channels[s]);
  }

  /** A Close is written at most once, nothing follows it, and all that was queued ahead of it precedes it. */
  lemma CloseIsTerminal(run: Run, k: nat, s: nat, i: nat)
    requires run.Valid() && k < |run.states| && s < |run.states[k].channels|
    requires i < |run.states[k].channels[s].written| && run.states[k].channels[s].written[i].msg.Close?
    ensures var ch := run.states[k].channels[s];
      && i == |ch.written| - 1 && ch.written <= ch.enqueued
      && ch.writer == Stopped(SawClose)
      && (forall j | 0 <= j < i :: !ch.written[j].msg.Close?)
  {
    RunSound(run, k);
    var ch := run.states[k].channels[s];
    assert ChannelOk(ch);
    forall j | 0 <= j < i ensures !ch.written[j].msg.Close? {
      assert ch.written[..|ch.written| - 1][j] == ch.written[j];
    }
  }
}
