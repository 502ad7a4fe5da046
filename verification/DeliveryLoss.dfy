/**
 What is written in the end. Whatever ends a writer, what is lost is settled at that moment, and
 everything sent has been written exactly if nothing is left anywhere on its way.
 */
module DeliveryLoss {
  import opened Wrappers
  import opened Messages
  import opened Membership
  import opened Delivery
  import opened DeliveryLedger
  import opened DeliverySent
  import opened DeliveryEnds

  // ---- The moment a writer ends ----

  /** The event ends the writer of s: its abort, the end of its channel, a failed write, or a written Close. */
  predicate EndsWriter(st: State, e: Event, s: nat)
    requires Enabled(st, e)
  {
    || e == WriterAborted(s) || e == RecvNone(s) || e == WriteFail(s)
    || (e == WriteOk(s) && st.channels[s].writer.item.msg.Close?)
  }

  function ReasonOf(e: Event): StopReason {
    match e
    case WriteFail(_) => WriteFailed
    case RecvNone(_) => Drained
    case WriterAborted(_) => Aborted
    case _ => SawClose
  }

  /** What such an event leaves unwritten. */
  function LeftBehind(ch: Channel, e: Event): seq<Item> {
    if e.WriteOk? then ch.queue else ch.Hand() + ch.queue
  }

  lemma OwnEnds(st: State, e: Event, s: nat)
    requires Enabled(st, e) && st.Has(s) && Owner(e) == Some(s) && !st.channels[s].writer.Stopped?
    ensures CanApply(st.channels[s], OwnChange(st, e, st.channels[s]))
    ensures Apply(st.channels[s], OwnChange(st, e, st.channels[s])).writer.Stopped? <==> EndsWriter(st, e, s)
    ensures EndsWriter(st, e, s) ==> Apply(st.channels[s], OwnChange(st, e, st.channels[s])).writer == Stopped(ReasonOf(e))
  {
  }

  lemma OthersEndNothing(st: State, e: Event, s: nat)
    requires Enabled(st, e) && st.Has(s) && Owner(e) != Some(s)
    requires CanApply(st.channels[s], ChangeTo(st, e, s))
    ensures !EndsWriter(st, e, s)
    ensures Apply(st.channels[s], ChangeTo(st, e, s)).writer == st.channels[s].writer
  {
  }

  /** These are the ways for a writer to end, and there are no others. */
  lemma EndsExactly(st: State, e: Event, s: nat)
    requires Enabled(st, e) && st.Has(s) && !st.channels[s].writer.Stopped?
    ensures Step(st, e).Has(s)
    ensures Step(st, e).channels[s].writer.Stopped? <==> EndsWriter(st, e, s)
    ensures EndsWriter(st, e, s) ==> Step(st, e).channels[s].writer == Stopped(ReasonOf(e))
  {
    StepChannel(st, e, s);
    if Owner(e) == Some(s) { OwnEnds(st, e, s); } else { OthersEndNothing(st, e, s); }
  }

  /** The channel of a writer that has ended for this reason, leaving these copies unwritten. */
  predicate Ended(ch: Channel, was: Channel, left: seq<Item>, why: StopReason) {
    && ch.writer == Stopped(why) && ch.queue == [] && ch.lost == left
    && ch.enqueued == was.enqueued == ch.written + left
    && was.accepted <= ch.accepted
  }

  lemma StopEnds(ch: Channel, why: StopReason)
    requires ChannelOk(ch) && (ch.writer.Idle? || ch.writer.Holding?)
    ensures Ended(ch.Stop(why), ch, ch.Hand() + ch.queue, why) && ch.lost == [] && ch.refused == []
  {
    assert ch.written + ch.Hand() + ch.queue == ch.written + (ch.Hand() + ch.queue);
    assert [] + ch.Hand() + ch.queue == ch.Hand() + ch.queue;
  }

  lemma CloseEnds(ch: Channel)
    requires ChannelOk(ch) && ch.writer.Holding? && ch.writer.item.msg.Close?
    ensures Ended(ch.Wrote(), ch, ch.queue, SawClose) && ch.lost == [] && ch.refused == []
  {
    assert [] + [] + ch.queue == ch.queue;
  }

  lemma EndedNow(st: State, e: Event, s: nat)
    requires Enabled(st, e) && st.Has(s) && ChannelOk(st.channels[s]) && EndsWriter(st, e, s)
    ensures Step(st, e).Has(s)
    ensures Ended(Step(st, e).channels[s], st.channels[s], LeftBehind(st.channels[s], e), ReasonOf(e))
    ensures st.channels[s].lost == [] && st.channels[s].refused == []
  {
    OwnStep(st, e, s);
    hide Step, ChannelOk, Ended, Channel.Stop, Channel.Wrote, Channel.Hand;
    match e
    case WriteOk(_) => CloseEnds(st.channels[s]);
    case WriteFail(_) => StopEnds(st.channels[s], WriteFailed);
    case RecvNone(_) => StopEnds(st.channels[s], Drained);
    case WriterAborted(_) => StopEnds(st.channels[s], Aborted);
  }

  /** After that it writes and loses nothing more; all it can do is to be offered copies, which it refuses. */
  lemma EndedStep(st: State, e: Event, s: nat, was: Channel, left: seq<Item>, why: StopReason)
    requires Enabled(st, e) && st.Has(s) && Ended(st.channels[s], was, left, why)
    ensures Step(st, e).Has(s) && Ended(Step(st, e).channels[s], was, left, why)
  {
    StepChannel(st, e, s);
    hide Step, Enabled, ChangeTo;
    ApplyEnded(st.channels[s], ChangeTo(st, e, s), was, left, why);
  }

  lemma ApplyEnded(ch: Channel, c: Change, was: Channel, left: seq<Item>, why: StopReason)
    requires CanApply(ch, c) && Ended(ch, was, left, why)
    ensures Ended(Apply(ch, c), was, left, why)
  {
  }

  lemma {:induction false} RunEnded(run: Run, i: nat, j: nat, s: nat)
    requires run.Valid() && i < j < |run.states| && run.states[i].Has(s)
    requires run.StepAt(i) && EndsWriter(run.states[i], run.events[i], s)
    ensures run.states[j].Has(s)
    ensures Ended(run.states[j].channels[s], run.states[i].channels[s], LeftBehind(run.states[i].channels[s], run.events[i]),
                  ReasonOf(run.events[i]))
    ensures run.states[i].channels[s].lost == [] && run.states[i].channels[s].refused == []
    decreases j
  {
    hide Step, Enabled, Ended, LeftBehind;
    assert run.StepAt(j - 1);
    if i == j - 1 {
      RunSound(run, i);
      assert ChannelOk(run.states[i].channels[s]);
      EndedNow(run.states[i], run.events[i], s);
    } else {
      RunEnded(run, i, j - 1, s);
      EndedStep(run.states[j - 1], run.events[j - 1], s, run.states[i].channels[s],
                  LeftBehind(run.states[i].channels[s], run.events[i]), ReasonOf(run.events[i]));
    }
  }

  // ---- Copies still held, one by one and all together ----

  lemma {:induction false} EntrySeen(es: seq<Entry>, k: nat)
    requires k < |es|
    ensures EntriesFor(es, es[k].to, es[k].item) > 0
    decreases k
  {
    if k > 0 { EntrySeen(es[1..], k - 1); }
  }

  lemma {:induction false} HeldSeen(tasks: seq<Task>, t: nat, k: nat)
    requires t < |tasks| && k < |tasks[t].Entries()|
    ensures Held(tasks, tasks[t].Entries()[k].to, tasks[t].Entries()[k].item) > 0
  {
    if t == |tasks| - 1 { EntrySeen(tasks[t].Entries(), k); } else { HeldSeen(tasks[..|tasks| - 1], t, k); }
  }

  lemma DeferredExactly(st: State, s: nat)
    ensures NothingDeferred(st, s) <==> forall x :: Held(st.tasks, s, x) == 0
  {
    if NothingDeferred(st, s) {
      forall x ensures Held(st.tasks, s, x) == 0 {
        NothingHeld(st, |st.tasks|, s, x);
        assert st.tasks[..|st.tasks|] == st.tasks;
      }
    } else {
      var t :| 0 <= t < |st.tasks| && !NoneFor(st.tasks[t].Entries(), s);
      var k :| 0 <= k < |st.tasks[t].Entries()| && st.tasks[t].Entries()[k].to == s;
      HeldSeen(st.tasks, t, k);
    }
  }

  lemma EmptyExactly(items: seq<Item>)
    ensures items == [] <==> forall x :: Count(items, x) == 0
  {
    if items != [] { assert Count(items, items[0]) > 0; }
  }

  // ---- Main results ----

  /** Every copy sent has been written as often as it was sent. */
  predicate AllWritten(ch: Channel) {
    multiset(ch.written) == multiset(ch.accepted)
  }

  lemma AllWrittenMeans(ch: Channel)
    ensures AllWritten(ch) <==> forall x :: Count(ch.written, x) == Count(ch.accepted, x)
  {
    if forall x :: Count(ch.written, x) == Count(ch.accepted, x) {
      forall x ensures multiset(ch.written)[x] == multiset(ch.accepted)[x] {
        assert Count(ch.written, x) == Count(ch.accepted, x);
      }
    }
  }

  /** At every state of every run: all that was sent is written exactly if nothing is on its way, lost or refused. */
  lemma AllWrittenExactly(run: Run, k: nat, s: nat)
    requires run.Valid() && k < |run.states| && run.states[k].Has(s)
    ensures var ch := run.states[k].channels[s];
      multiset(ch.written) == multiset(SentTo(run, k, s)) <==>
        ch.Hand() == [] && ch.queue == [] && ch.lost == [] && ch.refused == [] && NothingDeferred(run.states[k], s)
  {
    var st, ch := run.states[k], run.states[k].channels[s];
    AcceptedExactly(run, k, s);
    assert AllWritten(ch) <==> multiset(ch.written) == multiset(SentTo(run, k, s));
    AllWrittenMeans(ch);
    EmptyExactly(ch.Hand());
    EmptyExactly(ch.queue);
    EmptyExactly(ch.lost);
    EmptyExactly(ch.refused);
    DeferredExactly(st, s);
    hide *;
    if AllWritten(ch) {
      forall x ensures Count(ch.Hand(), x) == Count(ch.queue, x) == Held(st.tasks, s, x) == 0
               ensures Count(ch.lost, x) == Count(ch.refused, x) == 0
      {
        Conservation(run, k, s, x);
        assert Count(ch.written, x) == Count(ch.accepted, x);
      }
    }
    if ch.Hand() == [] && ch.queue == [] && ch.lost == [] && ch.refused == [] && NothingDeferred(st, s) {
      forall x ensures Count(ch.written, x) == Count(ch.accepted, x) {
        Conservation(run, k, s, x);
        assert Held(st.tasks, s, x) == 0;
      }
    }
  }

  /**
   What the end of a writer costs, told at the moment of the end. Whatever happens later, it has lost
   exactly what the end left behind, so it has written all that was queued exactly if that is nothing.
   */
  lemma LossExactly(run: Run, i: nat, j: nat, s: nat)
    requires run.Valid() && i < j < |run.states| && run.states[i].Has(s)
    requires run.StepAt(i) && EndsWriter(run.states[i], run.events[i], s)
    ensures run.states[j].Has(s)
    ensures var was, ch := run.states[i].channels[s], run.states[j].channels[s];
      var left := LeftBehind(was, run.events[i]);
      && ch.writer == Stopped(ReasonOf(run.events[i]))
      && ch.lost == left && ch.enqueued == was.enqueued == ch.written + left
      && (ch.written == ch.enqueued <==> left == [])
  {
    RunEnded(run, i, j, s);
    hide LeftBehind;
  }

  /**
   And it has written all that was ever sent to the connection exactly if the end left nothing behind,
   no broadcast or spill task held a copy for it then, and nothing has been sent to it since.
   */
  lemma CompleteExactly(run: Run, i: nat, j: nat, s: nat)
    requires run.Valid() && i < j < |run.states| && run.states[i].Has(s)
    requires run.StepAt(i) && EndsWriter(run.states[i], run.events[i], s)
    ensures run.states[j].Has(s)
    ensures var was, ch := run.states[i].channels[s], run.states[j].channels[s];
      multiset(ch.written) == multiset(SentTo(run, j, s)) <==>
        LeftBehind(was, run.events[i]) == [] && NothingDeferred(run.states[i], s) && SentTo(run, j, s) == SentTo(run, i, s)
  {
    AcceptedExactly(run, i, s);
    RunEnded(run, i, j, s);
    RunSound(run, i);
    var was, ch := run.states[i].channels[s], run.states[j].channels[s];
    AcceptedExactly(run, j, s);
    assert AllWritten(ch) <==> multiset(ch.written) == multiset(SentTo(run, j, s));
    StillThere(was, ch);
    assert ChannelOk(was);
    hide *;
    OwedNothing(run, i, s, ch, LeftBehind(was, run.events[i]), ch.accepted[|was.accepted|..]);
  }

  lemma StillThere(was: Channel, ch: Channel)
    requires was.accepted <= ch.accepted
    ensures ch.accepted == was.accepted + ch.accepted[|was.accepted|..]
  {
  }

  lemma OwedNothing(run: Run, i: nat, s: nat, ch: Channel, left: seq<Item>, since: seq<Item>)
    requires run.Valid() && i < |run.states| && run.states[i].Has(s)
    requires var was := run.states[i].channels[s];
      && was.lost == [] && was.refused == [] && was.enqueued == was.written + was.Hand() + was.queue
      && was.enqueued == ch.written + left && ch.accepted == was.accepted + since
    ensures AllWritten(ch) <==>
      left == [] && NothingDeferred(run.states[i], s) && ch.accepted == run.states[i].channels[s].accepted
  {
    var st := run.states[i];
    AllWrittenMeans(ch);
    EmptyExactly(left);
    EmptyExactly(since);
    DeferredExactly(st, s);
    hide *;
    if AllWritten(ch) {
      forall x ensures Count(left, x) == Held(st.tasks, s, x) == Count(since, x) == 0 {
        Owed(run, i, s, ch, left, since, x);
        assert Count(ch.written, x) == Count(ch.accepted, x);
      }
    }
    if left == [] && NothingDeferred(st, s) && since == [] {
      forall x ensures Count(ch.written, x) == Count(ch.accepted, x) {
        Owed(run, i, s, ch, left, since, x);
        assert Held(st.tasks, s, x) == 0;
      }
    }
  }

  /** What was sent and is not written was left behind, held by a broadcast or spill at the end, or sent since. */
  lemma Owed(run: Run, i: nat, s: nat, ch: Channel, left: seq<Item>, since: seq<Item>, x: Item)
    requires run.Valid() && i < |run.states| && run.states[i].Has(s)
    requires var was := run.states[i].channels[s];
      && was.lost == [] && was.refused == [] && was.enqueued == was.written + was.Hand() + was.queue
      && was.enqueued == ch.written + left && ch.accepted == was.accepted + since
    ensures Count(ch.accepted, x)
         == Count(ch.written, x) + Count(left, x) + Held(run.states[i].tasks, s, x) + Count(since, x)
  {
    SentByThen(run, i, s, x);
    CountConcat(ch.written, left, x);
    CountConcat(run.states[i].channels[s].accepted, since, x);
  }

  lemma SentByThen(run: Run, i: nat, s: nat, x: Item)
    requires run.Valid() && i < |run.states| && run.states[i].Has(s)
    requires var ch := run.states[i].channels[s];
      && ch.lost == [] && ch.refused == [] && ch.enqueued == ch.written + ch.Hand() + ch.queue
    ensures var ch := run.states[i].channels[s];
      Count(ch.accepted, x) == Count(ch.enqueued, x) + Held(run.states[i].tasks, s, x)
  {
    var ch := run.states[i].channels[s];
    Conservation(run, i, s, x);
    CountConcat(ch.written + ch.Hand(), ch.queue, x);
    CountConcat(ch.written, ch.Hand(), x);
  }
}
