/**
 How connections end. A reader that ends has the writer aborted, which drops exactly what is not
 written yet; a writer that outruns the abort until nobody can send any more is sure to have written
 everything. From every reachable state a connection can be taken down and removed.
 */
module DeliveryEnds {
  import opened Wrappers
  import opened Messages
  import opened Membership
  import opened Delivery
  import opened DeliveryLedger
  import opened DeliverySent
  import opened DeliveryOrder

  // ---- The natural end of a channel ----

  predicate NoneFor(es: seq<Entry>, s: nat) {
    forall k | 0 <= k < |es| :: es[k].to != s
  }

  predicate Unregistered(st: State, s: nat) {
    forall id | id in st.senders :: st.senders[id] != s
  }

  /** No broadcast or spill task holds a copy for s. */
  predicate NothingDeferred(st: State, s: nat) {
    forall t | 0 <= t < |st.tasks| :: NoneFor(st.tasks[t].Entries(), s)
  }

  /** Abandoned, in the terms the steps are read in. */
  lemma AbandonedMeans(st: State, s: nat)
    requires st.Has(s)
    ensures st.Abandoned(s) <==>
      !st.channels[s].handle && Unregistered(st, s) && NothingDeferred(st, s)
  {
  }

  lemma UnregisteredStep(st: State, e: Event, s: nat)
    requires Enabled(st, e) && st.Has(s) && Unregistered(st, s)
    ensures Unregistered(Step(st, e), s)
  {
    StepSenders(st, e);
    hide Step, Enabled;
  }

  lemma TasksStayAway(st: State, e: Event, s: nat, t: nat)
    requires Enabled(st, e) && st.Has(s) && st.Abandoned(s) && t < |Step(st, e).tasks|
    ensures NoneFor(Step(st, e).tasks[t].Entries(), s)
  {
    hide Step;
    StepTasks(st, e);
    if t < |st.tasks| {
      assert NoneFor(st.tasks[t].Entries(), s);
      assert NoneFor(TaskAfter(st, e, t).Entries(), s);
    } else if e.CastEnd? {
      assert NoneFor(st.tasks[e.b].Entries(), s);
    }
  }

  /** Once nobody can send to a channel, nobody ever can, and it is offered nothing more. */
  lemma AbandonedStep(st: State, e: Event, s: nat)
    requires Enabled(st, e) && st.Has(s) && st.Abandoned(s)
    ensures Step(st, e).Has(s) && Step(st, e).Abandoned(s)
    ensures Step(st, e).channels[s].accepted == st.channels[s].accepted
    ensures Step(st, e).channels[s].refused == st.channels[s].refused
  {
    hide Step;
    StepChannel(st, e, s);
    UnregisteredStep(st, e, s);
    if e.SpillSend? {
      assert st.tasks[e.t].Entries()[0].to != s;
    }
    forall t | 0 <= t < |Step(st, e).tasks| ensures NoneFor(Step(st, e).tasks[t].Entries(), s) {
      TasksStayAway(st, e, s, t);
    }
    AbandonedMeans(Step(st, e), s);
  }

  ghost predicate EndOk(st: State, s: nat)
    requires st.Has(s)
  {
    st.channels[s].writer == Stopped(Drained) ==> st.Abandoned(s) && st.channels[s].refused == []
  }

  lemma DrainBegins(st: State, s: nat)
    requires Enabled(st, RecvNone(s)) && Sound(st)
    ensures st.Abandoned(s) && st.channels[s].refused == []
  {
    assert ChannelOk(st.channels[s]);
  }

  lemma EndStep(st: State, e: Event, s: nat)
    requires Enabled(st, e) && Sound(st) && st.Has(s) && EndOk(st, s)
    ensures Step(st, e).Has(s) && EndOk(Step(st, e), s)
  {
    if e == RecvNone(s) {
      DrainBegins(st, s);
      AbandonedStep(st, e, s);
    } else if st.channels[s].writer == Stopped(Drained) {
      AbandonedStep(st, e, s);
    } else {
      StepChannel(st, e, s);
      NotDrained(st, e, s);
    }
  }

  /** Only the end of the channel makes a writer stop as drained. */
  lemma NotDrained(st: State, e: Event, s: nat)
    requires Enabled(st, e) && st.Has(s) && e != RecvNone(s) && st.channels[s].writer != Stopped(Drained)
    requires CanApply(st.channels[s], ChangeTo(st, e, s))
    ensures Apply(st.channels[s], ChangeTo(st, e, s)).writer != Stopped(Drained)
  {
    DrainIsRecvNone(st, e, s);
    hide ChangeTo, Enabled;
    ApplyNotDrained(st.channels[s], ChangeTo(st, e, s));
  }

  lemma ApplyNotDrained(ch: Channel, c: Change)
    requires CanApply(ch, c) && ch.writer != Stopped(Drained) && c != Halted(Drained)
    ensures Apply(ch, c).writer != Stopped(Drained)
  {
  }

  lemma DrainIsRecvNone(st: State, e: Event, s: nat)
    requires Enabled(st, e) && st.Has(s)
    ensures ChangeTo(st, e, s) == Halted(Drained) ==> e == RecvNone(s)
  {
    hide Reaches;
  }

  lemma {:induction false} RunEnd(run: Run, k: nat, s: nat)
    requires run.Valid() && k < |run.states| && run.states[k].Has(s)
    ensures EndOk(run.states[k], s)
  {
    if k > 0 {
      hide Step, Enabled, EndOk, Sound;
      var st, e := run.states[k - 1], run.events[k - 1];
      assert run.StepAt(k - 1);
      StepCount(st, e);
      if st.Has(s) {
        RunEnd(run, k - 1, s);
        RunSound(run, k - 1);
        EndStep(st, e, s);
      } else {
        FreshEnd(Step(st, e), s);
      }
    }
  }

  lemma FreshEnd(st: State, s: nat)
    requires st.Has(s) && st.channels[s] == FRESH
    ensures EndOk(st, s)
  {
  }

  lemma {:induction false} NothingHeld(st: State, n: nat, s: nat, x: Item)
    requires NothingDeferred(st, s) && n <= |st.tasks|
    ensures Held(st.tasks[..n], s, x) == 0
  {
    if n > 0 {
      NothingHeld(st, n - 1, s, x);
      assert NoneFor(st.tasks[n - 1].Entries(), s);
      NoEntriesFor(st.tasks[n - 1].Entries(), s, x);
      assert st.tasks[..n][..n - 1] == st.tasks[..n - 1];
    }
  }

  lemma {:induction false} NoEntriesFor(es: seq<Entry>, s: nat, x: Item)
    requires NoneFor(es, s)
    ensures EntriesFor(es, s, x) == 0
  {
    if es != [] { NoEntriesFor(es[1..], s, x); }
  }

  /**
   A writer that stopped because the channel ended has written every copy that was ever sent to the
   connection, spilled ones included, as often as it was sent.
   */
  lemma NaturalEndLosesNothing(run: Run, k: nat, s: nat, x: Item)
    requires run.Valid() && k < |run.states| && run.states[k].Has(s)
    requires run.states[k].channels[s].writer == Stopped(Drained)
    ensures multiset(run.states[k].channels[s].written)[x] == multiset(SentTo(run, k, s))[x]
  {
    AcceptedExactly(run, k, s);
    var st := run.states[k];
    RunEnd(run, k, s);
    RunSound(run, k);
    assert ChannelOk(st.channels[s]);
    AbandonedMeans(st, s);
    NothingHeld(st, |st.tasks|, s, x);
    assert st.tasks[..|st.tasks|] == st.tasks;
    Conservation(run, k, s, x);
  }

  // ---- The ordinary end ----

  /** Handles last as long as the callbacks may run; past that the writer is aborted or has ended by itself. */
  predicate AbortOk(ch: Channel) {
    && (if ch.phase.Setup? || ch.phase.Live? then ch.handle else ch.abort || ch.writer.Stopped?)
    && (ch.writer == Stopped(Drained) ==> ch.abort)
  }

  /** What keeps it: no stage is left without an abort or a stopped writer, and no handle dropped before. */
  predicate Respects(ch: Channel, c: Change) {
    match c
    case Moved(phase, abort) =>
      !phase.Setup? && !phase.Live? && (ch.abort ==> abort) && (abort || ch.writer.Stopped?)
    case Released => !ch.phase.Setup? && !ch.phase.Live?
    case Halted(why) => why.Drained? ==> !ch.handle && !ch.writer.Stopped?
    case _ => true
  }

  lemma OwnRespects(st: State, e: Event, s: nat)
    requires Enabled(st, e) && st.Has(s) && AbortOk(st.channels[s]) && Owner(e) == Some(s)
    ensures Respects(st.channels[s], OwnChange(st, e, st.channels[s]))
  {
  }

  lemma ChangeRespects(st: State, e: Event, s: nat)
    requires Enabled(st, e) && st.Has(s) && AbortOk(st.channels[s])
    ensures Respects(st.channels[s], ChangeTo(st, e, s))
  {
    if Owner(e) == Some(s) { OwnRespects(st, e, s); }
    hide AbortOk, Reaches, OwnChange;
  }

  lemma AbortKept(ch: Channel, c: Change)
    requires CanApply(ch, c) && AbortOk(ch) && Respects(ch, c)
    ensures AbortOk(Apply(ch, c))
  {
  }

  lemma {:induction false} RunAbort(run: Run, k: nat, s: nat)
    requires run.Valid() && k < |run.states| && run.states[k].Has(s)
    ensures AbortOk(run.states[k].channels[s])
  {
    if k > 0 {
      hide Step, Enabled;
      var st, e := run.states[k - 1], run.events[k - 1];
      assert run.StepAt(k - 1);
      StepCount(st, e);
      if st.Has(s) {
        RunAbort(run, k - 1, s);
        hide AbortOk, Respects;
        StepChannel(st, e, s);
        ChangeRespects(st, e, s);
        AbortKept(st.channels[s], ChangeTo(st, e, s));
      }
    }
  }

  /**
   A stopped writer leaves behind exactly the part of the queue order it has not written. It has run
   into the end of the channel only if the reader had ended before and requested its abort.
   */
  lemma WriterEndsExactly(run: Run, k: nat, s: nat)
    requires run.Valid() && k < |run.states| && run.states[k].Has(s) && run.states[k].channels[s].writer.Stopped?
    ensures var ch := run.states[k].channels[s];
      && ch.queue == [] && ch.written <= ch.enqueued && ch.lost == ch.enqueued[|ch.written|..]
      && (ch.writer == Stopped(Drained) ==> ch.abort && ch.lost == [])
  {
    RunSound(run, k);
    RunAbort(run, k, s);
    assert ChannelOk(run.states[k].channels[s]);
  }

  /** From any live state the reader may end and the writer be aborted at once: what is not written yet is lost. */
  lemma ReaderEndDrops(run: Run, s: nat) returns (longer: Run)
    requires run.Valid() && run.Last().Has(s) && run.Last().channels[s].phase.Live?
    requires !run.Last().channels[s].writer.Stopped?
    ensures Extends(longer, run) && longer.Last().Has(s)
    ensures var was, ch := run.Last().channels[s], longer.Last().channels[s];
      && ch.writer == Stopped(Aborted) && ch.accepted == was.accepted && ch.written == was.written
      && ch.lost == was.Hand() + was.queue
  {
    LastSound(run);
    assert ChannelOk(run.Last().channels[s]);
    var ended := Advance(run, ReaderEnds(s), s);
    longer := Advance(ended, WriterAborted(s), s);
  }

  /** A run in which a connection is sent up to 10000 messages and ends normally without any of them being written. */
  lemma ReaderEndLosesAll(n: nat) returns (run: Run)
    requires n <= CHANNEL_BUFFER_SIZE
    ensures run.Valid() && run.Last().Has(0)
    ensures var ch := run.Last().channels[0];
      ch.accepted == Filler(n) && ch.written == [] && ch.lost == Filler(n)
  {
    var full := FillUp(n);
    run := ReaderEndDrops(full, 0);
    assert full.Last().channels[0].Hand() + Filler(n) == Filler(n);
  }

  // ---- Taking a connection down ----

  /** Removal has only groups left to visit that exist. */
  predicate TodoOk(st: State, s: nat)
    requires st.Has(s)
  {
    st.channels[s].phase.Removing? ==> st.channels[s].phase.todo <= st.groups.Keys
  }

  lemma GroupsOnlyGrow(st: State, e: Event)
    requires Enabled(st, e)
    ensures st.groups.Keys <= Step(st, e).groups.Keys
  {
    hide Channel.Offer, Channel.Deliver, Channel.Stop, Channel.Wrote, IdOf;
  }

  lemma TodoStep(st: State, e: Event, s: nat)
    requires Enabled(st, e) && st.Has(s) && TodoOk(st, s)
    ensures Step(st, e).Has(s) && TodoOk(Step(st, e), s)
  {
    hide Step;
    StepChannel(st, e, s);
    GroupsOnlyGrow(st, e);
  }

  lemma {:induction false} RunTodo(run: Run, k: nat, s: nat)
    requires run.Valid() && k < |run.states| && run.states[k].Has(s)
    ensures TodoOk(run.states[k], s)
  {
    if k > 0 {
      hide Step, Enabled;
      assert run.StepAt(k - 1);
      StepCount(run.states[k - 1], run.events[k - 1]);
      if run.states[k - 1].Has(s) {
        RunTodo(run, k - 1, s);
        TodoStep(run.states[k - 1], run.events[k - 1], s);
      }
    }
  }

  lemma {:induction false} FinishRemoval(run: Run, s: nat) returns (longer: Run)
    requires run.Valid() && run.Last().Has(s) && run.Last().channels[s].phase.Removing?
    ensures Extends(longer, run) && longer.Last().Has(s) && longer.Last().channels[s].phase.Gone?
    decreases run.Last().channels[s].phase.todo
  {
    hide Step;
    var todo := run.Last().channels[s].phase.todo;
    if g :| g in todo {
      RunTodo(run, |run.states| - 1, s);
      var next := Advance(run, RemoveFrom(s, g), s);
      longer := FinishRemoval(next, s);
    } else {
      assert todo == {};
      longer := Advance(run, RemoveDone(s), s);
    }
  }

  lemma Advance(run: Run, e: Event, s: nat) returns (longer: Run)
    requires run.Valid() && run.Last().Has(s) && Enabled(run.Last(), e) && Owner(e) == Some(s)
    ensures Extends(longer, run) && longer.Last().Has(s)
    ensures CanApply(run.Last().channels[s], OwnChange(run.Last(), e, run.Last().channels[s]))
    ensures longer.Last().channels[s] == Apply(run.Last().channels[s], OwnChange(run.Last(), e, run.Last().channels[s]))
  {
    OwnStep(run.Last(), e, s);
    hide Step;
    longer := Extend(run, e);
  }

  function StagesLeft(phase: Phase): nat {
    match phase
    case Setup => 4
    case Live => 3
    case Closing => 2
    case Removing(_) => 1
    case Gone => 0
  }

  /** The next event of a lifecycle, up to the removal of the sender. */
  function Onward(ch: Channel, s: nat): Event {
    if ch.phase.Setup? then Spawn(s)
    else if ch.phase.Closing? then RemoveSender(s)
    else if ch.writer.Stopped? then WriterEnds(s)
    else ReaderEnds(s)
  }

  /** No connection is stuck: every run can be continued to one in which it is gone. */
  lemma {:induction false} CanBeRemoved(run: Run, s: nat) returns (longer: Run)
    requires run.Valid() && run.Last().Has(s)
    ensures Extends(longer, run) && longer.Last().Has(s) && longer.Last().channels[s].phase.Gone?
    decreases StagesLeft(run.Last().channels[s].phase)
  {
    hide Step;
    var ch := run.Last().channels[s];
    if ch.phase.Gone? {
      longer := run;
    } else if ch.phase.Removing? {
      longer := FinishRemoval(run, s);
    } else {
      LastSound(run);
      assert ChannelOk(ch);
      var next := Advance(run, Onward(ch, s), s);
      longer := CanBeRemoved(next, s);
    }
  }
}
