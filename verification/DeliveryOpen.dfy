/**
 What is always possible, whatever the server is doing: callbacks can send and leave at once, a join has
 to wait only for broadcasts at its group, every broadcast can be brought to its end, and every way for a
 writer to end does happen.
 */
module DeliveryOpen {
  import opened Wrappers
  import opened Messages
  import opened Membership
  import opened Delivery
  import opened DeliveryLedger
  import opened DeliveryCasts
  import opened DeliveryOrder
  import opened DeliveryEnds
  import opened DeliveryLifecycle

  // ---- Requests that never wait ----

  /** A registration, the start of a broadcast, or a send or leave of a callback that still has its connection. */
  predicate NeverWaits(st: State, e: Event) {
    match e
    case Register => true
    case CastStart(msg, _, _) => !msg.Close?
    case Send(s, _) => st.Has(s) && st.channels[s].handle
    case Leave(s, _) => st.Has(s) && st.channels[s].handle
    case _ => false
  }

  /** Such a request can be the next event at every point of every run. */
  lemma CanAsk(run: Run, e: Event) returns (longer: Run)
    requires run.Valid() && NeverWaits(run.Last(), e)
    ensures Extends(longer, run) && longer.events == run.events + [e]
  {
    longer := run.Then(e);
    ThenValid(run, e);
  }

  // ---- A group that is being visited ----

  /** Broadcast b is visiting the members of g. */
  predicate VisitsGroup(st: State, b: nat, g: Group) {
    st.HasTask(b) && st.tasks[b].Visiting() && st.tasks[b].groups[st.tasks[b].pos] == g
  }

  ghost predicate VisitsDuring(run: Run, i: nat, j: nat, b: nat, g: Group) {
    forall k | i <= k < j && k < |run.states| :: VisitsGroup(run.states[k], b, g)
  }

  /** While a broadcast visits a group nobody can enter it; its members can only become fewer. */
  lemma {:induction false} VisitedOnlyShrinks(run: Run, i: nat, j: nat, b: nat, g: Group)
    requires run.Valid() && i <= j < |run.states| && VisitsDuring(run, i, j, b, g)
    ensures Members(run.states[j].groups, g) <= Members(run.states[i].groups, g)
    decreases j
  {
    if i < j {
      VisitedOnlyShrinks(run, i, j - 1, b, g);
      var st, e := run.states[j - 1], run.events[j - 1];
      assert run.StepAt(j - 1);
      assert VisitsGroup(st, b, g);
      assert e.Join? ==> e.g != g;
      hide Step, Enabled;
      forall id | id in Members(Step(st, e).groups, g) ensures id in Members(st.groups, g) {
        MemberStep(st, e, g, id);
      }
    }
  }

  // ---- Where a broadcast can be ----

  predicate PlaceOk(c: Task) {
    c.Cast? ==>
      && c.pos <= |c.groups|
      && (c.todo.Some? ==> c.pos < |c.groups| && !c.done)
      && (c.done ==> c.pos == |c.groups| && c.blocked == [])
  }

  lemma PlaceStep(st: State, e: Event, t: nat)
    requires Enabled(st, e) && st.HasTask(t) && PlaceOk(st.tasks[t])
    ensures PlaceOk(TaskAfter(st, e, t))
  {
    hide Reaches;
  }

  lemma PlaceSpawned(st: State, e: Event)
    requires Enabled(st, e)
    ensures forall k | 0 <= k < |Spawned(st, e)| :: PlaceOk(Spawned(st, e)[k])
  {
  }

  /** A broadcast that is done has been through its whole list and has handed over what it held. */
  lemma {:induction false} RunPlace(run: Run, k: nat, t: nat)
    requires run.Valid() && k < |run.states| && run.states[k].HasTask(t)
    ensures PlaceOk(run.states[k].tasks[t])
  {
    if k > 0 {
      var st, e := run.states[k - 1], run.events[k - 1];
      assert run.StepAt(k - 1);
      StepTasks(st, e);
      hide Step, Enabled, PlaceOk, TaskAfter, Spawned, Run.Valid;
      if st.HasTask(t) {
        RunPlace(run, k - 1, t);
        PlaceStep(st, e, t);
      } else {
        PlaceSpawned(st, e);
      }
    }
  }

  // ---- Bringing broadcasts to their end ----

  predicate HandleOf(st: State, s: nat) {
    st.Has(s) && st.channels[s].handle
  }

  /** Advancing a broadcast takes no handle away. */
  lemma HandleStays(st: State, e: Event, s: nat)
    requires Enabled(st, e) && HandleOf(st, s) && Advanced(e).Some?
    ensures HandleOf(Step(st, e), s)
  {
    StepChannel(st, e, s);
    hide Step;
  }

  lemma AdvanceTask(run: Run, e: Event, b: nat) returns (longer: Run)
    requires run.Valid() && Enabled(run.Last(), e) && Advanced(e) == Some(b) && !e.CastEnd?
    ensures Extends(longer, run) && run.Last().HasTask(b)
    ensures longer.Last().tasks == run.Last().tasks[b := TaskAfter(run.Last(), e, b)]
    ensures forall s: nat | HandleOf(run.Last(), s) :: HandleOf(longer.Last(), s)
  {
    forall s: nat | HandleOf(run.Last(), s) ensures HandleOf(Step(run.Last(), e), s) { HandleStays(run.Last(), e, s); }
    StepTasks(run.Last(), e);
    assert Spawned(run.Last(), e) == [];
    hide Step;
    longer := Extend(run, e);
    assert run.Last().tasks[b := TaskAfter(run.Last(), e, b)] + [] == run.Last().tasks[b := TaskAfter(run.Last(), e, b)];
  }

  /** A broadcast that is visiting a group can be done with it before anything else happens. */
  lemma {:induction false} FinishVisit(run: Run, b: nat) returns (longer: Run)
    requires run.Valid() && run.Last().HasTask(b) && run.Last().tasks[b].Visiting()
    ensures Extends(longer, run) && longer.Last().HasTask(b)
    ensures longer.Last().tasks == run.Last().tasks[b := longer.Last().tasks[b]]
    ensures var c, d := run.Last().tasks[b], longer.Last().tasks[b];
      d.Cast? && d.groups == c.groups && d.pos == c.pos + 1 && d.todo == None && d.done == c.done
    ensures forall s: nat | HandleOf(run.Last(), s) :: HandleOf(longer.Last(), s)
    decreases run.Last().tasks[b].todo.value
  {
    hide Step, Reaches, HandleOf;
    var todo := run.Last().tasks[b].todo.value;
    if id :| id in todo {
      var visited := AdvanceTask(run, CastVisit(b, id), b);
      longer := FinishVisit(visited, b);
    } else {
      longer := AdvanceTask(run, CastLeave(b), b);
    }
  }

  /** No broadcast is stuck: every run can be continued to one in which it has been through its whole list. */
  lemma {:induction false} CastCanFinish(run: Run, b: nat) returns (longer: Run)
    requires run.Valid() && IsCast(run.Last(), b)
    ensures Extends(longer, run) && IsCast(longer.Last(), b)
    ensures longer.Last().tasks[b].done && longer.Last().tasks[b].pos == |longer.Last().tasks[b].groups|
    decreases |run.Last().tasks[b].groups| - run.Last().tasks[b].pos, !run.Last().tasks[b].done,
              run.Last().tasks[b].todo.None?
  {
    var c := run.Last().tasks[b];
    RunPlace(run, |run.states| - 1, b);
    hide Step;
    if c.done {
      longer := run;
    } else if c.todo.Some? {
      var left := FinishVisit(run, b);
      longer := CastCanFinish(left, b);
    } else if c.pos < |c.groups| {
      var entered := AdvanceTask(run, CastEnter(b), b);
      longer := CastCanFinish(entered, b);
    } else {
      StepTasks(run.Last(), CastEnd(b));
      longer := Extend(run, CastEnd(b));
    }
  }

  // ---- Joining ----

  predicate FreeUpTo(st: State, n: nat, g: Group) {
    forall t | 0 <= t < n && t < |st.tasks| :: !VisitsGroup(st, t, g)
  }

  lemma UnlockedMeans(st: State, g: Group)
    ensures st.Unlocked(g) <==> FreeUpTo(st, |st.tasks|, g)
  {
    forall t | 0 <= t < |st.tasks| && st.tasks[t].Visiting() && st.Unlocked(g) ensures !VisitsGroup(st, t, g) {}
    forall t | 0 <= t < |st.tasks| && st.tasks[t].Visiting() && FreeUpTo(st, |st.tasks|, g)
      ensures st.tasks[t].groups[st.tasks[t].pos] != g
    {
      assert !VisitsGroup(st, t, g);
    }
  }

  lemma {:induction false} ClearGroup(run: Run, n: nat, g: Group) returns (longer: Run)
    requires run.Valid() && n <= |run.Last().tasks|
    ensures Extends(longer, run) && |longer.Last().tasks| == |run.Last().tasks| && FreeUpTo(longer.Last(), n, g)
    ensures forall s: nat | HandleOf(run.Last(), s) :: HandleOf(longer.Last(), s)
  {
    if n == 0 {
      longer := run;
    } else {
      hide HandleOf;
      longer := ClearGroup(run, n - 1, g);
      if VisitsGroup(longer.Last(), n - 1, g) {
        var cleared := longer;
        longer := FinishVisit(cleared, n - 1);
        forall t | 0 <= t < n ensures !VisitsGroup(longer.Last(), t, g) {
          if t < n - 1 { assert !VisitsGroup(cleared.Last(), t, g); }
        }
      }
    }
  }

  /** A join is never kept out for good: the broadcasts at its group can finish there, and then it enters. */
  lemma CanJoin(run: Run, s: nat, g: Group) returns (longer: Run)
    requires run.Valid() && HandleOf(run.Last(), s)
    ensures Extends(longer, run) && longer.Last().Has(s) && Member(longer.Last(), s, g)
  {
    var free := ClearGroup(run, |run.Last().tasks|, g);
    UnlockedMeans(free.Last(), g);
    MemberStep(free.Last(), Join(s, g), g, IdOf(s));
    StepCount(free.Last(), Join(s, g));
    hide Step;
    longer := Extend(free, Join(s, g));
  }

  /** A removal may visit any group there is, also one created after it began. */
  lemma RemovalCanVisit(run: Run, s: nat, g: Group) returns (longer: Run)
    requires run.Valid() && run.Last().Has(s) && run.Last().channels[s].phase.Removing? && g in run.Last().groups
    ensures Extends(longer, run) && longer.Last().Has(s) && !Member(longer.Last(), s, g)
  {
    MemberStep(run.Last(), RemoveFrom(s, g), g, IdOf(s));
    StepCount(run.Last(), RemoveFrom(s, g));
    hide Step;
    longer := Extend(run, RemoveFrom(s, g));
  }

  // ---- Every way for a writer to end happens ----

  /** A writer that meets a Close can write all that is queued ahead of it and the Close, and drops the rest. */
  lemma {:induction false} CloseCanBeWritten(run: Run, s: nat, n: nat) returns (longer: Run)
    requires run.Valid() && run.Last().Has(s) && run.Last().channels[s].writer.Idle?
    requires var queue := run.Last().channels[s].queue; n < |queue| && queue[n].msg.Close? && NoClose(queue[..n])
    ensures Extends(longer, run) && longer.Last().Has(s)
    decreases n
    ensures var was, ch := run.Last().channels[s], longer.Last().channels[s];
      && ch.writer == Stopped(SawClose)
      && ch.written == was.written + was.queue[..n + 1] && ch.lost == was.lost + was.queue[n + 1..]
  {
    var was := run.Last().channels[s];
    if n == 0 {
      var received := Advance(run, Recv(s), s);
      longer := Advance(received, WriteOk(s), s);
      assert was.queue[..1] == [was.queue[0]];
      assert was.lost + [] + was.queue[1..] == was.lost + was.queue[1..];
    } else {
      hide Step;
      assert was.queue[..n][0] == was.queue[0];
      assert was.queue[1..][..n - 1] == was.queue[..n][1..];
      var wrote := WriteNext(run, s);
      longer := CloseCanBeWritten(wrote, s, n - 1);
      assert was.written + [was.queue[0]] + was.queue[1..][..n] == was.written + was.queue[..n + 1];
    }
  }

  /** A reader can end at any time. */
  lemma ReaderCanEnd(run: Run, s: nat) returns (longer: Run)
    requires run.Valid() && run.Last().Has(s) && run.Last().channels[s].phase.Live?
    ensures Extends(longer, run) && longer.Last().Has(s)
    ensures longer.Last().channels[s] == run.Last().channels[s].(phase := Closing, abort := true)
  {
    longer := Advance(run, ReaderEnds(s), s);
  }

  /** An abort can stop a running writer at any time. */
  lemma AbortCanStop(run: Run, s: nat) returns (longer: Run)
    requires run.Valid() && run.Last().Has(s) && run.Last().channels[s].abort
    requires run.Last().channels[s].writer.Idle? || run.Last().channels[s].writer.Holding?
    ensures Extends(longer, run) && longer.Last().Has(s)
    ensures longer.Last().channels[s].writer == Stopped(Aborted)
  {
    longer := Advance(run, WriterAborted(s), s);
  }

  /** A writer with nothing left to write can see the end of its channel once nobody can send to it. */
  lemma DrainCanStop(run: Run, s: nat) returns (longer: Run)
    requires run.Valid() && run.Last().Has(s) && run.Last().Abandoned(s)
    requires run.Last().channels[s].writer.Idle? && run.Last().channels[s].queue == []
    ensures Extends(longer, run) && longer.Last().Has(s)
    ensures longer.Last().channels[s].writer == Stopped(Drained)
  {
    longer := Advance(run, RecvNone(s), s);
  }

  /** Every write can fail. */
  lemma WriteCanFail(run: Run, s: nat) returns (longer: Run)
    requires run.Valid() && run.Last().Has(s) && run.Last().channels[s].writer.Holding?
    ensures Extends(longer, run) && longer.Last().Has(s)
    ensures longer.Last().channels[s].writer == Stopped(WriteFailed)
  {
    longer := Advance(run, WriteFail(s), s);
  }

  lemma SendAndWrite(msg: Message) returns (run: Run)
    requires !msg.Close?
    ensures run.Valid()
    ensures var sent := [Item(msg, Direct)];
      run.Last() == State([FRESH.(writer := Idle, phase := Live, written := sent, accepted := sent, enqueued := sent)],
                          map[1 := 0], map[], {}, [])
  {
    run := FillUp(0);
    assert Filler(0) == [];
    run := Extend(run, Send(0, msg));
    run := Extend(run, Recv(0));
    run := Extend(run, WriteOk(0));
    var x := Item(msg, Direct);
    var none: seq<Item> := [];
    assert none + [x] == [x] && [x][1..] == none;
    assert run.Last().channels == [run.Last().channels[0]];
  }

  /** A writer can live to see the end of its channel: a run in which it writes a message and then does. */
  lemma ChannelCanEnd(msg: Message) returns (run: Run)
    requires !msg.Close?
    ensures run.Valid() && run.Last().Has(0) && run.Last().channels[0].writer == Stopped(Drained)
    ensures run.Last().channels[0].written == [Item(msg, Direct)]
  {
    run := SendAndWrite(msg);
    run := Extend(run, ReaderEnds(0));
    run := Extend(run, RemoveSender(0));
    assert IdOf(0) == 1;
    run := Extend(run, DropHandle(0));
    run := Extend(run, RecvNone(0));
  }
}
