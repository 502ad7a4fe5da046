/**
 Message delivery as a transition system. One event is one operation that the source performs
 atomically: an operation on one concurrent map, one try_send, one receive, one write. The actors
 (connection lifecycles, writers, callbacks, broadcasts, spill tasks, removals) interleave freely.
 */
module Delivery {
  import opened Wrappers
  import opened Messages
  import opened Membership

  const CHANNEL_BUFFER_SIZE: nat := 10000

  /** Where a copy came from: a send or close on the connection, or one position of a broadcast's group list. */
  datatype Origin = Direct | ToGroup(task: nat, pos: nat, group: Group)

  datatype Item = Item(msg: Message, origin: Origin)

  datatype StopReason = SawClose | WriteFailed | Aborted | Drained

  datatype Writer = NotStarted | Idle | Holding(item: Item) | Stopped(why: StopReason)

  /** The stages of handle_client. */
  datatype Phase = Setup | Live | Closing | Removing(todo: set<Group>) | Gone

  datatype SendResult = Sent | Full | Closed

  /**
   One registered channel: the bounded queue, its writer, and the stage of its lifecycle.
   The last five fields are history: every copy offered to the channel, the copies that entered the
   queue, those discarded when the receiver went away, those offered after that, and whether an
   offer ever found the queue full.
   */
  datatype Channel = Channel(
    queue: seq<Item>, writer: Writer, written: seq<Item>, abort: bool, phase: Phase, handle: bool,
    accepted: seq<Item>, enqueued: seq<Item>, lost: seq<Item>, refused: seq<Item>, wasFull: bool)
  {
    function Hand(): seq<Item> {
      if writer.Holding? then [writer.item] else []
    }

    function TrySend(): SendResult {
      if writer.Stopped? then Closed
      else if |queue| < CHANNEL_BUFFER_SIZE then Sent
      else Full
    }

    /** A copy reaches the channel: it enters the queue, or is refused because the receiver is gone. */
    function Deliver(item: Item): Channel
      requires !TrySend().Full?
    {
      if TrySend().Sent? then this.(queue := queue + [item], enqueued := enqueued + [item])
      else this.(refused := refused + [item])
    }

    /** try_send. On Full the channel keeps nothing: the caller still holds the copy. */
    function Offer(item: Item): Channel {
      var noted := this.(accepted := accepted + [item]);
      if TrySend().Full? then noted.(wasFull := true) else noted.Deliver(item)
    }

    /** The receiving half is dropped, together with what it still contains. */
    function Stop(why: StopReason): Channel {
      this.(writer := Stopped(why), queue := [], lost := lost + Hand() + queue)
    }

    function Wrote(): Channel
      requires writer.Holding?
    {
      var done := this.(written := written + [writer.item], writer := Idle);
      if writer.item.msg.Close? then done.Stop(SawClose) else done
    }
  }

  const FRESH := Channel([], NotStarted, [], false, Setup, true, [], [], [], [], false)

  datatype Entry = Entry(to: nat, item: Item)

  /**
   A broadcast in progress: the list position it has reached and, while it holds that group's
   members, those it has still to visit; or a spawned task that sends its entries in order.
   */
  datatype Task =
    | Cast(msg: Message, groups: seq<Group>, exclude: Option<ConnId>,
           pos: nat, todo: Option<set<ConnId>>, blocked: seq<Entry>, done: bool)
    | Spill(entries: seq<Entry>)
  {
    function Entries(): seq<Entry> {
      if Cast? then blocked else entries
    }

    predicate Between() {
      Cast? && !done && todo.None?
    }

    predicate Visiting() {
      Cast? && !done && todo.Some? && pos < |groups|
    }
  }

  /** The copy a broadcast owes a channel for one position of its list. */
  function Copy(b: nat, msg: Message, groups: seq<Group>, p: nat): Item
    requires p < |groups|
  {
    Item(msg, ToGroup(b, p, groups[p]))
  }

  /** joined is history: which connection ever asked to be in which group. */
  datatype State = State(
    channels: seq<Channel>, senders: map<ConnId, nat>, groups: GroupMap,
    joined: set<(nat, Group)>, tasks: seq<Task>)
  {
    predicate Has(s: nat) {
      s < |channels|
    }

    predicate HasTask(t: nat) {
      t < |tasks|
    }

    function SetChannel(s: nat, ch: Channel): State
      requires Has(s)
    {
      this.(channels := channels[s := ch])
    }

    function SetTask(t: nat, task: Task): State
      requires HasTask(t)
    {
      this.(tasks := tasks[t := task])
    }

    /** join needs the write lock of the group's entry, which a visiting broadcast keeps from it. */
    predicate Unlocked(g: Group) {
      forall t | 0 <= t < |tasks| && tasks[t].Visiting() :: tasks[t].groups[tasks[t].pos] != g
    }

    /** Nobody can send to s any more: recv reports the end of the channel. */
    predicate Abandoned(s: nat)
      requires Has(s)
    {
      && !channels[s].handle
      && (forall id | id in senders :: senders[id] != s)
      && (forall t | 0 <= t < |tasks| :: forall k | 0 <= k < |tasks[t].Entries()| :: tasks[t].Entries()[k].to != s)
    }
  }

  datatype Event =
    | Register
    | Spawn(s: nat)
    | Recv(s: nat) | WriteOk(s: nat) | WriteFail(s: nat) | RecvNone(s: nat) | WriterAborted(s: nat)
    | WriterEnds(s: nat) | ReaderEnds(s: nat)
    | RemoveSender(s: nat) | RemoveFrom(s: nat, g: Group) | RemoveDone(s: nat) | DropHandle(s: nat)
    | Join(s: nat, g: Group) | Leave(s: nat, g: Group) | Send(s: nat, msg: Message)
    | CastStart(msg: Message, list: seq<Group>, exclude: Option<ConnId>)
    | CastEnter(b: nat) | CastVisit(b: nat, id: ConnId) | CastLeave(b: nat) | CastEnd(b: nat)
    | SpillSend(t: nat)

  predicate Enabled(st: State, e: Event) {
    match e
    case Register => true
    case Spawn(s) => st.Has(s) && st.channels[s].phase.Setup? && st.channels[s].writer.NotStarted?
    case Recv(s) => st.Has(s) && st.channels[s].writer.Idle? && st.channels[s].queue != []
    case WriteOk(s) => st.Has(s) && st.channels[s].writer.Holding?
    case WriteFail(s) => st.Has(s) && st.channels[s].writer.Holding?
    case RecvNone(s) => st.Has(s) && st.channels[s].writer.Idle? && st.channels[s].queue == [] && st.Abandoned(s)
    case WriterAborted(s) =>
      st.Has(s) && st.channels[s].abort && (st.channels[s].writer.Idle? || st.channels[s].writer.Holding?)
    case WriterEnds(s) => st.Has(s) && st.channels[s].phase.Live? && st.channels[s].writer.Stopped?
    case ReaderEnds(s) => st.Has(s) && st.channels[s].phase.Live?
    case RemoveSender(s) => st.Has(s) && st.channels[s].phase.Closing?
    case RemoveFrom(s, g) => st.Has(s) && st.channels[s].phase.Removing? && g in st.groups
    case RemoveDone(s) => st.Has(s) && st.channels[s].phase == Removing({})
    case DropHandle(s) => st.Has(s) && !st.channels[s].phase.Setup? && !st.channels[s].phase.Live?
    case Join(s, g) => st.Has(s) && st.channels[s].handle && st.Unlocked(g)
    case Leave(s, g) => st.Has(s) && st.channels[s].handle
    case Send(s, msg) => st.Has(s) && st.channels[s].handle
    case CastStart(msg, list, exclude) => !msg.Close?
    case CastEnter(b) => st.HasTask(b) && st.tasks[b].Between() && st.tasks[b].pos < |st.tasks[b].groups|
    case CastVisit(b, id) => st.HasTask(b) && st.tasks[b].Visiting() && id in st.tasks[b].todo.value
    case CastLeave(b) => st.HasTask(b) && st.tasks[b].Visiting() && st.tasks[b].todo.value == {}
    case CastEnd(b) => st.HasTask(b) && st.tasks[b].Between() && st.tasks[b].pos >= |st.tasks[b].groups|
    case SpillSend(t) =>
      && st.HasTask(t) && st.tasks[t].Spill? && st.tasks[t].entries != []
      && st.Has(st.tasks[t].entries[0].to)
      && !st.channels[st.tasks[t].entries[0].to].TrySend().Full?
  }

  /** The visited member is still in the group, is not excluded, and has a sender. */
  predicate Reaches(st: State, b: nat, id: ConnId)
    requires Enabled(st, CastVisit(b, id))
  {
    var c := st.tasks[b];
    && id in Members(st.groups, c.groups[c.pos])
    && c.exclude != Some(id)
    && id in st.senders && st.Has(st.senders[id])
  }

  /** A member that is reached is offered the copy; if its queue is full the copy waits for the spill task. */
  function Visit(st: State, b: nat, id: ConnId): State
    requires Enabled(st, CastVisit(b, id))
  {
    var c := st.tasks[b];
    var next := c.(todo := Some(c.todo.value - {id}));
    if Reaches(st, b, id) then
      var s := st.senders[id];
      var item := Copy(b, c.msg, c.groups, c.pos);
      var offered := st.SetChannel(s, st.channels[s].Offer(item));
      if st.channels[s].TrySend().Full?
      then offered.SetTask(b, next.(blocked := c.blocked + [Entry(s, item)]))
      else offered.SetTask(b, next)
    else st.SetTask(b, next)
  }

  function Step(st: State, e: Event): State
    requires Enabled(st, e)
  {
    match e
    case Register =>
      st.(channels := st.channels + [FRESH], senders := st.senders[IdOf(|st.channels|) := |st.channels|])
    case Spawn(s) => st.SetChannel(s, st.channels[s].(writer := Idle, phase := Live))
    case Recv(s) =>
      var ch := st.channels[s];
      st.SetChannel(s, ch.(writer := Holding(ch.queue[0]), queue := ch.queue[1..]))
    case WriteOk(s) => st.SetChannel(s, st.channels[s].Wrote())
    case WriteFail(s) => st.SetChannel(s, st.channels[s].Stop(WriteFailed))
    case RecvNone(s) => st.SetChannel(s, st.channels[s].Stop(Drained))
    case WriterAborted(s) => st.SetChannel(s, st.channels[s].Stop(Aborted))
    case WriterEnds(s) => st.SetChannel(s, st.channels[s].(phase := Closing))
    case ReaderEnds(s) => st.SetChannel(s, st.channels[s].(phase := Closing, abort := true))
    case RemoveSender(s) =>
      st.SetChannel(s, st.channels[s].(phase := Removing(st.groups.Keys))).(senders := st.senders - {IdOf(s)})
    case RemoveFrom(s, g) =>
      var ch := st.channels[s];
      st.SetChannel(s, ch.(phase := Removing(ch.phase.todo - {g})))
        .(groups := st.groups[g := st.groups[g] - {IdOf(s)}])
    case RemoveDone(s) => st.SetChannel(s, st.channels[s].(phase := Gone))
    case DropHandle(s) => st.SetChannel(s, st.channels[s].(handle := false))
    case Join(s, g) =>
      st.(groups := st.groups[g := Members(st.groups, g) + {IdOf(s)}], joined := st.joined + {(s, g)})
    case Leave(s, g) =>
      if g in st.groups then st.(groups := st.groups[g := st.groups[g] - {IdOf(s)}]) else st
    case Send(s, msg) =>
      var item := Item(msg, Direct);
      var offered := st.SetChannel(s, st.channels[s].Offer(item));
      if st.channels[s].TrySend().Full?
      then offered.(tasks := st.tasks + [Spill([Entry(s, item)])])
      else offered
    case CastStart(msg, list, exclude) =>
      st.(tasks := st.tasks + [Cast(msg, list, exclude, 0, None, [], false)])
    case CastEnter(b) =>
      var c := st.tasks[b];
      if c.groups[c.pos] in st.groups
      then st.SetTask(b, c.(todo := Some(st.groups[c.groups[c.pos]])))
      else st.SetTask(b, c.(pos := c.pos + 1))
    case CastVisit(b, id) => Visit(st, b, id)
    case CastLeave(b) => st.SetTask(b, st.tasks[b].(pos := st.tasks[b].pos + 1, todo := None))
    case CastEnd(b) =>
      var c := st.tasks[b];
      var ended := st.SetTask(b, c.(blocked := [], done := true));
      if c.blocked == [] then ended else ended.(tasks := ended.tasks + [Spill(c.blocked)])
    case SpillSend(t) =>
      var head := st.tasks[t].entries[0];
      st.SetChannel(head.to, st.channels[head.to].Deliver(head.item))
        .SetTask(t, Spill(st.tasks[t].entries[1..]))
  }

  // ---- What an event does to one channel ----

  datatype Change =
    | Untouched
    | Offered(item: Item) | Delivered(item: Item)
    | Started | Received | Written | Halted(why: StopReason)
    | Moved(phase: Phase, abort: bool) | Released

  predicate CanApply(ch: Channel, c: Change) {
    match c
    case Delivered(_) => !ch.TrySend().Full?
    case Received => ch.writer.Idle? && ch.queue != []
    case Written => ch.writer.Holding?
    case Started => ch.phase.Setup? && ch.writer.NotStarted?
    case Halted(why) =>
      && (ch.writer.Idle? || ch.writer.Holding?) && !why.SawClose?
      && (why.Drained? ==> ch.writer.Idle? && ch.queue == [])
    case Moved(phase, _) => !phase.Setup? && !ch.phase.Setup?
    case _ => true
  }

  function Apply(ch: Channel, c: Change): Channel
    requires CanApply(ch, c)
  {
    match c
    case Untouched => ch
    case Offered(item) => ch.Offer(item)
    case Delivered(item) => ch.Deliver(item)
    case Started => ch.(writer := Idle, phase := Live)
    case Received => ch.(writer := Holding(ch.queue[0]), queue := ch.queue[1..])
    case Written => ch.Wrote()
    case Halted(why) => ch.Stop(why)
    case Moved(phase, abort) => ch.(phase := phase, abort := abort)
    case Released => ch.(handle := false)
  }

  /** The connection whose lifecycle, writer or handle the event belongs to. */
  function Owner(e: Event): Option<nat> {
    match e
    case Spawn(s) => Some(s)
    case Recv(s) => Some(s)
    case WriteOk(s) => Some(s)
    case WriteFail(s) => Some(s)
    case RecvNone(s) => Some(s)
    case WriterAborted(s) => Some(s)
    case WriterEnds(s) => Some(s)
    case ReaderEnds(s) => Some(s)
    case RemoveSender(s) => Some(s)
    case RemoveFrom(s, _) => Some(s)
    case RemoveDone(s) => Some(s)
    case DropHandle(s) => Some(s)
    case Join(s, _) => Some(s)
    case Leave(s, _) => Some(s)
    case Send(s, _) => Some(s)
    case _ => None
  }

  function OwnChange(st: State, e: Event, ch: Channel): Change {
    match e
    case Spawn(_) => Started
    case Recv(_) => Received
    case WriteOk(_) => Written
    case WriteFail(_) => Halted(WriteFailed)
    case RecvNone(_) => Halted(Drained)
    case WriterAborted(_) => Halted(Aborted)
    case WriterEnds(_) => Moved(Closing, ch.abort)
    case ReaderEnds(_) => Moved(Closing, true)
    case RemoveSender(_) => Moved(Removing(st.groups.Keys), ch.abort)
    case RemoveFrom(_, g) => if ch.phase.Removing? then Moved(Removing(ch.phase.todo - {g}), ch.abort) else Untouched
    case RemoveDone(_) => Moved(Gone, ch.abort)
    case DropHandle(_) => Released
    case Send(_, msg) => Offered(Item(msg, Direct))
    case _ => Untouched
  }

  function ChangeTo(st: State, e: Event, s: nat): Change
    requires Enabled(st, e) && st.Has(s)
  {
    match e
    case CastVisit(b, id) =>
      if Reaches(st, b, id) && st.senders[id] == s
      then Offered(Copy(b, st.tasks[b].msg, st.tasks[b].groups, st.tasks[b].pos)) else Untouched
    case SpillSend(t) =>
      if st.tasks[t].entries[0].to == s then Delivered(st.tasks[t].entries[0].item) else Untouched
    case _ => if Owner(e) == Some(s) then OwnChange(st, e, st.channels[s]) else Untouched
  }

  lemma StepCount(st: State, e: Event)
    requires Enabled(st, e)
    ensures |Step(st, e).channels| == |st.channels| + (if e.Register? then 1 else 0)
    ensures e.Register? ==> Step(st, e).channels[|st.channels|] == FRESH
  {
    hide Channel.Offer, Channel.Deliver, Channel.Stop, Channel.Wrote, IdOf, Members;
  }

  lemma StepSenders(st: State, e: Event)
    requires Enabled(st, e)
    ensures Step(st, e).senders ==
      match e
      case Register => st.senders[IdOf(|st.channels|) := |st.channels|]
      case RemoveSender(s) => st.senders - {IdOf(s)}
      case _ => st.senders
  {
    hide Channel.Offer, Channel.Deliver, Channel.Stop, Channel.Wrote, Channel.TrySend, Reaches, IdOf, Members;
  }

  lemma OwnStep(st: State, e: Event, s: nat)
    requires Enabled(st, e) && st.Has(s) && Owner(e) == Some(s)
    ensures |Step(st, e).channels| == |st.channels|
    ensures CanApply(st.channels[s], OwnChange(st, e, st.channels[s]))
    ensures Step(st, e).channels[s] == Apply(st.channels[s], OwnChange(st, e, st.channels[s]))
  {
  }

  lemma OtherStep(st: State, e: Event, s: nat)
    requires Enabled(st, e) && st.Has(s) && Owner(e) != Some(s) && !e.CastVisit? && !e.SpillSend?
    ensures s < |Step(st, e).channels|
    ensures Step(st, e).channels[s] == st.channels[s]
  {
  }

  /** Step, read channel by channel. */
  lemma StepChannel(st: State, e: Event, s: nat)
    requires Enabled(st, e) && st.Has(s)
    ensures |Step(st, e).channels| == |st.channels| + (if e.Register? then 1 else 0)
    ensures CanApply(st.channels[s], ChangeTo(st, e, s))
    ensures Step(st, e).channels[s] == Apply(st.channels[s], ChangeTo(st, e, s))
  {
    StepCount(st, e);
    if !e.CastVisit? && !e.SpillSend? {
      hide Step;
      if Owner(e) == Some(s) { OwnStep(st, e, s); } else { OtherStep(st, e, s); }
    }
  }

  // ---- What an event does to broadcasts and spills ----

  /** The broadcast or spill that the event advances, if any. */
  function Advanced(e: Event): Option<nat> {
    match e
    case CastEnter(b) => Some(b)
    case CastVisit(b, _) => Some(b)
    case CastLeave(b) => Some(b)
    case CastEnd(b) => Some(b)
    case SpillSend(t) => Some(t)
    case _ => None
  }

  function TaskAfter(st: State, e: Event, t: nat): Task
    requires Enabled(st, e) && st.HasTask(t)
  {
    var c := st.tasks[t];
    if Advanced(e) != Some(t) then c
    else
      match e
      case CastEnter(_) =>
        if c.groups[c.pos] in st.groups then c.(todo := Some(st.groups[c.groups[c.pos]])) else c.(pos := c.pos + 1)
      case CastVisit(b, id) =>
        var next := c.(todo := Some(c.todo.value - {id}));
        if Reaches(st, b, id) && st.channels[st.senders[id]].TrySend().Full?
        then next.(blocked := c.blocked + [Entry(st.senders[id], Copy(b, c.msg, c.groups, c.pos))]) else next
      case CastLeave(_) => c.(pos := c.pos + 1, todo := None)
      case CastEnd(_) => c.(blocked := [], done := true)
      case SpillSend(_) => Spill(c.entries[1..])
      case _ => c
  }

  function Spawned(st: State, e: Event): seq<Task>
    requires Enabled(st, e)
  {
    match e
    case Send(s, msg) => if st.channels[s].TrySend().Full? then [Spill([Entry(s, Item(msg, Direct))])] else []
    case CastStart(msg, list, exclude) => [Cast(msg, list, exclude, 0, None, [], false)]
    case CastEnd(b) => if st.tasks[b].blocked == [] then [] else [Spill(st.tasks[b].blocked)]
    case _ => []
  }

  /** Step, read task by task. */
  lemma StepTasks(st: State, e: Event)
    requires Enabled(st, e)
    ensures var next := Step(st, e).tasks;
      match Advanced(e)
      case Some(t) => st.HasTask(t) && next == st.tasks[t := TaskAfter(st, e, t)] + Spawned(st, e)
      case None => next == st.tasks + Spawned(st, e)
  {
  }

  const INIT := State([], map[], map[], {}, [])

  datatype Run = Run(states: seq<State>, events: seq<Event>) {
    predicate StepAt(k: nat) {
      k + 1 < |states| && k < |events| && Enabled(states[k], events[k]) && states[k + 1] == Step(states[k], events[k])
    }

    /** A run from the empty server. */
    ghost predicate Valid() {
      && |states| == |events| + 1
      && states[0] == INIT
      && forall k: nat :: k < |events| ==> StepAt(k)
    }

    function Last(): State
      requires states != []
    {
      states[|states| - 1]
    }

    function Then(e: Event): Run
      requires states != [] && Enabled(Last(), e)
    {
      Run(states + [Step(Last(), e)], events + [e])
    }
  }

  const START := Run([INIT], [])

  lemma ThenValid(run: Run, e: Event)
    requires run.Valid() && Enabled(run.Last(), e)
    ensures run.Then(e).Valid()
  {
    var longer := run.Then(e);
    forall k: nat | k < |longer.events| ensures longer.StepAt(k) {
      if k < |run.events| { assert run.StepAt(k); }
    }
  }
}
