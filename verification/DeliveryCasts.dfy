/**
 Broadcasts that visit one member at a time while everything else moves: nobody receives a copy
 meant for a group it never joined, nobody receives two copies for one position of the list, and
 whoever stays registered and in the group while the broadcast is at that position receives one.
 */
module DeliveryCasts {
  import opened Wrappers
  import opened Messages
  import opened Membership
  import opened Delivery
  import opened DeliveryLedger

  /** Fewer registrations than there are ids. */
  predicate Bounded(st: State) {
    |st.channels| <= TWO_TO_64
  }

  // ---- Members of a group asked to be in it ----

  predicate ClaimOk(st: State, g: Group, id: ConnId) {
    id in Members(st.groups, g) ==> (SerialOf(id), g) in st.joined
  }

  ghost predicate Claimed(st: State) {
    forall g, id :: ClaimOk(st, g, id)
  }

  lemma ClaimStep(st: State, e: Event, g: Group, id: ConnId)
    requires Enabled(st, e) && Bounded(st) && ClaimOk(st, g, id)
    ensures ClaimOk(Step(st, e), g, id)
  {
    if e.Join? { IdsNeverReused(e.s); }
  }

  // ---- Every group copy is accounted for by its broadcast ----

  /** Copy p of cast c to the connection with this id lies in the past of the traversal. */
  predicate Past(c: Task, p: nat, id: ConnId) {
    && c.Cast?
    && (p < c.pos || (p == c.pos && c.todo.Some? && id !in c.todo.value))
  }

  predicate OriginOk(st: State, s: nat, x: Item)
    requires st.Has(s)
  {
    Count(st.channels[s].accepted, x) > 0 && x.origin.ToGroup? ==>
      var b, p := x.origin.task, x.origin.pos;
      && st.HasTask(b) && Past(st.tasks[b], p, IdOf(s))
      && p < |st.tasks[b].groups|
      && x == Copy(b, st.tasks[b].msg, st.tasks[b].groups, p)
      && st.tasks[b].exclude != Some(IdOf(s))
      && (s, x.origin.group) in st.joined
      && Count(st.channels[s].accepted, x) == 1
  }

  ghost predicate Traced(st: State) {
    forall s: nat, x | st.Has(s) :: OriginOk(st, s, x)
  }

  /** Offers are the only steps that add to what a channel accepted. */
  lemma CountStep(st: State, e: Event, s: nat, x: Item)
    requires Enabled(st, e) && st.Has(s)
    ensures Step(st, e).Has(s)
    ensures Count(Step(st, e).channels[s].accepted, x)
         == Count(st.channels[s].accepted, x) + (if ChangeTo(st, e, s) == Offered(x) then 1 else 0)
  {
    hide Step;
    StepChannel(st, e, s);
    CountApply(st.channels[s], ChangeTo(st, e, s), x);
  }

  lemma CountApply(ch: Channel, c: Change, x: Item)
    requires CanApply(ch, c)
    ensures Count(Apply(ch, c).accepted, x) == Count(ch.accepted, x) + (if c == Offered(x) then 1 else 0)
  {
    if c.Offered? {
      CountConcat(ch.accepted, [c.item], x);
      CountOne(c.item, x);
    }
  }

  /** A cast keeps its message, list and exclusion, and its past only grows. */
  lemma CastStep(st: State, e: Event, b: nat)
    requires Enabled(st, e) && st.HasTask(b) && st.tasks[b].Cast?
    ensures Step(st, e).HasTask(b)
    ensures var c, d := st.tasks[b], Step(st, e).tasks[b];
      && d == TaskAfter(st, e, b)
      && d.Cast? && d.msg == c.msg && d.groups == c.groups && d.exclude == c.exclude
      && (forall p: nat, id :: Past(c, p, id) ==> Past(d, p, id))
  {
    hide Step;
    StepTasks(st, e);
  }

  lemma JoinedGrows(st: State, e: Event)
    requires Enabled(st, e)
    ensures st.joined <= Step(st, e).joined
  {
    hide Step;
    JoinedStep(st, e);
  }

  lemma OriginStep(st: State, e: Event, s: nat, x: Item)
    requires Enabled(st, e) && Sound(st) && Claimed(st) && Traced(st) && Bounded(st) && st.Has(s)
    ensures Step(st, e).Has(s) && OriginOk(Step(st, e), s, x)
  {
    hide Step;
    CountStep(st, e, s, x);
    JoinedGrows(st, e);
    assert OriginOk(st, s, x);
    if x.origin.ToGroup? {
      var b := x.origin.task;
      if ChangeTo(st, e, s) == Offered(x) {
        VisitIsFresh(st, e.b, e.id, s);
      }
      if st.HasTask(b) && st.tasks[b].Cast? {
        CastStep(st, e, b);
      }
    }
  }

  /** The copy a visit hands over is new to the channel and addressed to a group its connection joined. */
  lemma VisitIsFresh(st: State, b: nat, id: ConnId, s: nat)
    requires Sound(st) && Claimed(st) && Traced(st) && Bounded(st) && st.Has(s)
    requires Enabled(st, CastVisit(b, id)) && Reaches(st, b, id) && st.senders[id] == s
    ensures var c := st.tasks[b];
      && IdOf(s) == id
      && (s, c.groups[c.pos]) in st.joined
      && Count(st.channels[s].accepted, Copy(b, c.msg, c.groups, c.pos)) == 0
  {
    var c := st.tasks[b];
    assert SenderOk(st, id);
    IdsNeverReused(s);
    assert ClaimOk(st, c.groups[c.pos], id);
    assert OriginOk(st, s, Copy(b, c.msg, c.groups, c.pos));
  }

  lemma TracedStep(st: State, e: Event)
    requires Enabled(st, e) && Sound(st) && Claimed(st) && Traced(st) && Bounded(st)
    ensures Traced(Step(st, e))
  {
    hide Step, Sound, OriginOk, Enabled, Bounded, Claimed;
    var next := Step(st, e);
    StepCount(st, e);
    forall s: nat, x | next.Has(s) ensures OriginOk(next, s, x) {
      if st.Has(s) { OriginStep(st, e, s, x); } else { FreshOrigin(next, s, x); }
    }
  }

  lemma FreshOrigin(st: State, s: nat, x: Item)
    requires st.Has(s) && st.channels[s] == FRESH
    ensures OriginOk(st, s, x)
  {
  }

  ghost predicate Attributed(st: State) {
    Sound(st) && Claimed(st) && Traced(st)
  }

  lemma {:induction false} RunAttributed(run: Run, k: nat)
    requires run.Valid() && k < |run.states| && Bounded(run.states[k])
    ensures Attributed(run.states[k])
  {
    RunSound(run, k);
    if k > 0 {
      hide Step, Sound, Traced, Enabled;
      var st, e := run.states[k - 1], run.events[k - 1];
      assert run.StepAt(k - 1);
      StepCount(st, e);
      RunAttributed(run, k - 1);
      forall g, id ensures ClaimOk(Step(st, e), g, id) { ClaimStep(st, e, g, id); }
      TracedStep(st, e);
    } else {
      assert Claimed(INIT);
    }
  }

  // ---- Every broadcast is one that was asked for ----

  /** Event i asks for broadcast b. */
  predicate Starts(run: Run, i: nat, b: nat, msg: Message, list: seq<Group>, exclude: Option<ConnId>) {
    && i < |run.states| && i < |run.events|
    && run.events[i] == CastStart(msg, list, exclude) && b == |run.states[i].tasks|
  }

  predicate IsCast(st: State, b: nat) {
    st.HasTask(b) && st.tasks[b].Cast?
  }

  predicate AsAsked(st: State, b: nat, msg: Message, list: seq<Group>, exclude: Option<ConnId>) {
    IsCast(st, b) && st.tasks[b].msg == msg && st.tasks[b].groups == list && st.tasks[b].exclude == exclude
  }

  lemma CastBegins(st: State, msg: Message, list: seq<Group>, exclude: Option<ConnId>)
    requires Enabled(st, CastStart(msg, list, exclude))
    ensures Step(st, CastStart(msg, list, exclude)).tasks == st.tasks + [Cast(msg, list, exclude, 0, None, [], false)]
  {
  }

  /** From its start on, a broadcast carries the message, the list and the exclusion it was asked for with. */
  lemma {:induction false} CastRequested(
    run: Run, i: nat, k: nat, b: nat, msg: Message, list: seq<Group>, exclude: Option<ConnId>)
    requires run.Valid() && i < k < |run.states| && Starts(run, i, b, msg, list, exclude)
    ensures AsAsked(run.states[k], b, msg, list, exclude)
    decreases k
  {
    assert run.StepAt(k - 1);
    if i == k - 1 {
      CastBegins(run.states[i], msg, list, exclude);
    } else {
      CastRequested(run, i, k - 1, b, msg, list, exclude);
      hide Step, Enabled;
      CastStep(run.states[k - 1], run.events[k - 1], b);
    }
  }

  lemma CastOrigin(st: State, e: Event, b: nat)
    requires Enabled(st, e) && IsCast(Step(st, e), b)
    ensures if IsCast(st, b) then AsAsked(Step(st, e), b, st.tasks[b].msg, st.tasks[b].groups, st.tasks[b].exclude)
            else e == CastStart(Step(st, e).tasks[b].msg, Step(st, e).tasks[b].groups, Step(st, e).tasks[b].exclude)
                 && b == |st.tasks|
  {
    hide Step;
    StepTasks(st, e);
  }

  /** And there is no broadcast that was not asked for. */
  lemma {:induction false} CastHasRequest(run: Run, k: nat, b: nat) returns (i: nat)
    requires run.Valid() && k < |run.states| && IsCast(run.states[k], b)
    ensures i < k
    ensures var c := run.states[k].tasks[b]; Starts(run, i, b, c.msg, c.groups, c.exclude)
  {
    assert k > 0;
    assert run.StepAt(k - 1);
    hide Step, Enabled;
    CastOrigin(run.states[k - 1], run.events[k - 1], b);
    if IsCast(run.states[k - 1], b) {
      i := CastHasRequest(run, k - 1, b);
    } else {
      i := k - 1;
    }
  }

  lemma JoinedStep(st: State, e: Event)
    requires Enabled(st, e)
    ensures Step(st, e).joined == st.joined + (if e.Join? then {(e.s, e.g)} else {})
  {
    hide Channel.Offer, Channel.Deliver, Channel.Stop, Channel.Wrote;
  }

  /** The history of joins is what it claims to be. */
  lemma {:induction false} JoinHappened(run: Run, k: nat, s: nat, g: Group) returns (n: nat)
    requires run.Valid() && k < |run.states| && (s, g) in run.states[k].joined
    ensures n < k && run.events[n] == Join(s, g)
  {
    assert k > 0;
    assert run.StepAt(k - 1);
    hide Step, Enabled;
    JoinedStep(run.states[k - 1], run.events[k - 1]);
    if (s, g) in run.states[k - 1].joined {
      n := JoinHappened(run, k - 1, s, g);
    } else {
      n := k - 1;
    }
  }

  // ---- Main results ----

  /**
   No cross-delivery and no duplicates, in any interleaving: a group copy that a connection holds,
   has written or has ever been offered carries the message of a broadcast that was asked for (event i)
   with this group at this position and without excluding the connection, names a group the connection
   itself joined before (event n), and was offered once for that position.
   */
  lemma GroupCopies(run: Run, k: nat, s: nat, x: Item) returns (i: nat, n: nat)
    requires run.Valid() && k < |run.states| && Bounded(run.states[k]) && run.states[k].Has(s)
    requires x.origin.ToGroup?
    requires var ch := run.states[k].channels[s];
      x in ch.accepted || x in ch.written || x in ch.queue || x in ch.Hand()
    ensures i < k && run.events[i].CastStart? && x.origin.task == |run.states[i].tasks|
    ensures x.msg == run.events[i].msg && run.events[i].exclude != Some(IdOf(s))
    ensures x.origin.pos < |run.events[i].list| && x.origin.group == run.events[i].list[x.origin.pos]
    ensures n < k && run.events[n] == Join(s, x.origin.group)
    ensures Count(run.states[k].channels[s].accepted, x) == 1
  {
    hide Step, Enabled;
    CopyIsTraced(run, k, s, x);
    i := CastHasRequest(run, k, x.origin.task);
    n := JoinHappened(run, k, s, x.origin.group);
  }

  lemma CopyIsTraced(run: Run, k: nat, s: nat, x: Item)
    requires run.Valid() && k < |run.states| && Bounded(run.states[k]) && run.states[k].Has(s)
    requires x.origin.ToGroup?
    requires var ch := run.states[k].channels[s];
      x in ch.accepted || x in ch.written || x in ch.queue || x in ch.Hand()
    ensures var st, b, p := run.states[k], x.origin.task, x.origin.pos;
      && (s, x.origin.group) in st.joined
      && IsCast(st, b) && p < |st.tasks[b].groups|
      && x == Copy(b, st.tasks[b].msg, st.tasks[b].groups, p)
      && st.tasks[b].exclude != Some(IdOf(s))
      && Count(st.channels[s].accepted, x) == 1
  {
    RunAttributed(run, k);
    RunBalanced(run, k);
    var ch := run.states[k].channels[s];
    assert Conserved(ch, Held(run.states[k].tasks, s, x), x);
    assert x in multiset(ch.accepted) || x in multiset(ch.written) || x in multiset(ch.queue) || x in multiset(ch.Hand());
    assert OriginOk(run.states[k], s, x);
  }

  predicate Member(st: State, s: nat, g: Group) {
    IdOf(s) in Members(st.groups, g)
  }

  predicate Registered(st: State, s: nat) {
    IdOf(s) in st.senders && st.senders[IdOf(s)] == s
  }

  /** While the cast is at position p: the connection is a registered, included member of that group. */
  predicate Wanted(st: State, b: nat, p: nat, s: nat)
    requires IsCast(st, b)
  {
    var c := st.tasks[b];
    c.pos == p < |c.groups| ==> Member(st, s, c.groups[p]) && Registered(st, s) && c.exclude != Some(IdOf(s))
  }

  predicate Unwanted(st: State, b: nat, p: nat, s: nat)
    requires IsCast(st, b)
  {
    var c := st.tasks[b];
    c.pos == p < |c.groups| ==> !Member(st, s, c.groups[p]) || !Registered(st, s) || c.exclude == Some(IdOf(s))
  }

  function CopiesAt(st: State, b: nat, p: nat, s: nat): nat
    requires IsCast(st, b) && st.Has(s) && p < |st.tasks[b].groups|
  {
    Count(st.channels[s].accepted, Copy(b, st.tasks[b].msg, st.tasks[b].groups, p))
  }

  /** What a steady member has received for position p, as the traversal goes. */
  predicate OnSchedule(st: State, b: nat, p: nat, s: nat)
    requires IsCast(st, b) && st.Has(s) && p < |st.tasks[b].groups|
  {
    CopiesAt(st, b, p, s) == if Past(st.tasks[b], p, IdOf(s)) then 1 else 0
  }

  lemma ScheduleStep(st: State, e: Event, b: nat, p: nat, s: nat)
    requires Enabled(st, e) && Attributed(st) && Bounded(st)
    requires IsCast(st, b) && st.Has(s) && p < |st.tasks[b].groups|
    requires OnSchedule(st, b, p, s) && Wanted(st, b, p, s)
    ensures IsCast(Step(st, e), b) && Step(st, e).Has(s) && Step(st, e).tasks[b].groups == st.tasks[b].groups
    ensures Step(st, e).tasks[b].exclude == st.tasks[b].exclude
    ensures OnSchedule(Step(st, e), b, p, s)
  {
    hide Step, Traced, Claimed, Attributed;
    var c := st.tasks[b];
    CastStep(st, e, b);
    CountStep(st, e, s, Copy(b, c.msg, c.groups, p));
    if e.CastVisit? && Reaches(st, e.b, e.id) && st.senders[e.id] == s {
      assert SenderOk(st, e.id) by { assert Sound(st) by { AttributedSound(st); } }
    }
  }

  lemma AttributedSound(st: State)
    requires Attributed(st)
    ensures Sound(st)
  {
  }

  lemma UnwantedStep(st: State, e: Event, b: nat, p: nat, s: nat)
    requires Enabled(st, e) && Attributed(st) && Bounded(st)
    requires IsCast(st, b) && st.Has(s) && p < |st.tasks[b].groups|
    requires CopiesAt(st, b, p, s) == 0 && Unwanted(st, b, p, s)
    ensures IsCast(Step(st, e), b) && Step(st, e).Has(s) && Step(st, e).tasks[b].groups == st.tasks[b].groups
    ensures CopiesAt(Step(st, e), b, p, s) == 0
  {
    hide Step, Traced, Claimed, Attributed;
    var c := st.tasks[b];
    CastStep(st, e, b);
    CountStep(st, e, s, Copy(b, c.msg, c.groups, p));
    if e.CastVisit? && Reaches(st, e.b, e.id) && st.senders[e.id] == s {
      assert SenderOk(st, e.id) by { assert Sound(st) by { AttributedSound(st); } }
    }
  }

  /** The broadcast has not come to position p yet. */
  predicate Before(c: Task, p: nat) {
    c.Cast? && p < |c.groups| && c.pos <= p && (c.pos == p ==> c.todo.None?)
  }

  ghost predicate WantedDuring(run: Run, i: nat, j: nat, b: nat, p: nat, s: nat) {
    forall k | i <= k <= j && k < |run.states| :: IsCast(run.states[k], b) && Wanted(run.states[k], b, p, s)
  }

  ghost predicate UnwantedDuring(run: Run, i: nat, j: nat, b: nat, p: nat, s: nat) {
    forall k | i <= k <= j && k < |run.states| :: IsCast(run.states[k], b) && Unwanted(run.states[k], b, p, s)
  }

  lemma BoundedBefore(run: Run, i: nat, j: nat)
    requires run.Valid() && i <= j < |run.states| && Bounded(run.states[j])
    ensures Bounded(run.states[i])
    decreases j - i
  {
    if i < j {
      hide Step, Enabled;
      BoundedBefore(run, i + 1, j);
      assert run.StepAt(i);
      StepCount(run.states[i], run.events[i]);
    }
  }

  lemma NothingYet(run: Run, i: nat, b: nat, p: nat, s: nat)
    requires run.Valid() && i < |run.states| && Bounded(run.states[i]) && run.states[i].Has(s)
    requires run.states[i].HasTask(b) && Before(run.states[i].tasks[b], p)
    ensures CopiesAt(run.states[i], b, p, s) == 0
  {
    hide Step;
    RunAttributed(run, i);
    var c := run.states[i].tasks[b];
    assert OriginOk(run.states[i], s, Copy(b, c.msg, c.groups, p));
  }

  lemma {:induction false} ScheduleRun(run: Run, i: nat, j: nat, b: nat, p: nat, s: nat)
    requires run.Valid() && i <= j < |run.states| && Bounded(run.states[j]) && run.states[i].Has(s)
    requires run.states[i].HasTask(b) && Before(run.states[i].tasks[b], p)
    requires WantedDuring(run, i, j, b, p, s)
    ensures IsCast(run.states[j], b) && run.states[j].Has(s)
    ensures run.states[j].tasks[b].groups == run.states[i].tasks[b].groups
    ensures OnSchedule(run.states[j], b, p, s)
    decreases j
  {
    hide Step, Traced, Enabled, Attributed;
    if i == j {
      NothingYet(run, i, b, p, s);
    } else {
      var st, e := run.states[j - 1], run.events[j - 1];
      assert run.StepAt(j - 1);
      BoundedBefore(run, j - 1, j);
      ScheduleRun(run, i, j - 1, b, p, s);
      RunAttributed(run, j - 1);
      ScheduleStep(st, e, b, p, s);
    }
  }

  lemma {:induction false} UnwantedRun(run: Run, i: nat, j: nat, b: nat, p: nat, s: nat)
    requires run.Valid() && i <= j < |run.states| && Bounded(run.states[j]) && run.states[i].Has(s)
    requires run.states[i].HasTask(b) && Before(run.states[i].tasks[b], p)
    requires UnwantedDuring(run, i, j, b, p, s)
    ensures IsCast(run.states[j], b) && run.states[j].Has(s)
    ensures run.states[j].tasks[b].groups == run.states[i].tasks[b].groups
    ensures CopiesAt(run.states[j], b, p, s) == 0
    decreases j
  {
    hide Step, Traced, Enabled, Attributed;
    if i == j {
      NothingYet(run, i, b, p, s);
    } else {
      var st, e := run.states[j - 1], run.events[j - 1];
      assert run.StepAt(j - 1);
      BoundedBefore(run, j - 1, j);
      UnwantedRun(run, i, j - 1, b, p, s);
      RunAttributed(run, j - 1);
      UnwantedStep(st, e, b, p, s);
    }
  }

  lemma PositionRun(run: Run, i: nat, j: nat, b: nat, p: nat, s: nat)
    requires run.Valid() && i <= j < |run.states| && Bounded(run.states[j]) && run.states[i].Has(s)
    requires run.states[i].HasTask(b) && Before(run.states[i].tasks[b], p)
    requires run.states[j].HasTask(b) && run.states[j].tasks[b].Cast? && run.states[j].tasks[b].pos > p
    ensures WantedDuring(run, i, j, b, p, s) ==>
      run.states[j].Has(s) && p < |run.states[j].tasks[b].groups| && CopiesAt(run.states[j], b, p, s) == 1
    ensures UnwantedDuring(run, i, j, b, p, s) ==>
      run.states[j].Has(s) && p < |run.states[j].tasks[b].groups| && CopiesAt(run.states[j], b, p, s) == 0
  {
    hide Step, Enabled;
    if WantedDuring(run, i, j, b, p, s) { ScheduleRun(run, i, j, b, p, s); }
    if UnwantedDuring(run, i, j, b, p, s) { UnwantedRun(run, i, j, b, p, s); }
  }

  /** The connection is a registered member of the group that the request does not exclude. */
  predicate Entitled(st: State, s: nat, g: Group, exclude: Option<ConnId>) {
    Member(st, s, g) && Registered(st, s) && exclude != Some(IdOf(s))
  }

  /** Broadcast b is at position p of its list in this state. */
  predicate IsAt(st: State, b: nat, p: nat) {
    IsCast(st, b) && st.tasks[b].pos == p
  }

  ghost predicate EntitledDuring(
    run: Run, m: nat, j: nat, b: nat, p: nat, s: nat, g: Group, exclude: Option<ConnId>, answer: bool)
  {
    forall k | m <= k <= j && k < |run.states| && IsAt(run.states[k], b, p) ::
      Entitled(run.states[k], s, g, exclude) == answer
  }

  /**
   One position of the list of a broadcast asked for at event i, in any interleaving. Between a state
   before the broadcast reaches the position and one after it has left it: a connection that is
   registered, in the group and not excluded whenever the broadcast is at the position is offered the
   requested message exactly once for it, and one that never is gets nothing.
   */
  lemma PositionExact(run: Run, i: nat, m: nat, j: nat, b: nat, p: nat, s: nat,
                      msg: Message, list: seq<Group>, exclude: Option<ConnId>)
    requires run.Valid() && i < m <= j < |run.states| && Bounded(run.states[j]) && run.states[m].Has(s)
    requires Starts(run, i, b, msg, list, exclude)
    requires run.states[m].HasTask(b) && Before(run.states[m].tasks[b], p)
    requires IsCast(run.states[j], b) && run.states[j].tasks[b].pos > p
    ensures run.states[j].Has(s) && p < |list|
    ensures EntitledDuring(run, m, j, b, p, s, list[p], exclude, true) ==>
      Count(run.states[j].channels[s].accepted, Item(msg, ToGroup(b, p, list[p]))) == 1
    ensures EntitledDuring(run, m, j, b, p, s, list[p], exclude, false) ==>
      Count(run.states[j].channels[s].accepted, Item(msg, ToGroup(b, p, list[p]))) == 0
  {
    hide Step, Enabled, Starts;
    HasGrows(run, m, j, s);
    forall k | i < k < |run.states| ensures AsAsked(run.states[k], b, msg, list, exclude) {
      CastRequested(run, i, k, b, msg, list, exclude);
    }
    PositionRun(run, m, j, b, p, s);
    hide Run.Valid, Member, Registered;
    if EntitledDuring(run, m, j, b, p, s, list[p], exclude, true) {
      forall k | m <= k <= j ensures IsCast(run.states[k], b) && Wanted(run.states[k], b, p, s) {
        assert IsAt(run.states[k], b, p) ==> Entitled(run.states[k], s, list[p], exclude);
      }
    }
    if EntitledDuring(run, m, j, b, p, s, list[p], exclude, false) {
      forall k | m <= k <= j ensures IsCast(run.states[k], b) && Unwanted(run.states[k], b, p, s) {
        assert IsAt(run.states[k], b, p) ==> !Entitled(run.states[k], s, list[p], exclude);
      }
    }
  }

  function TotalCopies(st: State, b: nat, s: nat, n: nat): nat
    requires IsCast(st, b) && st.Has(s) && n <= |st.tasks[b].groups|
  {
    if n == 0 then 0 else TotalCopies(st, b, s, n - 1) + CopiesAt(st, b, n - 1, s)
  }

  /** The connection keeps its registration, and its membership of the listed groups does not change. */
  ghost predicate Settled(run: Run, i: nat, j: nat, b: nat, s: nat, list: seq<Group>, exclude: Option<ConnId>) {
    forall k | i <= k <= j && k < |run.states| ::
      && IsCast(run.states[k], b)
      && run.states[k].tasks[b].groups == list && run.states[k].tasks[b].exclude == exclude
      && Registered(run.states[k], s)
      && (forall g | g in list :: Member(run.states[k], s, g) == Member(run.states[i], s, g))
  }

  lemma {:induction false} TotalIsQuota(run: Run, i: nat, j: nat, b: nat, s: nat, n: nat)
    requires run.Valid() && i <= j < |run.states| && Bounded(run.states[j]) && run.states[i].Has(s)
    requires run.states[i].HasTask(b) && run.states[j].HasTask(b)
    requires var c := run.states[i].tasks[b];
      && c.Cast? && c.pos == 0 && c.todo.None? && n <= |c.groups|
      && Settled(run, i, j, b, s, c.groups, c.exclude)
      && run.states[j].tasks[b].pos >= |c.groups|
    ensures run.states[j].Has(s) && IsCast(run.states[j], b) && n <= |run.states[j].tasks[b].groups|
    ensures var c := run.states[i].tasks[b];
      TotalCopies(run.states[j], b, s, n) == Quota(run.states[i].groups, c.groups[..n], c.exclude, IdOf(s))
  {
    hide Step, Enabled;
    HasGrows(run, i, j, s);
    if n > 0 {
      var c := run.states[i].tasks[b];
      var p := n - 1;
      TotalIsQuota(run, i, j, b, s, p);
      PositionRun(run, i, j, b, p, s);
      assert c.groups[p] in c.groups;
      assert c.groups[..n][..p] == c.groups[..p];
      if Member(run.states[i], s, c.groups[p]) && c.exclude != Some(IdOf(s)) {
        assert WantedDuring(run, i, j, b, p, s);
      } else {
        assert UnwantedDuring(run, i, j, b, p, s);
      }
    }
  }

  lemma {:induction false} HasGrows(run: Run, i: nat, j: nat, s: nat)
    requires run.Valid() && i <= j < |run.states| && run.states[i].Has(s)
    ensures run.states[j].Has(s)
    decreases j
  {
    if i < j {
      hide Step, Enabled;
      HasGrows(run, i, j - 1, s);
      assert run.StepAt(j - 1);
      StepCount(run.states[j - 1], run.events[j - 1]);
    }
  }

  /** How many of the items are the message for the first n positions of the list of broadcast b. */
  function CopiesOfAll(items: seq<Item>, b: nat, msg: Message, list: seq<Group>, n: nat): nat
    requires n <= |list|
  {
    if n == 0 then 0
    else CopiesOfAll(items, b, msg, list, n - 1) + Count(items, Item(msg, ToGroup(b, n - 1, list[n - 1])))
  }

  lemma {:induction false} SameTotal(st: State, b: nat, s: nat, n: nat)
    requires IsCast(st, b) && st.Has(s) && n <= |st.tasks[b].groups|
    ensures TotalCopies(st, b, s, n) == CopiesOfAll(st.channels[s].accepted, b, st.tasks[b].msg, st.tasks[b].groups, n)
  {
    if n > 0 { SameTotal(st, b, s, n - 1); }
  }

  /** From its start to its end the connection stays registered, and in the listed groups it was in. */
  ghost predicate Steady(run: Run, i: nat, j: nat, s: nat, list: seq<Group>) {
    forall k | i <= k <= j && k < |run.states| ::
      Registered(run.states[k], s) && forall g | g in list :: Member(run.states[k], s, g) == Member(run.states[i], s, g)
  }

  /**
   A whole broadcast from the request (event i) to its end (event j), in any interleaving that leaves
   the connection registered and its membership of the listed groups alone: it is offered the requested
   message as often as the list has positions naming a group it is in, and never if the request excludes it.
   */
  lemma BroadcastExact(run: Run, i: nat, j: nat, b: nat, s: nat, msg: Message, list: seq<Group>, exclude: Option<ConnId>)
    requires run.Valid() && i < j < |run.events| && Bounded(run.states[j]) && run.states[i].Has(s)
    requires Starts(run, i, b, msg, list, exclude) && run.events[j] == CastEnd(b)
    requires Steady(run, i, j, s, list)
    ensures run.states[j].Has(s)
    ensures CopiesOfAll(run.states[j].channels[s].accepted, b, msg, list, |list|)
         == Quota(run.states[i].groups, list, exclude, IdOf(s))
  {
    assert run.StepAt(i) && run.StepAt(j);
    CastBegins(run.states[i], msg, list, exclude);
    CastStartKeeps(run.states[i], msg, list, exclude);
    assert run.states[j].tasks[b].pos >= |run.states[j].tasks[b].groups|;
    hide Step, Enabled;
    forall k | i < k < |run.states| ensures AsAsked(run.states[k], b, msg, list, exclude) {
      CastRequested(run, i, k, b, msg, list, exclude);
    }
    assert Settled(run, i + 1, j, b, s, list, exclude);
    TotalIsQuota(run, i + 1, j, b, s, |list|);
    SameTotal(run.states[j], b, s, |list|);
    assert list[..|list|] == list;
  }

  lemma CastStartKeeps(st: State, msg: Message, list: seq<Group>, exclude: Option<ConnId>)
    requires Enabled(st, CastStart(msg, list, exclude))
    ensures var next := Step(st, CastStart(msg, list, exclude)); next.groups == st.groups && next.channels == st.channels
  {
  }
}
