/**
 The two chat examples as room protocols: handlers that ask for their groups, then leave, join or broadcast.
 Handlers of different connections, and removals, interleave between these operations.
 */
module Rooms {
  import opened Wrappers
  import opened Messages
  import opened Membership

  /** Where the handler that runs for a connection is; the handlers of one connection run one at a time. */
  datatype Handler =
    | Idle
    | Joining(room: Group)
    | Picking
    | Leaving(room: Group)
    | Sweeping(room: Group, rest: set<Group>)
    | Telling(names: seq<Group>)

  datatype State = State(groups: GroupMap, handlers: map<ConnId, Handler>) {
    function HandlerOf(c: ConnId): Handler {
      if c in handlers then handlers[c] else Idle
    }

    function Rooms(c: ConnId): set<Group> {
      GroupsOf(groups, c)
    }

    function At(c: ConnId, h: Handler): State {
      this.(handlers := handlers[c := h])
    }

    function In(c: ConnId, room: Group): State {
      this.(groups := groups[room := Members(groups, room) + {c}])
    }

    function Out(c: ConnId, room: Group): State {
      if room in groups then this.(groups := groups[room := groups[room] - {c}]) else this
    }
  }

  datatype Event =
    | ChatJoin(c: ConnId, room: Group)    // join: conn.groups() is asked, and is empty or not
    | ChatLeave(c: ConnId)                // leave: conn.groups() is asked, and is empty or not
    | Pick(c: ConnId, room: Group)        // leave asks again, and room is the first of the answer
    | PickFails(c: ConnId)                // leave asks again, and a removal has emptied the answer
    | DjangoJoin(c: ConnId, room: Group)  // handle_join: conn.groups() is the list to leave
    | LeaveOne(c: ConnId, room: Group)    // one conn.leave of handle_join
    | DjangoLeave(c: ConnId, room: Group) // handle_leave: conn.groups() is asked once, and room is its first entry
    | Finish(c: ConnId)                   // the join or leave that ends the handler
    | Ask(c: ConnId, names: seq<Group>)   // message: conn.groups() is the list to broadcast to
    | Tell(c: ConnId)                     // the broadcast of a message, which changes no membership
    | Removed(c: ConnId, room: Group)     // handle_client's removal reaches the room

  /** What conn.groups() may answer: the groups of the connection, each once, in any order. */
  ghost predicate Lists(names: seq<Group>, rooms: set<Group>) {
    Distinct(names) && forall g :: g in names <==> g in rooms
  }

  ghost predicate Enabled(st: State, e: Event) {
    match e
    case ChatJoin(c, _) => st.HandlerOf(c).Idle?
    case ChatLeave(c) => st.HandlerOf(c).Idle?
    case Pick(c, room) => st.HandlerOf(c).Picking? && room in st.Rooms(c)
    case PickFails(c) => st.HandlerOf(c).Picking? && st.Rooms(c) == {}
    case DjangoJoin(c, _) => st.HandlerOf(c).Idle?
    case LeaveOne(c, room) => st.HandlerOf(c).Sweeping? && room in st.HandlerOf(c).rest
    case DjangoLeave(c, room) => st.HandlerOf(c).Idle? && (st.Rooms(c) == {} || room in st.Rooms(c))
    case Ask(c, names) => st.HandlerOf(c).Idle? && Lists(names, st.Rooms(c))
    case Tell(c) => st.HandlerOf(c).Telling?
    case Finish(c) =>
      var h := st.HandlerOf(c);
      h.Joining? || h.Leaving? || (h.Sweeping? && h.rest == {})
    case Removed(_, _) => true
  }

  ghost function Step(st: State, e: Event): State
    requires Enabled(st, e)
  {
    match e
    case ChatJoin(c, room) => if st.Rooms(c) == {} then st.At(c, Joining(room)) else st
    case ChatLeave(c) => if st.Rooms(c) == {} then st else st.At(c, Picking)
    case Pick(c, room) => st.At(c, Leaving(room))
    case PickFails(c) => st.At(c, Idle)
    case DjangoJoin(c, room) => st.At(c, Sweeping(room, st.Rooms(c)))
    case LeaveOne(c, room) =>
      st.Out(c, room).At(c, Sweeping(st.HandlerOf(c).room, st.HandlerOf(c).rest - {room}))
    case DjangoLeave(c, room) => if st.Rooms(c) == {} then st else st.At(c, Leaving(room))
    case Ask(c, names) => st.At(c, Telling(names))
    case Tell(c) => st.At(c, Idle)
    case Finish(c) =>
      var h := st.HandlerOf(c);
      (if h.Leaving? then st.Out(c, h.room) else st.In(c, h.room)).At(c, Idle)
    case Removed(c, room) => st.Out(c, room)
  }

  const INIT := State(map[], map[])

  ghost predicate IsRun(states: seq<State>, events: seq<Event>) {
    && |states| == |events| + 1
    && states[0] == INIT
    && forall k: nat :: k < |events| ==> StepAt(states, events, k)
  }

  ghost predicate StepAt(states: seq<State>, events: seq<Event>, k: nat) {
    k + 1 < |states| && k < |events| && Enabled(states[k], events[k]) && states[k + 1] == Step(states[k], events[k])
  }

  ghost predicate AtMostOne(rooms: set<Group>) {
    forall g, h | g in rooms && h in rooms :: g == h
  }

  ghost predicate RoomOk(st: State, c: ConnId) {
    && AtMostOne(st.Rooms(c))
    && (st.HandlerOf(c).Joining? ==> st.Rooms(c) == {})
    && (st.HandlerOf(c).Sweeping? ==> st.Rooms(c) <= st.HandlerOf(c).rest)
    && (st.HandlerOf(c).Telling? ==> |st.HandlerOf(c).names| <= 1)
  }

  lemma RoomsIn(st: State, c: ConnId, room: Group, d: ConnId)
    ensures st.In(c, room).Rooms(d) == st.Rooms(d) + (if c == d then {room} else {})
  {
  }

  lemma RoomsOut(st: State, c: ConnId, room: Group, d: ConnId)
    ensures st.Out(c, room).Rooms(d) == st.Rooms(d) - (if c == d then {room} else {})
  {
  }

  lemma RoomStep(st: State, e: Event, d: ConnId)
    requires Enabled(st, e) && RoomOk(st, d)
    ensures RoomOk(Step(st, e), d)
  {
    match e
    case LeaveOne(c, room) => RoomsOut(st, c, room, d);
    case Removed(c, room) => RoomsOut(st, c, room, d);
    case Finish(c) =>
      RoomsOut(st, c, st.HandlerOf(c).room, d);
      RoomsIn(st, c, st.HandlerOf(c).room, d);
    case Ask(c, names) => if c == d { AtMostOneListed(names, st.Rooms(c)); }
    case _ =>
  }

  /** In every run of both protocols every connection is in at most one room, at every moment. */
  lemma {:induction false} OneRoom(states: seq<State>, events: seq<Event>, k: nat, c: ConnId)
    requires IsRun(states, events) && k < |states|
    ensures RoomOk(states[k], c)
  {
    if k > 0 {
      OneRoom(states, events, k - 1, c);
      assert StepAt(states, events, k - 1);
      RoomStep(states[k - 1], events[k - 1], c);
    }
  }

  /** The event is the beginning of a handler of c. */
  predicate Begins(e: Event, c: ConnId) {
    (e.ChatJoin? || e.ChatLeave? || e.DjangoJoin? || e.DjangoLeave? || e.Ask?) && e.c == c
  }

  ghost predicate NoneBegins(events: seq<Event>, i: nat, k: nat, c: ConnId) {
    forall n | i < n < k && n < |events| :: !Begins(events[n], c)
  }

  predicate IsJoining(h: Handler, room: Group) {
    (h.Joining? || h.Sweeping?) && h.room == room
  }

  /** A joining handler was asked to join just this room, and nothing was asked of its connection since. */
  lemma {:induction false} JoinAsked(states: seq<State>, events: seq<Event>, k: nat, c: ConnId, room: Group) returns (i: nat)
    requires IsRun(states, events) && k < |states| && IsJoining(states[k].HandlerOf(c), room)
    ensures i < k && (events[i] == ChatJoin(c, room) || events[i] == DjangoJoin(c, room))
    ensures NoneBegins(events, i, k, c)
  {
    assert k > 0;
    assert StepAt(states, events, k - 1);
    if IsJoining(states[k - 1].HandlerOf(c), room) {
      i := JoinAsked(states, events, k - 1, c, room);
    } else {
      i := k - 1;
    }
  }

  lemma {:induction false} LeaveAsked(states: seq<State>, events: seq<Event>, k: nat, c: ConnId) returns (i: nat)
    requires IsRun(states, events) && k < |states|
    requires states[k].HandlerOf(c).Picking? || states[k].HandlerOf(c).Leaving?
    ensures i < k && (events[i] == ChatLeave(c) || (events[i].DjangoLeave? && events[i].c == c))
    ensures NoneBegins(events, i, k, c)
  {
    assert k > 0;
    assert StepAt(states, events, k - 1);
    if states[k - 1].HandlerOf(c).Picking? || states[k - 1].HandlerOf(c).Leaving? {
      i := LeaveAsked(states, events, k - 1, c);
    } else {
      i := k - 1;
    }
  }

  /**
   When the join of a protocol is done the connection is in one room only, the one it was asked to join
   by the last request made of it.
   */
  lemma JoinedRoom(states: seq<State>, events: seq<Event>, k: nat, c: ConnId) returns (i: nat, room: Group)
    requires IsRun(states, events) && k < |events| && events[k] == Finish(c) && !states[k].HandlerOf(c).Leaving?
    ensures i < k && (events[i] == ChatJoin(c, room) || events[i] == DjangoJoin(c, room))
    ensures NoneBegins(events, i, k, c) && k + 1 < |states| && states[k + 1].Rooms(c) == {room}
  {
    assert StepAt(states, events, k);
    room := states[k].HandlerOf(c).room;
    OneRoom(states, events, k, c);
    RoomsIn(states[k], c, room, c);
    i := JoinAsked(states, events, k, c, room);
  }

  /** When the leave of a protocol is done the connection is in no room, as the last request made of it asked. */
  lemma LeftRoom(states: seq<State>, events: seq<Event>, k: nat, c: ConnId) returns (i: nat)
    requires IsRun(states, events) && k < |events| && events[k] == Finish(c) && states[k].HandlerOf(c).Leaving?
    ensures i < k && (events[i] == ChatLeave(c) || (events[i].DjangoLeave? && events[i].c == c))
    ensures NoneBegins(events, i, k, c) && k + 1 < |states| && states[k + 1].Rooms(c) == {}
  {
    assert StepAt(states, events, k);
    LeavingIsMine(states, events, k, c);
    OneRoom(states, events, k, c);
    RoomsOut(states[k], c, states[k].HandlerOf(c).room, c);
    i := LeaveAsked(states, events, k, c);
  }

  /** The room a handler is about to leave is the only one its connection can be in. */
  lemma {:induction false} LeavingIsMine(states: seq<State>, events: seq<Event>, k: nat, c: ConnId)
    requires IsRun(states, events) && k < |states| && states[k].HandlerOf(c).Leaving?
    ensures states[k].Rooms(c) <= {states[k].HandlerOf(c).room}
  {
    assert k > 0;
    var st, e := states[k - 1], events[k - 1];
    assert StepAt(states, events, k - 1);
    OneRoom(states, events, k - 1, c);
    if st.HandlerOf(c).Leaving? {
      LeavingIsMine(states, events, k - 1, c);
    }
    match e
    case LeaveOne(d, room) => RoomsOut(st, d, room, c);
    case Removed(d, room) => RoomsOut(st, d, room, c);
    case Finish(d) =>
      RoomsOut(st, d, st.HandlerOf(d).room, c);
      RoomsIn(st, d, st.HandlerOf(d).room, c);
    case _ =>
  }

  /** Nobody else's rooms are touched by an event of a connection. */
  lemma OthersStay(st: State, e: Event, d: ConnId)
    requires Enabled(st, e) && e.c != d
    ensures Step(st, e).Rooms(d) == st.Rooms(d) && Step(st, e).HandlerOf(d) == st.HandlerOf(d)
  {
    match e
    case LeaveOne(c, room) => RoomsOut(st, c, room, d);
    case Removed(c, room) => RoomsOut(st, c, room, d);
    case Finish(c) =>
      RoomsOut(st, c, st.HandlerOf(c).room, d);
      RoomsIn(st, c, st.HandlerOf(c).room, d);
    case _ =>
  }

  /** A removal that reaches a room takes the connection out of it, and out of no other. */
  lemma RemovalTakesOut(st: State, c: ConnId, room: Group)
    ensures Enabled(st, Removed(c, room))
    ensures Step(st, Removed(c, room)).Rooms(c) == st.Rooms(c) - {room}
    ensures Step(st, Removed(c, room)).HandlerOf(c) == st.HandlerOf(c)
  {
    RoomsOut(st, c, room, c);
  }

  // ---- Every request can be carried out ----

  function Last(states: seq<State>): State
    requires states != []
  {
    states[|states| - 1]
  }

  lemma Grow(states: seq<State>, events: seq<Event>, e: Event) returns (ss: seq<State>, es: seq<Event>)
    requires IsRun(states, events) && Enabled(Last(states), e)
    ensures IsRun(ss, es) && es == events + [e] && Last(ss) == Step(Last(states), e)
  {
    ss, es := states + [Step(Last(states), e)], events + [e];
    forall k: nat | k < |es| ensures StepAt(ss, es, k) {
      if k < |events| { assert StepAt(states, events, k); }
    }
  }

  lemma LastOk(states: seq<State>, events: seq<Event>, c: ConnId)
    requires IsRun(states, events)
    ensures RoomOk(Last(states), c)
  {
    OneRoom(states, events, |states| - 1, c);
  }

  lemma {:induction false} SweepWorks(states: seq<State>, events: seq<Event>, c: ConnId)
    returns (ss: seq<State>, es: seq<Event>)
    requires IsRun(states, events) && Last(states).HandlerOf(c).Sweeping?
    ensures IsRun(ss, es) && events <= es
    ensures Last(ss).HandlerOf(c).Idle? && Last(ss).Rooms(c) == {Last(states).HandlerOf(c).room}
    decreases Last(states).HandlerOf(c).rest
  {
    var h := Last(states).HandlerOf(c);
    LastOk(states, events, c);
    if room :| room in h.rest {
      var s1, e1 := Grow(states, events, LeaveOne(c, room));
      ss, es := SweepWorks(s1, e1, c);
    } else {
      assert h.rest == {};
      RoomsIn(Last(states), c, h.room, c);
      ss, es := Grow(states, events, Finish(c));
    }
  }

  /** Asked by an idle connection at any time, the Django join can bring it into exactly that room. */
  lemma DjangoJoinWorks(states: seq<State>, events: seq<Event>, c: ConnId, room: Group)
    returns (ss: seq<State>, es: seq<Event>)
    requires IsRun(states, events) && Last(states).HandlerOf(c).Idle?
    ensures IsRun(ss, es) && events + [DjangoJoin(c, room)] <= es
    ensures Last(ss).HandlerOf(c).Idle? && Last(ss).Rooms(c) == {room}
  {
    var s1, e1 := Grow(states, events, DjangoJoin(c, room));
    ss, es := SweepWorks(s1, e1, c);
  }

  /** The chat's join does so for a connection in no room, and changes nothing for any other. */
  lemma ChatJoinWorks(states: seq<State>, events: seq<Event>, c: ConnId, room: Group)
    returns (ss: seq<State>, es: seq<Event>)
    requires IsRun(states, events) && Last(states).HandlerOf(c).Idle?
    ensures IsRun(ss, es) && events + [ChatJoin(c, room)] <= es && Last(ss).HandlerOf(c).Idle?
    ensures Last(ss).Rooms(c) == if Last(states).Rooms(c) == {} then {room} else Last(states).Rooms(c)
  {
    ss, es := Grow(states, events, ChatJoin(c, room));
    if Last(states).Rooms(c) == {} {
      RoomsIn(Last(ss), c, room, c);
      ss, es := Grow(ss, es, Finish(c));
    }
  }

  /** A chat leave that has begun can end, also if a removal has emptied the answer meanwhile. */
  lemma PickWorks(states: seq<State>, events: seq<Event>, c: ConnId) returns (ss: seq<State>, es: seq<Event>)
    requires IsRun(states, events) && Last(states).HandlerOf(c).Picking?
    ensures IsRun(ss, es) && events <= es && Last(ss).HandlerOf(c).Idle? && Last(ss).Rooms(c) == {}
  {
    LastOk(states, events, c);
    if room :| room in Last(states).Rooms(c) {
      ss, es := Grow(states, events, Pick(c, room));
      RoomsOut(Last(ss), c, room, c);
      ss, es := Grow(ss, es, Finish(c));
    } else {
      ss, es := Grow(states, events, PickFails(c));
    }
  }

  /** Both leaves can take a connection out of its room. */
  lemma ChatLeaveWorks(states: seq<State>, events: seq<Event>, c: ConnId)
    returns (ss: seq<State>, es: seq<Event>)
    requires IsRun(states, events) && Last(states).HandlerOf(c).Idle?
    ensures IsRun(ss, es) && events + [ChatLeave(c)] <= es
    ensures Last(ss).HandlerOf(c).Idle? && Last(ss).Rooms(c) == {}
  {
    ss, es := Grow(states, events, ChatLeave(c));
    if Last(states).Rooms(c) != {} { ss, es := PickWorks(ss, es, c); }
  }

  lemma DjangoLeaveWorks(states: seq<State>, events: seq<Event>, c: ConnId, room: Group)
    returns (ss: seq<State>, es: seq<Event>)
    requires IsRun(states, events) && Last(states).HandlerOf(c).Idle?
    requires Last(states).Rooms(c) == {} || room in Last(states).Rooms(c)
    ensures IsRun(ss, es) && events + [DjangoLeave(c, room)] <= es
    ensures Last(ss).HandlerOf(c).Idle? && Last(ss).Rooms(c) == {}
  {
    ss, es := Grow(states, events, DjangoLeave(c, room));
    if Last(states).Rooms(c) != {} {
      LastOk(states, events, c);
      RoomsOut(Last(ss), c, room, c);
      ss, es := Grow(ss, es, Finish(c));
    }
  }

  /** A message can be asked for and told with no change to anybody's rooms. */
  lemma MessageWorks(states: seq<State>, events: seq<Event>, c: ConnId, names: seq<Group>)
    returns (ss: seq<State>, es: seq<Event>)
    requires IsRun(states, events) && Last(states).HandlerOf(c).Idle? && Lists(names, Last(states).Rooms(c))
    ensures IsRun(ss, es) && es == events + [Ask(c, names)] + [Tell(c)]
    ensures Last(ss).HandlerOf(c).Idle? && Last(ss).groups == Last(states).groups
  {
    ss, es := Grow(states, events, Ask(c, names));
    ss, es := Grow(ss, es, Tell(c));
  }

  // ---- What a message to one's own rooms costs ----

  function Shared(gm: GroupMap, names: seq<Group>, id: ConnId): set<Group> {
    set g | g in names && g in GroupsOf(gm, id)
  }

  lemma SharedMore(gm: GroupMap, names: seq<Group>, g: Group, id: ConnId)
    requires g !in names
    ensures Shared(gm, names + [g], id) == Shared(gm, names, id) + (if id in Members(gm, g) then {g} else {})
    ensures |Shared(gm, names + [g], id)| == |Shared(gm, names, id)| + (if id in Members(gm, g) then 1 else 0)
  {
    var more := if id in Members(gm, g) then {g} else {};
    assert Shared(gm, names + [g], id) == Shared(gm, names, id) + more;
    assert g !in Shared(gm, names, id);
  }

  /** Listing different groups, an id is reached once for each of them it is in. */
  lemma {:induction false} OccurrencesShared(gm: GroupMap, names: seq<Group>, id: ConnId)
    requires Distinct(names)
    ensures Occurrences(gm, names, id) == |Shared(gm, names, id)|
  {
    if names == [] {
      assert Shared(gm, names, id) == {};
    } else {
      var n := |names| - 1;
      OccurrencesShared(gm, names[..n], id);
      assert names == names[..n] + [names[n]];
      SharedMore(gm, names[..n], names[n], id);
    }
  }

  /**
   A chat message is broadcast to the sender's own groups without the sender: everybody else is owed
   one copy per group they have in common with the sender.
   */
  lemma MessageReachesGroups(gm: GroupMap, me: ConnId, names: seq<Group>, id: ConnId)
    requires Distinct(names) && forall g :: g in names <==> g in GroupsOf(gm, me)
    ensures Quota(gm, names, Some(me), id) == if id == me then 0 else |GroupsOf(gm, me) * GroupsOf(gm, id)|
  {
    OccurrencesShared(gm, names, id);
    assert Shared(gm, names, id) == GroupsOf(gm, me) * GroupsOf(gm, id);
  }

  ghost predicate SameRoom(gm: GroupMap, a: ConnId, b: ConnId) {
    exists g :: g in GroupsOf(gm, a) && g in GroupsOf(gm, b)
  }

  lemma CommonRoom(gm: GroupMap, a: ConnId, b: ConnId)
    requires AtMostOne(GroupsOf(gm, a))
    ensures |GroupsOf(gm, a) * GroupsOf(gm, b)| == if SameRoom(gm, a, b) then 1 else 0
  {
    var common := GroupsOf(gm, a) * GroupsOf(gm, b);
    if g :| g in GroupsOf(gm, a) && g in GroupsOf(gm, b) {
      assert common == {g};
    } else {
      assert common == {};
    }
  }

  /** The list of a message was the answer to a question that its handler has asked. */
  lemma {:induction false} AskedBefore(states: seq<State>, events: seq<Event>, k: nat, c: ConnId) returns (i: nat)
    requires IsRun(states, events) && k < |states| && states[k].HandlerOf(c).Telling?
    ensures i < k && events[i] == Ask(c, states[k].HandlerOf(c).names)
    ensures Lists(states[k].HandlerOf(c).names, states[i].Rooms(c))
  {
    assert k > 0;
    assert StepAt(states, events, k - 1);
    if states[k - 1].HandlerOf(c).Telling? {
      i := AskedBefore(states, events, k - 1, c);
    } else {
      i := k - 1;
    }
  }

  ghost predicate InSomeOf(gm: GroupMap, names: seq<Group>, id: ConnId) {
    exists g :: g in names && id in Members(gm, g)
  }

  /**
   A message of either protocol, in every run: its handler asks for the rooms of the sender, anything
   may happen, and then it broadcasts to the answer. The answer is at most one room, and whoever is in
   that room at the broadcast, and not excluded, is owed one copy; nobody else is owed any.
   */
  lemma MessageReachesRoom(
    states: seq<State>, events: seq<Event>, k: nat, me: ConnId, exclude: Option<ConnId>, id: ConnId) returns (i: nat)
    requires IsRun(states, events) && k < |events| && events[k] == Tell(me)
    ensures states[k].HandlerOf(me).Telling?
    ensures var names := states[k].HandlerOf(me).names;
      && |names| <= 1 && i < k && events[i] == Ask(me, names) && Lists(names, states[i].Rooms(me))
      && Quota(states[k].groups, names, exclude, id) ==
           if exclude != Some(id) && InSomeOf(states[k].groups, names, id) then 1 else 0
  {
    assert StepAt(states, events, k);
    OneRoom(states, events, k, me);
    i := AskedBefore(states, events, k, me);
    hide IsRun, StepAt, RoomOk;
    QuotaOfOne(states[k].groups, states[k].HandlerOf(me).names, exclude, id);
  }

  lemma QuotaOfOne(gm: GroupMap, names: seq<Group>, exclude: Option<ConnId>, id: ConnId)
    requires |names| <= 1
    ensures Quota(gm, names, exclude, id) == if exclude != Some(id) && InSomeOf(gm, names, id) then 1 else 0
  {
    if |names| == 1 {
      assert names[0] in names;
      assert Occurrences(gm, names[..0], id) == 0;
    }
  }

  lemma AtMostOneListed(names: seq<Group>, rooms: set<Group>)
    requires Lists(names, rooms) && AtMostOne(rooms)
    ensures |names| <= 1
  {
    if |names| > 1 { TwoListed(names, rooms); }
  }

  lemma TwoListed(names: seq<Group>, rooms: set<Group>)
    requires Lists(names, rooms) && |names| > 1
    ensures !AtMostOne(rooms)
  {
    assert names[0] in rooms && names[1] in rooms;
  }
}
