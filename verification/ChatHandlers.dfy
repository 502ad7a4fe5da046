/** The handlers of the two chat examples, on the connection object they are given. */
module ChatHandlers {
  import opened Wrappers
  import opened Messages
  import opened Membership
  import opened ChannelStores
  import opened Connections
  import opened Rooms

  const ONE_ROOM_ONLY := "You need to leave the current room to join another one"
  const NO_ROOM := "You are not currently in a group"

  /** What handle_client sets up before it runs any callback. */
  ghost predicate Established(conn: Connection)
    reads conn, conn.channels, if conn.channels == null then {} else conn.channels.senders.Values, conn.sender
  {
    && conn.id.Some?
    && conn.channels != null && conn.channels.Valid()
    && conn.sender != null && conn.sender.Valid()
  }

  /** A send on the connection, seen from the store: nobody but the owners of its sender gets it. */
  ghost predicate OnlySenderGot(now: View, was: View, senders: map<ConnId, Sender>, sender: Sender, msg: Message) {
    && now.Keys == was.Keys == senders.Keys
    && forall id | id in senders :: now[id] == if senders[id] == sender then was[id].After(msg) else was[id]
  }

  method Tell(conn: Connection, text: string)
    requires Established(conn)
    modifies conn.sender
    ensures Established(conn) && conn.sender.Looks() == old(conn.sender.Looks()).After(Text(text))
    ensures OnlySenderGot(conn.channels.View(), old(conn.channels.View()), conn.channels.senders, conn.sender, Text(text))
  {
    var _, _ := conn.Send(Str(text));
  }

  method Enter(conn: Connection, room: Group, notice: string) returns (ghost ids: seq<ConnId>)
    requires Established(conn)
    modifies conn.channels, conn.channels.senders.Values
    ensures Established(conn) && conn.channels.senders == old(conn.channels.senders)
    ensures conn.channels.groups ==
      old(conn.channels.groups)[room := Members(old(conn.channels.groups), room) + {conn.id.value}]
    ensures AllGot(conn.channels.View(), old(conn.channels.View()), conn.channels.groups, [room], None, {},
                   Text(notice), multiset(ids))
  {
    hide AllGot;
    var _ := conn.Join(room);
    assert conn.channels.View() == old(conn.channels.View());
    var _, _, told := conn.Broadcast([room], Str(notice), false);
    ids := told;
  }

  method Exit(conn: Connection, room: Group, notice: string) returns (ghost ids: seq<ConnId>)
    requires Established(conn)
    modifies conn.channels, conn.channels.senders.Values
    ensures Established(conn) && conn.channels.senders == old(conn.channels.senders)
    ensures forall g :: Members(conn.channels.groups, g) ==
                        Members(old(conn.channels.groups), g) - (if g == room then {conn.id.value} else {})
    ensures AllGot(conn.channels.View(), old(conn.channels.View()), conn.channels.groups, [room], None, {},
                   Text(notice), multiset(ids))
  {
    hide AllGot;
    var _ := conn.Leave(room);
    assert conn.channels.View() == old(conn.channels.View());
    var _, _, told := conn.Broadcast([room], Str(notice), false);
    ids := told;
  }

  /** join: only a connection in no room may enter one; the room, with the newcomer, is told. */
  method ChatJoin(conn: Connection, room: Group, notice: string) returns (ghost ids: seq<ConnId>)
    requires Established(conn)
    modifies conn.sender, conn.channels, conn.channels.senders.Values
    ensures Established(conn) && conn.channels.senders == old(conn.channels.senders)
    ensures GroupsOf(old(conn.channels.groups), conn.id.value) == {} ==>
      && conn.channels.groups ==
           old(conn.channels.groups)[room := Members(old(conn.channels.groups), room) + {conn.id.value}]
      && AllGot(conn.channels.View(), old(conn.channels.View()), conn.channels.groups, [room], None, {},
                Text(notice), multiset(ids))
    ensures GroupsOf(old(conn.channels.groups), conn.id.value) != {} ==>
      && conn.channels.groups == old(conn.channels.groups)
      && conn.sender.Looks() == old(conn.sender.Looks()).After(Text(ONE_ROOM_ONLY))
      && OnlySenderGot(conn.channels.View(), old(conn.channels.View()), conn.channels.senders, conn.sender,
                       Text(ONE_ROOM_ONLY))
  {
    hide AllGot, OnlySenderGot, ChannelStore.View;
    ids := [];
    var names := conn.Groups();
    if |names.value| > 0 {
      assert names.value[0] in GroupsOf(conn.channels.groups, conn.id.value);
      Tell(conn, ONE_ROOM_ONLY);
    } else {
      assert GroupsOf(conn.channels.groups, conn.id.value) == {};
      ids := Enter(conn, room, notice);
    }
  }

  /**
   leave: a connection in no room is told so. Otherwise it leaves one of its rooms, and is told before
   it goes; the others in that room are told afterwards.
   */
  method ChatLeave(conn: Connection, notice: string) returns (ghost room: Group, ghost mid: View, ghost ids: seq<ConnId>)
    requires Established(conn)
    modifies conn.sender, conn.channels, conn.channels.senders.Values
    ensures Established(conn) && conn.channels.senders == old(conn.channels.senders)
    ensures GroupsOf(old(conn.channels.groups), conn.id.value) == {} ==>
      && conn.channels.groups == old(conn.channels.groups)
      && conn.sender.Looks() == old(conn.sender.Looks()).After(Text(NO_ROOM))
      && OnlySenderGot(conn.channels.View(), old(conn.channels.View()), conn.channels.senders, conn.sender, Text(NO_ROOM))
    ensures GroupsOf(old(conn.channels.groups), conn.id.value) != {} ==>
      && room in GroupsOf(old(conn.channels.groups), conn.id.value)
      && (forall g :: Members(conn.channels.groups, g) ==
                      Members(old(conn.channels.groups), g) - (if g == room then {conn.id.value} else {}))
      && OnlySenderGot(mid, old(conn.channels.View()), conn.channels.senders, conn.sender, Text("Leaving " + room + "..."))
      && AllGot(conn.channels.View(), mid, conn.channels.groups, [room], None, {}, Text(notice), multiset(ids))
  {
    hide AllGot, OnlySenderGot, ChannelStore.View;
    room, mid, ids := "", map[], [];
    var names := conn.Groups();
    if |names.value| < 1 {
      assert GroupsOf(conn.channels.groups, conn.id.value) == {};
      Tell(conn, NO_ROOM);
    } else {
      var group := names.value[0];
      assert group in GroupsOf(conn.channels.groups, conn.id.value);
      Tell(conn, "Leaving " + group + "...");
      room, mid := group, conn.channels.View();
      ids := Exit(conn, group, notice);
    }
  }

  /** Everybody but me got one copy for each group they have in common with me. */
  ghost predicate CommonGot(
    now: View, was: View, gm: GroupMap, me: ConnId, msg: Message, deferred: multiset<ConnId>)
  {
    && now.Keys == was.Keys
    && forall id | id in was ::
         Got(now[id], was[id], msg, if id == me then 0 else |GroupsOf(gm, me) * GroupsOf(gm, id)|, deferred[id])
  }

  /** Each other member of the room of id me got one copy, everybody else and me none. */
  ghost predicate RoomGot(
    now: View, was: View, gm: GroupMap, me: ConnId, msg: Message, deferred: multiset<ConnId>)
  {
    && now.Keys == was.Keys
    && forall id | id in was ::
         Got(now[id], was[id], msg, if id != me && SameRoom(gm, me, id) then 1 else 0, deferred[id])
  }

  lemma CommonIsAllGot(
    now: View, was: View, gm: GroupMap, names: seq<Group>, me: ConnId, msg: Message, deferred: multiset<ConnId>)
    requires Distinct(names) && forall g :: g in names <==> g in GroupsOf(gm, me)
    requires AllGot(now, was, gm, names, Some(me), {}, msg, deferred)
    ensures CommonGot(now, was, gm, me, msg, deferred)
    ensures AtMostOne(GroupsOf(gm, me)) ==> RoomGot(now, was, gm, me, msg, deferred)
  {
    hide Got, Quota, SameRoom, AtMostOne;
    forall id | id in was
      ensures Got(now[id], was[id], msg, if id == me then 0 else |GroupsOf(gm, me) * GroupsOf(gm, id)|, deferred[id])
      ensures AtMostOne(GroupsOf(gm, me)) ==>
        Got(now[id], was[id], msg, if id != me && SameRoom(gm, me, id) then 1 else 0, deferred[id])
    {
      MessageReachesGroups(gm, me, names, id);
      if AtMostOne(GroupsOf(gm, me)) { CommonRoom(gm, me, id); }
    }
  }

  /** message: to all rooms of the sender, but not to the sender. */
  method ChatMessage(conn: Connection, text: string) returns (ghost ids: seq<ConnId>)
    requires Established(conn)
    modifies conn.channels.senders.Values
    ensures Established(conn)
    ensures CommonGot(conn.channels.View(), old(conn.channels.View()), conn.channels.groups, conn.id.value,
                      Text(text), multiset(ids))
    ensures AtMostOne(GroupsOf(conn.channels.groups, conn.id.value)) ==>
      RoomGot(conn.channels.View(), old(conn.channels.View()), conn.channels.groups, conn.id.value,
              Text(text), multiset(ids))
  {
    hide AllGot, CommonGot, RoomGot, AtMostOne;
    ghost var was := conn.channels.View();
    var names := conn.Groups();
    var _, _, told := conn.Broadcast(names.value, Str(text), true);
    ids := told;
    CommonIsAllGot(conn.channels.View(), was, conn.channels.groups, names.value, conn.id.value, Text(text), multiset(ids));
  }

  /** handle_join of the Django example: out of every room, then into the requested one. */
  method DjangoJoin(conn: Connection, room: Group)
    requires Established(conn)
    modifies conn.channels
    ensures Established(conn) && conn.channels.senders == old(conn.channels.senders)
    ensures GroupsOf(conn.channels.groups, conn.id.value) == {room}
    ensures forall id, g | id != conn.id.value ::
      id in Members(conn.channels.groups, g) <==> id in Members(old(conn.channels.groups), g)
  {
    var names := conn.Groups();
    ghost var gm := conn.channels.groups;
    ghost var me := conn.id.value;
    var i := 0;
    while i < |names.value|
      invariant i <= |names.value|
      invariant conn.channels.senders == old(conn.channels.senders) && conn.channels.nextId == old(conn.channels.nextId)
      invariant conn.channels.registrations == old(conn.channels.registrations)
      invariant forall g :: Members(conn.channels.groups, g)
                         == Members(gm, g) - (if g in names.value[..i] then {me} else {})
    {
      var _ := conn.Leave(names.value[i]);
      assert names.value[..i + 1] == names.value[..i] + [names.value[i]];
      i := i + 1;
    }
    assert names.value[..i] == names.value;
    forall g ensures me !in Members(conn.channels.groups, g) {
      if me in Members(gm, g) { assert g in GroupsOf(gm, me); }
    }
    ghost var before := conn.channels.groups;
    var _ := conn.Join(room);
    ghost var now := conn.channels.groups;
    forall g ensures g in GroupsOf(now, me) <==> g == room {
      assert Members(now, g) == if g == room then Members(before, g) + {me} else Members(before, g);
    }
  }
}
