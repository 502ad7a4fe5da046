/**
 The channel store as the program changes it in place: bounded senders, the two maps, and the
 operations on them, each performed without interruption. Delivery models the interruptions.
 */
module ChannelStores {
  import opened Wrappers
  import opened Messages
  import opened Membership
  import opened Delivery

  /** What can be observed of a sender: its queue, whether the receiver is gone, and all it was ever offered. */
  datatype Look = Look(queue: seq<Message>, closed: bool, offered: seq<Message>) {
    function TrySend(): SendResult {
      if closed then Closed else if |queue| < CHANNEL_BUFFER_SIZE then Sent else Full
    }

    function After(msg: Message): Look {
      this.(queue := if TrySend().Sent? then queue + [msg] else queue, offered := offered + [msg])
    }
  }

  function Copies(msg: Message, n: nat): (copies: seq<Message>)
    ensures |copies| == n
  {
    seq(n, _ => msg)
  }

  /** From was to now the sender was offered n copies of msg; those that did not fit were deferred. */
  ghost predicate Got(now: Look, was: Look, msg: Message, n: nat, deferred: nat) {
    && now.closed == was.closed
    && now.offered == was.offered + Copies(msg, n)
    && if was.closed then now.queue == was.queue && deferred == 0
       else
         var room := if |was.queue| <= CHANNEL_BUFFER_SIZE then CHANNEL_BUFFER_SIZE - |was.queue| else 0;
         && now.queue == was.queue + Copies(msg, if n <= room then n else room)
         && deferred == if n <= room then 0 else n - room
  }

  lemma CopiesMore(msg: Message, n: nat)
    ensures Copies(msg, n) + [msg] == Copies(msg, n + 1)
  {
  }

  /** One more offer, with the three answers of try_send. */
  lemma GotMore(now: Look, was: Look, msg: Message, n: nat, deferred: nat)
    requires Got(now, was, msg, n, deferred)
    ensures Got(now.After(msg), was, msg, n + 1, if now.TrySend().Full? then deferred + 1 else deferred)
  {
    CopiesMore(msg, n);
    assert was.offered + Copies(msg, n) + [msg] == was.offered + (Copies(msg, n) + [msg]);
    assert was.queue + Copies(msg, n) + [msg] == was.queue + (Copies(msg, n) + [msg]);
  }

  /** The share of the group being visited in an id's copies. */
  function Extra(visited: set<ConnId>, exclude: Option<ConnId>, id: ConnId): nat {
    if id in visited && exclude != Some(id) then 1 else 0
  }

  type View = map<ConnId, Look>

  /** Every id has got its quota of the list, and one more if it is among the visited of the next group. */
  ghost predicate AllGot(
    now: View, was: View, gm: GroupMap, list: seq<Group>, exclude: Option<ConnId>, visited: set<ConnId>,
    msg: Message, deferred: multiset<ConnId>)
  {
    && now.Keys == was.Keys
    && forall id | id in was ::
         Got(now[id], was[id], msg, Quota(gm, list, exclude, id) + Extra(visited, exclude, id), deferred[id])
  }

  lemma GotVisit(
    now: View, was: View, gm: GroupMap, list: seq<Group>, exclude: Option<ConnId>, visited: set<ConnId>,
    msg: Message, deferred: multiset<ConnId>, id: ConnId)
    requires AllGot(now, was, gm, list, exclude, visited, msg, deferred) && id !in visited
    ensures exclude == Some(id) || id !in was ==>
      AllGot(now, was, gm, list, exclude, visited + {id}, msg, deferred)
    ensures exclude != Some(id) && id in was ==>
      id in now && AllGot(now[id := now[id].After(msg)], was, gm, list, exclude, visited + {id}, msg,
        if now[id].TrySend().Full? then deferred + multiset{id} else deferred)
  {
    hide Got, Quota;
    if id in was {
      GotMore(now[id], was[id], msg, Quota(gm, list, exclude, id) + Extra(visited, exclude, id), deferred[id]);
    }
  }

  lemma GotKeys(
    now: View, was: View, gm: GroupMap, list: seq<Group>, exclude: Option<ConnId>, visited: set<ConnId>,
    msg: Message, deferred: multiset<ConnId>)
    requires AllGot(now, was, gm, list, exclude, visited, msg, deferred)
    ensures now.Keys == was.Keys
  {
  }

  lemma GotNothing(was: View, gm: GroupMap, exclude: Option<ConnId>, msg: Message)
    ensures AllGot(was, was, gm, [], exclude, {}, msg, multiset{})
  {
  }

  lemma GotGroup(
    now: View, was: View, gm: GroupMap, list: seq<Group>, g: Group, exclude: Option<ConnId>, visited: set<ConnId>,
    msg: Message, deferred: multiset<ConnId>)
    requires AllGot(now, was, gm, list, exclude, visited, msg, deferred) && visited == Members(gm, g)
    ensures AllGot(now, was, gm, list + [g], exclude, {}, msg, deferred)
  {
    hide Got;
    assert (list + [g])[..|list|] == list;
  }

  /** The sending half of a bounded channel. */
  class Sender {
    var queue: seq<Message>
    var closed: bool
    ghost var offered: seq<Message>

    ghost predicate Valid()
      reads this
    {
      |queue| <= CHANNEL_BUFFER_SIZE && (closed ==> queue == [])
    }

    ghost function Looks(): Look
      reads this
    {
      Look(queue, closed, offered)
    }

    constructor ()
      ensures Valid() && Looks() == Look([], false, [])
    {
      queue, closed, offered := [], false, [];
    }

    method TrySend(msg: Message) returns (r: SendResult)
      requires Valid()
      modifies this
      ensures Valid() && r == old(Looks()).TrySend() && Looks() == old(Looks()).After(msg)
    {
      offered := offered + [msg];
      if closed {
        r := Closed;
      } else if |queue| < CHANNEL_BUFFER_SIZE {
        queue := queue + [msg];
        r := Sent;
      } else {
        r := Full;
      }
    }

    /**
     The writer task, with the outcome of each write given. It stops at the end of the queue, at a
     failed write, or after writing a Close, and drops the receiver.
     */
    method SendListener(outcomes: seq<bool>) returns (written: seq<Message>)
      requires Valid() && !closed && |outcomes| >= |queue|
      modifies this
      ensures Valid() && closed && queue == [] && offered == old(offered)
      ensures written <= old(queue)
      ensures forall i | 0 <= i < |written| :: outcomes[i] && (written[i].Close? ==> i == |written| - 1)
      ensures
        || written == old(queue)
        || (written != [] && written[|written| - 1].Close?)
        || (|written| < |outcomes| && !outcomes[|written|])
    {
      written := [];
      var stopped := false;
      while !stopped && queue != []
        invariant offered == old(offered) && Valid() && !closed
        invariant written <= old(queue)
        invariant forall i | 0 <= i < |written| :: outcomes[i] && (written[i].Close? ==> stopped && i == |written| - 1)
        invariant !stopped ==> written + queue == old(queue)
        invariant stopped ==>
          || (written != [] && written[|written| - 1].Close?)
          || (|written| < |outcomes| && !outcomes[|written|])
        decreases !stopped, |queue|
      {
        var msg := queue[0];
        queue := queue[1..];
        if !outcomes[|written|] {
          stopped := true;
        } else {
          written := written + [msg];
          stopped := msg.Close?;
        }
      }
      queue, closed := [], true;
    }
  }

  class ChannelStore {
    var nextId: ConnId
    var senders: map<ConnId, Sender>
    var groups: GroupMap
    ghost var registrations: nat

    ghost predicate Consistent()
      reads this, senders.Values
    {
      nextId == IdOf(registrations) && forall id | id in senders :: senders[id].Valid()
    }

    /** Moreover every id has its own sender, as it has if every registration brings a new one. */
    ghost predicate Valid()
      reads this, senders.Values
    {
      Consistent() && forall a, b | a in senders && b in senders && a != b :: senders[a] != senders[b]
    }

    constructor ()
      ensures Valid() && senders == map[] && groups == map[] && registrations == 0
    {
      nextId, senders, groups, registrations := 1, map[], map[], 0;
    }

    method Register(tx: Sender) returns (id: ConnId)
      requires Consistent() && tx.Valid()
      modifies this
      ensures Consistent() && (old(Valid()) && tx !in old(senders).Values ==> Valid())
      ensures groups == old(groups) && registrations == old(registrations) + 1
      ensures id == IdOf(old(registrations)) && senders == old(senders)[id := tx]
    {
      id := nextId;
      NextId(registrations);
      nextId := (nextId + 1) % TWO_TO_64;
      registrations := registrations + 1;
      senders := senders[id := tx];
    }

    method RegisterWithGroup(group: Group, tx: Sender) returns (id: ConnId)
      requires Consistent() && tx.Valid()
      modifies this
      ensures Consistent() && (old(Valid()) && tx !in old(senders).Values ==> Valid())
      ensures registrations == old(registrations) + 1
      ensures id == IdOf(old(registrations)) && senders == old(senders)[id := tx]
      ensures groups == old(groups)[group := Members(old(groups), group) + {id}]
    {
      id := Register(tx);
      var _ := Join(id, group);
    }

    method Join(id: ConnId, group: Group) returns (added: bool)
      modifies this`groups
      ensures added <==> id !in Members(old(groups), group)
      ensures groups == old(groups)[group := Members(old(groups), group) + {id}]
    {
      if group !in groups { groups := groups[group := {}]; }
      added := id !in groups[group];
      groups := groups[group := groups[group] + {id}];
    }

    method Leave(id: ConnId, group: Group) returns (removed: bool)
      modifies this`groups
      ensures removed <==> id in Members(old(groups), group)
      ensures groups.Keys == old(groups).Keys
      ensures forall g :: Members(groups, g) == Members(old(groups), g) - (if g == group then {id} else {})
    {
      removed := group in groups && id in groups[group];
      if group in groups { groups := groups[group := groups[group] - {id}]; }
    }

    method GetGroups(id: ConnId) returns (names: seq<Group>)
      ensures Distinct(names)
      ensures forall g :: g in names <==> g in GroupsOf(groups, id)
    {
      names := [];
      var rest := groups.Keys;
      while rest != {}
        invariant rest <= groups.Keys && Distinct(names)
        invariant forall g :: g in names <==> g in GroupsOf(groups, id) && g !in rest
        decreases rest
      {
        var g :| g in rest;
        rest := rest - {g};
        if id in groups[g] { names := names + [g]; }
      }
    }

    method GroupSize(group: Group) returns (size: nat)
      ensures size == |Members(groups, group)|
    {
      size := if group in groups then |groups[group]| else 0;
    }

    /** The id loses its sender and leaves every group; nothing else changes. */
    method Remove(id: ConnId)
      requires Consistent()
      modifies this
      ensures Consistent() && (old(Valid()) ==> Valid())
      ensures registrations == old(registrations) && nextId == old(nextId)
      ensures senders == old(senders) - {id}
      ensures groups.Keys == old(groups).Keys
      ensures forall g :: Members(groups, g) == Members(old(groups), g) - {id}
    {
      senders := senders - {id};
      var rest := groups.Keys;
      while rest != {}
        invariant senders == old(senders) - {id} && registrations == old(registrations) && nextId == old(nextId)
        invariant rest <= groups.Keys == old(groups).Keys
        invariant forall g | g in groups :: groups[g] == if g in rest then old(groups)[g] else old(groups)[g] - {id}
        decreases rest
      {
        var g :| g in rest;
        rest := rest - {g};
        groups := groups[g := groups[g] - {id}];
      }
    }

    ghost function View(): (view: map<ConnId, Look>)
      reads this, senders.Values
      ensures view.Keys == senders.Keys
    {
      map id | id in senders :: senders[id].Looks()
    }

    method TrySendTo(id: ConnId, msg: Message) returns (r: SendResult)
      requires Valid() && id in senders
      modifies senders[id]
      ensures Valid()
      ensures r == old(View())[id].TrySend() && View() == old(View())[id := old(View())[id].After(msg)]
    {
      r := senders[id].TrySend(msg);
    }

    /** The deferred copies are kept as senders; ids says whose they are. */
    ghost predicate SendersOf(blocked: seq<Sender>, ids: seq<ConnId>)
      reads this
    {
      |blocked| == |ids| && forall k | 0 <= k < |ids| :: ids[k] in senders && blocked[k] == senders[ids[k]]
    }

    /** One pass over the members of a group: the inner loop of Broadcast. */
    method VisitGroup(g: Group, msg: Message, exclude: Option<ConnId>, blocked: seq<Sender>,
                      ghost ids: seq<ConnId>, ghost was: View, ghost list: seq<Group>)
      returns (blocked': seq<Sender>, ghost ids': seq<ConnId>)
      requires Valid() && SendersOf(blocked, ids) && g in groups
      requires AllGot(View(), was, groups, list, exclude, {}, msg, multiset(ids))
      modifies senders.Values
      ensures Valid() && SendersOf(blocked', ids')
      ensures AllGot(View(), was, groups, list + [g], exclude, {}, msg, multiset(ids'))
    {
      hide AllGot;
      blocked', ids' := blocked, ids;
      var todo := groups[g];
      ghost var visited := {};
      while todo != {}
        invariant visited !! todo && visited + todo == groups[g] && Valid() && SendersOf(blocked', ids')
        invariant AllGot(View(), was, groups, list, exclude, visited, msg, multiset(ids'))
        decreases todo
      {
        var connId :| connId in todo;
        GotVisit(View(), was, groups, list, exclude, visited, msg, multiset(ids'), connId);
        GotKeys(View(), was, groups, list, exclude, visited, msg, multiset(ids'));
        if exclude != Some(connId) && connId in senders {
          var r := TrySendTo(connId, msg);
          if r.Full? { blocked', ids' := blocked' + [senders[connId]], ids' + [connId]; }
        }
        todo, visited := todo - {connId}, visited + {connId};
      }
      GotGroup(View(), was, groups, list, g, exclude, visited, msg, multiset(ids'));
    }

    /**
     A broadcast offers each registered, included id one copy per position of the list that names a
     group it is in. Copies that find a full queue are returned for a spill task; a closed channel
     keeps nothing; nothing else changes.
     */
    method Broadcast(list: seq<Group>, msg: Message, exclude: Option<ConnId>)
      returns (blocked: seq<Sender>, ghost ids: seq<ConnId>)
      requires Valid()
      modifies senders.Values
      ensures Valid() && SendersOf(blocked, ids)
      ensures AllGot(View(), old(View()), groups, list, exclude, {}, msg, multiset(ids))
    {
      ghost var was := View();
      blocked, ids := [], [];
      GotNothing(was, groups, exclude, msg);
      hide AllGot;
      var i := 0;
      while i < |list|
        invariant i <= |list| && Valid() && SendersOf(blocked, ids)
        invariant AllGot(View(), was, groups, list[..i], exclude, {}, msg, multiset(ids))
      {
        assert list[..i + 1] == list[..i] + [list[i]];
        if list[i] in groups {
          blocked, ids := VisitGroup(list[i], msg, exclude, blocked, ids, was, list[..i]);
        } else {
          GotGroup(View(), was, groups, list[..i], list[i], exclude, {}, msg, multiset(ids));
        }
        i := i + 1;
      }
      assert list[..i] == list;
    }
  }
}
