/** The connection object handed to callbacks: its operations and their error cases. */
module Connections {
  import opened Wrappers
  import opened Messages
  import opened Membership
  import opened Delivery
  import opened ChannelStores
  import Utf8

  /** What a callback may pass as a message. */
  datatype Payload = Str(text: string) | Bytes(data: seq<byte>) | Other

  datatype Error = NotEstablished | NoStore | BadType

  function ToMessage(payload: Payload): Result<Message, Error> {
    match payload
    case Str(text) => Ok(Text(text))
    case Bytes(data) => Ok(Binary(data))
    case Other => Err(BadType)
  }

  /** Text is sent as text, bytes as they are, and nothing else is accepted; a Close cannot be sent this way. */
  lemma CarriesExactly(payload: Payload, msg: Message)
    ensures ToMessage(payload) == Ok(msg) <==>
      (msg.Text? && payload == Str(msg.text)) || (msg.Binary? && payload == Bytes(msg.data))
  {
  }

  class Connection {
    var sender: Sender?
    var channels: ChannelStore?
    var id: Option<ConnId>

    /** try_send, leaving the message to a spawned task when the queue is full. */
    method Offer(msg: Message) returns (spill: Option<(Sender, Message)>)
      requires sender != null && sender.Valid()
      modifies sender
      ensures sender.Valid() && sender.Looks() == old(sender.Looks()).After(msg)
      ensures spill == if old(sender.Looks()).TrySend().Full? then Some((sender, msg)) else None
    {
      var r := sender.TrySend(msg);
      spill := if r.Full? then Some((sender, msg)) else None;
    }

    /** An unestablished connection is reported before a message of the wrong type; a closed channel is no error. */
    method Send(payload: Payload) returns (r: Result<(), Error>, spill: Option<(Sender, Message)>)
      requires sender != null ==> sender.Valid()
      modifies sender
      ensures r == if sender == null then Err(NotEstablished)
                   else if payload.Other? then Err(BadType) else Ok(())
      ensures sender != null ==> sender.Valid()
      ensures r.Ok? ==> sender != null && sender.Looks() == old(sender.Looks()).After(ToMessage(payload).value)
      ensures r.Err? && sender != null ==> sender.Looks() == old(sender.Looks())
      ensures spill == if r.Ok? && old(sender.Looks()).TrySend().Full?
                       then Some((sender, ToMessage(payload).value)) else None
    {
      spill := None;
      if sender == null {
        r := Err(NotEstablished);
      } else {
        match ToMessage(payload)
        case Err(e) => r := Err(e);
        case Ok(msg) =>
          spill := Offer(msg);
          r := Ok(());
      }
    }

    method Close(code: u16, reason: string) returns (r: Result<(), Error>, spill: Option<(Sender, Message)>)
      requires sender != null ==> sender.Valid()
      modifies sender
      ensures r == if sender == null then Err(NotEstablished) else Ok(())
      ensures sender != null ==>
        (sender.Valid() && sender.Looks() == old(sender.Looks()).After(Message.Close(code, Utf8.Encode(reason))))
      ensures spill == if sender != null && old(sender.Looks()).TrySend().Full?
                       then Some((sender, Message.Close(code, Utf8.Encode(reason)))) else None
    {
      spill := None;
      if sender == null {
        r := Err(NotEstablished);
      } else {
        spill := Offer(Message.Close(code, Utf8.Encode(reason)));
        r := Ok(());
      }
    }

    /** Here the type of the message is checked first. Without an id there is nobody to exclude. */
    method Broadcast(list: seq<Group>, payload: Payload, excludeSelf: bool)
      returns (r: Result<(), Error>, blocked: seq<Sender>, ghost ids: seq<ConnId>)
      requires channels != null ==> channels.Valid()
      modifies if channels == null then {} else channels.senders.Values
      ensures r == if payload.Other? then Err(BadType) else if channels == null then Err(NoStore) else Ok(())
      ensures channels != null ==> channels.Valid() && channels.SendersOf(blocked, ids)
      ensures channels != null ==>
        if r.Ok?
        then AllGot(channels.View(), old(channels.View()), channels.groups, list, if excludeSelf then id else None,
                    {}, ToMessage(payload).value, multiset(ids))
        else channels.View() == old(channels.View()) && ids == []
    {
      blocked, ids := [], [];
      match ToMessage(payload)
      case Err(e) => r := Err(e);
      case Ok(msg) =>
        if channels == null {
          r := Err(NoStore);
        } else {
          blocked, ids := channels.Broadcast(list, msg, if excludeSelf then id else None);
          r := Ok(());
        }
    }

    /** The checks in front of every operation on the own groups: first for the store, then for the id. */
    function Ready(): Result<ConnId, Error>
      reads this
    {
      if channels == null then Err(NoStore) else if id == None then Err(NotEstablished) else Ok(id.value)
    }

    method Join(group: Group) returns (r: Result<bool, Error>)
      modifies if channels == null then {} else {channels}
      ensures channels != null ==>
        && channels.senders == old(channels.senders) && channels.nextId == old(channels.nextId)
        && channels.registrations == old(channels.registrations)
      ensures match Ready()
        case Err(e) => r == Err(e) && (channels != null ==> channels.groups == old(channels.groups))
        case Ok(me) =>
          && r == Ok(me !in Members(old(channels.groups), group))
          && channels.groups == old(channels.groups)[group := Members(old(channels.groups), group) + {me}]
    {
      match Ready()
      case Err(e) => r := Err(e);
      case Ok(me) =>
        var added := channels.Join(me, group);
        r := Ok(added);
    }

    method Leave(group: Group) returns (r: Result<bool, Error>)
      modifies if channels == null then {} else {channels}
      ensures channels != null ==>
        && channels.senders == old(channels.senders) && channels.nextId == old(channels.nextId)
        && channels.registrations == old(channels.registrations)
      ensures match Ready()
        case Err(e) => r == Err(e) && (channels != null ==> channels.groups == old(channels.groups))
        case Ok(me) =>
          && r == Ok(me in Members(old(channels.groups), group))
          && channels.groups.Keys == old(channels.groups).Keys
          && forall g :: Members(channels.groups, g) ==
                         Members(old(channels.groups), g) - (if g == group then {me} else {})
    {
      match Ready()
      case Err(e) => r := Err(e);
      case Ok(me) =>
        var removed := channels.Leave(me, group);
        r := Ok(removed);
    }

    method Groups() returns (r: Result<seq<Group>, Error>)
      ensures match Ready()
        case Err(e) => r == Err(e)
        case Ok(me) => r.Ok? && Distinct(r.value) && forall g :: g in r.value <==> g in GroupsOf(channels.groups, me)
    {
      match Ready()
      case Err(e) => r := Err(e);
      case Ok(me) =>
        var names := channels.GetGroups(me);
        r := Ok(names);
    }
  }
}
