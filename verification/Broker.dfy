/**
 Broadcasts that come through a message broker: their JSON form, the local broadcast each server
 makes of one, and the listeners that keep a connection to the broker.
 */
module Broker {
  import opened Wrappers
  import opened Messages
  import opened Membership
  import opened Json
  import opened ChannelStores

  datatype BrokerMessage = BrokerMessage(groups: seq<Group>, message: string)

  // ---- The JSON form ----

  function Strings(items: seq<string>): seq<Value> {
    seq(|items|, i requires 0 <= i < |items| => String(items[i]))
  }

  function MakePayload(groups: seq<Group>, message: string): Value {
    Object(map["groups" := Array(Strings(groups)), "message" := String(message)])
  }

  function AsStrings(items: seq<Value>): Option<seq<string>> {
    if items == [] then Some([])
    else if !items[0].String? then None
    else match AsStrings(items[1..]) case None => None case Some(rest) => Some([items[0].s] + rest)
  }

  function FromFields(groups: Value, message: Value): Option<BrokerMessage> {
    if !groups.Array? || !message.String? then None
    else match AsStrings(groups.items) case None => None case Some(names) => Some(BrokerMessage(names, message.s))
  }

  /** The derived deserializer: an object with both members, others ignored, or an array of the two in order. */
  function FromJson(v: Value): Option<BrokerMessage> {
    match v
    case Object(members) =>
      if "groups" in members && "message" in members then FromFields(members["groups"], members["message"]) else None
    case Array(items) => if |items| == 2 then FromFields(items[0], items[1]) else None
    case _ => None
  }

  lemma {:induction false} StringsRoundTrip(items: seq<string>)
    ensures AsStrings(Strings(items)) == Some(items)
  {
    if items != [] {
      StringsRoundTrip(items[1..]);
      assert Strings(items)[1..] == Strings(items[1..]);
      assert [items[0]] + items[1..] == items;
    }
  }

  /** Groups and message survive the way to another server. */
  lemma PayloadRoundTrip(groups: seq<Group>, message: string)
    ensures FromJson(MakePayload(groups, message)) == Some(BrokerMessage(groups, message))
    ensures MakePayload(groups, message).Object? && MakePayload(groups, message).members.Keys == {"groups", "message"}
  {
    StringsRoundTrip(groups);
  }

  lemma {:induction false} AsStringsMeans(items: seq<Value>, names: seq<string>)
    ensures AsStrings(items) == Some(names) <==> items == Strings(names)
  {
    if items == [] || names == [] || !items[0].String? {
      StringsRoundTrip(names);
      assert items != [] && items[0].String? ==> |Strings(names)| == 0;
    } else {
      AsStringsMeans(items[1..], names[1..]);
      assert Strings(names) == [String(names[0])] + Strings(names[1..]);
      assert items == [items[0]] + items[1..];
      assert [names[0]] + names[1..] == names;
    }
  }

  /** Exactly the JSON that is accepted as a given broker message. */
  lemma DecodesExactly(v: Value, m: BrokerMessage)
    ensures FromJson(v) == Some(m) <==>
      || (v.Object? && v.Get("groups") == Some(Array(Strings(m.groups))) && v.Get("message") == Some(String(m.message)))
      || v == Array([Array(Strings(m.groups)), String(m.message)])
  {
    if v.Object? && "groups" in v.members && v.members["groups"].Array? {
      AsStringsMeans(v.members["groups"].items, m.groups);
    } else if v.Array? && |v.items| == 2 && v.items[0].Array? {
      AsStringsMeans(v.items[0].items, m.groups);
      assert v.items == [v.items[0], v.items[1]];
    }
  }

  // ---- Dispatch and fan-out ----

  /** A broker message is a local broadcast that excludes nobody. */
  method Dispatch(m: BrokerMessage, channels: ChannelStore) returns (ghost ids: seq<ConnId>)
    requires channels.Valid()
    modifies channels.senders.Values
    ensures channels.Valid()
    ensures AllGot(channels.View(), old(channels.View()), channels.groups, m.groups, None, {}, Text(m.message),
                   multiset(ids))
  {
    var _, told := channels.Broadcast(m.groups, Text(m.message), None);
    ids := told;
  }

  /** All senders of the servers, and no server shares one with another. */
  ghost predicate Separate(servers: seq<ChannelStore>, all: set<Sender>)
    reads servers
  {
    && (forall k | 0 <= k < |servers| :: servers[k].senders.Values <= all)
    && (forall i, j | 0 <= i < |servers| && 0 <= j < |servers| && i != j ::
          servers[i].senders.Values !! servers[j].senders.Values)
  }

  /** What each server's connections have been given by a published message. */
  ghost predicate Served(now: View, was: View, gm: GroupMap, groups: seq<Group>, message: string) {
    && now.Keys == was.Keys
    && forall id | id in was ::
         now[id].offered == was[id].offered + Copies(Text(message), Occurrences(gm, groups, id))
  }

  lemma GotIsServed(now: View, was: View, gm: GroupMap, groups: seq<Group>, message: string, deferred: multiset<ConnId>)
    requires AllGot(now, was, gm, groups, None, {}, Text(message), deferred)
    ensures Served(now, was, gm, groups, message)
  {
  }

  /** What a series of broker messages owes one connection. */
  function CopiesOf(gm: GroupMap, ms: seq<BrokerMessage>, id: ConnId): seq<Message> {
    if ms == [] then []
    else
      var m := ms[|ms| - 1];
      CopiesOf(gm, ms[..|ms| - 1], id) + Copies(Text(m.message), Occurrences(gm, m.groups, id))
  }

  ghost predicate Delivered(now: View, was: View, gm: GroupMap, ms: seq<BrokerMessage>) {
    now.Keys == was.Keys && forall id | id in was :: now[id].offered == was[id].offered + CopiesOf(gm, ms, id)
  }

  lemma DeliveredMore(now: View, mid: View, was: View, gm: GroupMap, ms: seq<BrokerMessage>, m: BrokerMessage)
    requires Delivered(mid, was, gm, ms) && Served(now, mid, gm, m.groups, m.message)
    ensures Delivered(now, was, gm, ms + [m])
  {
    assert (ms + [m])[..|ms|] == ms;
    forall id | id in was ensures now[id].offered == was[id].offered + CopiesOf(gm, ms + [m], id) {
      var more := Copies(Text(m.message), Occurrences(gm, m.groups, id));
      assert was[id].offered + CopiesOf(gm, ms, id) + more == was[id].offered + (CopiesOf(gm, ms, id) + more);
    }
  }

  /** One server's reception of a published message, in the form it travels in. */
  method Receive(payload: Value, channels: ChannelStore, ghost was: View, ghost done: seq<BrokerMessage>,
                 ghost m: BrokerMessage)
    requires channels.Valid() && FromJson(payload) == Some(m)
    requires Delivered(channels.View(), was, channels.groups, done)
    modifies channels.senders.Values
    ensures channels.Valid() && Delivered(channels.View(), was, channels.groups, done + [m])
  {
    hide AllGot, Served, Delivered;
    ghost var mid := channels.View();
    var ids := Dispatch(FromJson(payload).value, channels);
    GotIsServed(channels.View(), mid, channels.groups, m.groups, m.message, multiset(ids));
    DeliveredMore(channels.View(), mid, was, channels.groups, done, m);
  }

  /** A published message reaches a server. */
  datatype Reception = Reception(server: nat, m: BrokerMessage)

  /** What one server receives, in its order. */
  function ReceivedBy(receptions: seq<Reception>, k: nat): seq<BrokerMessage> {
    if receptions == [] then []
    else
      var r := receptions[|receptions| - 1];
      ReceivedBy(receptions[..|receptions| - 1], k) + (if r.server == k then [r.m] else [])
  }

  lemma ReceivedMore(receptions: seq<Reception>, i: nat, k: nat)
    requires i < |receptions|
    ensures ReceivedBy(receptions[..i + 1], k) ==
      ReceivedBy(receptions[..i], k) + (if receptions[i].server == k then [receptions[i].m] else [])
  {
    assert receptions[..i + 1][..i] == receptions[..i];
  }

  ghost function Views(servers: seq<ChannelStore>, all: set<Sender>): seq<View>
    requires Separate(servers, all)
    reads servers, all
  {
    seq(|servers|, k requires 0 <= k < |servers| && Separate(servers, all) reads servers, all => servers[k].View())
  }

  /** From was to now, every server has delivered what it received. */
  ghost predicate Reached(servers: seq<ChannelStore>, all: set<Sender>, was: seq<View>, receptions: seq<Reception>)
    requires Separate(servers, all)
    reads servers, all
  {
    |was| == |servers| && forall k | 0 <= k < |servers| ::
      servers[k].Valid() && Delivered(servers[k].View(), was[k], servers[k].groups, ReceivedBy(receptions, k))
  }

  lemma StartReached(servers: seq<ChannelStore>, all: set<Sender>)
    requires Separate(servers, all) && forall k | 0 <= k < |servers| :: servers[k].Valid()
    ensures Reached(servers, all, Views(servers, all), [])
  {
    hide ChannelStore.Valid, ChannelStore.View;
  }

  /** One more reception concerns the server it reaches and no other. */
  method ReceiveOn(servers: seq<ChannelStore>, ghost all: set<Sender>, ghost was: seq<View>,
                   receptions: seq<Reception>, i: nat)
    requires i < |receptions| && receptions[i].server < |servers|
    requires Separate(servers, all) && Reached(servers, all, was, receptions[..i])
    modifies all
    ensures Separate(servers, all) && Reached(servers, all, was, receptions[..i + 1])
  {
    hide Delivered, MakePayload, FromJson, ChannelStore.Valid, ChannelStore.View, ReceivedBy;
    var s, m := receptions[i].server, receptions[i].m;
    PayloadRoundTrip(m.groups, m.message);
    assert forall k | 0 <= k < |servers| && k != s :: servers[k].senders.Values !! servers[s].senders.Values;
    Receive(MakePayload(m.groups, m.message), servers[s], was[s], ReceivedBy(receptions[..i], s), m);
    forall k | 0 <= k < |servers|
      ensures Delivered(servers[k].View(), was[k], servers[k].groups, ReceivedBy(receptions[..i + 1], k))
    {
      ReceivedMore(receptions, i, k);
      assert k != s ==> ReceivedBy(receptions[..i], k) + [] == ReceivedBy(receptions[..i], k);
    }
  }

  /**
   Any number of publications, received by any number of servers in any order, each as often as the
   broker delivers it: every connection is offered, in its server's order of reception, as many copies
   of each message as that server received it times the groups on its list the connection is in there.
   */
  method FanOut(servers: seq<ChannelStore>, ghost all: set<Sender>, receptions: seq<Reception>)
    requires Separate(servers, all) && forall k | 0 <= k < |servers| :: servers[k].Valid()
    requires forall i | 0 <= i < |receptions| :: receptions[i].server < |servers|
    modifies all
    ensures Separate(servers, all) && Reached(servers, all, old(Views(servers, all)), receptions)
  {
    StartReached(servers, all);
    hide *;
    ghost var was := Views(servers, all);
    var i := 0;
    while i < |receptions|
      invariant i <= |receptions| && Separate(servers, all) && Reached(servers, all, was, receptions[..i])
    {
      ReceiveOn(servers, all, was, receptions, i);
      i := i + 1;
    }
    assert receptions[..i] == receptions;
  }

  /** In particular a server that receives one publication once gives each connection the quota of its groups there. */
  lemma ReceivedOnce(now: View, was: View, gm: GroupMap, m: BrokerMessage)
    requires Delivered(now, was, gm, [m])
    ensures Served(now, was, gm, m.groups, m.message)
  {
    forall id | id in was
      ensures now[id].offered == was[id].offered + Copies(Text(m.message), Occurrences(gm, m.groups, id))
    {
      assert CopiesOf(gm, [m], id) == [] + Copies(Text(m.message), Occurrences(gm, m.groups, id));
    }
  }

  // ---- Waiting between attempts ----

  const INITIAL_BACKOFF := 100
  const MAX_BACKOFF := 30000

  function Min(a: nat, b: nat): nat {
    if a <= b then a else b
  }

  function Pow2(n: nat): (p: nat)
    ensures p >= 1
  {
    if n == 0 then 1 else 2 * Pow2(n - 1)
  }

  /** The wait, in milliseconds, after the n-th failure in a row. */
  function Wait(n: nat): nat
    requires n >= 1
  {
    Min(INITIAL_BACKOFF * Pow2(n - 1), MAX_BACKOFF)
  }

  /** Doubling under the cap is capping the doubled: the update both listeners make. */
  lemma WaitDoubles(n: nat)
    requires n >= 1
    ensures Min(Wait(n) * 2, MAX_BACKOFF) == Wait(n + 1)
  {
  }

  lemma WaitNeverShrinks(n: nat)
    requires n >= 1
    ensures Wait(n) <= Wait(n + 1) <= MAX_BACKOFF
  {
    WaitDoubles(n);
  }

  function TotalWait(n: nat): nat {
    if n == 0 then 0 else TotalWait(n - 1) + Wait(n)
  }

  lemma {:induction false} Pow2Grows(a: nat, b: nat)
    requires a <= b
    ensures Pow2(a) <= Pow2(b)
    decreases b
  {
    if a < b { Pow2Grows(a, b - 1); }
  }

  lemma PowersNearCap()
    ensures Pow2(8) == 256 && Pow2(9) == 512
  {
    assert Pow2(3) == 8;
    assert Pow2(6) == 64;
  }

  lemma {:induction false} TotalBelowCap(n: nat)
    requires n <= 9
    ensures TotalWait(n) == INITIAL_BACKOFF * (Pow2(n) - 1)
  {
    if n > 0 {
      TotalBelowCap(n - 1);
      PowersNearCap();
      Pow2Grows(n - 1, 8);
    }
  }

  lemma CapReached(n: nat)
    requires n >= 10
    ensures Wait(n) == MAX_BACKOFF
  {
    PowersNearCap();
    Pow2Grows(9, n - 1);
  }

  /** The time spent waiting over the first n failures in a row. */
  lemma {:induction false} TotalWaitClosed(n: nat)
    ensures n <= 9 ==> TotalWait(n) == 100 * (Pow2(n) - 1)
    ensures n >= 9 ==> TotalWait(n) == 51100 + 30000 * (n - 9)
  {
    if n <= 9 {
      TotalBelowCap(n);
      PowersNearCap();
    } else {
      TotalWaitClosed(n - 1);
      CapReached(n);
    }
  }

  /** Length of the run of failures at the end of a history of attempts. */
  function FailuresInRow(failed: seq<bool>): nat {
    if failed == [] || !failed[|failed| - 1] then 0 else 1 + FailuresInRow(failed[..|failed| - 1])
  }

  function Waits(failed: seq<bool>): seq<nat> {
    if failed == [] then []
    else Waits(failed[..|failed| - 1]) + (if failed[|failed| - 1] then [Wait(FailuresInRow(failed))] else [])
  }

  function Sum(xs: seq<nat>): nat {
    if xs == [] then 0 else Sum(xs[..|xs| - 1]) + xs[|xs| - 1]
  }

  function Failing(n: nat): seq<bool> {
    seq(n, _ => true)
  }

  /** n failures in a row, at the start or after a session, make a listener wait for TotalWait(n) altogether. */
  lemma {:induction false} FailuresCost(before: seq<bool>, n: nat)
    requires FailuresInRow(before) == 0
    ensures FailuresInRow(before + Failing(n)) == n
    ensures Sum(Waits(before + Failing(n))) == Sum(Waits(before)) + TotalWait(n)
  {
    if n == 0 {
      assert before + Failing(0) == before;
    } else {
      FailuresCost(before, n - 1);
      hide Wait, Waits, Sum, FailuresInRow;
      assert before + Failing(n - 1) + [true] == before + Failing(n);
      OneMoreFailure(before + Failing(n - 1));
    }
  }

  lemma OneMoreFailure(failed: seq<bool>)
    ensures FailuresInRow(failed + [true]) == FailuresInRow(failed) + 1
    ensures Sum(Waits(failed + [true])) == Sum(Waits(failed)) + Wait(FailuresInRow(failed) + 1)
  {
    hide Wait;
    var n := FailuresInRow(failed) + 1;
    assert (failed + [true])[..|failed|] == failed;
    assert (Waits(failed) + [Wait(n)])[..|Waits(failed)|] == Waits(failed);
  }

  // ---- The listeners ----

  /** What the broker delivers: bytes that are no text, text that is no JSON, or JSON. */
  datatype Delivery = Unreadable | NotJson | Parsed(v: Value)

  /** How a connected session ends: the stream ends or fails, or the server shuts down. */
  datatype Session = Session(deliveries: seq<Delivery>, shutdown: bool)

  datatype RedisAttempt = ClientFails | ConnectFails | SubscribeFails | Subscribed(session: Session)
  datatype AmqpAttempt = SetupFails | Consuming(session: Session)

  /** Both kinds of attempt, as the reconnect machine sees them. */
  type Outcome = Option<Session>

  function OfRedis(a: RedisAttempt): Outcome {
    if a.Subscribed? then Some(a.session) else None
  }

  function OfAmqp(a: AmqpAttempt): Outcome {
    if a.Consuming? then Some(a.session) else None
  }

  function Failed(outcomes: seq<Outcome>): seq<bool> {
    seq(|outcomes|, i requires 0 <= i < |outcomes| => outcomes[i].None?)
  }

  /** The attempts made until a session is ended by the shutdown, that one included. */
  function Made(outcomes: seq<Outcome>): (n: nat)
    ensures n <= |outcomes|
    ensures forall k | 0 <= k < n - 1 :: outcomes[k].Some? ==> !outcomes[k].value.shutdown
    ensures n < |outcomes| ==> n > 0 && outcomes[n - 1].Some? && outcomes[n - 1].value.shutdown
  {
    if outcomes == [] then 0
    else if outcomes[0].Some? && outcomes[0].value.shutdown then 1
    else 1 + Made(outcomes[1..])
  }

  function Decoded(deliveries: seq<Delivery>): seq<BrokerMessage> {
    if deliveries == [] then []
    else
      var d := deliveries[|deliveries| - 1];
      Decoded(deliveries[..|deliveries| - 1]) +
      (if d.Parsed? && FromJson(d.v).Some? then [FromJson(d.v).value] else [])
  }

  function AllDecoded(outcomes: seq<Outcome>): seq<BrokerMessage> {
    if outcomes == [] then []
    else
      var o := outcomes[|outcomes| - 1];
      AllDecoded(outcomes[..|outcomes| - 1]) + (if o.Some? then Decoded(o.value.deliveries) else [])
  }

  predicate Decodable(d: Delivery) {
    d.Parsed? && FromJson(d.v).Some?
  }

  /** Which of the first n deliveries can be decoded. */
  function DecodableOf(deliveries: seq<Delivery>, n: nat): set<nat>
    requires n <= |deliveries|
  {
    set k: nat | k < n && Decodable(deliveries[k])
  }

  lemma OneMoreDelivery(deliveries: seq<Delivery>, n: nat)
    requires n < |deliveries|
    ensures |DecodableOf(deliveries, n + 1)| == |DecodableOf(deliveries, n)| + (if Decodable(deliveries[n]) then 1 else 0)
  {
    hide Decodable;
    var before, after := DecodableOf(deliveries, n), DecodableOf(deliveries, n + 1);
    assert n !in before;
    assert after == before + (if Decodable(deliveries[n]) then {n} else {});
  }

  lemma DecodedMore(deliveries: seq<Delivery>, d: Delivery)
    ensures Decoded(deliveries + [d]) == Decoded(deliveries) + (if Decodable(d) then [FromJson(d.v).value] else [])
  {
    hide FromJson;
    assert (deliveries + [d])[..|deliveries|] == deliveries;
  }

  lemma {:induction false} DecodedSize(deliveries: seq<Delivery>, n: nat)
    requires n <= |deliveries|
    ensures |Decoded(deliveries[..n])| == |DecodableOf(deliveries, n)|
  {
    if n > 0 {
      DecodedSize(deliveries, n - 1);
      OneMoreDelivery(deliveries, n - 1);
      DecodedMore(deliveries[..n - 1], deliveries[n - 1]);
      hide *;
      assert deliveries[..n - 1] + [deliveries[n - 1]] == deliveries[..n];
    } else {
      assert DecodableOf(deliveries, 0) == {};
    }
  }

  /**
   What is dispatched of a series of deliveries: one message for each that can be decoded, standing at
   the place given by the number of such deliveries before it.
   */
  lemma {:induction false} DecodedExactly(deliveries: seq<Delivery>, n: nat, k: nat)
    requires k < n <= |deliveries| && deliveries[k].Parsed? && FromJson(deliveries[k].v).Some?
    ensures |Decoded(deliveries[..n])| == |DecodableOf(deliveries, n)|
    ensures |DecodableOf(deliveries, k)| < |Decoded(deliveries[..n])|
    ensures Decoded(deliveries[..n])[|DecodableOf(deliveries, k)|] == FromJson(deliveries[k].v).value
    decreases n
  {
    DecodedSize(deliveries, n);
    DecodedSize(deliveries, n - 1);
    DecodedMore(deliveries[..n - 1], deliveries[n - 1]);
    assert k == n - 1 ==> Decodable(deliveries[k]);
    hide *;
    assert deliveries[..n - 1] + [deliveries[n - 1]] == deliveries[..n];
    if k < n - 1 { DecodedExactly(deliveries, n - 1, k); }
  }

  function Payloads(ms: seq<BrokerMessage>): seq<Delivery> {
    seq(|ms|, i requires 0 <= i < |ms| => Parsed(MakePayload(ms[i].groups, ms[i].message)))
  }

  /** What the servers publish is dispatched as it was published. */
  lemma {:induction false} PublishedIsDispatched(ms: seq<BrokerMessage>)
    ensures Decoded(Payloads(ms)) == ms
  {
    if ms != [] {
      var n := |ms| - 1;
      PublishedIsDispatched(ms[..n]);
      assert Payloads(ms)[..n] == Payloads(ms[..n]);
      PayloadRoundTrip(ms[n].groups, ms[n].message);
      hide FromJson, MakePayload;
      assert ms == ms[..n] + [ms[n]];
    }
  }

  lemma {:induction false} DecodedConcat(a: seq<Delivery>, b: seq<Delivery>)
    ensures Decoded(a + b) == Decoded(a) + Decoded(b)
  {
    if b == [] {
      assert a + b == a;
    } else {
      var n := |b| - 1;
      DecodedConcat(a, b[..n]);
      DecodedMore(b[..n], b[n]);
      DecodedMore(a + b[..n], b[n]);
      hide *;
      Rejoin(a, b);
      Associates(Decoded(a), Decoded(b[..n]), if Decodable(b[n]) then [FromJson(b[n].v).value] else []);
    }
  }

  lemma Associates<T>(a: seq<T>, b: seq<T>, c: seq<T>)
    ensures a + b + c == a + (b + c)
  {
  }

  lemma Rejoin<T>(a: seq<T>, b: seq<T>)
    requires b != []
    ensures b[..|b| - 1] + [b[|b| - 1]] == b
    ensures a + b[..|b| - 1] + [b[|b| - 1]] == a + b
  {
  }

  /** Everything the sessions among some attempts deliver, one session after the other. */
  function Received(outcomes: seq<Outcome>): seq<Delivery> {
    if outcomes == [] then []
    else
      var o := outcomes[|outcomes| - 1];
      Received(outcomes[..|outcomes| - 1]) + (if o.Some? then o.value.deliveries else [])
  }

  lemma ReceivedMoreOutcomes(outcomes: seq<Outcome>, o: Outcome)
    ensures Received([]) == []
    ensures Received(outcomes + [o]) == Received(outcomes) + (if o.Some? then o.value.deliveries else [])
  {
    assert (outcomes + [o])[..|outcomes|] == outcomes;
  }

  /** Over all sessions of a listener nothing else is dispatched, and in no other order. */
  lemma {:induction false} AllDecodedExactly(outcomes: seq<Outcome>)
    ensures AllDecoded(outcomes) == Decoded(Received(outcomes))
  {
    if outcomes != [] {
      var n, o := |outcomes| - 1, outcomes[|outcomes| - 1];
      AllDecodedExactly(outcomes[..n]);
      DecodedConcat(Received(outcomes[..n]), if o.Some? then o.value.deliveries else []);
      hide Decoded;
    }
  }

  /** The inner loop: every message that can be decoded is dispatched, in the order of arrival. */
  method Consume(deliveries: seq<Delivery>, channels: ChannelStore, ghost was: View, done: seq<BrokerMessage>)
    returns (dispatched: seq<BrokerMessage>)
    requires channels.Valid() && Delivered(channels.View(), was, channels.groups, done)
    modifies channels.senders.Values
    ensures channels.Valid() && Delivered(channels.View(), was, channels.groups, dispatched)
    ensures dispatched == done + Decoded(deliveries)
  {
    hide Delivered, AllGot, Served;
    dispatched := done;
    var i := 0;
    while i < |deliveries|
      invariant i <= |deliveries| && channels.Valid()
      invariant Delivered(channels.View(), was, channels.groups, dispatched)
      invariant dispatched == done + Decoded(deliveries[..i])
    {
      assert deliveries[..i + 1][..i] == deliveries[..i];
      if deliveries[i].Parsed? {
        var m := FromJson(deliveries[i].v);
        if m.Some? {
          ghost var mid := channels.View();
          var ids := Dispatch(m.value, channels);
          GotIsServed(channels.View(), mid, channels.groups, m.value.groups, m.value.message, multiset(ids));
          DeliveredMore(channels.View(), mid, was, channels.groups, dispatched, m.value);
          dispatched := dispatched + [m.value];
        }
      }
      i := i + 1;
    }
    assert deliveries[..i] == deliveries;
  }

  /** Where the reconnect machine is after n attempts. */
  ghost predicate OnTrack(
    outcomes: seq<Outcome>, n: nat, backoff: nat, waits: seq<nat>, dispatched: seq<BrokerMessage>)
  {
    && n <= |outcomes|
    && backoff == Wait(FailuresInRow(Failed(outcomes[..n])) + 1)
    && waits == Waits(Failed(outcomes[..n]))
    && dispatched == AllDecoded(outcomes[..n])
  }

  lemma StartOnTrack(outcomes: seq<Outcome>, was: View, gm: GroupMap)
    ensures OnTrack(outcomes, 0, INITIAL_BACKOFF, [], []) && Delivered(was, was, gm, [])
  {
    assert Failed(outcomes[..0]) == [];
    assert Wait(1) == INITIAL_BACKOFF;
  }

  lemma AfterFailure(outcomes: seq<Outcome>, n: nat, backoff: nat, waits: seq<nat>, dispatched: seq<BrokerMessage>)
    requires OnTrack(outcomes, n, backoff, waits, dispatched) && n < |outcomes| && outcomes[n].None?
    ensures OnTrack(outcomes, n + 1, Min(backoff * 2, MAX_BACKOFF), waits + [backoff], dispatched)
  {
    assert outcomes[..n + 1][..n] == outcomes[..n];
    assert Failed(outcomes[..n + 1])[..n] == Failed(outcomes[..n]);
    WaitDoubles(FailuresInRow(Failed(outcomes[..n])) + 1);
  }

  lemma AfterSession(outcomes: seq<Outcome>, n: nat, backoff: nat, waits: seq<nat>, dispatched: seq<BrokerMessage>)
    requires OnTrack(outcomes, n, backoff, waits, dispatched) && n < |outcomes| && outcomes[n].Some?
    ensures OnTrack(outcomes, n + 1, INITIAL_BACKOFF, waits, dispatched + Decoded(outcomes[n].value.deliveries))
  {
    assert outcomes[..n + 1][..n] == outcomes[..n];
    assert Failed(outcomes[..n + 1])[..n] == Failed(outcomes[..n]);
    assert Wait(1) == INITIAL_BACKOFF;
  }

  function RedisOutcomes(attempts: seq<RedisAttempt>): seq<Outcome> {
    seq(|attempts|, i requires 0 <= i < |attempts| => OfRedis(attempts[i]))
  }

  function AmqpOutcomes(attempts: seq<AmqpAttempt>): seq<Outcome> {
    seq(|attempts|, i requires 0 <= i < |attempts| => OfAmqp(attempts[i]))
  }

  /**
   The Redis listener, over the attempts it makes until it is shut down. Three different failures
   wait and double; a subscription resets the wait and dispatches what it receives.
   */
  method RedisListen(attempts: seq<RedisAttempt>, channels: ChannelStore)
    returns (waits: seq<nat>, dispatched: seq<BrokerMessage>)
    requires channels.Valid()
    modifies channels.senders.Values
    ensures channels.Valid() && Delivered(channels.View(), old(channels.View()), channels.groups, dispatched)
    ensures var made := RedisOutcomes(attempts)[..Made(RedisOutcomes(attempts))];
      waits == Waits(Failed(made)) && dispatched == Decoded(Received(made))
  {
    hide OnTrack, Delivered, AllDecoded, Received, Decoded, Waits, Failed, FailuresInRow, Wait, Made;
    hide ChannelStore.Valid, ChannelStore.View;
    ghost var outcomes := RedisOutcomes(attempts);
    ghost var was := channels.View();
    var backoff: nat := INITIAL_BACKOFF;
    waits, dispatched := [], [];
    StartOnTrack(outcomes, was, channels.groups);
    var i := 0;
    while i < |attempts|
      invariant i <= |attempts| && channels.Valid()
      invariant forall k | 0 <= k < i :: outcomes[k].Some? ==> !outcomes[k].value.shutdown
      invariant OnTrack(outcomes, i, backoff, waits, dispatched)
      invariant Delivered(channels.View(), was, channels.groups, dispatched)
      decreases |attempts| - i
    {
      match attempts[i] {
        case ClientFails =>
          AfterFailure(outcomes, i, backoff, waits, dispatched);
          waits := waits + [backoff];
          backoff := Min(backoff * 2, MAX_BACKOFF);
        case ConnectFails =>
          AfterFailure(outcomes, i, backoff, waits, dispatched);
          waits := waits + [backoff];
          backoff := Min(backoff * 2, MAX_BACKOFF);
        case SubscribeFails =>
          AfterFailure(outcomes, i, backoff, waits, dispatched);
          waits := waits + [backoff];
          backoff := Min(backoff * 2, MAX_BACKOFF);
        case Subscribed(session) =>
          AfterSession(outcomes, i, backoff, waits, dispatched);
          backoff := INITIAL_BACKOFF;
          dispatched := Consume(session.deliveries, channels, was, dispatched);
          if session.shutdown {
            OnTrackMeans(outcomes, i + 1, backoff, waits, dispatched);
            return;
          }
      }
      i := i + 1;
    }
    OnTrackMeans(outcomes, i, backoff, waits, dispatched);
  }

  lemma OnTrackMeans(outcomes: seq<Outcome>, n: nat, backoff: nat, waits: seq<nat>, dispatched: seq<BrokerMessage>)
    requires OnTrack(outcomes, n, backoff, waits, dispatched)
    requires forall k | 0 <= k < n - 1 :: outcomes[k].Some? ==> !outcomes[k].value.shutdown
    requires n < |outcomes| ==> n > 0 && outcomes[n - 1].Some? && outcomes[n - 1].value.shutdown
    ensures Made(outcomes) == n
    ensures waits == Waits(Failed(outcomes[..n])) && dispatched == Decoded(Received(outcomes[..n]))
  {
    AllDecodedExactly(outcomes[..n]);
  }

  /** Whichever of its three failures a Redis attempt meets, it counts as one; n of them wait for TotalWait(n). */
  lemma {:induction false} RedisFailures(attempts: seq<RedisAttempt>)
    requires forall k | 0 <= k < |attempts| :: attempts[k].ClientFails? || attempts[k].ConnectFails? || attempts[k].SubscribeFails?
    ensures Failed(RedisOutcomes(attempts)) == Failing(|attempts|)
    ensures Sum(Waits(Failed(RedisOutcomes(attempts)))) == TotalWait(|attempts|)
  {
    FailuresCost([], |attempts|);
    assert [] + Failing(|attempts|) == Failing(|attempts|);
    assert Failed(RedisOutcomes(attempts)) == Failing(|attempts|);
  }

  lemma {:induction false} AmqpFailures(attempts: seq<AmqpAttempt>)
    requires forall k | 0 <= k < |attempts| :: attempts[k].SetupFails?
    ensures Failed(AmqpOutcomes(attempts)) == Failing(|attempts|)
    ensures Sum(Waits(Failed(AmqpOutcomes(attempts)))) == TotalWait(|attempts|)
  {
    FailuresCost([], |attempts|);
    assert [] + Failing(|attempts|) == Failing(|attempts|);
    assert Failed(AmqpOutcomes(attempts)) == Failing(|attempts|);
  }

  /** An attempt that connects is a session, with its deliveries and its end. */
  lemma SessionsCount(redis: seq<RedisAttempt>, amqp: seq<AmqpAttempt>, k: nat)
    ensures k < |redis| && redis[k].Subscribed? ==>
      k < |RedisOutcomes(redis)| && RedisOutcomes(redis)[k] == Some(redis[k].session)
    ensures k < |amqp| && amqp[k].Consuming? ==>
      k < |AmqpOutcomes(amqp)| && AmqpOutcomes(amqp)[k] == Some(amqp[k].session)
  {
  }

  /** The AMQP listener: the same machine with one way to fail. */
  method AmqpListen(attempts: seq<AmqpAttempt>, channels: ChannelStore)
    returns (waits: seq<nat>, dispatched: seq<BrokerMessage>)
    requires channels.Valid()
    modifies channels.senders.Values
    ensures channels.Valid() && Delivered(channels.View(), old(channels.View()), channels.groups, dispatched)
    ensures var made := AmqpOutcomes(attempts)[..Made(AmqpOutcomes(attempts))];
      waits == Waits(Failed(made)) && dispatched == Decoded(Received(made))
  {
    hide OnTrack, Delivered, AllDecoded, Received, Decoded, Waits, Failed, FailuresInRow, Wait, Made;
    hide ChannelStore.Valid, ChannelStore.View;
    ghost var outcomes := AmqpOutcomes(attempts);
    ghost var was := channels.View();
    var backoff: nat := INITIAL_BACKOFF;
    waits, dispatched := [], [];
    StartOnTrack(outcomes, was, channels.groups);
    var i := 0;
    while i < |attempts|
      invariant i <= |attempts| && channels.Valid()
      invariant forall k | 0 <= k < i :: outcomes[k].Some? ==> !outcomes[k].value.shutdown
      invariant OnTrack(outcomes, i, backoff, waits, dispatched)
      invariant Delivered(channels.View(), was, channels.groups, dispatched)
      decreases |attempts| - i
    {
      match attempts[i] {
        case SetupFails =>
          AfterFailure(outcomes, i, backoff, waits, dispatched);
          waits := waits + [backoff];
          backoff := Min(backoff * 2, MAX_BACKOFF);
        case Consuming(session) =>
          AfterSession(outcomes, i, backoff, waits, dispatched);
          backoff := INITIAL_BACKOFF;
          dispatched := Consume(session.deliveries, channels, was, dispatched);
          if session.shutdown {
            OnTrackMeans(outcomes, i + 1, backoff, waits, dispatched);
            return;
          }
      }
      i := i + 1;
    }
    OnTrackMeans(outcomes, i, backoff, waits, dispatched);
  }
}
