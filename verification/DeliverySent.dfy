/**
 What is sent to a connection, told by the events alone: one copy for each send or close on it, and one
 for each visit of a broadcast that finds it a registered, included member. What a channel accepted is
 exactly that, in that order, whatever the channel and its writer are doing.
 */
module DeliverySent {
  import opened Wrappers
  import opened Messages
  import opened Membership
  import opened Delivery
  import opened DeliveryLedger

  /** What the event sends to connection s. */
  function SentBy(st: State, e: Event, s: nat): seq<Item>
    requires Enabled(st, e)
  {
    match e
    case Send(t, msg) => if t == s then [Item(msg, Direct)] else []
    case CastVisit(b, id) =>
      var c := st.tasks[b];
      if id in Members(st.groups, c.groups[c.pos]) && c.exclude != Some(id) && id in st.senders && st.senders[id] == s
      then [Item(c.msg, ToGroup(b, c.pos, c.groups[c.pos]))] else []
    case _ => []
  }

  /** All that the first k events of a run sent to connection s, in their order. */
  ghost function SentTo(run: Run, k: nat, s: nat): seq<Item>
    requires run.Valid() && k < |run.states|
  {
    if k == 0 then []
    else
      assert run.StepAt(k - 1);
      SentTo(run, k - 1, s) + SentBy(run.states[k - 1], run.events[k - 1], s)
  }

  lemma SentMore(run: Run, k: nat, s: nat)
    requires run.Valid() && k < |run.events|
    ensures Enabled(run.states[k], run.events[k]) && run.states[k + 1] == Step(run.states[k], run.events[k])
    ensures SentTo(run, k + 1, s) == SentTo(run, k, s) + SentBy(run.states[k], run.events[k], s)
  {
    assert run.StepAt(k);
    hide SentBy, Step, Enabled;
  }

  lemma ChangeIsSent(st: State, e: Event, s: nat)
    requires Enabled(st, e) && st.Has(s)
    ensures match ChangeTo(st, e, s)
      case Offered(item) => SentBy(st, e, s) == [item]
      case _ => SentBy(st, e, s) == []
  {
  }

  lemma AcceptedStep(st: State, e: Event, s: nat)
    requires Enabled(st, e) && st.Has(s)
    ensures Step(st, e).Has(s)
    ensures Step(st, e).channels[s].accepted == st.channels[s].accepted + SentBy(st, e, s)
  {
    StepChannel(st, e, s);
    ChangeIsSent(st, e, s);
    hide Step, Enabled, ChangeTo, SentBy;
  }

  lemma NothingToStrangers(st: State, e: Event, s: nat)
    requires Enabled(st, e) && Sound(st) && !st.Has(s)
    ensures SentBy(st, e, s) == []
  {
    if e.CastVisit? { assert SenderOk(st, e.id); }
  }

  lemma {:induction false} SentNothingYet(run: Run, k: nat, s: nat)
    requires run.Valid() && k < |run.states| && !run.states[k].Has(s)
    ensures SentTo(run, k, s) == []
  {
    if k > 0 {
      var st, e := run.states[k - 1], run.events[k - 1];
      SentMore(run, k - 1, s);
      hide Step, SentBy, Enabled, SentTo, Sound, Run.Valid, Run.StepAt;
      StepCount(st, e);
      SentNothingYet(run, k - 1, s);
      RunSound(run, k - 1);
      NothingToStrangers(st, e, s);
    }
  }

  /** The channel as it comes into being has accepted nothing; from then on it accepts what is sent to it. */
  lemma AcceptedNext(st: State, e: Event, s: nat, sent: seq<Item>)
    requires Enabled(st, e) && Sound(st) && Step(st, e).Has(s)
    requires if st.Has(s) then st.channels[s].accepted == sent else sent == []
    ensures Step(st, e).channels[s].accepted == sent + SentBy(st, e, s)
  {
    StepCount(st, e);
    hide Step, SentBy, Enabled;
    if st.Has(s) {
      AcceptedStep(st, e, s);
    } else {
      NothingToStrangers(st, e, s);
    }
  }

  /** A channel has accepted exactly what was sent to its connection, in every run. */
  lemma {:induction false} AcceptedExactly(run: Run, k: nat, s: nat)
    requires run.Valid() && k < |run.states| && run.states[k].Has(s)
    ensures run.states[k].channels[s].accepted == SentTo(run, k, s)
  {
    if k > 0 {
      var st, e, sent := run.states[k - 1], run.events[k - 1], SentTo(run, k - 1, s);
      SentMore(run, k - 1, s);
      RunSound(run, k - 1);
      hide Step, SentBy, Enabled, SentTo, Sound, Run.Valid, Run.StepAt;
      if st.Has(s) { AcceptedExactly(run, k - 1, s); } else { SentNothingYet(run, k - 1, s); }
      AcceptedNext(st, e, s, sent);
    }
  }

  // ---- The sends among it ----

  /** The messages of the first k events that send to connection s directly. */
  function Sends(events: seq<Event>, k: nat, s: nat): seq<Message>
    requires k <= |events|
  {
    if k == 0 then []
    else Sends(events, k - 1, s) + (if events[k - 1].Send? && events[k - 1].s == s then [events[k - 1].msg] else [])
  }

  function Directs(items: seq<Item>): seq<Message> {
    if items == [] then []
    else
      var last := items[|items| - 1];
      Directs(items[..|items| - 1]) + (if last.origin.Direct? then [last.msg] else [])
  }

  lemma DirectsMore(items: seq<Item>, item: Item)
    ensures Directs(items + [item]) == Directs(items) + (if item.origin.Direct? then [item.msg] else [])
  {
    assert (items + [item])[..|items|] == items;
  }

  lemma DirectByEvent(st: State, e: Event, s: nat)
    requires Enabled(st, e)
    ensures var more := SentBy(st, e, s);
      if e.Send? && e.s == s then more == [Item(e.msg, Direct)]
      else more == [] || (more == [more[0]] && more[0].origin.ToGroup?)
  {
  }

  lemma DirectsNext(st: State, e: Event, s: nat, sent: seq<Item>)
    requires Enabled(st, e)
    ensures Directs(sent + SentBy(st, e, s)) == Directs(sent) + (if e.Send? && e.s == s then [e.msg] else [])
  {
    DirectByEvent(st, e, s);
    var more := SentBy(st, e, s);
    hide SentBy, Enabled, Directs;
    if more == [] {
      assert sent + more == sent;
    } else {
      DirectsMore(sent, more[0]);
    }
  }

  lemma {:induction false} DirectsOfSent(run: Run, k: nat, s: nat)
    requires run.Valid() && k < |run.states|
    ensures Directs(SentTo(run, k, s)) == Sends(run.events, k, s)
  {
    if k > 0 {
      SentMore(run, k - 1, s);
      hide Step, SentBy, Enabled, SentTo, Directs, Run.Valid, Run.StepAt;
      DirectsOfSent(run, k - 1, s);
      DirectsNext(run.states[k - 1], run.events[k - 1], s, SentTo(run, k - 1, s));
    }
  }

  /** The direct copies a channel has accepted are the messages of the sends on its connection, one each, in order. */
  lemma SendsExactly(run: Run, k: nat, s: nat)
    requires run.Valid() && k < |run.states| && run.states[k].Has(s)
    ensures Directs(run.states[k].channels[s].accepted) == Sends(run.events, k, s)
  {
    AcceptedExactly(run, k, s);
    DirectsOfSent(run, k, s);
  }

  /**
   Conservation, told by the events: what was sent to a connection, by sends on it or by broadcasts, has
   been written, is with the writer, queued, held by a broadcast or spill task, dropped with the receiver
   or refused after that, each copy in exactly one of these places.
   */
  lemma SentIsConserved(run: Run, k: nat, s: nat, x: Item)
    requires run.Valid() && k < |run.states| && run.states[k].Has(s)
    ensures var ch := run.states[k].channels[s];
      multiset(SentTo(run, k, s))[x] ==
        multiset(ch.written)[x] + multiset(ch.Hand())[x] + multiset(ch.queue)[x] + Held(run.states[k].tasks, s, x)
        + multiset(ch.lost)[x] + multiset(ch.refused)[x]
  {
    AcceptedExactly(run, k, s);
    Conservation(run, k, s, x);
    hide Held;
  }
}
