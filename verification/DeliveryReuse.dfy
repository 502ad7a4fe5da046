/**
 How long broadcasts reach only connections that asked for them: as long as no connection id is handed
 out a second time, and not one registration longer.
 */
module DeliveryReuse {
  import opened Wrappers
  import opened Messages
  import opened Membership
  import opened Delivery
  import opened DeliveryLedger
  import opened DeliveryCasts
  import opened DeliveryOrder

  // ---- A run in which an id is handed out twice ----

  /** n connections, none of them served yet; the last one has the sender of its id. */
  predicate JustRegistered(st: State, n: nat) {
    && |st.channels| == n && (forall s | 0 <= s < n :: st.channels[s] == FRESH)
    && (n > 0 ==> IdOf(n - 1) in st.senders && st.senders[IdOf(n - 1)] == n - 1)
    && st.groups == map[] && st.joined == {} && st.tasks == []
  }

  lemma {:induction false} RegisterMany(n: nat) returns (run: Run)
    ensures run.Valid() && JustRegistered(run.Last(), n)
  {
    if n == 0 {
      run := START;
    } else {
      run := RegisterMany(n - 1);
      run := Extend(run, Register);
    }
  }

  /** The first connection joins g, and a broadcast to g is about to visit its id. */
  lemma JoinThenCast(n: nat, g: Group, msg: Message) returns (run: Run)
    requires n > 0 && !msg.Close?
    ensures run.Valid()
    ensures var st := run.Last();
      && |st.channels| == n && st.channels[n - 1] == FRESH
      && IdOf(n - 1) in st.senders && st.senders[IdOf(n - 1)] == n - 1
      && st.groups == map[g := {IdOf(0)}] && st.joined == {(0, g)}
      && st.tasks == [Cast(msg, [g], None, 0, Some({IdOf(0)}), [], false)]
  {
    run := RegisterMany(n);
    run := Extend(run, Join(0, g));
    var nobody: set<ConnId> := {};
    assert nobody + {IdOf(0)} == {IdOf(0)};
    assert run.Last().groups == map[g := {IdOf(0)}];
    run := Extend(run, CastStart(msg, [g], None));
    run := Extend(run, CastEnter(0));
  }

  /**
   With one registration more than there are ids, the last connection has the id of the first, and is
   offered a message for a group that only the first one joined.
   */
  lemma CrossDelivery(g: Group, msg: Message) returns (run: Run)
    requires !msg.Close?
    ensures run.Valid() && |run.Last().channels| == TWO_TO_64 + 1
    ensures var x := Item(msg, ToGroup(0, 0, g));
      x in run.Last().channels[TWO_TO_64].accepted && x in run.Last().channels[TWO_TO_64].queue
    ensures run.Last().joined == {(0, g)}
  {
    var last: nat := TWO_TO_64;
    IdsWrap(0);
    run := JoinThenCast(last + 1, g, msg);
    var st := run.Last();
    StepChannel(st, CastVisit(0, IdOf(0)), last);
    VisitKeeps(st, 0, IdOf(0));
    run := Extend(run, CastVisit(0, IdOf(0)));
  }

  lemma VisitKeeps(st: State, b: nat, id: ConnId)
    requires Enabled(st, CastVisit(b, id))
    ensures Step(st, CastVisit(b, id)).joined == st.joined
    ensures |Step(st, CastVisit(b, id)).channels| == |st.channels|
  {
  }

  // ---- The exact bound ----

  /** Among the first k events, connection s asks to be in g. */
  ghost predicate AskedToJoin(run: Run, k: nat, s: nat, g: Group) {
    exists n | 0 <= n < k && n < |run.events| :: run.events[n] == Join(s, g)
  }

  /** In every run with at most n registrations, a group copy is only offered to a connection that joined its group. */
  ghost predicate OnlyJoined(n: nat) {
    forall run: Run, k: nat, s: nat, x: Item |
      && run.Valid() && k < |run.states| && |run.states[k].channels| <= n && run.states[k].Has(s)
      && x in run.states[k].channels[s].accepted && x.origin.ToGroup? ::
        AskedToJoin(run, k, s, x.origin.group)
  }

  /** Broadcasts stay within the groups joined for as many registrations as there are ids, and no further. */
  lemma OnlyJoinedExactly(n: nat)
    ensures OnlyJoined(n) <==> n <= TWO_TO_64
  {
    if n <= TWO_TO_64 {
      forall run: Run, k: nat, s: nat, x: Item |
        && run.Valid() && k < |run.states| && |run.states[k].channels| <= n && run.states[k].Has(s)
        && x in run.states[k].channels[s].accepted && x.origin.ToGroup?
        ensures AskedToJoin(run, k, s, x.origin.group)
      {
        var _, m := GroupCopies(run, k, s, x);
      }
    } else {
      var run := CrossDelivery("", Text(""));
      var k, s, x := |run.states| - 1, TWO_TO_64, Item(Text(""), ToGroup(0, 0, ""));
      assert run.states[k].Has(s) && x in run.states[k].channels[s].accepted;
      if AskedToJoin(run, k, s, "") {
        var m :| 0 <= m < k && run.events[m] == Join(s, "");
        JoinNoted(run, m, k, s, "");
        assert false;
      }
    }
  }

  lemma {:induction false} JoinNoted(run: Run, m: nat, k: nat, s: nat, g: Group)
    requires run.Valid() && m < k < |run.states| && run.events[m] == Join(s, g)
    ensures (s, g) in run.states[k].joined
    decreases k
  {
    assert run.StepAt(k - 1);
    hide Step, Enabled;
    JoinedStep(run.states[k - 1], run.events[k - 1]);
    if m < k - 1 { JoinNoted(run, m, k - 1, s, g); }
  }
}
