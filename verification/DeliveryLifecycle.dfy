/**
 Membership over whole runs: the answers of join and leave add up to membership, removal cleans up
 whatever else is going on, and a callback that joins after the removal cannot bring messages back.
 */
module DeliveryLifecycle {
  import opened Wrappers
  import opened Messages
  import opened Membership
  import opened Delivery
  import opened DeliveryLedger
  import opened DeliveryCasts
  import opened DeliveryOrder

  // ---- Who can change a membership ----

  /** The event asks for a membership of this id to begin or end. */
  predicate Touches(e: Event, id: ConnId) {
    (e.Join? || e.Leave? || e.RemoveFrom?) && IdOf(e.s) == id
  }

  lemma MemberStep(st: State, e: Event, g: Group, id: ConnId)
    requires Enabled(st, e)
    ensures id in Members(Step(st, e).groups, g) <==>
      if Touches(e, id) && e.g == g then e.Join? else id in Members(st.groups, g)
  {
    hide Channel.Offer, Channel.Deliver, Channel.Stop, Channel.Wrote;
  }

  ghost predicate UntouchedDuring(run: Run, i: nat, j: nat, g: Group, id: ConnId) {
    forall k | i <= k < j && k < |run.events| :: !(Touches(run.events[k], id) && run.events[k].g == g)
  }

  /** Broadcasts, sends, writers, other connections' events and other groups' events never change a membership. */
  lemma {:induction false} MembershipIsOwn(run: Run, i: nat, j: nat, g: Group, id: ConnId)
    requires run.Valid() && i <= j < |run.states| && UntouchedDuring(run, i, j, g, id)
    ensures id in Members(run.states[j].groups, g) <==> id in Members(run.states[i].groups, g)
    decreases j
  {
    if i < j {
      hide Step, Enabled;
      MembershipIsOwn(run, i, j - 1, g, id);
      assert run.StepAt(j - 1);
      MemberStep(run.states[j - 1], run.events[j - 1], g, id);
    }
  }

  // ---- Joins and leaves balance ----

  /** What join(s, g) returns: the id was not in the group yet. */
  predicate JoinAnswer(st: State, s: nat, g: Group) {
    !Member(st, s, g)
  }

  /** What leave(s, g) returns: the id was in the group. */
  predicate LeaveAnswer(st: State, s: nat, g: Group) {
    Member(st, s, g)
  }

  /** Over the first k events: joins of s to g that returned true, minus leaves that did. */
  function Balance(run: Run, k: nat, s: nat, g: Group): int
    requires k <= |run.events| && k <= |run.states|
  {
    if k == 0 then 0
    else
      Balance(run, k - 1, s, g) +
      (if run.events[k - 1] == Join(s, g) && JoinAnswer(run.states[k - 1], s, g) then 1
       else if run.events[k - 1] == Leave(s, g) && LeaveAnswer(run.states[k - 1], s, g) then -1
       else 0)
  }

  ghost predicate NotRemoved(run: Run, k: nat, s: nat) {
    forall n | 0 <= n < k && n < |run.events| :: !(run.events[n].RemoveFrom? && run.events[n].s == s)
  }

  lemma EventIsOwn(st: State, e: Event, s: nat)
    requires Enabled(st, e) && Bounded(st) && s < TWO_TO_64 && Touches(e, IdOf(s))
    ensures e.s == s
  {
    IdsNeverReused(e.s);
    IdsNeverReused(s);
  }

  /**
   Membership ledger: until removal reaches its groups, a connection's successful joins of a group
   minus its successful leaves are 1 while it is a member and 0 while it is not.
   */
  lemma {:induction false} LedgerIsMembership(run: Run, k: nat, s: nat, g: Group)
    requires run.Valid() && k < |run.states| && Bounded(run.states[k]) && s < TWO_TO_64 && NotRemoved(run, k, s)
    ensures Balance(run, k, s, g) == if Member(run.states[k], s, g) then 1 else 0
  {
    if k > 0 {
      hide Step, Enabled;
      var st, e := run.states[k - 1], run.events[k - 1];
      assert run.StepAt(k - 1);
      StepCount(st, e);
      LedgerIsMembership(run, k - 1, s, g);
      MemberStep(st, e, g, IdOf(s));
      if Touches(e, IdOf(s)) { EventIsOwn(st, e, s); }
    }
  }

  // ---- Removal ----

  lemma RemovalPhase(st: State, e: Event, s: nat)
    requires Enabled(st, e) && st.Has(s)
    requires st.channels[s].phase.Removing? || st.channels[s].phase.Gone?
    ensures Step(st, e).Has(s)
    ensures Step(st, e).channels[s].phase ==
      if e.RemoveFrom? && e.s == s then Removing(st.channels[s].phase.todo - {e.g})
      else if e == RemoveDone(s) then Gone
      else st.channels[s].phase
  {
    hide Step;
    StepChannel(st, e, s);
  }

  lemma SendersStep(st: State, e: Event)
    requires Enabled(st, e)
    ensures Step(st, e).senders.Keys <= st.senders.Keys + (if e.Register? then {IdOf(|st.channels|)} else {})
  {
    StepSenders(st, e);
    hide Step, Enabled;
  }

  /** The id has no sender, and its lifecycle is in or past the removal. */
  predicate Dropped(st: State, s: nat) {
    && st.Has(s)
    && IdOf(s) !in st.senders
    && (st.channels[s].phase.Removing? || st.channels[s].phase.Gone?)
  }

  lemma DroppedStep(st: State, e: Event, s: nat)
    requires Enabled(st, e) && Dropped(st, s) && Bounded(Step(st, e))
    ensures Dropped(Step(st, e), s)
  {
    hide Step;
    StepCount(st, e);
    RemovalPhase(st, e, s);
    SendersStep(st, e);
    IdsNeverReused(s);
    if e.Register? { IdsNeverReused(|st.channels|); }
  }

  /** The event takes s out of g, by its own leave or by its removal. */
  predicate TakesOut(e: Event, s: nat, g: Group) {
    e == Leave(s, g) || e == RemoveFrom(s, g)
  }

  ghost predicate StaysIn(run: Run, n: nat, j: nat, s: nat, g: Group) {
    forall k | n < k < j && k < |run.events| :: !TakesOut(run.events[k], s, g)
  }

  /** Between states i and j, s joins g and is not taken out again. */
  ghost predicate JoinedSince(run: Run, i: nat, j: nat, s: nat, g: Group) {
    exists n | i <= n < j && n < |run.events| :: run.events[n] == Join(s, g) && StaysIn(run, n, j, s, g)
  }

  lemma JoinedSinceStep(run: Run, i: nat, j: nat, s: nat, g: Group)
    requires i <= j < |run.events|
    ensures JoinedSince(run, i, j + 1, s, g) <==>
      run.events[j] == Join(s, g) || (JoinedSince(run, i, j, s, g) && !TakesOut(run.events[j], s, g))
  {
    hide TakesOut;
    var e := run.events[j];
    if e == Join(s, g) {
      assert StaysIn(run, j, j + 1, s, g);
    } else if JoinedSince(run, i, j, s, g) && !TakesOut(e, s, g) {
      var n :| i <= n < j && n < |run.events| && run.events[n] == Join(s, g) && StaysIn(run, n, j, s, g);
      assert StaysIn(run, n, j + 1, s, g);
    }
  }

  /** s is in the groups it joined since, and otherwise only in groups that its removal has yet to visit. */
  predicate Residue(st: State, s: nat, g: Group, joined: bool)
    requires st.Has(s)
  {
    && (joined ==> Member(st, s, g))
    && (Member(st, s, g) && !joined ==> st.channels[s].phase.Removing? && g in st.channels[s].phase.todo)
  }

  lemma RemovalBegins(st: State, s: nat, g: Group)
    requires Enabled(st, RemoveSender(s))
    ensures Dropped(Step(st, RemoveSender(s)), s) && Residue(Step(st, RemoveSender(s)), s, g, false)
  {
  }

  lemma ResidueStep(st: State, e: Event, s: nat, g: Group, joined: bool)
    requires Enabled(st, e) && Bounded(st) && Dropped(st, s) && Residue(st, s, g, joined)
    ensures Step(st, e).Has(s)
    ensures Residue(Step(st, e), s, g, e == Join(s, g) || (joined && !TakesOut(e, s, g)))
  {
    hide Step;
    RemovalPhase(st, e, s);
    MemberStep(st, e, g, IdOf(s));
    if Touches(e, IdOf(s)) {
      EventIsOwn(st, e, s);
      assert e == Join(s, e.g) || e == Leave(s, e.g) || e == RemoveFrom(s, e.g);
    }
  }

  lemma {:induction false} RemovalRun(run: Run, i: nat, j: nat, s: nat, g: Group)
    requires run.Valid() && i < j < |run.states| && Bounded(run.states[j]) && run.events[i] == RemoveSender(s)
    ensures Dropped(run.states[j], s) && Residue(run.states[j], s, g, JoinedSince(run, i, j, s, g))
    decreases j
  {
    hide Step, Enabled, Dropped, Residue, TakesOut;
    var st, e := run.states[j - 1], run.events[j - 1];
    assert run.StepAt(j - 1);
    JoinedSinceStep(run, i, j - 1, s, g);
    hide JoinedSince;
    if i == j - 1 {
      NotJoinedYet(run, i, s, g);
      RemovalBegins(st, s, g);
    } else {
      BoundedBefore(run, j - 1, j);
      RemovalRun(run, i, j - 1, s, g);
      DroppedStep(st, e, s);
      ResidueStep(st, e, s, g, JoinedSince(run, i, j - 1, s, g));
    }
  }

  lemma NotJoinedYet(run: Run, i: nat, s: nat, g: Group)
    ensures !JoinedSince(run, i, i, s, g)
  {
  }

  /**
   What removal leaves behind, for any number of concurrent connections and whatever the callbacks of s
   still do: once the removal of s is done its id has no sender, and it is in exactly the groups it joined
   since the sender was dropped and was not taken out of again, by its own leave or by the removal itself.
   */
  lemma CleanupExactly(run: Run, i: nat, j: nat, s: nat, g: Group)
    requires run.Valid() && i < j < |run.states| && Bounded(run.states[j]) && run.events[i] == RemoveSender(s)
    requires run.states[j].Has(s) && run.states[j].channels[s].phase.Gone?
    ensures IdOf(s) !in run.states[j].senders
    ensures Member(run.states[j], s, g) <==> JoinedSince(run, i, j, s, g)
  {
    RemovalRun(run, i, j, s, g);
  }

  ghost predicate NoJoinDuring(run: Run, i: nat, j: nat, s: nat) {
    forall k | i <= k < j && k < |run.events| :: !(run.events[k].Join? && run.events[k].s == s)
  }

  /** In particular, if no callback of s joins a group while the removal runs, its id is in no group. */
  lemma Cleanup(run: Run, i: nat, j: nat, s: nat)
    requires run.Valid() && i < j < |run.states| && Bounded(run.states[j])
    requires run.events[i] == RemoveSender(s) && NoJoinDuring(run, i, j, s)
    requires run.states[j].Has(s) && run.states[j].channels[s].phase.Gone?
    ensures IdOf(s) !in run.states[j].senders
    ensures forall g :: !Member(run.states[j], s, g)
  {
    RemovalRun(run, i, j, s, "");
    forall g ensures !Member(run.states[j], s, g) { CleanupExactly(run, i, j, s, g); }
  }

  /**
   A group that s does not join again, and that nobody else joins or leaves meanwhile, loses exactly
   that id to the removal: it shrinks by one if s was in it and keeps its size if not.
   */
  lemma CleanupShrinks(run: Run, i: nat, j: nat, s: nat, g: Group)
    requires run.Valid() && i < j < |run.states| && Bounded(run.states[j]) && run.events[i] == RemoveSender(s)
    requires run.states[j].Has(s) && run.states[j].channels[s].phase.Gone?
    requires !JoinedSince(run, i, j, s, g)
    requires forall id | id != IdOf(s) :: UntouchedDuring(run, i, j, g, id)
    ensures Members(run.states[j].groups, g) == Members(run.states[i].groups, g) - {IdOf(s)}
    ensures |Members(run.states[j].groups, g)|
         == |Members(run.states[i].groups, g)| - (if Member(run.states[i], s, g) then 1 else 0)
  {
    CleanupExactly(run, i, j, s, g);
    var before, after := Members(run.states[i].groups, g), Members(run.states[j].groups, g);
    forall id ensures id in after <==> id in before - {IdOf(s)} {
      if id != IdOf(s) { MembershipIsOwn(run, i, j, g, id); }
    }
  }

  // ---- Joining after removal ----

  ghost predicate Unreachable(st: State, s: nat) {
    st.Has(s) && forall id | id in st.senders :: st.senders[id] != s
  }

  lemma UnreachableBegins(st: State, s: nat)
    requires Enabled(st, RemoveSender(s)) && Sound(st)
    ensures Unreachable(Step(st, RemoveSender(s)), s)
  {
    forall id | id in Step(st, RemoveSender(s)).senders ensures st.senders[id] != s {
      assert SenderOk(st, id);
    }
  }

  lemma UnreachableStep(st: State, e: Event, s: nat)
    requires Enabled(st, e) && Unreachable(st, s)
    ensures Unreachable(Step(st, e), s)
  {
    StepCount(st, e);
    StepSenders(st, e);
    hide Step, Enabled;
  }

  lemma NoGroupOffer(st: State, e: Event, s: nat, x: Item)
    requires Enabled(st, e) && Unreachable(st, s) && x.origin.ToGroup?
    ensures Step(st, e).Has(s)
    ensures Count(Step(st, e).channels[s].accepted, x) == Count(st.channels[s].accepted, x)
  {
    hide Step;
    CountStep(st, e, s, x);
  }

  lemma {:induction false} UnreachableRun(run: Run, i: nat, j: nat, s: nat)
    requires run.Valid() && i < j < |run.states| && run.events[i] == RemoveSender(s)
    ensures Unreachable(run.states[j], s)
    decreases j
  {
    hide Step, Enabled, Unreachable;
    assert run.StepAt(j - 1);
    if i == j - 1 {
      RunSound(run, i);
      UnreachableBegins(run.states[i], s);
    } else {
      UnreachableRun(run, i, j - 1, s);
      UnreachableStep(run.states[j - 1], run.events[j - 1], s);
    }
  }

  /**
   Late joins are harmless: whatever groups a running callback joins once the sender is gone, no
   broadcast copy is offered to the connection any more.
   */
  lemma {:induction false} LateJoinsHarmless(run: Run, i: nat, j: nat, s: nat, x: Item)
    requires run.Valid() && i < j < |run.states| && run.events[i] == RemoveSender(s) && x.origin.ToGroup?
    ensures run.states[i].Has(s) && run.states[j].Has(s)
    ensures Count(run.states[j].channels[s].accepted, x) == Count(run.states[i].channels[s].accepted, x)
    decreases j
  {
    hide Step;
    assert run.StepAt(i);
    assert run.StepAt(j - 1);
    if i == j - 1 {
      CountStep(run.states[i], run.events[i], s, x);
    } else {
      LateJoinsHarmless(run, i, j - 1, s, x);
      UnreachableRun(run, i, j - 1, s);
      NoGroupOffer(run.states[j - 1], run.events[j - 1], s, x);
    }
  }

  lemma OneLifecycle() returns (run: Run)
    ensures run.Valid()
    ensures run.Last() == State([FRESH.(writer := Idle, phase := Gone, abort := true)], map[], map[], {}, [])
  {
    run := FillUp(0);
    assert Filler(0) == [];
    run := Extend(run, ReaderEnds(0));
    run := Extend(run, RemoveSender(0));
    run := Extend(run, RemoveDone(0));
  }

  /** They do leave the id behind: being a member does not imply being registered. */
  lemma LateJoinStays(g: Group) returns (run: Run)
    ensures run.Valid() && run.Last().Has(0) && run.Last().channels[0].phase.Gone?
    ensures Member(run.Last(), 0, g) && IdOf(0) !in run.Last().senders
  {
    run := OneLifecycle();
    run := Extend(run, Join(0, g));
  }
}
