/** A route while handlers are registered on it, and the snapshot its connections use. */
module Routes {
  import opened Wrappers
  import opened Json
  import opened Routing

  datatype Error = SchemaNotPydantic | MatchTaken | GenericTaken

  /** A schema and whether it can validate JSON. */
  datatype Schema = Schema(id: nat, validates: bool)

  datatype Match = Match(keys: seq<string>, values: seq<MatchValue>, removeKey: bool)

  function SchemaId(schema: Option<Schema>): Option<nat> {
    match schema case None => None case Some(s) => Some(s.id)
  }

  predicate Clashes(log: Log, m: Match) {
    exists key, value | key in m.keys && value in m.values :: Bound(log, key, value)
  }

  /** Where the insertion loops are: all pairs of the first i keys, and the first j values of the next one. */
  predicate Reached(m: Match, i: nat, j: nat, key: string, value: MatchValue)
    requires i <= |m.keys| && j <= |m.values|
  {
    || (key in m.keys[..i] && value in m.values)
    || (i < |m.keys| && key == m.keys[i] && value in m.values[..j])
  }

  /** The log has been extended by the pairs reached so far, each bound to the handler. */
  ghost predicate Added(was: Log, now: Log, m: Match, i: nat, j: nat, handler: Handler)
    requires i <= |m.keys| && j <= |m.values|
  {
    && was <= now && DistinctLog(now)
    && (forall key, value :: Bound(now, key, value) <==> Bound(was, key, value) || Reached(m, i, j, key, value))
    && (forall k | |was| <= k < |now| :: now[k].handler == handler)
  }

  function AddIfNew(log: Log, b: Binding): Log {
    if Bound(log, b.key, b.value) then log else log + [b]
  }

  /** The log after the pairs reached so far: key by key, each with the values in their order. */
  function Extended(log: Log, m: Match, handler: Handler, i: nat, j: nat): Log
    requires i <= |m.keys| && j <= |m.values| && (j > 0 ==> i < |m.keys|)
    decreases i, j
  {
    if j > 0 then AddIfNew(Extended(log, m, handler, i, j - 1), Binding(m.keys[i], m.values[j - 1], handler))
    else if i > 0 then Extended(log, m, handler, i - 1, |m.values|)
    else log
  }

  /** The handler runs this callback, behind this schema, and keeps or drops the key as asked. */
  predicate IsFor(h: Handler, callback: nat, schema: Option<Schema>, removeKey: bool) {
    && h.callback == callback && h.removeKey == removeKey
    && (schema.None? ==> h.schema.None?) && (schema.Some? ==> h.schema == Some(schema.value.id))
  }

  // ---- The order of the pairs of one match ----

  function FirstAt<T(==)>(xs: seq<T>, x: T): (i: nat)
    ensures i <= |xs| && (i < |xs| <==> x in xs) && (i < |xs| ==> xs[i] == x)
    ensures forall k | 0 <= k < i :: xs[k] != x
  {
    if xs == [] || xs[0] == x then 0 else 1 + FirstAt(xs[1..], x)
  }

  /** The match names the pair of p before that of q: by key, and by value among those of one key. */
  predicate Sooner(m: Match, p: Binding, q: Binding) {
    || FirstAt(m.keys, p.key) < FirstAt(m.keys, q.key)
    || (p.key == q.key && FirstAt(m.values, p.value) < FirstAt(m.values, q.value))
  }

  /** The pair of p is among those reached. */
  predicate Within(m: Match, i: nat, j: nat, p: Binding) {
    && p.key in m.keys && p.value in m.values
    && (FirstAt(m.keys, p.key) < i || (FirstAt(m.keys, p.key) == i && FirstAt(m.values, p.value) < j))
  }

  ghost predicate OrderedFrom(now: Log, n: nat, m: Match, i: nat, j: nat) {
    && (forall a | n <= a < |now| :: Within(m, i, j, now[a]))
    && (forall a, b | n <= a < b < |now| :: Sooner(m, now[a], now[b]))
  }

  lemma {:induction false} ExtendedInOrder(log: Log, m: Match, handler: Handler, i: nat, j: nat)
    requires i <= |m.keys| && j <= |m.values| && (j > 0 ==> i < |m.keys|)
    ensures var now := Extended(log, m, handler, i, j);
      && log <= now && OrderedFrom(now, |log|, m, i, j)
      && (forall key, value | Reached(m, i, j, key, value) :: Bound(now, key, value))
    decreases i, j
  {
    if j > 0 {
      ExtendedInOrder(log, m, handler, i, j - 1);
      ReachedMore(m, i, j - 1);
      AddedInOrder(log, Extended(log, m, handler, i, j - 1), m, i, j - 1, handler);
    } else if i > 0 {
      ExtendedInOrder(log, m, handler, i - 1, |m.values|);
      assert m.values[..|m.values|] == m.values;
      assert m.keys[..i] == m.keys[..i - 1] + [m.keys[i - 1]];
      hide Extended, FirstAt;
    }
  }

  /** A pair with an earlier place in the match has been reached there. */
  lemma FirstReached(m: Match, i: nat, j: nat)
    requires i < |m.keys| && j < |m.values|
    ensures FirstAt(m.keys, m.keys[i]) <= i && FirstAt(m.values, m.values[j]) <= j
    ensures FirstAt(m.keys, m.keys[i]) < i || FirstAt(m.values, m.values[j]) < j ==>
      Reached(m, i, j, m.keys[i], m.values[j])
  {
    var a, v := FirstAt(m.keys, m.keys[i]), FirstAt(m.values, m.values[j]);
    if a < i { assert m.keys[..i][a] == m.keys[i]; }
    if v < j { assert m.values[..j][v] == m.values[j]; }
  }

  lemma AddedInOrder(log: Log, now: Log, m: Match, i: nat, j: nat, handler: Handler)
    requires i < |m.keys| && j < |m.values| && log <= now && OrderedFrom(now, |log|, m, i, j)
    requires forall key, value | Reached(m, i, j, key, value) :: Bound(now, key, value)
    ensures var next := AddIfNew(now, Binding(m.keys[i], m.values[j], handler));
      && log <= next && OrderedFrom(next, |log|, m, i, j + 1)
      && (forall key, value | Bound(now, key, value) || (key == m.keys[i] && value == m.values[j]) :: Bound(next, key, value))
  {
    var b := Binding(m.keys[i], m.values[j], handler);
    BoundMore(now, b);
    WithinMore(now, |log|, m, i, j);
    if !Bound(now, b.key, b.value) {
      FirstReached(m, i, j);
      assert FirstAt(m.keys, b.key) == i && FirstAt(m.values, b.value) == j;
      hide Bound, Reached, FirstAt, OrderedFrom;
      OrderedMore(now, |log|, m, i, j, b);
    }
  }

  lemma WithinMore(now: Log, n: nat, m: Match, i: nat, j: nat)
    requires OrderedFrom(now, n, m, i, j)
    ensures OrderedFrom(now, n, m, i, j + 1)
  {
    hide FirstAt, Sooner;
  }

  lemma OrderedMore(now: Log, n: nat, m: Match, i: nat, j: nat, b: Binding)
    requires n <= |now| && OrderedFrom(now, n, m, i, j) && b.key in m.keys && b.value in m.values
    requires FirstAt(m.keys, b.key) == i && FirstAt(m.values, b.value) == j
    ensures OrderedFrom(now + [b], n, m, i, j + 1)
  {
    hide FirstAt;
    var next := now + [b];
    forall k | n <= k < |now| ensures Within(m, i, j, next[k]) && Sooner(m, next[k], b) {
      assert Within(m, i, j, now[k]);
      if FirstAt(m.keys, now[k].key) == i { SameKey(m, now[k], b); }
    }
  }

  lemma SameKey(m: Match, p: Binding, q: Binding)
    requires p.key in m.keys && FirstAt(m.keys, p.key) == FirstAt(m.keys, q.key)
    ensures p.key == q.key
  {
  }

  lemma NewInOrder(log: Log, m: Match, handler: Handler)
    ensures var now := Extended(log, m, handler, |m.keys|, 0);
      |log| <= |now| && forall a, b | |log| <= a < b < |now| :: Sooner(m, now[a], now[b])
  {
    ExtendedInOrder(log, m, handler, |m.keys|, 0);
  }

  lemma ReachedMore(m: Match, i: nat, j: nat)
    requires i < |m.keys| && j < |m.values|
    ensures forall key, value ::
      Reached(m, i, j + 1, key, value) <==> Reached(m, i, j, key, value) || (key == m.keys[i] && value == m.values[j])
  {
    assert m.values[..j + 1] == m.values[..j] + [m.values[j]];
  }

  lemma AddNewPair(was: Log, now: Log, m: Match, i: nat, j: nat, handler: Handler)
    requires i < |m.keys| && j < |m.values| && Added(was, now, m, i, j, handler)
    requires !Bound(now, m.keys[i], m.values[j])
    ensures Added(was, now + [Binding(m.keys[i], m.values[j], handler)], m, i, j + 1, handler)
  {
    var b := Binding(m.keys[i], m.values[j], handler);
    ReachedMore(m, i, j);
    BoundMore(now, b);
    hide Reached;
    assert DistinctLog(now + [b]);
  }

  lemma AddOldPair(was: Log, now: Log, m: Match, i: nat, j: nat, handler: Handler)
    requires i < |m.keys| && j < |m.values| && Added(was, now, m, i, j, handler)
    requires Bound(now, m.keys[i], m.values[j]) && !Bound(was, m.keys[i], m.values[j])
    ensures Added(was, now, m, i, j + 1, handler)
    ensures TableOf(now) == Insert(TableOf(now), m.keys[i], m.values[j], handler)
  {
    ReachedMore(m, i, j);
    assert forall k | 0 <= k < |was| :: was[k] == now[k];
    InsertAgain(now, m.keys[i], m.values[j], handler);
  }

  lemma AddPair(was: Log, now: Log, m: Match, i: nat, j: nat, handler: Handler) returns (next: Log)
    requires i < |m.keys| && j < |m.values| && Added(was, now, m, i, j, handler)
    requires now == Extended(was, m, handler, i, j)
    requires !Bound(was, m.keys[i], m.values[j])
    ensures Added(was, next, m, i, j + 1, handler)
    ensures next == Extended(was, m, handler, i, j + 1)
    ensures TableOf(next) == Insert(TableOf(now), m.keys[i], m.values[j], handler)
  {
    hide Added, Insert, TableOf, Bound;
    var b := Binding(m.keys[i], m.values[j], handler);
    next := AddIfNew(now, b);
    if Bound(now, b.key, b.value) {
      AddOldPair(was, now, m, i, j, handler);
    } else {
      AddNewPair(was, now, m, i, j, handler);
      InsertIsAppend(now, b);
    }
  }

  lemma BoundMore(log: Log, b: Binding)
    ensures forall key, value ::
      Bound(log + [b], key, value) <==> Bound(log, key, value) || (key == b.key && value == b.value)
  {
    forall key, value
      ensures Bound(log + [b], key, value) <==> Bound(log, key, value) || (key == b.key && value == b.value)
    {
      assert (log + [b])[|log|] == b;
      if Bound(log, key, value) {
        var i :| 0 <= i < |log| && log[i].key == key && log[i].value == value;
        assert (log + [b])[i] == log[i];
      }
    }
  }

  lemma NextKey(was: Log, now: Log, m: Match, i: nat, handler: Handler)
    requires i < |m.keys| && Added(was, now, m, i, |m.values|, handler)
    ensures Added(was, now, m, i + 1, 0, handler)
  {
    assert m.values[..|m.values|] == m.values;
    assert m.keys[..i + 1] == m.keys[..i] + [m.keys[i]];
  }

  // ---- Whole histories of a route ----

  /** What is registered on a route. */
  datatype Registry = Registry(log: Log, generic: Option<Handler>)

  /** One call on a route: a registration, or a connection asking for the handlers. */
  datatype Call =
    | Register(spec: Option<Match>, schema: Option<Schema>, callback: nat)
    | Connect

  /** What a connection is given: the frozen table, and the generic handler of that moment. */
  datatype Given = Given(handlers: Table, generic: Option<Handler>)

  /** What a call leaves registered; a refused registration leaves everything as it was. */
  ghost function After(r: Registry, call: Call): Registry {
    match call
    case Connect => r
    case Register(spec, schema, callback) =>
      if schema.Some? && !schema.value.validates then r
      else match spec
        case Some(m) =>
          if Clashes(r.log, m) then r
          else r.(log := Extended(r.log, m, Handler(callback, SchemaId(schema), m.removeKey), |m.keys|, 0))
        case None =>
          if r.generic.Some? then r else r.(generic := Some(Handler(callback, SchemaId(schema), false)))
  }

  ghost function AfterAll(r: Registry, calls: seq<Call>): Registry {
    if calls == [] then r else After(AfterAll(r, calls[..|calls| - 1]), calls[|calls| - 1])
  }

  /** The number of calls before the first connection. */
  function BeforeConnect(calls: seq<Call>): (n: nat)
    ensures n <= |calls| && (n < |calls| ==> calls[n].Connect?)
    ensures forall k | 0 <= k < n :: !calls[k].Connect?
  {
    if calls == [] || calls[0].Connect? then 0 else 1 + BeforeConnect(calls[1..])
  }

  /** What the connections are given, in their order, if all get the same table. */
  ghost function AllGiven(r: Registry, table: Table, calls: seq<Call>): seq<Given> {
    if calls == [] then []
    else
      var before := calls[..|calls| - 1];
      AllGiven(r, table, before) +
      (if calls[|calls| - 1].Connect? then [Given(table, AfterAll(r, before).generic)] else [])
  }

  /** Which of the first n calls are connections. */
  function Connections(calls: seq<Call>, n: nat): set<nat>
    requires n <= |calls|
  {
    set k: nat | k < n && calls[k].Connect?
  }

  lemma OneMoreCall(calls: seq<Call>, n: nat)
    requires n < |calls|
    ensures |Connections(calls, n + 1)| == |Connections(calls, n)| + (if calls[n].Connect? then 1 else 0)
  {
    var before, after := Connections(calls, n), Connections(calls, n + 1);
    assert n !in before;
    assert after == before + (if calls[n].Connect? then {n} else {});
  }

  lemma GivenMore(r: Registry, table: Table, calls: seq<Call>, n: nat)
    requires n < |calls|
    ensures AllGiven(r, table, calls[..n + 1]) ==
      AllGiven(r, table, calls[..n]) + (if calls[n].Connect? then [Given(table, AfterAll(r, calls[..n]).generic)] else [])
  {
    hide AfterAll;
    assert calls[..n + 1][..n] == calls[..n];
  }

  lemma {:induction false} GivenSize(r: Registry, table: Table, calls: seq<Call>, n: nat)
    requires n <= |calls|
    ensures |AllGiven(r, table, calls[..n])| == |Connections(calls, n)|
  {
    if n > 0 {
      GivenSize(r, table, calls, n - 1);
      OneMoreCall(calls, n - 1);
      GivenMore(r, table, calls, n - 1);
      hide *;
    }
  }

  /** Each connection is given the table, and the generic handler that the calls before it have left. */
  lemma {:induction false} GivenExactly(r: Registry, table: Table, calls: seq<Call>, n: nat, k: nat)
    requires k < n <= |calls| && calls[k].Connect?
    ensures |AllGiven(r, table, calls[..n])| == |Connections(calls, n)|
    ensures |Connections(calls, k)| < |AllGiven(r, table, calls[..n])|
    ensures AllGiven(r, table, calls[..n])[|Connections(calls, k)|] == Given(table, AfterAll(r, calls[..k]).generic)
    decreases n
  {
    GivenSize(r, table, calls, n);
    GivenSize(r, table, calls, n - 1);
    GivenMore(r, table, calls, n - 1);
    hide *;
    if k < n - 1 { GivenExactly(r, table, calls, n - 1, k); }
  }

  class WebsocketRoute {
    var handlers: Table
    var snapshot: Option<Table>
    var generic: Option<Handler>
    ghost var log: Log

    ghost predicate Valid()
      reads this
    {
      DistinctLog(log) && handlers == TableOf(log)
    }

    ghost function Registered(): Registry
      reads this
    {
      Registry(log, generic)
    }

    constructor ()
      ensures Valid() && log == [] && snapshot == None && generic == None
    {
      handlers, snapshot, generic, log := [], None, None, [];
    }

    /** Is some pair of the match taken already? */
    method Taken(m: Match) returns (taken: bool)
      requires Valid()
      ensures taken <==> Clashes(log, m)
    {
      taken := false;
      var i := 0;
      while i < |m.keys|
        invariant i <= |m.keys|
        invariant forall key, value | key in m.keys[..i] && value in m.values :: !Bound(log, key, value)
      {
        var j := 0;
        while j < |m.values|
          invariant j <= |m.values|
          invariant forall value | value in m.values[..j] :: !Bound(log, m.keys[i], value)
        {
          ContainsIsBound(log, m.keys[i], m.values[j]);
          if Contains(handlers, m.keys[i], m.values[j]) {
            assert m.keys[i] in m.keys && m.values[j] in m.values;
            return true;
          }
          assert m.values[..j + 1] == m.values[..j] + [m.values[j]];
          j := j + 1;
        }
        assert m.values[..j] == m.values;
        assert m.keys[..i + 1] == m.keys[..i] + [m.keys[i]];
        i := i + 1;
      }
      assert m.keys[..i] == m.keys;
    }

    /** The second pair of loops, run when no pair is taken. */
    method InsertAll(m: Match, handler: Handler)
      requires Valid() && !Clashes(log, m)
      modifies this
      ensures Valid() && snapshot == old(snapshot) && generic == old(generic)
      ensures old(log) <= log && log == Extended(old(log), m, handler, |m.keys|, 0)
      ensures forall key, value ::
        Bound(log, key, value) <==> Bound(old(log), key, value) || (key in m.keys && value in m.values)
      ensures forall k | |old(log)| <= k < |log| :: log[k].handler == handler
    {
      var i := 0;
      while i < |m.keys|
        invariant i <= |m.keys| && Added(old(log), log, m, i, 0, handler) && handlers == TableOf(log)
        invariant log == Extended(old(log), m, handler, i, 0)
        invariant snapshot == old(snapshot) && generic == old(generic)
      {
        var j := 0;
        while j < |m.values|
          invariant j <= |m.values| && Added(old(log), log, m, i, j, handler) && handlers == TableOf(log)
          invariant log == Extended(old(log), m, handler, i, j)
          invariant snapshot == old(snapshot) && generic == old(generic)
        {
          hide Added, TableOf, Insert, Extended;
          assert m.keys[i] in m.keys && m.values[j] in m.values;
          log := AddPair(old(log), log, m, i, j, handler);
          handlers := Insert(handlers, m.keys[i], m.values[j], handler);
          j := j + 1;
        }
        NextKey(old(log), log, m, i, handler);
        i := i + 1;
      }
      assert m.keys[..i] == m.keys;
    }

    /**
     The receive decorator. A schema that cannot validate, a pair that is taken, or a second generic
     handler is refused and changes nothing; otherwise all pairs of the match are bound, behind
     everything registered before, and no earlier binding or snapshot changes.
     */
    method Receive(spec: Option<Match>, schema: Option<Schema>, callback: nat) returns (r: Result<(), Error>)
      requires Valid()
      modifies this
      ensures Valid() && snapshot == old(snapshot)
      ensures Registered() == After(old(Registered()), Register(spec, schema, callback))
      ensures r.Err? ==> handlers == old(handlers) && log == old(log) && generic == old(generic)
      ensures schema.Some? && !schema.value.validates ==> r == Err(SchemaNotPydantic)
      ensures r == Err(SchemaNotPydantic) ==> schema.Some? && !schema.value.validates
      ensures r == Err(MatchTaken) ==> spec.Some? && Clashes(old(log), spec.value)
      ensures r == Err(GenericTaken) ==> spec.None? && old(generic).Some?
      ensures r.Ok? && spec.Some? ==> !Clashes(old(log), spec.value) && generic == old(generic) && old(log) <= log
      ensures r.Ok? && spec.Some? ==>
        log == Extended(old(log), spec.value, Handler(callback, SchemaId(schema), spec.value.removeKey), |spec.value.keys|, 0)
      ensures r.Ok? && spec.Some? ==>
        forall key, value ::
          Bound(log, key, value) <==> Bound(old(log), key, value) || (key in spec.value.keys && value in spec.value.values)
      ensures r.Ok? && spec.Some? ==>
        forall k | |old(log)| <= k < |log| :: IsFor(log[k].handler, callback, schema, spec.value.removeKey)
      ensures r.Ok? && spec.Some? ==>
        forall a, b | |old(log)| <= a < b < |log| :: Sooner(spec.value, log[a], log[b])
      ensures r.Ok? && spec.None? ==>
        old(generic).None? && log == old(log) && generic.Some? && IsFor(generic.value, callback, schema, false)
    {
      if schema.Some? && !schema.value.validates {
        return Err(SchemaNotPydantic);
      }
      match spec
      case Some(m) =>
        var taken := Taken(m);
        if taken { return Err(MatchTaken); }
        ghost var was := log;
        InsertAll(m, Handler(callback, SchemaId(schema), m.removeKey));
        NewInOrder(was, m, Handler(callback, SchemaId(schema), m.removeKey));
        r := Ok(());
      case None =>
        if generic.Some? { return Err(GenericTaken); }
        generic := Some(Handler(callback, SchemaId(schema), false));
        r := Ok(());
    }

    /** The first call fixes the snapshot; every later call returns the same one. */
    method FrozenHandlers() returns (table: Table)
      requires Valid()
      modifies this
      ensures Valid() && handlers == old(handlers) && log == old(log) && generic == old(generic)
      ensures snapshot == Some(table)
      ensures table == if old(snapshot).Some? then old(snapshot).value else TableOf(log)
    {
      if snapshot.None? { snapshot := Some(handlers); }
      table := snapshot.value;
    }
  }

  /**
   Any sequence of calls on a route. Every connection is given the same table, that of the bindings
   registered before the first connection; later bindings are recorded but reach nobody. The generic
   handler is not frozen: each connection is given the one registered by then.
   */
  method Drive(route: WebsocketRoute, calls: seq<Call>) returns (given: seq<Given>)
    requires route.Valid()
    modifies route
    ensures route.Valid() && route.Registered() == AfterAll(old(route.Registered()), calls)
    ensures var table := if old(route.snapshot).Some? then old(route.snapshot).value
                         else TableOf(AfterAll(old(route.Registered()), calls[..BeforeConnect(calls)]).log);
      && given == AllGiven(old(route.Registered()), table, calls)
      && route.snapshot == if given == [] then old(route.snapshot) else Some(table)
  {
    hide Extended, Clashes, TableOf, BeforeConnect, WebsocketRoute.Valid;
    ghost var start, was := route.Registered(), route.snapshot;
    ghost var table := if was.Some? then was.value else TableOf(AfterAll(start, calls[..BeforeConnect(calls)]).log);
    given := [];
    var i := 0;
    while i < |calls|
      invariant i <= |calls| && route.Valid() && route.Registered() == AfterAll(start, calls[..i])
      invariant given == AllGiven(start, table, calls[..i])
      invariant route.snapshot == if given == [] then was else Some(table)
      invariant given == [] <==> i <= BeforeConnect(calls)
    {
      assert calls[..i + 1][..i] == calls[..i];
      match calls[i] {
        case Register(spec, schema, callback) =>
          var _ := route.Receive(spec, schema, callback);
        case Connect =>
          var handlers := route.FrozenHandlers();
          given := given + [Given(handlers, route.generic)];
      }
      i := i + 1;
    }
    assert calls[..i] == calls;
  }
}
