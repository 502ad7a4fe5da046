/**
 Which handler a message reaches. The two-level search is the first match in the log grouped by
 key; it is the first match in registration order exactly when the bindings that can be reached at
 all lie together key by key.
 */
module RoutingOrder {
  import opened Wrappers
  import opened Json
  import opened Routing

  function FirstMatch(log: Log, json: Value): Option<Found> {
    if log == [] then None
    else if log[0].Matches(json) then Some(Found(log[0].handler, log[0].key))
    else FirstMatch(log[1..], json)
  }

  /** The bindings of one key, in log order. */
  function BindingsFor(log: Log, key: string): Log {
    if log == [] then []
    else
      BindingsFor(log[..|log| - 1], key) + (if log[|log| - 1].key == key then [log[|log| - 1]] else [])
  }

  function GroupedBy(log: Log, keys: seq<string>): Log {
    if keys == [] then [] else BindingsFor(log, keys[0]) + GroupedBy(log, keys[1..])
  }

  /** The log sorted by first appearance of the key, otherwise in its own order. */
  function Grouped(log: Log): Log {
    GroupedBy(log, Keys(log))
  }

  lemma {:induction false} FirstMatchConcat(a: Log, b: Log, json: Value)
    ensures FirstMatch(a + b, json) == if FirstMatch(a, json).Some? then FirstMatch(a, json) else FirstMatch(b, json)
  {
    if a == [] {
      assert a + b == b;
    } else {
      FirstMatchConcat(a[1..], b, json);
      assert (a + b)[1..] == a[1..] + b;
    }
  }

  lemma {:induction false} SearchRowConcat(a: seq<Cell>, b: seq<Cell>, v: Value)
    ensures SearchRow(a + b, v) == if SearchRow(a, v).Some? then SearchRow(a, v) else SearchRow(b, v)
  {
    if a == [] {
      assert a + b == b;
    } else {
      SearchRowConcat(a[1..], b, v);
      assert (a + b)[1..] == a[1..] + b;
    }
  }

  /** One row against the bindings of its key. */
  lemma {:induction false} RowIsGroup(log: Log, key: string, json: Value)
    ensures FirstMatch(BindingsFor(log, key), json) ==
      match json.Get(key)
      case None => None
      case Some(v) => (match SearchRow(CellsFor(log, key), v) case None => None case Some(h) => Some(Found(h, key)))
  {
    if log != [] {
      var b, before := log[|log| - 1], log[..|log| - 1];
      RowIsGroup(before, key, json);
      if b.key == key {
        FirstMatchConcat(BindingsFor(before, key), [b], json);
        assert FirstMatch([b], json) == if b.Matches(json) then Some(Found(b.handler, key)) else None;
        if json.Get(key).Some? {
          var v, cell := json.Get(key).value, Cell(b.value, b.handler);
          SearchRowConcat(CellsFor(before, key), [cell], v);
          assert SearchRow([cell], v) == if b.value.MatchesJson(v) then Some(b.handler) else None;
        }
      } else {
        assert BindingsFor(log, key) == BindingsFor(before, key);
        assert CellsFor(log, key) == CellsFor(before, key);
      }
    }
  }

  lemma {:induction false} SearchIsFirstMatchBy(log: Log, keys: seq<string>, json: Value)
    ensures Search(RowsFor(log, keys), json) == FirstMatch(GroupedBy(log, keys), json)
  {
    if keys != [] {
      SearchIsFirstMatchBy(log, keys[1..], json);
      RowIsGroup(log, keys[0], json);
      FirstMatchConcat(BindingsFor(log, keys[0]), GroupedBy(log, keys[1..]), json);
      assert RowsFor(log, keys)[1..] == RowsFor(log, keys[1..]);
    }
  }

  /** The nested table refines the flat list: its search is the first match in the grouped log. */
  lemma SearchIsFirstMatch(log: Log, json: Value)
    ensures Search(TableOf(log), json) == FirstMatch(Grouped(log), json)
  {
    SearchIsFirstMatchBy(log, Keys(log), json);
  }

  // ---- The winner, by position in the log ----

  function FirstOf(log: Log, key: string): (i: nat)
    ensures i <= |log| && (i < |log| ==> log[i].key == key)
    ensures forall j | 0 <= j < i :: log[j].key != key
  {
    if log == [] || log[0].key == key then 0 else 1 + FirstOf(log[1..], key)
  }

  /** Binding a comes before binding b in the grouped log. */
  predicate Precedes(log: Log, a: nat, b: nat)
    requires a < |log| && b < |log|
  {
    FirstOf(log, log[a].key) < FirstOf(log, log[b].key) || (log[a].key == log[b].key && a <= b)
  }

  predicate Wins(log: Log, json: Value, m: nat) {
    && m < |log| && log[m].Matches(json)
    && forall x | 0 <= x < |log| && log[x].Matches(json) :: Precedes(log, m, x)
  }

  predicate First(log: Log, json: Value, m: nat) {
    && m < |log| && log[m].Matches(json)
    && forall x | 0 <= x < m :: !log[x].Matches(json)
  }

  lemma {:induction false} FirstMatchAt(log: Log, json: Value, m: nat)
    requires First(log, json, m)
    ensures FirstMatch(log, json) == Some(Found(log[m].handler, log[m].key))
  {
    if m > 0 {
      assert !log[0].Matches(json);
      assert First(log[1..], json, m - 1) by { assert forall x | 0 <= x < m - 1 :: log[1..][x] == log[x + 1]; }
      FirstMatchAt(log[1..], json, m - 1);
    }
  }

  lemma {:induction false} FirstExists(log: Log, json: Value) returns (m: nat)
    ensures FirstMatch(log, json).Some? ==> First(log, json, m)
    ensures FirstMatch(log, json).None? ==> forall x | 0 <= x < |log| :: !log[x].Matches(json)
  {
    m := 0;
    if log != [] && !log[0].Matches(json) {
      var n := FirstExists(log[1..], json);
      m := n + 1;
      assert forall x | 0 < x < |log| :: log[x] == log[1..][x - 1];
    }
  }

  lemma {:induction false} BindingsForMean(log: Log, key: string, b: Binding)
    ensures b in BindingsFor(log, key) <==> b in log && b.key == key
  {
    if log != [] {
      var n := |log| - 1;
      BindingsForMean(log[..n], key, b);
      assert log == log[..n] + [log[n]];
    }
  }

  lemma {:induction false} NoMatchInRow(log: Log, key: string, json: Value)
    requires forall x | 0 <= x < |log| && log[x].key == key :: !log[x].Matches(json)
    ensures FirstMatch(BindingsFor(log, key), json).None?
  {
    var m := FirstExists(BindingsFor(log, key), json);
    if FirstMatch(BindingsFor(log, key), json).Some? {
      var b := BindingsFor(log, key)[m];
      BindingsForMean(log, key, b);
    }
  }

  /** Within the row of its key, the first matching binding of the log is found. */
  lemma {:induction false} FirstInRow(log: Log, json: Value, m: nat)
    requires m < |log| && log[m].Matches(json)
    requires forall x | 0 <= x < m && log[x].key == log[m].key :: !log[x].Matches(json)
    ensures FirstMatch(BindingsFor(log, log[m].key), json) == Some(Found(log[m].handler, log[m].key))
  {
    var n, key := |log| - 1, log[m].key;
    var last := if log[n].key == key then [log[n]] else [];
    FirstMatchConcat(BindingsFor(log[..n], key), last, json);
    if m == n {
      NoMatchInRow(log[..n], key, json);
    } else {
      assert log[..n][m] == log[m];
      FirstInRow(log[..n], json, m);
    }
  }

  lemma {:induction false} KeysInOrder(log: Log)
    ensures forall i, j | 0 <= i < j < |Keys(log)| :: FirstOf(log, Keys(log)[i]) < FirstOf(log, Keys(log)[j])
  {
    if log != [] {
      var n := |log| - 1;
      KeysInOrder(log[..n]);
      forall key | key in Keys(log[..n]) ensures FirstOf(log, key) == FirstOf(log[..n], key) && FirstOf(log, key) < n {
        FirstOfPrefix(log, n, key);
      }
      if log[n].key !in Keys(log[..n]) {
        assert FirstOf(log, log[n].key) == n by {
          assert forall i | 0 <= i < n :: log[..n][i] == log[i];
        }
      }
    }
  }

  lemma FirstOfPrefix(log: Log, n: nat, key: string)
    requires n <= |log| && key in Keys(log[..n])
    ensures FirstOf(log, key) == FirstOf(log[..n], key) && FirstOf(log, key) < n
  {
    var i :| 0 <= i < n && log[..n][i].key == key;
    var f, g := FirstOf(log, key), FirstOf(log[..n], key);
    assert log[i].key == key;
    assert g < n && log[g].key == key;
    assert forall j | 0 <= j < n :: log[j] == log[..n][j];
  }

  lemma {:induction false} WinnerAmong(log: Log, keys: seq<string>, json: Value, m: nat)
    requires Wins(log, json, m) && log[m].key in keys
    requires forall i, j | 0 <= i < j < |keys| :: FirstOf(log, keys[i]) < FirstOf(log, keys[j])
    ensures FirstMatch(GroupedBy(log, keys), json) == Some(Found(log[m].handler, log[m].key))
  {
    FirstMatchConcat(BindingsFor(log, keys[0]), GroupedBy(log, keys[1..]), json);
    if keys[0] == log[m].key {
      FirstInRow(log, json, m);
    } else {
      assert keys == [keys[0]] + keys[1..];
      var k :| 0 <= k < |keys| && keys[k] == log[m].key;
      NoMatchInRow(log, keys[0], json);
      WinnerAmong(log, keys[1..], json, m);
    }
  }

  /** What a binding asks of a message: its member, with any value, the string, or the whole number, and nothing else. */
  predicate Fits(b: Binding, json: Value) {
    && json.Object? && b.key in json.members
    && match b.value
       case Wildcard => true
       case Str(s) => json.members[b.key] == String(s)
       case Int(i) => json.members[b.key] == Num(Whole(i))
  }

  /** Patterns match by value and kind: no number that is not whole or not in range, no boolean, array or object. */
  lemma MatchesExactly(p: MatchValue, v: Value)
    ensures p.MatchesJson(v) <==> p.Wildcard? || (p.Str? && v == String(p.s)) || (p.Int? && v == Num(Whole(p.i)))
  {
  }

  lemma FitsExactly(b: Binding, json: Value)
    ensures b.Matches(json) <==> Fits(b, json)
  {
    if json.Object? && b.key in json.members { MatchesExactly(b.value, json.members[b.key]); }
  }

  /**
   The search, for every log and every message: it finds nothing exactly if no binding fits, and otherwise
   the fitting binding whose key appeared first and which is earliest among those of its key.
   */
  lemma SearchExactly(log: Log, json: Value) returns (m: nat)
    ensures Search(TableOf(log), json).None? <==> forall x | 0 <= x < |log| :: !Fits(log[x], json)
    ensures Search(TableOf(log), json).Some? ==>
      && m < |log| && Fits(log[m], json)
      && Search(TableOf(log), json) == Some(Found(log[m].handler, log[m].key))
      && (forall x | 0 <= x < |log| && Fits(log[x], json) ::
            FirstOf(log, log[m].key) < FirstOf(log, log[x].key) || (log[m].key == log[x].key && m <= x))
  {
    forall x | 0 <= x < |log| ensures log[x].Matches(json) <==> Fits(log[x], json) { FitsExactly(log[x], json); }
    m := 0;
    if exists x | 0 <= x < |log| :: log[x].Matches(json) {
      m := BestOf(log, json, |log|);
      WinnerFound(log, json, m);
      hide Search, TableOf, FirstOf, Binding.Matches, Fits;
      forall x | 0 <= x < |log| && Fits(log[x], json) ensures Precedes(log, m, x) {}
    } else {
      NothingFound(log, json);
    }
  }

  lemma WinnerFound(log: Log, json: Value, m: nat)
    requires Wins(log, json, m)
    ensures Search(TableOf(log), json) == Some(Found(log[m].handler, log[m].key))
  {
    SearchIsFirstMatch(log, json);
    KeysInOrder(log);
    WinnerAmong(log, Keys(log), json, m);
  }

  lemma {:induction false} BestOf(log: Log, json: Value, n: nat) returns (m: nat)
    requires n <= |log| && exists x | 0 <= x < n :: log[x].Matches(json)
    ensures m < n && log[m].Matches(json)
    ensures forall x | 0 <= x < n && log[x].Matches(json) :: Precedes(log, m, x)
  {
    hide FirstOf;
    if exists x | 0 <= x < n - 1 :: log[x].Matches(json) {
      m := BestOf(log, json, n - 1);
      if log[n - 1].Matches(json) && !Precedes(log, m, n - 1) {
        m := n - 1;
      }
    } else {
      m := n - 1;
    }
  }

  // ---- Registration order ----

  /** No earlier wildcard of the same key hides the binding. */
  predicate Live(log: Log, k: nat)
    requires k < |log|
  {
    forall i | 0 <= i < k :: !(log[i].key == log[k].key && log[i].value.Wildcard?)
  }

  /** Between two bindings of one key, the later of which is live, every live binding has that key. */
  predicate Contiguous(log: Log) {
    forall i, k, m | 0 <= i < k < m < |log| ::
      log[i].key == log[m].key && Live(log, k) && Live(log, m) ==> log[k].key == log[i].key
  }

  ghost predicate FollowsRegistration(log: Log) {
    forall json :: Search(TableOf(log), json) == FirstMatch(log, json)
  }

  /** A value that binding b matches and no earlier live binding of its key does. */
  function Sample(v: MatchValue): Value {
    match v
    case Wildcard => Null
    case Str(s) => String(s)
    case Int(i) => Num(Whole(i))
  }

  lemma SampleIsOwn(v: MatchValue, w: MatchValue)
    ensures v.MatchesJson(Sample(v))
    ensures w.MatchesJson(Sample(v)) <==> w == v || w.Wildcard?
  {
  }

  /** A match not preceded by a match of its key is live. */
  lemma LiveIfFirst(log: Log, json: Value, k: nat)
    requires k < |log| && log[k].Matches(json)
    requires forall x | 0 <= x < k && log[x].key == log[k].key :: !log[x].Matches(json)
    ensures Live(log, k)
  {
  }

  lemma NothingFound(log: Log, json: Value)
    requires forall x | 0 <= x < |log| :: !log[x].Matches(json)
    ensures Search(TableOf(log), json) == None
  {
    SearchIsFirstMatch(log, json);
    NothingAmong(log, Keys(log), json);
  }

  lemma {:induction false} NothingAmong(log: Log, keys: seq<string>, json: Value)
    requires forall x | 0 <= x < |log| :: !log[x].Matches(json)
    ensures FirstMatch(GroupedBy(log, keys), json) == None
  {
    if keys != [] {
      NoMatchInRow(log, keys[0], json);
      NothingAmong(log, keys[1..], json);
      FirstMatchConcat(BindingsFor(log, keys[0]), GroupedBy(log, keys[1..]), json);
    }
  }

  /** A message with samples of two bindings. */
  function SampleMessage(p: Binding, q: Binding): Value {
    Object(map[p.key := Sample(p.value), q.key := Sample(q.value)])
  }

  /** Whatever matches the message has the key of a or of b and does not come before it. */
  predicate Spots(log: Log, json: Value, a: nat, b: nat)
    requires a < |log| && b < |log|
  {
    forall x | 0 <= x < |log| && log[x].Matches(json) ::
      (log[x].key == log[a].key && a <= x) || (log[x].key == log[b].key && b <= x)
  }

  lemma SampleMatches(log: Log, a: nat, b: nat, x: nat)
    requires DistinctLog(log) && a < |log| && b < |log| && x < |log| && log[a].key != log[b].key
    requires Live(log, a) && Live(log, b) && log[x].Matches(SampleMessage(log[a], log[b]))
    ensures (log[x].key == log[a].key && a <= x) || (log[x].key == log[b].key && b <= x)
  {
    SampleIsOwn(log[a].value, log[x].value);
    SampleIsOwn(log[b].value, log[x].value);
  }

  lemma SampleSpots(log: Log, a: nat, b: nat)
    requires DistinctLog(log) && a < |log| && b < |log| && log[a].key != log[b].key && Live(log, a) && Live(log, b)
    ensures Spots(log, SampleMessage(log[a], log[b]), a, b)
  {
    hide *;
    forall x | 0 <= x < |log| && log[x].Matches(SampleMessage(log[a], log[b]))
      ensures (log[x].key == log[a].key && a <= x) || (log[x].key == log[b].key && b <= x)
    {
      SampleMatches(log, a, b, x);
    }
    SpotsMeans(log, SampleMessage(log[a], log[b]), a, b);
  }

  lemma SpotsMeans(log: Log, json: Value, a: nat, b: nat)
    requires a < |log| && b < |log|
    requires forall x | 0 <= x < |log| && log[x].Matches(json) ::
      (log[x].key == log[a].key && a <= x) || (log[x].key == log[b].key && b <= x)
    ensures Spots(log, json, a, b)
  {
  }

  lemma SampleHits(p: Binding, q: Binding)
    requires p.key != q.key
    ensures p.Matches(SampleMessage(p, q)) && q.Matches(SampleMessage(p, q))
  {
    SampleIsOwn(p.value, p.value);
    SampleIsOwn(q.value, q.value);
  }

  lemma SpotWins(log: Log, json: Value, a: nat, b: nat)
    requires a < b < |log| && Spots(log, json, a, b) && log[b].Matches(json)
    requires FirstOf(log, log[b].key) < FirstOf(log, log[a].key)
    ensures Wins(log, json, b)
  {
    hide Binding.Matches, FirstOf;
  }

  lemma SpotFirst(log: Log, json: Value, a: nat, b: nat)
    requires a < b < |log| && Spots(log, json, a, b) && log[a].Matches(json)
    ensures First(log, json, a)
  {
    hide Binding.Matches;
  }

  // ---- What a callback can see of the choice ----

  /** The handler, and the key only if the handler has it removed from the message. */
  function Seen(found: Option<Found>): Option<(Handler, Option<string>)> {
    match found
    case None => None
    case Some(f) => Some((f.handler, if f.handler.removeKey then Some(f.key) else None))
  }

  ghost predicate KeepsPromise(log: Log) {
    forall json :: Seen(Search(TableOf(log), json)) == Seen(FirstMatch(log, json))
  }

  /** Live binding b is registered after live binding a but searched before it. */
  predicate Overtakes(log: Log, a: nat, b: nat) {
    && a < b < |log| && log[a].key != log[b].key
    && Live(log, a) && Live(log, b)
    && FirstOf(log, log[b].key) < FirstOf(log, log[a].key)
  }

  /** Where one binding overtakes another, nobody can tell: same handler, and it gets the whole message. */
  predicate HarmlessOrder(log: Log) {
    forall a, b | 0 <= a < b < |log| && Overtakes(log, a, b) ::
      log[a].handler == log[b].handler && !log[a].handler.removeKey
  }

  /** The message with samples of both tells the overtaking binding from the overtaken one. */
  lemma OvertakingShows(log: Log, a: nat, b: nat)
    requires DistinctLog(log) && Overtakes(log, a, b)
    ensures var json := SampleMessage(log[a], log[b]);
      && Search(TableOf(log), json) == Some(Found(log[b].handler, log[b].key))
      && FirstMatch(log, json) == Some(Found(log[a].handler, log[a].key))
  {
    hide Spots, First, Wins, SampleMessage, Search, FirstMatch, TableOf, FirstOf, Binding.Matches, DistinctLog, Live;
    var json := SampleMessage(log[a], log[b]);
    SampleSpots(log, a, b);
    SampleHits(log[a], log[b]);
    SpotWins(log, json, a, b);
    SpotFirst(log, json, a, b);
    WinnerFound(log, json, b);
    FirstMatchAt(log, json, a);
  }

  /** For any message, either both orders choose the same binding or one binding overtakes the other. */
  lemma SameOrOvertaken(log: Log, json: Value) returns (k: nat, m: nat)
    ensures FirstMatch(log, json).None? ==> Search(TableOf(log), json).None?
    ensures FirstMatch(log, json).Some? ==>
      && k < |log| && FirstMatch(log, json) == Some(Found(log[k].handler, log[k].key))
      && m < |log| && Search(TableOf(log), json) == Some(Found(log[m].handler, log[m].key))
      && (k == m || Overtakes(log, k, m))
  {
    k := FirstExists(log, json);
    m := 0;
    if FirstMatch(log, json).Some? {
      m := BestOf(log, json, |log|);
      WinnerFound(log, json, m);
      FirstMatchAt(log, json, k);
      hide Search, FirstMatch, TableOf, FirstOf, Binding.Matches;
      assert Precedes(log, m, k);
      LiveIfFirst(log, json, k);
      LiveIfBest(log, json, m);
    } else {
      NothingFound(log, json);
    }
  }

  lemma LiveIfBest(log: Log, json: Value, m: nat)
    requires Wins(log, json, m)
    ensures Live(log, m)
  {
    forall x | 0 <= x < m && log[x].key == log[m].key ensures !log[x].Matches(json) {
      assert !Precedes(log, m, x);
    }
    LiveIfFirst(log, json, m);
  }

  /**
   The documentation promises registration order. What the callbacks can see keeps it for every
   message if and only if overtaking never changes the handler and never a removed key.
   */
  lemma RegistrationOrderExactly(log: Log)
    requires DistinctLog(log)
    ensures KeepsPromise(log) <==> HarmlessOrder(log)
  {
    hide Search, FirstMatch, TableOf, FirstOf, Overtakes, DistinctLog;
    if HarmlessOrder(log) {
      forall json ensures Seen(Search(TableOf(log), json)) == Seen(FirstMatch(log, json)) {
        var k, m := SameOrOvertaken(log, json);
        if FirstMatch(log, json).Some? && k != m { OvertakesMeans(log, k, m); }
      }
    }
    if KeepsPromise(log) {
      forall a, b | 0 <= a < b < |log| && Overtakes(log, a, b)
        ensures log[a].handler == log[b].handler && !log[a].handler.removeKey
      {
        OvertakesMeans(log, a, b);
        OvertakingShows(log, a, b);
        var json := SampleMessage(log[a], log[b]);
        assert Seen(Search(TableOf(log), json)) == Seen(FirstMatch(log, json));
      }
    }
  }

  lemma OvertakesMeans(log: Log, a: nat, b: nat)
    requires Overtakes(log, a, b)
    ensures a < b < |log| && log[a].key != log[b].key
  {
  }

  /** Registering the live bindings of each key together is enough, and decides which binding is chosen, key included. */
  lemma BindingOrderExactly(log: Log)
    requires DistinctLog(log)
    ensures FollowsRegistration(log) <==> Contiguous(log)
    ensures Contiguous(log) ==> KeepsPromise(log)
  {
    if Contiguous(log) {
      forall json ensures Search(TableOf(log), json) == FirstMatch(log, json) { ContiguousFollows(log, json); }
    } else {
      var i, k, m :| 0 <= i < k < m < |log| && log[i].key == log[m].key && Live(log, k) && Live(log, m)
                     && log[k].key != log[i].key;
      NotContiguousDiffers(log, i, k, m);
    }
  }

  lemma ContiguousFollows(log: Log, json: Value)
    requires Contiguous(log)
    ensures Search(TableOf(log), json) == FirstMatch(log, json)
  {
    hide Search, FirstMatch, TableOf, FirstOf, Contiguous;
    var k, m := SameOrOvertaken(log, json);
    if FirstMatch(log, json).Some? && k < m && log[k].key != log[m].key && Live(log, k) && Live(log, m) {
      ContiguousInOrder(log, k, m);
    }
  }

  lemma ContiguousInOrder(log: Log, a: nat, b: nat)
    requires Contiguous(log) && a < b < |log| && log[a].key != log[b].key && Live(log, a) && Live(log, b)
    ensures FirstOf(log, log[a].key) <= FirstOf(log, log[b].key)
  {
    var i := FirstOf(log, log[b].key);
    assert i <= b && log[i].key == log[b].key;
    assert i >= a;
  }

  lemma NotContiguousDiffers(log: Log, i: nat, k: nat, m: nat)
    requires DistinctLog(log) && i < k < m < |log| && Live(log, k) && Live(log, m)
    requires log[i].key == log[m].key != log[k].key
    ensures !FollowsRegistration(log)
  {
    var e, f := FirstOf(log, log[m].key), FirstOf(log, log[k].key);
    if e < f { OvertakingShows(log, f, m); } else { OvertakingShows(log, e, k); }
  }

  /** A promise that is broken: a = 1 to h, b = 1 to g, a = 2 to h, and the message with a = 2 and b = 1. */
  lemma RegistrationOrderFails(h: Handler, g: Handler)
    requires h != g
    ensures var log := [Binding("a", Int(1), h), Binding("b", Int(1), g), Binding("a", Int(2), h)];
      var json := Object(map["a" := Num(Whole(2)), "b" := Num(Whole(1))]);
      && DistinctLog(log) && !KeepsPromise(log)
      && Search(TableOf(log), json) == Some(Found(h, "a"))
      && FirstMatch(log, json) == Some(Found(g, "b"))
  {
    var log := [Binding("a", Int(1), h), Binding("b", Int(1), g), Binding("a", Int(2), h)];
    assert Overtakes(log, 1, 2);
    OvertakingShows(log, 1, 2);
    var json := SampleMessage(log[1], log[2]);
    assert json == Object(map["a" := Num(Whole(2)), "b" := Num(Whole(1))]);
    assert Seen(Search(TableOf(log), json)) != Seen(FirstMatch(log, json));
  }

  /** A wildcard on a key the message has shadows every binding behind it in the grouped order. */
  lemma WildcardShadows(log: Log, json: Value, w: nat) returns (m: nat)
    requires w < |log| && log[w].value.Wildcard? && json.Get(log[w].key).Some?
    ensures m < |log| && log[m].Matches(json) && Precedes(log, m, w)
    ensures Search(TableOf(log), json) == Some(Found(log[m].handler, log[m].key))
  {
    assert log[w].Matches(json);
    m := BestOf(log, json, |log|);
    WinnerFound(log, json, m);
  }
}
