/**
 Pattern routing: handlers registered one by one into a two-level insertion-ordered table, which is
 searched key by key. The table is compared with the flat log of bindings it was built from.
 */
module Routing {
  import opened Wrappers
  import opened Json

  datatype MatchValue = Wildcard | Str(s: string) | Int(i: i64) {
    predicate MatchesJson(v: Value) {
      match this
      case Wildcard => true
      case Str(s) => v.String? && v.s == s
      case Int(i) => v.Num? && v.n.AsI64() == Some(i)
    }
  }

  datatype Handler = Handler(callback: nat, schema: Option<nat>, removeKey: bool)

  datatype Cell = Cell(value: MatchValue, handler: Handler)
  datatype Row = Row(key: string, cells: seq<Cell>)
  type Table = seq<Row>

  datatype Found = Found(handler: Handler, key: string)

  // ---- The two-level search ----

  function SearchRow(cells: seq<Cell>, v: Value): Option<Handler> {
    if cells == [] then None
    else if cells[0].value.MatchesJson(v) then Some(cells[0].handler)
    else SearchRow(cells[1..], v)
  }

  function Search(table: Table, json: Value): Option<Found> {
    if table == [] then None
    else
      var here := match json.Get(table[0].key) case None => None case Some(v) => SearchRow(table[0].cells, v);
      if here.Some? then Some(Found(here.value, table[0].key)) else Search(table[1..], json)
  }

  /** The match search of the receive loop: two nested loops with early return. */
  method FindHandler(table: Table, json: Value) returns (r: Option<Found>)
    ensures r == Search(table, json)
  {
    var i := 0;
    while i < |table|
      invariant i <= |table|
      invariant Search(table, json) == Search(table[i..], json)
    {
      var v := json.Get(table[i].key);
      if v.Some? {
        var cells := table[i].cells;
        var j := 0;
        while j < |cells|
          invariant j <= |cells|
          invariant SearchRow(cells, v.value) == SearchRow(cells[j..], v.value)
        {
          if cells[j].value.MatchesJson(v.value) {
            return Some(Found(cells[j].handler, table[i].key));
          }
          j := j + 1;
        }
      }
      i := i + 1;
    }
    r := None;
  }

  // ---- The flat log of bindings ----

  datatype Binding = Binding(key: string, value: MatchValue, handler: Handler) {
    predicate Matches(json: Value) {
      json.Get(key).Some? && value.MatchesJson(json.Get(key).value)
    }
  }

  type Log = seq<Binding>

  predicate Bound(log: Log, key: string, value: MatchValue) {
    exists i | 0 <= i < |log| :: log[i].key == key && log[i].value == value
  }

  predicate DistinctLog(log: Log) {
    forall i, j | 0 <= i < j < |log| :: log[i].key != log[j].key || log[i].value != log[j].value
  }

  /** The keys in order of first appearance. */
  function Keys(log: Log): (keys: seq<string>)
    ensures forall k :: k in keys <==> exists i | 0 <= i < |log| :: log[i].key == k
  {
    if log == [] then []
    else
      var n := |log| - 1;
      var before := Keys(log[..n]);
      assert forall i | 0 <= i < n :: log[..n][i] == log[i];
      if log[n].key in before then before else before + [log[n].key]
  }

  function CellsFor(log: Log, key: string): seq<Cell> {
    if log == [] then []
    else
      var b := log[|log| - 1];
      CellsFor(log[..|log| - 1], key) + (if b.key == key then [Cell(b.value, b.handler)] else [])
  }

  function RowsFor(log: Log, keys: seq<string>): Table {
    seq(|keys|, i requires 0 <= i < |keys| => Row(keys[i], CellsFor(log, keys[i])))
  }

  /** The table a log stands for: one row per key, in order of first appearance, each row in log order. */
  function TableOf(log: Log): Table {
    RowsFor(log, Keys(log))
  }

  // ---- Insertion ----

  function IndexOfKey(table: Table, key: string): (i: nat)
    ensures i <= |table| && (i < |table| ==> table[i].key == key)
    ensures forall j | 0 <= j < i :: table[j].key != key
  {
    if table == [] || table[0].key == key then 0 else 1 + IndexOfKey(table[1..], key)
  }

  function IndexOfValue(cells: seq<Cell>, value: MatchValue): (i: nat)
    ensures i <= |cells| && (i < |cells| ==> cells[i].value == value)
    ensures forall j | 0 <= j < i :: cells[j].value != value
  {
    if cells == [] || cells[0].value == value then 0 else 1 + IndexOfValue(cells[1..], value)
  }

  /** insert of the insertion-ordered map: a present key keeps its position and takes the new value. */
  function Put(cells: seq<Cell>, value: MatchValue, handler: Handler): seq<Cell> {
    var i := IndexOfValue(cells, value);
    if i < |cells| then cells[i := Cell(value, handler)] else cells + [Cell(value, handler)]
  }

  /** entry(key).or_default().insert(value, handler) */
  function Insert(table: Table, key: string, value: MatchValue, handler: Handler): Table {
    var i := IndexOfKey(table, key);
    if i < |table| then table[i := Row(key, Put(table[i].cells, value, handler))]
    else table + [Row(key, [Cell(value, handler)])]
  }

  predicate Contains(table: Table, key: string, value: MatchValue) {
    var i := IndexOfKey(table, key);
    i < |table| && IndexOfValue(table[i].cells, value) < |table[i].cells|
  }

  lemma {:induction false} CellsMean(log: Log, key: string, c: Cell)
    ensures c in CellsFor(log, key) <==> exists i | 0 <= i < |log| :: log[i] == Binding(key, c.value, c.handler)
  {
    if log != [] {
      var n := |log| - 1;
      CellsMean(log[..n], key, c);
      assert forall i | 0 <= i < n :: log[..n][i] == log[i];
    }
  }

  lemma {:induction false} KeysDistinct(log: Log)
    ensures forall i, j | 0 <= i < j < |Keys(log)| :: Keys(log)[i] != Keys(log)[j]
  {
    if log != [] { KeysDistinct(log[..|log| - 1]); }
  }

  lemma RowOf(log: Log, key: string)
    requires key in Keys(log)
    ensures var i := IndexOfKey(TableOf(log), key); i < |Keys(log)| && Keys(log)[i] == key
  {
    var k :| 0 <= k < |Keys(log)| && Keys(log)[k] == key;
    assert TableOf(log)[k].key == key;
  }

  /** The table contains a pair exactly when the log binds it. */
  lemma ContainsIsBound(log: Log, key: string, value: MatchValue)
    ensures Contains(TableOf(log), key, value) <==> Bound(log, key, value)
  {
    var table := TableOf(log);
    var i := IndexOfKey(table, key);
    if i < |table| {
      var cells := CellsFor(log, key);
      assert table[i].cells == cells;
      var j := IndexOfValue(cells, value);
      if j < |cells| { CellsMean(log, key, cells[j]); }
      if Bound(log, key, value) {
        var b :| 0 <= b < |log| && log[b].key == key && log[b].value == value;
        CellsMean(log, key, Cell(value, log[b].handler));
      }
    } else if Bound(log, key, value) {
      assert key in Keys(log);
      RowOf(log, key);
    }
  }

  lemma InsertKnownKey(log: Log, b: Binding)
    requires !Bound(log, b.key, b.value) && IndexOfKey(TableOf(log), b.key) < |TableOf(log)|
    ensures Insert(TableOf(log), b.key, b.value, b.handler) == TableOf(log + [b])
  {
    var table, longer := TableOf(log), log + [b];
    var i := IndexOfKey(table, b.key);
    assert longer[..|log|] == log;
    ContainsIsBound(log, b.key, b.value);
    KeysDistinct(log);
    assert Keys(log)[i] in Keys(log);
    var after := Insert(table, b.key, b.value, b.handler);
    assert after[i] == Row(b.key, CellsFor(longer, b.key));
    hide Insert, Bound;
    forall k | 0 <= k < |table| && k != i ensures table[k] == TableOf(longer)[k] {
      assert Keys(log)[k] != b.key;
    }
  }

  lemma InsertNewKey(log: Log, b: Binding)
    requires IndexOfKey(TableOf(log), b.key) == |TableOf(log)|
    ensures Insert(TableOf(log), b.key, b.value, b.handler) == TableOf(log + [b])
  {
    var table, longer := TableOf(log), log + [b];
    assert longer[..|log|] == log;
    assert b.key !in Keys(log) by { if b.key in Keys(log) { RowOf(log, b.key); } }
    NoCells(log, b.key);
    assert Keys(longer) == Keys(log) + [b.key];
    assert TableOf(longer)[|table|] == Row(b.key, [Cell(b.value, b.handler)]);
    forall k | 0 <= k < |table| ensures table[k] == TableOf(longer)[k] {
      assert Keys(log)[k] in Keys(log);
    }
  }

  /** Inserting a new pair is appending a binding to the log. */
  lemma InsertIsAppend(log: Log, b: Binding)
    requires !Bound(log, b.key, b.value)
    ensures Insert(TableOf(log), b.key, b.value, b.handler) == TableOf(log + [b])
  {
    if IndexOfKey(TableOf(log), b.key) < |TableOf(log)| { InsertKnownKey(log, b); } else { InsertNewKey(log, b); }
  }

  lemma {:induction false} NoCells(log: Log, key: string)
    requires key !in Keys(log)
    ensures CellsFor(log, key) == []
  {
    if log != [] { NoCells(log[..|log| - 1], key); }
  }

  /** Inserting a bound pair again with its own handler changes nothing. */
  lemma InsertAgain(log: Log, key: string, value: MatchValue, handler: Handler)
    requires Bound(log, key, value)
    requires forall i | 0 <= i < |log| && log[i].key == key && log[i].value == value :: log[i].handler == handler
    ensures Insert(TableOf(log), key, value, handler) == TableOf(log)
  {
    ContainsIsBound(log, key, value);
    var i := IndexOfKey(TableOf(log), key);
    var cells := TableOf(log)[i].cells;
    var j := IndexOfValue(cells, value);
    CellsMean(log, key, cells[j]);
    assert cells[j] == Cell(value, handler);
    assert Put(cells, value, handler) == cells;
    assert TableOf(log)[i := TableOf(log)[i]] == TableOf(log);
  }

  /**
   Registered bindings keep their place and handler for good: a longer log only adds rows at the end of
   the table and cells at the end of rows.
   */
  lemma {:induction false} BindingsArePermanent(log: Log, more: Log)
    ensures Keys(log) <= Keys(log + more)
    ensures forall key :: CellsFor(log, key) <= CellsFor(log + more, key)
  {
    if more == [] {
      assert log + more == log;
    } else {
      var n := |more| - 1;
      BindingsArePermanent(log, more[..n]);
      assert (log + more)[..|log| + n] == log + more[..n];
    }
  }
}
