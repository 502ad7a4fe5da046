/** The receive loop of a connection: which callbacks it starts for a stream of frames. */
module ReceiveLoop {
  import opened Wrappers
  import opened Messages
  import opened Json
  import opened Routing
  import RoutingOrder
  import Utf8
  import ClosePayload

  /** What the reader yields: a frame by opcode, or the error that ends it. */
  datatype Frame =
    | TextFrame(payload: seq<byte>)
    | BinaryFrame(payload: seq<byte>)
    | CloseFrame(payload: seq<byte>)
    | OtherFrame
    | ReadError

  datatype Start =
    | Matched(handler: Handler, payload: string)
    | Generic(handler: Handler, text: string)
    | GenericBinary(callback: nat, data: seq<byte>)
    | Disconnected(callback: nat, code: u16, reason: string)

  type Parser = string -> Option<Value>
  type Printer = Value -> string

  /** Does the schema with this number accept the JSON text? */
  type Validator = (nat, string) -> bool

  /** The handlers of a connection, and the functions on JSON text it relies on. */
  datatype Config = Config(
    handlers: Table, generic: Option<Handler>, disconnect: Option<nat>,
    parse: Parser, render: Printer, validates: Validator)
  {
    /** JSON is parsed only if some pattern could match. */
    function Parsed(text: string): Option<Value> {
      if handlers != [] then parse(text) else None
    }

    function Choice(text: string): Option<Found> {
      match Parsed(text) case None => None case Some(json) => Search(handlers, json)
    }

    /** A handler runs on a text unless its schema rejects it. */
    predicate Accepts(h: Handler, text: string) {
      h.schema.Some? ==> validates(h.schema.value, text)
    }

    /** The text a chosen handler is given. */
    function Handed(text: string, found: Found): string
      requires Choice(text) == Some(found)
    {
      if found.handler.removeKey then render(Parsed(text).value.Without(found.key)) else text
    }

    function FromGeneric(text: string): seq<Start> {
      if generic.Some? && Accepts(generic.value, text) then [Generic(generic.value, text)] else []
    }

    /** What a frame starts, unless it ends the loop. */
    function Dispatch(f: Frame): seq<Start> {
      match f
      case TextFrame(payload) =>
        (match Utf8.Decode(payload)
         case None => []
         case Some(text) =>
           match Choice(text)
           case Some(found) =>
             if Accepts(found.handler, Handed(text, found)) then [Matched(found.handler, Handed(text, found))] else []
           case None => FromGeneric(text))
      case BinaryFrame(payload) =>
        if generic.Some? then [GenericBinary(generic.value.callback, payload)] else []
      case _ => []
    }

    function DispatchAll(frames: seq<Frame>): seq<Start> {
      if frames == [] then [] else DispatchAll(frames[..|frames| - 1]) + Dispatch(frames[|frames| - 1])
    }

    function Farewell(f: Frame): seq<Start> {
      if f.CloseFrame? && disconnect.Some? then
        var (code, reason) := ClosePayload.ServerDecode(f.payload);
        [Disconnected(disconnect.value, code, reason)]
      else []
    }
  }

  predicate Ends(f: Frame) {
    f.CloseFrame? || f.ReadError?
  }

  /** The number of frames before the first that ends the loop. */
  function Before(frames: seq<Frame>): (n: nat)
    ensures n <= |frames| && (n < |frames| ==> Ends(frames[n]))
    ensures forall k | 0 <= k < n :: !Ends(frames[k])
  {
    if frames == [] || Ends(frames[0]) then 0 else 1 + Before(frames[1..])
  }

  /** All callback starts of a stream: each frame before the end, in order, and the farewell of a Close. */
  function Session(c: Config, frames: seq<Frame>): seq<Start> {
    var n := Before(frames);
    c.DispatchAll(frames[..n]) + (if n < |frames| then c.Farewell(frames[n]) else [])
  }

  method ReceiveText(c: Config, payload: seq<byte>) returns (starts: seq<Start>)
    ensures starts == c.Dispatch(TextFrame(payload))
  {
    starts := [];
    var text := Utf8.Decode(payload);
    if text.Some? {
      var json := if c.handlers != [] then c.parse(text.value) else None;
      var found := None;
      if json.Some? { found := FindHandler(c.handlers, json.value); }
      if found.Some? {
        var data := text.value;
        if found.value.handler.removeKey {
          data := c.render(json.value.Without(found.value.key));
        }
        var schema := found.value.handler.schema;
        var valid := if schema.Some? then c.validates(schema.value, data) else true;
        if valid { starts := [Matched(found.value.handler, data)]; }
      } else if c.generic.Some? {
        var schema := c.generic.value.schema;
        var valid := if schema.Some? then c.validates(schema.value, text.value) else true;
        if valid { starts := [Generic(c.generic.value, text.value)]; }
      }
    }
  }

  method ReceiveClose(c: Config, payload: seq<byte>) returns (starts: seq<Start>)
    ensures starts == c.Farewell(CloseFrame(payload))
  {
    hide Utf8.Decode, Utf8.Lossy;
    starts := [];
    if c.disconnect.Some? {
      var reasonBytes := if |payload| >= 2 then payload[2..] else payload;
      var code := if |payload| >= 2 then payload[0] * 0x100 + payload[1] else ClosePayload.NO_STATUS;
      var text := Utf8.Decode(reasonBytes);
      var reason := if text.Some? then text.value else Utf8.Lossy(reasonBytes);
      starts := [Disconnected(c.disconnect.value, code, reason)];
    }
  }

  lemma DispatchOneMore(c: Config, frames: seq<Frame>, i: nat)
    requires i < |frames|
    ensures c.DispatchAll(frames[..i + 1]) == c.DispatchAll(frames[..i]) + c.Dispatch(frames[i])
  {
    hide Config.Dispatch;
    assert frames[..i + 1][..i] == frames[..i];
  }

  lemma SessionEnds(c: Config, frames: seq<Frame>, i: nat)
    requires i <= |frames| && i <= Before(frames) && (i < |frames| ==> Ends(frames[i]))
    ensures Session(c, frames) == c.DispatchAll(frames[..i]) + if i < |frames| then c.Farewell(frames[i]) else []
  {
    hide Config.DispatchAll, Config.Farewell;
  }

  /** The loop itself, over the frames the reader yields. */
  method ReceiveListener(c: Config, frames: seq<Frame>) returns (starts: seq<Start>)
    ensures starts == Session(c, frames)
  {
    starts := [];
    assert c.DispatchAll(frames[..0]) == [];
    hide Utf8.Decode, ClosePayload.ServerDecode, Config.Choice, Config.Handed, Config.FromGeneric, Config.DispatchAll;
    hide Before, Session;
    var i := 0;
    while i < |frames|
      invariant i <= Before(frames)
      invariant starts == c.DispatchAll(frames[..i])
      decreases |frames| - i
    {
      var f := frames[i];
      DispatchOneMore(c, frames, i);
      match f {
      case CloseFrame(payload) =>
        var more := ReceiveClose(c, payload);
        starts := starts + more;
        SessionEnds(c, frames, i);
        return;
      case ReadError =>
        SessionEnds(c, frames, i);
        return;
      case TextFrame(payload) =>
        var more := ReceiveText(c, payload);
        starts := starts + more;
      case BinaryFrame(payload) =>
        if c.generic.Some? {
          starts := starts + [GenericBinary(c.generic.value.callback, payload)];
        }
      case OtherFrame =>
      }
      i := i + 1;
    }
    SessionEnds(c, frames, i);
  }

  // ---- Text frames, in terms of the registered bindings ----

  /** The text is JSON that some registered binding matches. */
  predicate Matchable(c: Config, log: Log, text: string) {
    c.parse(text).Some? && exists x | 0 <= x < |log| :: log[x].Matches(c.parse(text).value)
  }

  /** Parsing only if there are handlers makes no difference to the choice. */
  lemma ParsedIfNeeded(c: Config, log: Log, text: string)
    requires c.handlers == TableOf(log)
    ensures log != [] ==> c.Parsed(text) == c.parse(text)
    ensures log == [] ==> c.Choice(text) == None
  {
    if log != [] { assert log[0].key in Keys(log); }
  }

  lemma ChoiceIsWinner(c: Config, log: Log, text: string, m: nat)
    requires c.handlers == TableOf(log) && c.parse(text).Some? && RoutingOrder.Wins(log, c.parse(text).value, m)
    ensures c.Parsed(text) == c.parse(text) && c.Choice(text) == Some(Found(log[m].handler, log[m].key))
  {
    ParsedIfNeeded(c, log, text);
    RoutingOrder.WinnerFound(log, c.parse(text).value, m);
  }

  lemma ChoiceIfMatchable(c: Config, log: Log, text: string)
    requires c.handlers == TableOf(log)
    ensures c.Choice(text).Some? <==> Matchable(c, log, text)
  {
    ParsedIfNeeded(c, log, text);
    if Matchable(c, log, text) {
      var m := RoutingOrder.BestOf(log, c.parse(text).value, |log|);
      ChoiceIsWinner(c, log, text, m);
    } else if log != [] && c.parse(text).Some? {
      RoutingOrder.NothingFound(log, c.parse(text).value);
    }
  }

  /**
   The generic handler starts for a text frame if and only if the frame is UTF-8, no registered
   binding matches it, and a generic handler is set whose schema, if any, accepts the text.
   */
  lemma GenericExactly(c: Config, log: Log, payload: seq<byte>)
    requires c.handlers == TableOf(log)
    ensures var text, starts := Utf8.Decode(payload), c.Dispatch(TextFrame(payload));
      && ((exists k | 0 <= k < |starts| :: starts[k].Generic?) <==>
            && text.Some? && !Matchable(c, log, text.value)
            && c.generic.Some? && c.Accepts(c.generic.value, text.value))
      && (forall k | 0 <= k < |starts| && starts[k].Generic? :: starts == [Generic(c.generic.value, text.value)])
      && (text.Some? && !Matchable(c, log, text.value) ==> forall k | 0 <= k < |starts| :: starts[k].Generic?)
      && (text.None? ==> starts == [])
  {
    hide Utf8.Decode, Config.Choice, Matchable;
    var text, starts := Utf8.Decode(payload), c.Dispatch(TextFrame(payload));
    if text.Some? {
      ChoiceIfMatchable(c, log, text.value);
      if c.FromGeneric(text.value) != [] && starts == c.FromGeneric(text.value) { assert starts[0].Generic?; }
    }
  }

  /**
   A text frame that some binding matches goes to the winner among the matching bindings, with its key
   taken out if the handler asks for that; if the winner's schema rejects what is left, nothing starts.
   */
  lemma MatchedExactly(c: Config, log: Log, payload: seq<byte>, text: string, m: nat)
    requires c.handlers == TableOf(log) && Utf8.Decode(payload) == Some(text)
    requires c.parse(text).Some? && RoutingOrder.Wins(log, c.parse(text).value, m)
    ensures var h, json := log[m].handler, c.parse(text).value;
      var handed := if h.removeKey then c.render(json.Without(log[m].key)) else text;
      c.Dispatch(TextFrame(payload)) == if c.Accepts(h, handed) then [Matched(h, handed)] else []
  {
    hide Utf8.Decode, Config.Choice;
    ChoiceIsWinner(c, log, text, m);
  }

  // ---- The matched key ----

  lemma {:induction false} FoundKeyPresent(table: Table, json: Value)
    requires Search(table, json).Some?
    ensures json.Get(Search(table, json).value.key).Some?
  {
    var here := match json.Get(table[0].key) case None => None case Some(v) => SearchRow(table[0].cells, v);
    if here.None? { FoundKeyPresent(table[1..], json); }
  }

  /**
   A handler that asks for it gets the message without the member that chose it. That member was
   there, and every other member stays as it was.
   */
  lemma StripsMatchedKey(c: Config, text: string, found: Found)
    requires c.Choice(text) == Some(found) && found.handler.removeKey
    ensures c.Parsed(text).Some?
    ensures var json := c.Parsed(text).value;
      && json.Object? && found.key in json.members
      && c.Handed(text, found) == c.render(Object(map k | k in json.members && k != found.key :: json.members[k]))
  {
    var json := c.Parsed(text).value;
    FoundKeyPresent(c.handlers, json);
    assert json.members - {found.key} == map k | k in json.members && k != found.key :: json.members[k];
  }

  // ---- The documented fallback ----

  /** The documented rule: the chosen handler if it accepts the text, and in all other cases the generic one. */
  function Documented(c: Config, payload: seq<byte>): seq<Start> {
    match Utf8.Decode(payload)
    case None => []
    case Some(text) =>
      if c.Choice(text).Some? && c.Accepts(c.Choice(text).value.handler, c.Handed(text, c.Choice(text).value))
      then [Matched(c.Choice(text).value.handler, c.Handed(text, c.Choice(text).value))]
      else c.FromGeneric(text)
  }

  /** The winning binding's handler turns the text down although the generic one would take it. */
  predicate TurnedDown(c: Config, log: Log, text: string) {
    && c.parse(text).Some?
    && (exists m | 0 <= m < |log| ::
          && RoutingOrder.Wins(log, c.parse(text).value, m)
          && !c.Accepts(log[m].handler,
                        if log[m].handler.removeKey then c.render(c.parse(text).value.Without(log[m].key)) else text))
    && c.generic.Some? && c.Accepts(c.generic.value, text)
  }

  /** The documented fallback is what happens unless the generic handler would take what the winner rejects. */
  lemma FallbackExactly(c: Config, log: Log, payload: seq<byte>)
    requires c.handlers == TableOf(log)
    ensures c.Dispatch(TextFrame(payload)) == Documented(c, payload) <==>
      !(Utf8.Decode(payload).Some? && TurnedDown(c, log, Utf8.Decode(payload).value))
  {
    hide Utf8.Decode, RoutingOrder.Wins, Config.Choice;
    if Utf8.Decode(payload).Some? {
      var text := Utf8.Decode(payload).value;
      ChoiceIfMatchable(c, log, text);
      if Matchable(c, log, text) {
        var json := c.parse(text).value;
        var m := WinnerExists(log, json);
        ChoiceIsWinner(c, log, text, m);
        forall n: nat | n < |log| && RoutingOrder.Wins(log, json, n)
          ensures log[n].handler == log[m].handler && log[n].key == log[m].key
        {
          ChoiceIsWinner(c, log, text, n);
        }
      } else {
        if c.parse(text).Some? { NobodyWins(c, log, text); }
      }
    }
  }

  lemma WinnerExists(log: Log, json: Value) returns (m: nat)
    requires exists x | 0 <= x < |log| :: log[x].Matches(json)
    ensures m < |log| && RoutingOrder.Wins(log, json, m)
  {
    m := RoutingOrder.BestOf(log, json, |log|);
  }

  lemma NobodyWins(c: Config, log: Log, text: string)
    requires !Matchable(c, log, text) && c.parse(text).Some?
    ensures forall m | 0 <= m < |log| :: !RoutingOrder.Wins(log, c.parse(text).value, m)
  {
  }

  /** Such a message: a join the schema rejects starts nothing, though a generic handler without schema is set. */
  lemma FallbackFails(text: string, h: Handler, g: Handler) returns (c: Config)
    requires h.schema.Some? && g.schema.None?
    ensures c.handlers == TableOf([Binding("type", Str("join"), h)]) && c.generic == Some(g)
    ensures c.parse(text) == Some(Object(map["type" := String("join")]))
    ensures c.Dispatch(TextFrame(Utf8.Encode(text))) == []
    ensures Documented(c, Utf8.Encode(text)) == [Generic(g, text)]
  {
    hide Utf8.Decode, Config.Choice;
    var log, json := [Binding("type", Str("join"), h)], Object(map["type" := String("join")]);
    c := Config(TableOf(log), Some(g), None, _ => Some(json), _ => "", (_, _) => false);
    Utf8.DecodeEncode(text);
    assert log[0].Matches(json);
    MatchedExactly(c, log, Utf8.Encode(text), text, 0);
  }

  // ---- Frame by frame ----

  /** The frames before the end start what they start alone, one after the other. */
  lemma FrameByFrame(c: Config, frames: seq<Frame>, k: nat)
    requires k < Before(frames)
    ensures Session(c, []) == []
    ensures Session(c, frames[..k + 1]) == Session(c, frames[..k]) + c.Dispatch(frames[k])
    ensures Session(c, frames[..k + 1]) <= Session(c, frames)
  {
    SessionOfPrefix(c, frames, k);
    SessionOfPrefix(c, frames, k + 1);
    DispatchOneMore(c, frames, k);
    SessionOfFirst(c, frames, k + 1);
    NoFramesNoStarts(c);
    hide *;
  }

  lemma NoFramesNoStarts(c: Config)
    ensures Session(c, []) == []
  {
  }

  lemma SessionOfFirst(c: Config, frames: seq<Frame>, k: nat)
    requires k <= |frames|
    ensures Session(c, frames[..k]) <= Session(c, frames)
  {
    hide *;
    assert frames[..k] + frames[k..] == frames;
    StartsGrow(c, frames[..k], frames[k..]);
  }

  lemma SessionOfPrefix(c: Config, frames: seq<Frame>, k: nat)
    requires k <= Before(frames)
    ensures Session(c, frames[..k]) == c.DispatchAll(frames[..k])
  {
    BeforePrefix(frames, k);
    SessionEnds(c, frames[..k], k);
    hide *;
    assert frames[..k][..k] == frames[..k];
  }

  lemma BeforePrefix(frames: seq<Frame>, k: nat)
    requires k <= Before(frames)
    ensures Before(frames[..k]) == k
  {
    assert forall i | 0 <= i < k :: frames[..k][i] == frames[i];
  }

  /** Text frames start pattern or generic handlers, binary frames the generic callback, and other frames nothing. */
  lemma KindsOfStarts(c: Config, f: Frame)
    ensures var starts := c.Dispatch(f);
      |starts| <= 1 && forall k | 0 <= k < |starts| ::
        if f.TextFrame? then starts[k].Matched? || starts[k].Generic? else f.BinaryFrame? && starts[k].GenericBinary?
  {
    hide Utf8.Decode, Config.Choice, Config.Handed;
  }

  /** The starts for binary data among all starts. */
  function BinaryOnly(starts: seq<Start>): seq<Start> {
    if starts == [] then []
    else
      var last := starts[|starts| - 1];
      BinaryOnly(starts[..|starts| - 1]) + (if last.GenericBinary? then [last] else [])
  }

  /** One start of the generic callback for each binary frame, with its bytes; no schema is asked. */
  function ForBinary(generic: Option<Handler>, frames: seq<Frame>): seq<Start> {
    if frames == [] || generic.None? then []
    else
      var last := frames[|frames| - 1];
      ForBinary(generic, frames[..|frames| - 1]) +
      (if last.BinaryFrame? then [GenericBinary(generic.value.callback, last.payload)] else [])
  }

  lemma {:induction false} BinaryOnlyConcat(a: seq<Start>, b: seq<Start>)
    ensures BinaryOnly(a + b) == BinaryOnly(a) + BinaryOnly(b)
  {
    if b == [] {
      assert a + b == a;
    } else {
      var n := |b| - 1;
      BinaryOnlyConcat(a, b[..n]);
      assert (a + b)[..|a| + n] == a + b[..n];
    }
  }

  lemma BinaryOfFrame(c: Config, f: Frame)
    ensures BinaryOnly(c.Dispatch(f)) ==
      if f.BinaryFrame? && c.generic.Some? then [GenericBinary(c.generic.value.callback, f.payload)] else []
  {
    hide Utf8.Decode, Config.Choice, Config.Handed;
    assert |c.Dispatch(f)| <= 1;
    var starts := c.Dispatch(f);
    if starts != [] { assert BinaryOnly(starts[..0]) == []; }
  }

  lemma {:induction false} BinaryOfAll(c: Config, frames: seq<Frame>)
    ensures BinaryOnly(c.DispatchAll(frames)) == ForBinary(c.generic, frames)
  {
    if frames != [] {
      var n := |frames| - 1;
      BinaryOfAll(c, frames[..n]);
      BinaryOfFrame(c, frames[n]);
      BinaryOnlyConcat(c.DispatchAll(frames[..n]), c.Dispatch(frames[n]));
    }
  }

  /**
   Binary frames, in every stream: the generic callback starts once for each of them before the first Close
   or error, in order, with the bytes of the frame and whatever its schema; without a generic handler, or
   for any other frame, no such start is made.
   */
  lemma BinaryExactly(c: Config, frames: seq<Frame>)
    ensures BinaryOnly(Session(c, frames)) == ForBinary(c.generic, frames[..Before(frames)])
  {
    var n := Before(frames);
    BinaryOfAll(c, frames[..n]);
    var last := if n < |frames| then c.Farewell(frames[n]) else [];
    BinaryOnlyConcat(c.DispatchAll(frames[..n]), last);
    hide Config.DispatchAll, ForBinary, ClosePayload.ServerDecode;
    if last != [] { assert BinaryOnly(last[..0]) == []; }
  }

  // ---- What the stream of starts looks like ----

  lemma {:induction false} NoFarewellInside(c: Config, frames: seq<Frame>, k: nat)
    requires k < |c.DispatchAll(frames)|
    ensures !c.DispatchAll(frames)[k].Disconnected?
  {
    var n := |frames| - 1;
    if k < |c.DispatchAll(frames[..n])| { NoFarewellInside(c, frames[..n], k); }
  }

  /**
   The disconnect callback starts at most once, as the last start of all, and it starts exactly if
   the stream ends with a Close and a callback is registered. It gets the code and reason of that Close.
   */
  lemma DisconnectOnceAtEnd(c: Config, frames: seq<Frame>)
    ensures forall k | 0 <= k < |Session(c, frames)| :: Session(c, frames)[k].Disconnected? ==> k == |Session(c, frames)| - 1
    ensures var n := Before(frames);
      (exists k | 0 <= k < |Session(c, frames)| :: Session(c, frames)[k].Disconnected?)
      <==> n < |frames| && frames[n].CloseFrame? && c.disconnect.Some?
    ensures var n, starts := Before(frames), Session(c, frames);
      n < |frames| && frames[n].CloseFrame? && c.disconnect.Some? ==>
        var (code, reason) := ClosePayload.ServerDecode(frames[n].payload);
        starts != [] && starts[|starts| - 1] == Disconnected(c.disconnect.value, code, reason)
  {
    var n, starts := Before(frames), Session(c, frames);
    var inner := c.DispatchAll(frames[..n]);
    forall k | 0 <= k < |inner| ensures !starts[k].Disconnected? { NoFarewellInside(c, frames[..n], k); }
    if n < |frames| && frames[n].CloseFrame? && c.disconnect.Some? {
      assert starts[|inner|].Disconnected?;
    }
  }

  lemma {:induction false} BeforeExtends(frames: seq<Frame>, more: seq<Frame>)
    requires Before(frames) < |frames|
    ensures Before(frames + more) == Before(frames)
  {
    if !Ends(frames[0]) {
      BeforeExtends(frames[1..], more);
      assert (frames + more)[1..] == frames[1..] + more;
    }
  }

  /** Nothing starts after the end: frames behind a Close or an error make no difference. */
  lemma {:induction false} NothingAfterEnd(c: Config, frames: seq<Frame>, more: seq<Frame>)
    requires Before(frames) < |frames|
    ensures Session(c, frames + more) == Session(c, frames)
  {
    BeforeExtends(frames, more);
    assert (frames + more)[..Before(frames)] == frames[..Before(frames)];
  }

  /** The loop is a stream transformer: what a longer stream starts extends what its first part started. */
  lemma {:induction false} StartsGrow(c: Config, frames: seq<Frame>, more: seq<Frame>)
    ensures Session(c, frames) <= Session(c, frames + more)
  {
    hide Config.Dispatch, Config.Farewell;
    if Before(frames) < |frames| {
      NothingAfterEnd(c, frames, more);
    } else {
      var n := Before(frames + more);
      BeforeAll(frames, more);
      DispatchGrows(c, frames, (frames + more)[|frames|..n]);
      assert (frames + more)[..n] == frames + (frames + more)[|frames|..n];
      assert frames[..|frames|] == frames;
    }
  }

  lemma BeforeAll(frames: seq<Frame>, more: seq<Frame>)
    requires Before(frames) == |frames|
    ensures Before(frames + more) >= |frames|
  {
    assert forall k | 0 <= k < |frames| :: (frames + more)[k] == frames[k];
  }

  lemma {:induction false} DispatchGrows(c: Config, frames: seq<Frame>, more: seq<Frame>)
    ensures c.DispatchAll(frames) <= c.DispatchAll(frames + more)
  {
    hide Config.Dispatch;
    if more == [] {
      assert frames + more == frames;
    } else {
      var n := |more| - 1;
      DispatchGrows(c, frames, more[..n]);
      assert (frames + more)[..|frames| + n] == frames + more[..n];
    }
  }
}
