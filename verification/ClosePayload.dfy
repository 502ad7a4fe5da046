/** The payload of a Close frame: written by the server, read by the client and by the server (section 5.5.1 of RFC 6455). */
module ClosePayload {
  import opened Wrappers
  import opened Messages
  import opened Utf8

  /** Reported when a Close frame carries no status code. */
  const NO_STATUS: u16 := 1005

  /** Two bytes of status code, most significant first, then the reason. */
  function Payload(code: u16, reason: seq<byte>): seq<byte> {
    [code / 0x100, code % 0x100] + reason
  }

  function Code(payload: seq<byte>): u16 {
    if |payload| >= 2 then payload[0] * 0x100 + payload[1] else NO_STATUS
  }

  /** The client's reading: a reason that is not UTF-8 is dropped. */
  function ParseClosePayload(payload: seq<byte>): (u16, string) {
    if |payload| >= 2 then
      (Code(payload), match Decode(payload[2..]) case Some(s) => s case None => "")
    else (NO_STATUS, "")
  }

  /** The server's reading: a reason that is not UTF-8 is repaired, and a payload too short for a code is all reason. */
  function ServerDecode(payload: seq<byte>): (u16, string) {
    var reason := if |payload| >= 2 then payload[2..] else payload;
    (Code(payload), match Decode(reason) case Some(s) => s case None => Lossy(reason))
  }

  /** On the wire: the code in two bytes, most significant first, and the reason behind it. */
  lemma OnTheWire(code: u16, reason: seq<byte>)
    ensures var payload := Payload(code, reason);
      && |payload| == 2 + |reason| && payload[2..] == reason
      && payload[0] as int * 256 + payload[1] as int == code
  {
    var payload := Payload(code, reason);
    assert payload[2..] == reason;
    assert code / 0x100 * 0x100 + code % 0x100 == code;
  }

  /** Off the wire, on arbitrary bytes: the code of the first two, or 1005 if there are no two. */
  lemma OffTheWire(payload: seq<byte>)
    ensures ParseClosePayload(payload).0 == ServerDecode(payload).0
         == if |payload| >= 2 then payload[0] as int * 256 + payload[1] as int else 1005
    ensures |payload| < 2 ==> ParseClosePayload(payload).1 == ""
    ensures |payload| >= 2 && Decode(payload[2..]).None? ==>
      ParseClosePayload(payload).1 == "" && ServerDecode(payload).1 == Lossy(payload[2..])
    ensures |payload| == 1 && Decode(payload).None? ==> ServerDecode(payload).1 == Lossy(payload)
  {
  }

  /** Both ends recover the code and the reason of a Close that the server or client sent. */
  lemma RoundTrip(code: u16, reason: string)
    ensures ParseClosePayload(Payload(code, Encode(reason))) == (code, reason)
    ensures ServerDecode(Payload(code, Encode(reason))) == (code, reason)
  {
    var payload := Payload(code, Encode(reason));
    assert payload[2..] == Encode(reason);
    assert code / 0x100 * 0x100 + code % 0x100 == code;
    DecodeEncode(reason);
  }

  /** The reason, if any, is UTF-8 and follows a code. */
  predicate WellFormed(payload: seq<byte>) {
    payload == [] || (|payload| >= 2 && Decode(payload[2..]).Some?)
  }

  /** On arbitrary bytes both ends agree on the code, and on the reason exactly for well-formed payloads. */
  lemma EndsAgree(payload: seq<byte>)
    ensures ParseClosePayload(payload).0 == ServerDecode(payload).0
    ensures ParseClosePayload(payload) == ServerDecode(payload) <==> WellFormed(payload)
  {
  }

  /** Nothing else than a Close's own encoding reads as a code with a UTF-8 reason. */
  lemma PayloadIsCanonical(payload: seq<byte>)
    requires |payload| >= 2 && WellFormed(payload)
    ensures var (code, reason) := ParseClosePayload(payload); payload == Payload(code, Encode(reason))
  {
    EncodeDecode(payload[2..]);
    var high: int, low: int := payload[0], payload[1];
    assert (high * 0x100 + low) / 0x100 == high && (high * 0x100 + low) % 0x100 == low;
    assert payload == [payload[0], payload[1]] + payload[2..];
  }
}
