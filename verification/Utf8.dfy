/** UTF-8 as the standard library decodes it: strictly, or with replacement characters. */
module Utf8 {
  import opened Wrappers
  import opened Messages

  const REPLACEMENT := '\U{FFFD}'

  function Encode2(n: int): seq<byte>
    requires 0x80 <= n < 0x800
  {
    [0xC0 + n / 0x40, 0x80 + n % 0x40]
  }

  function Encode3(n: int): seq<byte>
    requires 0x800 <= n < 0x1_0000
  {
    [0xE0 + n / 0x40 / 0x40, 0x80 + n / 0x40 % 0x40, 0x80 + n % 0x40]
  }

  function Encode4(n: int): seq<byte>
    requires 0x1_0000 <= n < 0x11_0000
  {
    [0xF0 + n / 0x40 / 0x40 / 0x40, 0x80 + n / 0x40 / 0x40 % 0x40, 0x80 + n / 0x40 % 0x40, 0x80 + n % 0x40]
  }

  function EncodeChar(c: char): seq<byte> {
    var n := c as int;
    if n < 0x80 then [n]
    else if n < 0x800 then Encode2(n)
    else if n < 0x1_0000 then Encode3(n)
    else Encode4(n)
  }

  function Encode(s: string): seq<byte> {
    if s == "" then [] else EncodeChar(s[0]) + Encode(s[1..])
  }

  predicate Continues(b: byte) {
    0x80 <= b < 0xC0
  }

  /** The code point so far, extended by the six bits of a continuation byte. */
  function Tail(n: int, b: byte): int {
    n * 0x40 + (b - 0x80)
  }

  /** The second byte must continue, and must not make the sequence overlong, a surrogate or too large. */
  predicate SecondOk(first: byte, second: byte) {
    && Continues(second)
    && (first == 0xE0 ==> second >= 0xA0)
    && (first == 0xED ==> second < 0xA0)
    && (first == 0xF0 ==> second >= 0x90)
    && (first == 0xF4 ==> second < 0x90)
  }

  /** The next character with its length, or the length of the longest ill-formed start of one. */
  datatype Scan = Good(c: char, len: nat) | Bad(len: nat)

  function Next(b: seq<byte>): (r: Scan)
    requires b != []
    ensures 1 <= r.len <= |b|
  {
    var first := b[0];
    if first < 0x80 then Good(first as char, 1)
    else if 0xC2 <= first < 0xE0 then
      if |b| < 2 || !Continues(b[1]) then Bad(1)
      else Good(Tail(first - 0xC0, b[1]) as char, 2)
    else if 0xE0 <= first < 0xF0 then
      if |b| < 2 || !SecondOk(first, b[1]) then Bad(1)
      else if |b| < 3 || !Continues(b[2]) then Bad(2)
      else Good(Tail(Tail(first - 0xE0, b[1]), b[2]) as char, 3)
    else if 0xF0 <= first < 0xF5 then
      if |b| < 2 || !SecondOk(first, b[1]) then Bad(1)
      else if |b| < 3 || !Continues(b[2]) then Bad(2)
      else if |b| < 4 || !Continues(b[3]) then Bad(3)
      else Good(Tail(Tail(Tail(first - 0xF0, b[1]), b[2]), b[3]) as char, 4)
    else Bad(1)
  }

  /** from_utf8: the string, or nothing if any part is ill-formed. */
  function Decode(b: seq<byte>): Option<string> {
    if b == [] then Some("")
    else
      match Next(b)
      case Bad(_) => None
      case Good(c, n) =>
        match Decode(b[n..])
        case None => None
        case Some(rest) => Some([c] + rest)
  }

  /** from_utf8_lossy: each ill-formed start becomes one replacement character. */
  function Lossy(b: seq<byte>): string {
    if b == [] then ""
    else
      match Next(b)
      case Bad(n) => [REPLACEMENT] + Lossy(b[n..])
      case Good(c, n) => [c] + Lossy(b[n..])
  }

  lemma NextOfEncoded(c: char, rest: seq<byte>)
    ensures Next(EncodeChar(c) + rest) == Good(c, |EncodeChar(c)|)
  {
    var n, bytes := c as int, EncodeChar(c);
    var all := bytes + rest;
    assert forall k | 0 <= k < |bytes| :: all[k] == bytes[k];
    if 0x80 <= n < 0x800 {
      assert Tail(n / 0x40, bytes[1]) == n;
    } else if 0x800 <= n < 0x1_0000 {
      assert Tail(n / 0x40 / 0x40, bytes[1]) == n / 0x40;
      assert Tail(n / 0x40, bytes[2]) == n;
      assert SecondOk(bytes[0], bytes[1]);
    } else if 0x1_0000 <= n {
      assert Tail(n / 0x40 / 0x40 / 0x40, bytes[1]) == n / 0x40 / 0x40;
      assert Tail(n / 0x40 / 0x40, bytes[2]) == n / 0x40;
      assert Tail(n / 0x40, bytes[3]) == n;
      assert SecondOk(bytes[0], bytes[1]);
    }
  }

  lemma TailSplits(n: int, b: byte)
    requires n >= 0 && Continues(b)
    ensures Tail(n, b) / 0x40 == n && 0x80 + Tail(n, b) % 0x40 == b
  {
  }

  /** What is encoded decodes to the same string. */
  lemma {:induction false} DecodeEncode(s: string)
    ensures Decode(Encode(s)) == Some(s)
  {
    hide Next, EncodeChar;
    if s != "" {
      var head, tail := EncodeChar(s[0]), Encode(s[1..]);
      NextOfEncoded(s[0], tail);
      DecodeEncode(s[1..]);
      assert (head + tail)[|head|..] == tail;
      assert [s[0]] + s[1..] == s;
    }
  }

  lemma EncodedOfNext(b: seq<byte>)
    requires b != [] && Next(b).Good?
    ensures EncodeChar(Next(b).c) == b[..Next(b).len]
  {
    var n := Next(b).len;
    if n == 2 {
      TailSplits(b[0] - 0xC0, b[1]);
      assert b[..2] == [b[0], b[1]];
    } else if n == 3 {
      TailSplits(b[0] - 0xE0, b[1]);
      TailSplits(Tail(b[0] - 0xE0, b[1]), b[2]);
      assert b[..3] == [b[0], b[1], b[2]];
    } else if n == 4 {
      TailSplits(b[0] - 0xF0, b[1]);
      TailSplits(Tail(b[0] - 0xF0, b[1]), b[2]);
      TailSplits(Tail(Tail(b[0] - 0xF0, b[1]), b[2]), b[3]);
      assert b[..4] == [b[0], b[1], b[2], b[3]];
    }
  }

  /** Decoding accepts only what encoding produces. */
  lemma {:induction false} EncodeDecode(b: seq<byte>)
    requires Decode(b).Some?
    ensures Encode(Decode(b).value) == b
  {
    hide Next, EncodeChar;
    if b != [] {
      var c, n := Next(b).c, Next(b).len;
      var rest := Decode(b[n..]).value;
      EncodeDecode(b[n..]);
      EncodedOfNext(b);
      assert ([c] + rest)[1..] == rest;
      assert b[..n] + b[n..] == b;
    }
  }

  /** The lossy form changes nothing in well-formed input, marks ill-formed input, and loses no non-empty input. */
  lemma {:induction false} LossyMarks(b: seq<byte>)
    ensures Decode(b).Some? ==> Lossy(b) == Decode(b).value
    ensures Decode(b).None? ==> REPLACEMENT in Lossy(b)
    ensures Lossy(b) == "" <==> b == []
  {
    if b != [] {
      LossyMarks(b[Next(b).len..]);
    }
  }

  // ---- The encoding against its standard ----

  /** The number that bytes carry: the bits of the first after its marker, and six bits of each other. */
  function Number(b: seq<byte>, marker: int): int
    requires b != []
  {
    if |b| == 1 then b[0] as int - marker else Number(b[..|b| - 1], marker) * 64 + (b[|b| - 1] as int - 0x80)
  }

  /** Section 3 of RFC 3629: the bytes of a character by its range, and its number from their bits. */
  lemma AsInTheStandard(c: char)
    ensures var n, b := c as int, EncodeChar(c);
      && (n < 0x80 ==> b == [n])
      && (0x80 <= n < 0x800 ==> |b| == 2 && 0xC2 <= b[0] < 0xE0 && Continues(b[1]) && n == Number(b, 0xC0))
      && (0x800 <= n < 0x1_0000 ==>
            |b| == 3 && 0xE0 <= b[0] < 0xF0 && SecondOk(b[0], b[1]) && Continues(b[2]) && n == Number(b, 0xE0))
      && (0x1_0000 <= n ==>
            && |b| == 4 && 0xF0 <= b[0] < 0xF5 && SecondOk(b[0], b[1]) && Continues(b[2]) && Continues(b[3])
            && n == Number(b, 0xF0))
  {
    var n, b := c as int, EncodeChar(c);
    if 0x80 <= n { assert b[..|b| - 1][..1] == [b[0]]; assert |b| > 2 ==> b[..|b| - 1][..2] == [b[0], b[1]]; }
    NumberOf(b, if n < 0x800 then 0xC0 else if n < 0x1_0000 then 0xE0 else 0xF0);
  }

  lemma NumberOf(b: seq<byte>, marker: int)
    requires 1 <= |b| <= 4
    ensures |b| == 2 ==> Number(b, marker) == (b[0] as int - marker) * 64 + (b[1] as int - 0x80)
    ensures |b| == 3 ==>
      Number(b, marker) == ((b[0] as int - marker) * 64 + (b[1] as int - 0x80)) * 64 + (b[2] as int - 0x80)
    ensures |b| == 4 ==>
      Number(b, marker) == (((b[0] as int - marker) * 64 + (b[1] as int - 0x80)) * 64 + (b[2] as int - 0x80)) * 64
                           + (b[3] as int - 0x80)
  {
    if |b| >= 2 { NumberOf(b[..|b| - 1], marker); }
  }

  lemma BitsOfBytes(b: byte, c: byte)
    ensures Continues(b) <==> 0x80 <= b <= 0xBF
    ensures SecondOk(b, c) <==>
      && 0x80 <= c <= 0xBF && (b == 0xE0 ==> 0xA0 <= c) && (b == 0xED ==> c <= 0x9F)
      && (b == 0xF0 ==> 0x90 <= c) && (b == 0xF4 ==> c <= 0x8F)
  {
  }

  // ---- What the lossy form replaces ----

  /** The bytes are the beginning, or all, of the encoding of some character. */
  ghost predicate StartsChar(b: seq<byte>) {
    exists c: char :: b <= EncodeChar(c)
  }

  /** What the scan calls ill-formed cannot be prolonged to a character. */
  lemma NoLonger(b: seq<byte>, m: nat, c: char)
    requires b != [] && Next(b).Bad? && Next(b).len < m <= |b|
    ensures !(b[..m] <= EncodeChar(c))
  {
    var bytes := EncodeChar(c);
    AsInTheStandard(c);
    hide EncodeChar, Number;
    if b[..m] <= bytes { SameBytes(b, m, bytes); }
  }

  lemma SameBytes(b: seq<byte>, m: nat, bytes: seq<byte>)
    requires m <= |b| && b[..m] <= bytes
    ensures m <= |bytes| && forall k | 0 <= k < m :: bytes[k] == b[k]
  {
    assert forall k | 0 <= k < m :: b[..m][k] == b[k];
  }

  /** It is the beginning of one, unless it is a single byte. */
  lemma BadStarts(b: seq<byte>)
    requires b != [] && Next(b).Bad? && Next(b).len > 1
    ensures StartsChar(b[..Next(b).len])
  {
    var n := Next(b).len;
    var whole := b[..n] + if b[0] < 0xF0 then [0x80] else if n == 2 then [0x80, 0x80] else [0x80];
    assert whole[0] == b[0] && whole[1] == b[1] && (n == 3 ==> whole[2] == b[2]);
    assert Next(whole).Good? && Next(whole).len == |whole|;
    EncodedOfNext(whole);
    assert whole[..|whole|] == whole;
    assert b[..n] <= EncodeChar(Next(whole).c);
  }

  /**
   The lossy form of arbitrary bytes, from the front: a character stands for itself; where none begins,
   one replacement character stands for the longest beginning of a character, or for one byte if there
   is not even that.
   */
  lemma LossyExactly(b: seq<byte>) returns (n: nat)
    requires b != []
    ensures forall c: char | EncodeChar(c) <= b :: Lossy(b) == [c] + Lossy(b[|EncodeChar(c)|..])
    ensures (forall c: char :: !(EncodeChar(c) <= b)) ==>
      && 1 <= n <= |b| && Lossy(b) == [REPLACEMENT] + Lossy(b[n..])
      && (n == 1 || StartsChar(b[..n]))
      && (forall m | n < m <= |b| :: !StartsChar(b[..m]))
  {
    n := Next(b).len;
    forall c: char | EncodeChar(c) <= b ensures Lossy(b) == [c] + Lossy(b[|EncodeChar(c)|..]) {
      NextOfEncoded(c, b[|EncodeChar(c)|..]);
      hide Next, EncodeChar;
      assert EncodeChar(c) + b[|EncodeChar(c)|..] == b;
    }
    if Next(b).Good? {
      EncodedOfNext(b);
      assert EncodeChar(Next(b).c) <= b;
    } else {
      if n > 1 { BadStarts(b); }
      forall m, c: char | n < m <= |b| ensures !(b[..m] <= EncodeChar(c)) { NoLonger(b, m, c); }
    }
  }
}
