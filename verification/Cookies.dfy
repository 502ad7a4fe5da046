/** The cookie header of an upgrade request, read into a map (section 4.2.1 of RFC 6265 gives its form). */
module Cookies {
  import opened Wrappers

  /** Unicode White_Space, which trim removes at both ends. */
  predicate IsSpace(c: char) {
    var n := c as int;
    || 0x09 <= n <= 0x0D || n == 0x20 || n == 0x85 || n == 0xA0 || n == 0x1680
    || 0x2000 <= n <= 0x200A || n == 0x2028 || n == 0x2029 || n == 0x202F || n == 0x205F || n == 0x3000
  }

  function TrimStart(s: string): string {
    if s != "" && IsSpace(s[0]) then TrimStart(s[1..]) else s
  }

  function TrimEnd(s: string): string {
    if s != "" && IsSpace(s[|s| - 1]) then TrimEnd(s[..|s| - 1]) else s
  }

  function Trim(s: string): string {
    TrimEnd(TrimStart(s))
  }

  /** split(';'): the pieces between the separators; an empty text is one empty piece. */
  function Split(s: string, sep: char): (pieces: seq<string>)
    ensures |pieces| >= 1
  {
    if s == "" then [""]
    else
      var rest := Split(s[1..], sep);
      if s[0] == sep then [""] + rest else [[s[0]] + rest[0]] + rest[1..]
  }

  /** split_once('='): what is before and after the first separator. */
  function SplitOnce(s: string, sep: char): Option<(string, string)> {
    if s == "" then None
    else if s[0] == sep then Some(("", s[1..]))
    else
      match SplitOnce(s[1..], sep)
      case None => None
      case Some((name, value)) => Some(([s[0]] + name, value))
  }

  type Jar = map<string, string>

  function Add(jar: Jar, piece: string): Jar {
    match SplitOnce(Trim(piece), '=')
    case None => jar
    case Some((name, value)) => jar[Trim(name) := Trim(value)]
  }

  function AddAll(jar: Jar, pieces: seq<string>): Jar
    decreases pieces
  {
    if pieces == [] then jar else AddAll(Add(jar, pieces[0]), pieces[1..])
  }

  /** The cookies of a connection; without a readable cookie header there are none. */
  method Parse(header: Option<string>) returns (cookies: Jar)
    ensures cookies == match header case None => map[] case Some(text) => AddAll(map[], Split(text, ';'))
  {
    cookies := map[];
    if header.Some? {
      var pieces := Split(header.value, ';');
      var i := 0;
      while i < |pieces|
        invariant 0 <= i <= |pieces|
        invariant AddAll(cookies, pieces[i..]) == AddAll(map[], pieces)
      {
        var cookie := Trim(pieces[i]);
        var parts := SplitOnce(cookie, '=');
        if parts.Some? {
          cookies := cookies[Trim(parts.value.0) := Trim(parts.value.1)];
        }
        assert pieces[i..][1..] == pieces[i + 1..];
        i := i + 1;
      }
    }
  }

  // ---- Printing and the round trip ----

  type Pair = (string, string)

  function Printed(p: Pair): string {
    p.0 + "=" + p.1
  }

  /** The pairs as a user agent sends them. */
  function Print(pairs: seq<Pair>): string {
    if pairs == [] then ""
    else if |pairs| == 1 then Printed(pairs[0])
    else Printed(pairs[0]) + "; " + Print(pairs[1..])
  }

  /** Later bindings of a name replace earlier ones. */
  function LastWins(jar: Jar, pairs: seq<Pair>): Jar
    decreases pairs
  {
    if pairs == [] then jar else LastWins(jar[pairs[0].0 := pairs[0].1], pairs[1..])
  }

  predicate Trimmed(s: string) {
    s == "" || (!IsSpace(s[0]) && !IsSpace(s[|s| - 1]))
  }

  predicate Printable(p: Pair) {
    Trimmed(p.0) && '=' !in p.0 && ';' !in p.0 && Trimmed(p.1) && ';' !in p.1
  }

  lemma TrimOfTrimmed(s: string)
    requires Trimmed(s)
    ensures Trim(s) == s && (s != "" ==> Trim(" " + s) == s)
  {
    assert (" " + s)[1..] == s;
  }

  lemma {:induction false} SplitOnceAtFirst(name: string, value: string)
    requires '=' !in name
    ensures SplitOnce(name + "=" + value, '=') == Some((name, value))
  {
    var s := name + "=" + value;
    if name == "" {
      assert s[1..] == value;
    } else {
      assert s[1..] == name[1..] + "=" + value;
      SplitOnceAtFirst(name[1..], value);
      assert [name[0]] + name[1..] == name;
    }
  }

  lemma PrintedIsTrimmed(p: Pair)
    requires Printable(p)
    ensures Trimmed(Printed(p)) && ';' !in Printed(p)
  {
    var s := Printed(p);
    assert s[0] == if p.0 == "" then '=' else p.0[0];
    assert s[|s| - 1] == if p.1 == "" then '=' else p.1[|p.1| - 1];
  }

  lemma AddPrinted(jar: Jar, p: Pair)
    requires Printable(p)
    ensures Add(jar, Printed(p)) == jar[p.0 := p.1]
    ensures Add(jar, " " + Printed(p)) == jar[p.0 := p.1]
  {
    PrintedIsTrimmed(p);
    TrimOfTrimmed(Printed(p));
    SplitOnceAtFirst(p.0, p.1);
    TrimOfTrimmed(p.0);
    TrimOfTrimmed(p.1);
  }

  lemma {:induction false} SplitConcat(s: string, rest: string)
    requires ';' !in s
    ensures Split(s + ";" + rest, ';') == [s] + Split(rest, ';')
    ensures Split(s, ';') == [s]
  {
    var t := s + ";" + rest;
    if s == "" {
      assert t[1..] == rest;
    } else {
      SplitConcat(s[1..], rest);
      assert t[1..] == s[1..] + ";" + rest;
      assert [s[0]] + s[1..] == s;
    }
  }

  /** Reading back what Print wrote, with or without the space that follows a separator. */
  lemma {:induction false} ReadBack(jar: Jar, pairs: seq<Pair>, space: string)
    requires pairs != [] && (space == "" || space == " ")
    requires forall k | 0 <= k < |pairs| :: Printable(pairs[k])
    ensures AddAll(jar, Split(space + Print(pairs), ';')) == LastWins(jar, pairs)
    decreases pairs
  {
    hide Split, SplitOnce, Trim, Add, Trimmed, Printable;
    var p, rest := pairs[0], pairs[1..];
    assert Printable(p);
    var head := space + Printed(p);
    PrintedIsTrimmed(p);
    AddPrinted(jar, p);
    assert space == "" ==> head == Printed(p);
    var next := jar[p.0 := p.1];
    if rest == [] {
      SplitConcat(head, "");
      assert AddAll(jar, [head]) == AddAll(Add(jar, head), [head][1..]);
    } else {
      assert space + Print(pairs) == head + ";" + (" " + Print(rest));
      SplitConcat(head, " " + Print(rest));
      ReadBack(next, rest, " ");
      var pieces := [head] + Split(" " + Print(rest), ';');
      assert pieces[1..] == Split(" " + Print(rest), ';');
    }
  }

  /** Cookie round trip: parsing printed pairs gives the map in which the last binding of each name wins. */
  lemma {:induction false} RoundTrip(pairs: seq<Pair>)
    requires forall k | 0 <= k < |pairs| :: Printable(pairs[k])
    ensures AddAll(map[], Split(Print(pairs), ';')) == LastWins(map[], pairs)
  {
    if pairs == [] {
      assert Split("", ';') == [""];
      assert AddAll(map[], [""]) == AddAll(Add(map[], ""), []);
    } else {
      ReadBack(map[], pairs, "");
      assert "" + Print(pairs) == Print(pairs);
    }
  }

  /** What LastWins means, name by name. */
  lemma {:induction false} LastWinsMeans(jar: Jar, pairs: seq<Pair>, i: nat)
    requires i < |pairs| && forall k | i < k < |pairs| :: pairs[k].0 != pairs[i].0
    ensures pairs[i].0 in LastWins(jar, pairs) && LastWins(jar, pairs)[pairs[i].0] == pairs[i].1
    decreases pairs
  {
    var next := jar[pairs[0].0 := pairs[0].1];
    if i == 0 {
      Untouched(next, pairs[1..], pairs[0].0);
    } else {
      LastWinsMeans(next, pairs[1..], i - 1);
    }
  }

  lemma {:induction false} Untouched(jar: Jar, pairs: seq<Pair>, name: string)
    requires forall k | 0 <= k < |pairs| :: pairs[k].0 != name
    ensures name in LastWins(jar, pairs) <==> name in jar
    ensures name in jar ==> LastWins(jar, pairs)[name] == jar[name]
    decreases pairs
  {
    if pairs != [] {
      Untouched(jar[pairs[0].0 := pairs[0].1], pairs[1..], name);
    }
  }

  // ---- What each part of the parser does to any text ----

  /** Trimming takes off all white space at both ends, and nothing else. */
  lemma {:induction false} TrimExactly(s: string) returns (i: nat, j: nat)
    ensures i <= j <= |s| && Trim(s) == s[i..j] && Trimmed(Trim(s))
    ensures forall k | 0 <= k < i || j <= k < |s| :: IsSpace(s[k])
  {
    i := TrimStartExactly(s);
    j := TrimEndExactly(s[i..]);
    j := i + j;
    assert s[i..][..j - i] == s[i..j];
    forall k | j <= k < |s| ensures IsSpace(s[k]) { assert s[i..][k - i] == s[k]; }
  }

  lemma {:induction false} TrimStartExactly(s: string) returns (i: nat)
    ensures i <= |s| && TrimStart(s) == s[i..] && (i < |s| ==> !IsSpace(s[i]))
    ensures forall k | 0 <= k < i :: IsSpace(s[k])
  {
    i := 0;
    if s != "" && IsSpace(s[0]) {
      i := TrimStartExactly(s[1..]);
      i := i + 1;
    }
  }

  lemma {:induction false} TrimEndExactly(s: string) returns (j: nat)
    ensures j <= |s| && TrimEnd(s) == s[..j] && (j > 0 ==> !IsSpace(s[j - 1]))
    ensures forall k | j <= k < |s| :: IsSpace(s[k])
  {
    j := |s|;
    if s != "" && IsSpace(s[|s| - 1]) {
      j := TrimEndExactly(s[..|s| - 1]);
      assert s[..|s| - 1][..j] == s[..j];
      forall k | j <= k < |s| - 1 ensures IsSpace(s[k]) { assert s[..|s| - 1][k] == s[k]; }
    }
  }

  /** The white space of the Unicode standard, character by character. */
  lemma SpacesListed(c: char)
    ensures IsSpace(c) <==>
      || c in "\t\n\U{0B}\U{0C}\r \U{85}\U{A0}\U{1680}\U{2028}\U{2029}\U{202F}\U{205F}\U{3000}"
      || c in "\U{2000}\U{2001}\U{2002}\U{2003}\U{2004}\U{2005}\U{2006}\U{2007}\U{2008}\U{2009}\U{200A}"
  {
  }

  function Joined(pieces: seq<string>, sep: char): string {
    if pieces == [] then ""
    else if |pieces| == 1 then pieces[0]
    else pieces[0] + [sep] + Joined(pieces[1..], sep)
  }

  /** Splitting is at every separator: the pieces have none left, and with separators between them they are the text. */
  lemma {:induction false} SplitExactly(s: string, sep: char)
    ensures Joined(Split(s, sep), sep) == s
    ensures forall k | 0 <= k < |Split(s, sep)| :: sep !in Split(s, sep)[k]
  {
    if s != "" {
      var rest, pieces := Split(s[1..], sep), Split(s, sep);
      SplitExactly(s[1..], sep);
      assert s == [s[0]] + s[1..];
      if s[0] == sep {
        assert pieces[1..] == rest;
        assert "" + [sep] + Joined(rest, sep) == [sep] + Joined(rest, sep);
      } else {
        assert pieces[1..] == rest[1..] && pieces[0] == [s[0]] + rest[0];
        JoinedHead(s[0], rest, sep);
      }
    }
  }

  lemma JoinedHead(c: char, rest: seq<string>, sep: char)
    requires rest != []
    ensures Joined([[c] + rest[0]] + rest[1..], sep) == [c] + Joined(rest, sep)
  {
    var pieces := [[c] + rest[0]] + rest[1..];
    assert pieces[1..] == rest[1..];
    if |rest| > 1 {
      assert [c] + rest[0] + [sep] + Joined(rest[1..], sep) == [c] + (rest[0] + [sep] + Joined(rest[1..], sep));
    }
  }

  /** Splitting once is at the first separator, and fails exactly if there is none. */
  lemma {:induction false} SplitOnceExactly(s: string, sep: char)
    ensures SplitOnce(s, sep).None? <==> sep !in s
    ensures SplitOnce(s, sep).Some? ==>
      var (name, value) := SplitOnce(s, sep).value; sep !in name && s == name + [sep] + value
  {
    if s != "" && s[0] != sep {
      SplitOnceExactly(s[1..], sep);
      assert s == [s[0]] + s[1..];
    }
  }

  /** The piece, without the white space around it, has this text before its first equals sign, and this behind. */
  predicate Reads(piece: string, before: string, behind: string) {
    Trim(piece) == before + "=" + behind && '=' !in before
  }

  /** It binds the name: an equals sign, and the name in front of the first one, white space around it aside. */
  ghost predicate Binds(piece: string, name: string) {
    exists before, behind :: Reads(piece, before, behind) && Trim(before) == name
  }

  lemma AddExactly(jar: Jar, piece: string, name: string)
    ensures !Binds(piece, name) ==> (name in Add(jar, piece) <==> name in jar)
    ensures !Binds(piece, name) && name in jar ==> name in Add(jar, piece) && Add(jar, piece)[name] == jar[name]
    ensures forall before, behind | Reads(piece, before, behind) && Trim(before) == name ::
      name in Add(jar, piece) && Add(jar, piece)[name] == Trim(behind)
  {
    hide Trim;
    SplitOnceExactly(Trim(piece), '=');
    if SplitOnce(Trim(piece), '=').Some? {
      var (b, v) := SplitOnce(Trim(piece), '=').value;
      assert Reads(piece, b, v);
    }
    forall before, behind | Reads(piece, before, behind) && Trim(before) == name
      ensures name in Add(jar, piece) && Add(jar, piece)[name] == Trim(behind)
    {
      SplitOnceAtFirst(before, behind);
    }
  }

  /** A name that no piece binds is as it was. */
  lemma {:induction false} NoPieceBinds(jar: Jar, pieces: seq<string>, name: string)
    requires forall k | 0 <= k < |pieces| :: !Binds(pieces[k], name)
    ensures name in AddAll(jar, pieces) <==> name in jar
    ensures name in jar ==> AddAll(jar, pieces)[name] == jar[name]
    decreases pieces
  {
    hide Binds, Add;
    if pieces != [] {
      AddExactly(jar, pieces[0], name);
      NoPieceBinds(Add(jar, pieces[0]), pieces[1..], name);
    }
  }

  /**
   What is read from any pieces: a name has the value of the last piece that binds it, without the white
   space around name and value.
   */
  lemma {:induction false} LastPieceWins(jar: Jar, pieces: seq<string>, k: nat, before: string, behind: string)
    requires k < |pieces| && Reads(pieces[k], before, behind)
    requires forall l | k < l < |pieces| :: !Binds(pieces[l], Trim(before))
    ensures Trim(before) in AddAll(jar, pieces) && AddAll(jar, pieces)[Trim(before)] == Trim(behind)
    decreases pieces
  {
    hide Trim, Reads, Add, Binds;
    var rest := pieces[1..];
    assert forall l | 0 <= l < |rest| :: rest[l] == pieces[l + 1];
    if k == 0 {
      AddExactly(jar, pieces[0], Trim(before));
      NoPieceBinds(Add(jar, pieces[0]), rest, Trim(before));
    } else {
      LastPieceWins(Add(jar, pieces[0]), rest, k - 1, before, behind);
    }
  }
}
