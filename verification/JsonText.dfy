/**
 The compact JSON objects the messages are printed as, and a reader of objects with string members by
 sections 4 and 7 of RFC 8259.
 */
module JsonText {
  import opened Common
  import opened Text
  import Utf8

  datatype Member = Member(name: string, value: string)

  // ---------------------------------------------------------------- printing

  function EscapeChar(c: char): string {
    if c == '\\' then "\\\\"
    else if c == '\"' then "\\\""
    else if c == '\n' then "\\n"
    else if c == '\r' then "\\r"
    else if c == '\t' then "\\t"
    else [c]
  }

  function Escape(s: string): string {
    if s == "" then "" else EscapeChar(s[0]) + Escape(s[1..])
  }

  lemma {:induction false} EscapeSuffix(s: string, i: nat)
    requires i < |s|
    ensures Escape(s[i..]) == EscapeChar(s[i]) + Escape(s[i + 1..])
  {
    assert s[i..][0] == s[i] && s[i..][1..] == s[i + 1..];
  }

  method EscapeJson(value: string) returns (escaped: string)
    ensures escaped == Escape(value)
  {
    escaped := "";
    assert value[0..] == value;
    for i := 0 to |value|
      invariant Escape(value) == escaped + Escape(value[i..])
    {
      EscapeSuffix(value, i);
      escaped := escaped + EscapeChar(value[i]);
    }
    assert value[|value|..] == "";
  }

  function PrintMember(m: Member): string {
    "\"" + m.name + "\":\"" + Escape(m.value) + "\""
  }

  /** Members, with a comma before each but the first of the object, and the closing brace. */
  function PrintRest(ms: seq<Member>, first: bool): string {
    if ms == [] then "}"
    else if first then PrintMember(ms[0]) + PrintRest(ms[1..], false)
    else "," + (PrintMember(ms[0]) + PrintRest(ms[1..], false))
  }

  function PrintObject(ms: seq<Member>): string {
    "{" + PrintRest(ms, true)
  }

  // ---------------------------------------------------------------- reading strings

  /** A value read from the head of a text, and what follows it. */
  datatype Read<T> = Read(value: T, rest: string)

  /** The four hexadecimal digits of a \u escape at the head of s. */
  function CodeUnit(s: string): Option<nat> {
    if |s| >= 4 && IsHexDigit(s[0]) && IsHexDigit(s[1]) && IsHexDigit(s[2]) && IsHexDigit(s[3])
    then Some(HexDigitValue(s[0]) * 4096 + HexDigitValue(s[1]) * 256 + HexDigitValue(s[2]) * 16 + HexDigitValue(s[3]))
    else None
  }

  /** A \u escape, s being what follows the `u`: one scalar value, or two escapes that form a surrogate pair. */
  function ReadUnicode(s: string): (r: Option<Read<string>>)
    ensures r.Some? ==> |r.value.rest| < |s|
  {
    match CodeUnit(s)
    case None => None
    case Some(hi) =>
      if Utf8.IsScalar(hi) then Some(Read(Utf8.Encode(hi), s[4..]))
      else if hi < 0xdc00 && |s| >= 6 && s[4] == '\\' && s[5] == 'u' then
        match CodeUnit(s[6..])
        case Some(lo) =>
          var c := 0x10000 + (hi - 0xd800) * 0x400 + (lo - 0xdc00);
          if 0xdc00 <= lo <= 0xdfff && Utf8.IsScalar(c) then Some(Read(Utf8.Encode(c), s[10..])) else None
        case None => None
      else None
  }

  /** An escape, s being what follows the backslash. */
  function ReadEscape(s: string): (r: Option<Read<string>>)
    ensures r.Some? ==> |r.value.rest| < |s|
  {
    if s == "" then None
    else if s[0] == '\"' || s[0] == '\\' || s[0] == '/' then Some(Read([s[0]], s[1..]))
    else if s[0] == 'b' then Some(Read([8 as char], s[1..]))
    else if s[0] == 'f' then Some(Read([12 as char], s[1..]))
    else if s[0] == 'n' then Some(Read("\n", s[1..]))
    else if s[0] == 'r' then Some(Read("\r", s[1..]))
    else if s[0] == 't' then Some(Read("\t", s[1..]))
    else if s[0] == 'u' then ReadUnicode(s[1..])
    else None
  }

  predicate IsControl(c: char) {
    c as int < 0x20
  }

  /** The rest of a string, s being what follows the opening quote. A lenient reader lets control bytes pass. */
  function ReadChars(s: string, strict: bool): (r: Option<Read<string>>)
    ensures r.Some? ==> |r.value.rest| < |s|
    decreases |s|
  {
    if s == "" then None
    else if s[0] == '\"' then Some(Read("", s[1..]))
    else if s[0] == '\\' then
      match ReadEscape(s[1..])
      case None => None
      case Some(e) => Prepend(e.value, ReadChars(e.rest, strict))
    else if strict && IsControl(s[0]) then None
    else Prepend([s[0]], ReadChars(s[1..], strict))
  }

  function Prepend(prefix: string, r: Option<Read<string>>): Option<Read<string>> {
    match r case None => None case Some(t) => Some(Read(prefix + t.value, t.rest))
  }

  /** A string token; a strict reader also refuses one that is not UTF-8. */
  function ReadString(s: string, strict: bool): (r: Option<Read<string>>)
    ensures r.Some? ==> |r.value.rest| < |s|
  {
    if s == "" || s[0] != '\"' then None
    else
      match ReadChars(s[1..], strict)
      case None => None
      case Some(t) => if strict && !Utf8.ValidUtf8(t.value) then None else Some(t)
  }

  // ---------------------------------------------------------------- reading objects

  predicate IsSpace(c: char) {
    c == ' ' || c == '\t' || c == '\n' || c == '\r'
  }

  function SkipSpace(s: string): (r: string)
    ensures |r| <= |s|
  {
    if s != "" && IsSpace(s[0]) then SkipSpace(s[1..]) else s
  }

  predicate Starts(s: string, c: char) {
    s != "" && s[0] == c
  }

  /** One `"name" : "value"`. */
  function ReadMember(s: string, strict: bool): (r: Option<Read<Member>>)
    ensures r.Some? ==> |r.value.rest| < |s|
  {
    match ReadString(SkipSpace(s), strict)
    case None => None
    case Some(name) =>
      var colon := SkipSpace(name.rest);
      if !Starts(colon, ':') then None
      else
        match ReadString(SkipSpace(colon[1..]), strict)
        case None => None
        case Some(value) => Some(Read(Member(name.value, value.value), value.rest))
  }

  /** Members up to and including the closing brace. */
  function ReadMembers(s: string, strict: bool): Option<Read<seq<Member>>>
    decreases |s|
  {
    match ReadMember(s, strict)
    case None => None
    case Some(m) =>
      var after := SkipSpace(m.rest);
      if Starts(after, '}') then Some(Read([m.value], after[1..]))
      else if Starts(after, ',') then
        match ReadMembers(after[1..], strict)
        case None => None
        case Some(ms) => Some(Read([m.value] + ms.value, ms.rest))
      else None
  }

  /** A whole text that is one object with string members. */
  function ReadObject(s: string, strict: bool): Option<seq<Member>> {
    var open := SkipSpace(s);
    if !Starts(open, '{') then None
    else
      var body := SkipSpace(open[1..]);
      var members := if Starts(body, '}') then Some(Read([], body[1..])) else ReadMembers(body, strict);
      match members
      case None => None
      case Some(ms) => if SkipSpace(ms.rest) == "" then Some(ms.value) else None
  }

  // ---------------------------------------------------------------- reading what was printed

  /** No control byte except the three that are escaped. */
  predicate NoRawControl(s: string) {
    forall i :: 0 <= i < |s| ==> IsControl(s[i]) ==> s[i] == '\n' || s[i] == '\r' || s[i] == '\t'
  }

  /** What the reader sees after the opening quote of a printed string. */
  function Closed(v: string, tail: string): string {
    Escape(v) + ("\"" + tail)
  }

  lemma {:induction false} ClosedCons(v: string, tail: string)
    requires v != ""
    ensures Closed(v, tail) == EscapeChar(v[0]) + Closed(v[1..], tail)
  {
    Associates(EscapeChar(v[0]), Escape(v[1..]), "\"" + tail);
  }

  lemma {:induction false} Associates(a: string, b: string, c: string)
    ensures (a + b) + c == a + (b + c)
  {
  }

  lemma {:induction false} EscapedIsRead(v: string, tail: string, strict: bool)
    ensures ReadChars(Closed(v, tail), strict) == if strict && !NoRawControl(v) then None else Some(Read(v, tail))
  {
    if v == "" {
      assert Closed(v, tail) == "\"" + tail;
    } else {
      EscapedIsRead(v[1..], tail, strict);
      ClosedCons(v, tail);
      CharIsRead(v[0], Closed(v[1..], tail), strict);
      NoRawControlCons(v);
      assert [v[0]] + v[1..] == v;
    }
  }

  lemma {:induction false} NoRawControlCons(v: string)
    requires v != ""
    ensures NoRawControl(v) <==> NoRawControl([v[0]]) && NoRawControl(v[1..])
  {
    if NoRawControl([v[0]]) && NoRawControl(v[1..]) {
      forall i | 0 <= i < |v| && IsControl(v[i]) ensures v[i] == '\n' || v[i] == '\r' || v[i] == '\t' {
        if i == 0 {
          assert IsControl([v[0]][0]);
        } else {
          assert IsControl(v[1..][i - 1]);
        }
      }
    }
    if NoRawControl(v) {
      forall i | 0 <= i < |v[1..]| && IsControl(v[1..][i])
        ensures v[1..][i] == '\n' || v[1..][i] == '\r' || v[1..][i] == '\t'
      {
        assert v[1..][i] == v[i + 1];
      }
    }
  }

  lemma {:induction false} EscapeIsRead(c: char, rest: string)
    requires |EscapeChar(c)| == 2
    ensures EscapeChar(c)[0] == '\\'
    ensures ReadEscape(EscapeChar(c)[1..] + rest) == Some(Read([c], rest))
    ensures NoRawControl([c])
  {
    var after := EscapeChar(c)[1..] + rest;
    assert after[0] == EscapeChar(c)[1] && after[1..] == rest;
  }

  lemma {:induction false} CharIsRead(c: char, rest: string, strict: bool)
    ensures ReadChars(EscapeChar(c) + rest, strict)
         == if strict && !NoRawControl([c]) then None else Prepend([c], ReadChars(rest, strict))
  {
    var text := EscapeChar(c) + rest;
    if |EscapeChar(c)| == 2 {
      EscapeIsRead(c, rest);
      assert text[0] == '\\' && text[1..] == EscapeChar(c)[1..] + rest;
    } else {
      PlainIsRead(c, rest, strict);
    }
  }

  lemma {:induction false} PlainIsRead(c: char, rest: string, strict: bool)
    requires |EscapeChar(c)| != 2
    ensures ReadChars(EscapeChar(c) + rest, strict)
         == if strict && !NoRawControl([c]) then None else Prepend([c], ReadChars(rest, strict))
  {
    var text := EscapeChar(c) + rest;
    assert text[0] == c && text[1..] == rest;
    assert NoRawControl([c]) <==> !IsControl([c][0]);
  }

  /** The strict reader takes back a printed string exactly when it holds no raw control byte and is UTF-8. */
  predicate Readable(v: string) {
    NoRawControl(v) && Utf8.ValidUtf8(v)
  }

  lemma {:induction false} StringIsRead(v: string, tail: string, strict: bool)
    ensures ReadString("\"" + Closed(v, tail), strict) == if strict && !Readable(v) then None else Some(Read(v, tail))
  {
    assert ("\"" + Closed(v, tail))[1..] == Closed(v, tail);
    EscapedIsRead(v, tail, strict);
  }

  /** A name that is printed as it stands: every envelope name is one. */
  predicate PlainName(name: string) {
    Escape(name) == name && Readable(name)
  }

  predicate PlainNames(ms: seq<Member>) {
    forall m <- ms :: PlainName(m.name)
  }

  predicate ValuesReadable(ms: seq<Member>) {
    forall m <- ms :: Readable(m.value)
  }

  lemma {:induction false} MemberShape(m: Member, tail: string)
    requires PlainName(m.name)
    ensures PrintMember(m) + tail == "\"" + Closed(m.name, ":" + ("\"" + Closed(m.value, tail)))
  {
  }

  lemma {:induction false} MemberIsRead(m: Member, tail: string, strict: bool)
    requires PlainName(m.name)
    ensures ReadMember(PrintMember(m) + tail, strict)
         == if strict && !Readable(m.value) then None else Some(Read(m, tail))
  {
    var value := "\"" + Closed(m.value, tail);
    MemberShape(m, tail);
    StringIsRead(m.name, ":" + value, strict);
    StringIsRead(m.value, tail, strict);
    assert (":" + value)[1..] == value;
  }

  lemma {:induction false} LastMemberIsRead(text: string, m: Member, strict: bool)
    requires ReadMember(text, strict) == Some(Read(m, "}"))
    ensures ReadMembers(text, strict) == Some(Read([m], ""))
  {
    assert SkipSpace("}") == "}" && "}"[1..] == "";
  }

  lemma {:induction false} NextMemberIsRead(text: string, m: Member, more: string, strict: bool)
    requires ReadMember(text, strict) == Some(Read(m, "," + more))
    ensures ReadMembers(text, strict).None? <==> ReadMembers(more, strict).None?
    ensures ReadMembers(more, strict).Some? ==>
              var rest := ReadMembers(more, strict).value;
              ReadMembers(text, strict) == Some(Read([m] + rest.value, rest.rest))
  {
    assert SkipSpace("," + more) == "," + more && ("," + more)[1..] == more;
  }

  lemma {:induction false} MembersAreRead(ms: seq<Member>, strict: bool)
    requires ms != [] && PlainNames(ms)
    ensures ReadMembers(PrintRest(ms, true), strict)
         == if strict && !ValuesReadable(ms) then None else Some(Read(ms, ""))
    decreases |ms|
  {
    var text, rest := PrintRest(ms, true), ms[1..];
    assert ms == [ms[0]] + rest;
    assert ValuesReadable(ms) <==> Readable(ms[0].value) && ValuesReadable(rest);
    MemberIsRead(ms[0], PrintRest(rest, false), strict);
    if strict && !Readable(ms[0].value) {
      assert ReadMember(text, strict).None?;
    } else if rest == [] {
      assert ms == [ms[0]];
      LastMemberIsRead(text, ms[0], strict);
    } else {
      MembersAreRead(rest, strict);
      NextMemberIsRead(text, ms[0], PrintRest(rest, true), strict);
    }
  }

  lemma {:induction false} PrintedStart(ms: seq<Member>)
    ensures PrintRest(ms, true) != "" && PrintRest(ms, true)[0] == if ms == [] then '}' else '\"'
  {
  }

  /**
   Reading a printed object gives its members back; only a strict reader ever refuses, and exactly on an
   unreadable value.
   */
  lemma {:induction false} ObjectIsRead(ms: seq<Member>, strict: bool)
    requires PlainNames(ms)
    ensures ReadObject(PrintObject(ms), strict) == if strict && !ValuesReadable(ms) then None else Some(ms)
  {
    var body := PrintRest(ms, true);
    assert PrintObject(ms)[1..] == body;
    PrintedStart(ms);
    assert SkipSpace(body) == body;
    if ms != [] {
      MembersAreRead(ms, strict);
    }
  }
}
