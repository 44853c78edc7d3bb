/** The UTF-8 validator, compared with the encoding of sections 3 and 4 of RFC 3629. A byte is a char below 256;
 no other char is ever accepted. */
module Utf8 {
  import opened Common

  // ---------------------------------------------------------------- the encoding

  /** A Unicode scalar value: a code point that is not a surrogate. */
  predicate IsScalar(c: nat) {
    c <= 0x10ffff && !(0xd800 <= c <= 0xdfff)
  }

  function Trail(c: nat): char {
    (0x80 + c % 64) as char
  }

  /** The table of section 3: the bits of the scalar spread over one to four bytes. */
  function Encode(c: nat): (s: string)
    requires IsScalar(c)
    ensures 1 <= |s| <= 4
  {
    if c < 0x80 then [c as char]
    else if c < 0x800 then [(0xc0 + c / 64) as char, Trail(c)]
    else if c < 0x10000 then [(0xe0 + c / 4096) as char, Trail(c / 64), Trail(c)]
    else [(0xf0 + c / 262144) as char, Trail(c / 4096), Trail(c / 64), Trail(c)]
  }

  predicate AreScalars(cs: seq<nat>) {
    forall i :: 0 <= i < |cs| ==> IsScalar(cs[i])
  }

  function EncodeAll(cs: seq<nat>): string
    requires AreScalars(cs)
  {
    if cs == [] then "" else Encode(cs[0]) + EncodeAll(cs[1..])
  }

  // ---------------------------------------------------------------- reading one scalar

  /** How many bytes follow a lead byte; -1 when it cannot start a sequence. */
  function TrailCount(lead: char): int {
    var b := lead as int;
    if b <= 0x7f then 0 else if b / 32 == 6 then 1 else if b / 16 == 14 then 2 else if b / 8 == 30 then 3 else -1
  }

  function LeadBits(lead: char): nat {
    var b := lead as int;
    if b <= 0x7f then b else if b / 32 == 6 then b % 32 else if b / 16 == 14 then b % 16 else b % 8
  }

  predicate IsTrail(c: char) {
    c as int / 64 == 2
  }

  /** The code point of a lead byte followed by the given trail bytes. */
  function Accumulate(lead: char, trail: string): nat {
    if trail == "" then LeadBits(lead)
    else Accumulate(lead, trail[..|trail| - 1]) * 64 + trail[|trail| - 1] as int % 64
  }

  function Minimum(trailCount: nat): nat {
    if trailCount == 0 then 0 else if trailCount == 1 then 0x80 else if trailCount == 2 then 0x800 else 0x10000
  }

  /** The scalar value at the head of s, when there is one. */
  function DecodeFirst(s: string): Option<nat>
    requires s != ""
  {
    var n := TrailCount(s[0]);
    if n < 0 || n >= |s| || (exists i :: 1 <= i <= n && !IsTrail(s[i])) then None
    else
      var c := Accumulate(s[0], s[1..n + 1]);
      if c < Minimum(n) || !IsScalar(c) then None else Some(c)
  }

  lemma {:induction false} AccumulateUnrolled(s: string, n: nat)
    requires s != "" && n < |s| && n <= 3
    ensures n == 0 ==> Accumulate(s[0], s[1..n + 1]) == LeadBits(s[0])
    ensures n == 1 ==> Accumulate(s[0], s[1..n + 1]) == LeadBits(s[0]) * 64 + s[1] as int % 64
    ensures n == 2 ==>
              Accumulate(s[0], s[1..n + 1]) == (LeadBits(s[0]) * 64 + s[1] as int % 64) * 64 + s[2] as int % 64
    ensures n == 3 ==>
              Accumulate(s[0], s[1..n + 1])
              == ((LeadBits(s[0]) * 64 + s[1] as int % 64) * 64 + s[2] as int % 64) * 64 + s[3] as int % 64
  {
    if n > 0 {
      AccumulateUnrolled(s, n - 1);
      assert s[1..n + 1][..n - 1] == s[1..n - 1 + 1];
    }
  }

  /** Writing a number in base 64, with the digits DecodeFirst reads. */
  lemma {:induction false} TwoDigits(c: nat, a: nat, z: nat)
    requires z < 64
    ensures c == a * 64 + z <==> c / 64 == a && c % 64 == z
  {
  }

  lemma {:induction false} ThreeDigits(c: nat, a: nat, y: nat, z: nat)
    requires y < 64 && z < 64
    ensures c == (a * 64 + y) * 64 + z <==> c / 4096 == a && c / 64 % 64 == y && c % 64 == z
  {
    TwoDigits(c, a * 64 + y, z);
    TwoDigits(c / 64, a, y);
    assert c / 4096 == c / 64 / 64;
  }

  lemma {:induction false} FourDigits(c: nat, a: nat, x: nat, y: nat, z: nat)
    requires x < 64 && y < 64 && z < 64
    ensures c == ((a * 64 + x) * 64 + y) * 64 + z <==>
              c / 262144 == a && c / 4096 % 64 == x && c / 64 % 64 == y && c % 64 == z
  {
    ThreeDigits(c, a * 64 + x, y, z);
    TwoDigits(c / 4096, a, x);
    assert c / 262144 == c / 4096 / 64;
  }

  lemma {:induction false} TrailValue(t: char)
    requires IsTrail(t)
    ensures Trail(t as int % 64) == t
  {
  }

  /** The encoding of a number is its base-64 digits behind a marked lead. */
  lemma {:induction false} EncodeTwo(c: nat, a: nat, z: nat)
    requires 0x80 <= c < 0x800 && z < 64 && c == a * 64 + z
    ensures Encode(c) == [(0xc0 + a) as char, Trail(z)]
  {
    TwoDigits(c, a, z);
  }

  lemma {:induction false} EncodeThree(c: nat, a: nat, y: nat, z: nat)
    requires IsScalar(c) && 0x800 <= c < 0x10000 && y < 64 && z < 64 && c == (a * 64 + y) * 64 + z
    ensures Encode(c) == [(0xe0 + a) as char, Trail(y), Trail(z)]
  {
    ThreeDigits(c, a, y, z);
  }

  lemma {:induction false} EncodeFour(c: nat, a: nat, x: nat, y: nat, z: nat)
    requires IsScalar(c) && 0x10000 <= c && x < 64 && y < 64 && z < 64 && c == ((a * 64 + x) * 64 + y) * 64 + z
    ensures Encode(c) == [(0xf0 + a) as char, Trail(x), Trail(y), Trail(z)]
  {
    FourDigits(c, a, x, y, z);
  }

  lemma {:induction false} LeadValue(lead: char)
    ensures TrailCount(lead) == 1 ==> (0xc0 + LeadBits(lead)) as char == lead && LeadBits(lead) < 32
    ensures TrailCount(lead) == 2 ==> (0xe0 + LeadBits(lead)) as char == lead && LeadBits(lead) < 16
    ensures TrailCount(lead) == 3 ==> (0xf0 + LeadBits(lead)) as char == lead && LeadBits(lead) < 8
  {
  }

  lemma {:induction false} TwoBytes(s: string, c: nat)
    requires |s| >= 2 && TrailCount(s[0]) == 1 && IsTrail(s[1]) && 0x80 <= c
    requires c == LeadBits(s[0]) * 64 + s[1] as int % 64
    ensures IsScalar(c) && Encode(c) == s[..2]
  {
    LeadValue(s[0]);
    TrailValue(s[1]);
    EncodeTwo(c, LeadBits(s[0]), s[1] as int % 64);
  }

  lemma {:induction false} ThreeBytes(s: string, c: nat)
    requires |s| >= 3 && TrailCount(s[0]) == 2 && IsTrail(s[1]) && IsTrail(s[2]) && 0x800 <= c && IsScalar(c)
    requires c == (LeadBits(s[0]) * 64 + s[1] as int % 64) * 64 + s[2] as int % 64
    ensures Encode(c) == s[..3]
  {
    LeadValue(s[0]);
    TrailValue(s[1]);
    TrailValue(s[2]);
    EncodeThree(c, LeadBits(s[0]), s[1] as int % 64, s[2] as int % 64);
  }

  lemma {:induction false} FourBytes(s: string, c: nat)
    requires |s| >= 4 && TrailCount(s[0]) == 3 && IsTrail(s[1]) && IsTrail(s[2]) && IsTrail(s[3])
    requires 0x10000 <= c && IsScalar(c)
    requires c == ((LeadBits(s[0]) * 64 + s[1] as int % 64) * 64 + s[2] as int % 64) * 64 + s[3] as int % 64
    ensures Encode(c) == s[..4]
  {
    LeadValue(s[0]);
    TrailValue(s[1]);
    TrailValue(s[2]);
    TrailValue(s[3]);
    EncodeFour(c, LeadBits(s[0]), s[1] as int % 64, s[2] as int % 64, s[3] as int % 64);
  }

  lemma {:induction false} DecodedIsEncoded(s: string)
    requires s != "" && DecodeFirst(s).Some?
    ensures var c := DecodeFirst(s).value; IsScalar(c) && Encode(c) == s[..TrailCount(s[0]) + 1]
  {
    var n := TrailCount(s[0]);
    var c := DecodeFirst(s).value;
    AccumulateUnrolled(s, n);
    if n == 1 {
      TwoBytes(s, c);
    } else if n == 2 {
      ThreeBytes(s, c);
    } else if n == 3 {
      FourBytes(s, c);
    }
  }

  lemma {:induction false} EncodedLead(c: nat)
    requires IsScalar(c)
    ensures TrailCount(Encode(c)[0]) == |Encode(c)| - 1
    ensures |Encode(c)| == 1 ==> LeadBits(Encode(c)[0]) == c
    ensures |Encode(c)| == 2 ==> LeadBits(Encode(c)[0]) == c / 64
    ensures |Encode(c)| == 3 ==> LeadBits(Encode(c)[0]) == c / 4096
    ensures |Encode(c)| == 4 ==> LeadBits(Encode(c)[0]) == c / 262144
    ensures forall i :: 1 <= i < |Encode(c)| ==> IsTrail(Encode(c)[i])
    ensures Minimum(|Encode(c)| - 1) <= c
  {
  }

  lemma {:induction false} EncodedIsDecoded(c: nat, rest: string)
    requires IsScalar(c)
    ensures DecodeFirst(Encode(c) + rest) == Some(c) && TrailCount(Encode(c)[0]) + 1 == |Encode(c)|
  {
    var e := Encode(c);
    var s, n := e + rest, |e| - 1;
    EncodedLead(c);
    assert s[0] == e[0] && forall i :: 1 <= i <= n ==> s[i] == e[i];
    AccumulateUnrolled(s, n);
    EncodedValue(c);
  }

  /** The digits of the encoding are the digits of the scalar. */
  lemma {:induction false} EncodedValue(c: nat)
    requires IsScalar(c)
    ensures var e := Encode(c);
            && (|e| == 2 ==> c == (c / 64) * 64 + e[1] as int % 64)
            && (|e| == 3 ==> c == ((c / 4096) * 64 + e[1] as int % 64) * 64 + e[2] as int % 64)
            && (|e| == 4 ==>
                  c == (((c / 262144) * 64 + e[1] as int % 64) * 64 + e[2] as int % 64) * 64 + e[3] as int % 64)
  {
    assert forall x: nat :: Trail(x) as int % 64 == x % 64;
    TwoDigits(c, c / 64, c % 64);
    ThreeDigits(c, c / 4096, c / 64 % 64, c % 64);
    FourDigits(c, c / 262144, c / 4096 % 64, c / 64 % 64, c % 64);
  }

  /** DecodeFirst finds c exactly when the encoding of c stands at the head of s. */
  lemma {:induction false} DecodeFirstIsEncode(s: string, c: nat)
    requires s != ""
    ensures DecodeFirst(s) == Some(c) <==> IsScalar(c) && Encode(c) <= s
  {
    if DecodeFirst(s) == Some(c) {
      DecodedIsEncoded(s);
    }
    if IsScalar(c) && Encode(c) <= s {
      EncodedIsDecoded(c, s[|Encode(c)|..]);
      assert s == Encode(c) + s[|Encode(c)|..];
    }
  }

  // ---------------------------------------------------------------- whole strings

  /** The validator's recursion: one scalar after the other. */
  predicate ValidUtf8(s: string)
    decreases |s|
  {
    s == "" || (DecodeFirst(s).Some? && ValidUtf8(s[TrailCount(s[0]) + 1..]))
  }

  lemma {:induction false} AsciiFirst(s: string)
    requires s != "" && s[0] as int < 0x80
    ensures ValidUtf8(s) <==> ValidUtf8(s[1..])
  {
    assert DecodeFirst(s) == Some(s[0] as int);
  }

  /** The scalar values a valid string encodes. */
  function DecodeAll(s: string): (cs: seq<nat>)
    requires ValidUtf8(s)
    decreases |s|
  {
    if s == "" then [] else [DecodeFirst(s).value] + DecodeAll(s[TrailCount(s[0]) + 1..])
  }

  lemma {:induction false} DecodeAllEncodes(s: string)
    requires ValidUtf8(s)
    ensures AreScalars(DecodeAll(s)) && EncodeAll(DecodeAll(s)) == s
    decreases |s|
  {
    if s != "" {
      var n := TrailCount(s[0]) + 1;
      DecodeAllEncodes(s[n..]);
      FirstScalar(s);
      EncodeJoined(s, n, DecodeFirst(s).value, DecodeAll(s[n..]));
    }
  }

  lemma {:induction false} EncodeJoined(s: string, n: nat, c: nat, cs: seq<nat>)
    requires n <= |s| && Encodes(c, s[..n]) && AreScalars(cs) && EncodeAll(cs) == s[n..]
    ensures AreScalars([c] + cs) && EncodeAll([c] + cs) == s
  {
    EncodeAllCons(c, cs, s[..n]);
    assert s == s[..n] + s[n..];
  }

  lemma {:induction false} FirstScalar(s: string)
    requires s != "" && DecodeFirst(s).Some?
    ensures Encodes(DecodeFirst(s).value, s[..TrailCount(s[0]) + 1])
  {
    DecodedIsEncoded(s);
  }

  predicate Encodes(c: nat, e: string) {
    IsScalar(c) && Encode(c) == e
  }

  lemma {:induction false} EncodeAllCons(c: nat, cs: seq<nat>, e: string)
    requires Encodes(c, e) && AreScalars(cs)
    ensures AreScalars([c] + cs) && EncodeAll([c] + cs) == e + EncodeAll(cs)
  {
    assert ([c] + cs)[1..] == cs;
  }

  lemma {:induction false} EncodeAllDecodes(cs: seq<nat>)
    requires AreScalars(cs)
    ensures ValidUtf8(EncodeAll(cs)) && DecodeAll(EncodeAll(cs)) == cs
  {
    if cs != [] {
      EncodeAllDecodes(cs[1..]);
      EncodedIsDecoded(cs[0], EncodeAll(cs[1..]));
      var s := EncodeAll(cs);
      assert s[0] == Encode(cs[0])[0];
      assert s[|Encode(cs[0])|..] == EncodeAll(cs[1..]);
      assert cs == [cs[0]] + cs[1..];
    }
  }

  /** Exactly the concatenations of encodings of scalar values are valid, and the scalars are unique. */
  lemma {:induction false} ValidIffEncoded(s: string)
    ensures ValidUtf8(s) <==> exists cs :: AreScalars(cs) && EncodeAll(cs) == s
    ensures forall cs, cs' ::
              AreScalars(cs) && AreScalars(cs') && EncodeAll(cs) == s && EncodeAll(cs') == s ==> cs == cs'
  {
    if ValidUtf8(s) {
      DecodeAllEncodes(s);
    }
    forall cs | AreScalars(cs) && EncodeAll(cs) == s ensures ValidUtf8(s) && DecodeAll(s) == cs {
      EncodeAllDecodes(cs);
    }
  }

  // ---------------------------------------------------------------- the validator

  /**
   The validator's bit operations, written on numbers. The three lemmas after them show that each is what
   the source computes with `&`, `<<` and `|` on 8-bit and 32-bit words.
   */
  predicate TopBitsAre(b: nat, unit: nat, pattern: nat)
    requires unit > 0
  {
    b / unit == pattern
  }

  function LowBits(b: nat, unit: nat): nat
    requires unit > 0
  {
    b % unit
  }

  function ShiftIn(codePoint: nat, continuation: nat): nat {
    codePoint * 64 + LowBits(continuation, 64)
  }

  lemma {:induction false} MaskTests(b: bv8)
    ensures b & 0xe0 == 0xc0 <==> TopBitsAre(b as int, 32, 6)
    ensures b & 0xf0 == 0xe0 <==> TopBitsAre(b as int, 16, 14)
    ensures b & 0xf8 == 0xf0 <==> TopBitsAre(b as int, 8, 30)
    ensures b & 0xc0 == 0x80 <==> TopBitsAre(b as int, 64, 2)
  {
  }

  lemma {:induction false} MaskValues(b: bv8)
    ensures (b & 0x1f) as int == LowBits(b as int, 32)
    ensures (b & 0x0f) as int == LowBits(b as int, 16)
    ensures (b & 0x07) as int == LowBits(b as int, 8)
  {
  }

  lemma {:induction false} ShiftValue(codePoint: bv32, b: bv8)
    requires codePoint < 0x20000
    ensures ((codePoint << 6) | ((b & 0x3f) as bv32)) as int == ShiftIn(codePoint as int, b as int)
  {
  }

  lemma {:induction false} AccumulateNext(s: string, offset: nat)
    requires 1 <= offset < |s|
    ensures Accumulate(s[0], s[1..offset + 1]) == ShiftIn(Accumulate(s[0], s[1..offset]), s[offset] as int)
  {
    assert s[1..offset + 1][..offset - 1] == s[1..offset];
  }

  /** The loop over the continuation bytes of the scalar whose lead byte is at `index`. */
  method ReadTrail(value: string, index: nat, continuationCount: nat) returns (ok: bool, codePoint: nat)
    requires 1 <= continuationCount && index + continuationCount < |value|
    requires TrailCount(value[index]) == continuationCount
    ensures var rest := value[index..];
            && (ok <==> forall i :: 1 <= i <= continuationCount ==> IsTrail(rest[i]))
            && (ok ==> codePoint == Accumulate(rest[0], rest[1..continuationCount + 1]))
  {
    ghost var rest := value[index..];
    var unit := if continuationCount == 1 then 32 else if continuationCount == 2 then 16 else 8;
    codePoint := LowBits(value[index] as int, unit);
    assert codePoint == Accumulate(rest[0], rest[1..1]);
    for offset := 1 to continuationCount + 1
      invariant forall i :: 1 <= i < offset ==> IsTrail(rest[i])
      invariant codePoint == Accumulate(rest[0], rest[1..offset])
    {
      var continuation := value[index + offset] as int;
      assert rest[offset] as int == continuation;
      if !TopBitsAre(continuation, 64, 2) {
        return false, 0;
      }
      AccumulateNext(rest, offset);
      codePoint := ShiftIn(codePoint, continuation);
    }
    ok := true;
  }

  /** One pass of the validator's loop: the length of the scalar at `index`, or 0 when there is none. */
  method ReadScalar(value: string, index: nat) returns (length: nat)
    requires index < |value|
    ensures var rest := value[index..];
            && (length == 0 <==> DecodeFirst(rest).None?)
            && (length > 0 ==> length == TrailCount(rest[0]) + 1)
  {
    ghost var rest := value[index..];
    var lead := value[index] as int;
    if lead <= 0x7f {
      assert Accumulate(rest[0], rest[1..1]) == lead;
      return 1;
    }
    var continuationCount := 0;
    if TopBitsAre(lead, 32, 6) {
      continuationCount := 1;
    } else if TopBitsAre(lead, 16, 14) {
      continuationCount := 2;
    } else if TopBitsAre(lead, 8, 30) {
      continuationCount := 3;
    } else {
      return 0;
    }
    if index + continuationCount >= |value| {
      return 0;
    }
    var ok, codePoint := ReadTrail(value, index, continuationCount);
    var minimum := if continuationCount == 1 then 0x80 else if continuationCount == 2 then 0x800 else 0x10000;
    if !ok || codePoint < minimum || codePoint > 0x10ffff || 0xd800 <= codePoint <= 0xdfff {
      return 0;
    }
    return continuationCount + 1;
  }

  method IsValidUtf8(value: string) returns (valid: bool)
    ensures valid <==> ValidUtf8(value)
  {
    var index := 0;
    while index < |value|
      invariant 0 <= index <= |value|
      invariant ValidUtf8(value) <==> ValidUtf8(value[index..])
    {
      var length := ReadScalar(value, index);
      if length == 0 {
        return false;
      }
      assert value[index..][length..] == value[index + length..];
      index := index + length;
    }
    return true;
  }
}
