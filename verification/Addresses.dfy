/** The address validators of the device store, compared with the grammars they implement. */
module Addresses {
  import opened Common
  import opened Text

  // ---------------------------------------------------------------- IPv4

  function DecimalValue(s: string): nat
    requires AllOf(s, IsDigit)
  {
    if s == "" then 0 else DecimalValue(s[..|s| - 1]) * 10 + (s[|s| - 1] as int - '0' as int)
  }

  /** One to three digits with a value up to 255; leading zeros are allowed. */
  predicate IsOctet(s: string) {
    1 <= |s| <= 3 && AllOf(s, IsDigit) && DecimalValue(s) <= 255
  }

  /** A dotted quad: four octets joined by dots. */
  ghost predicate IsDottedQuad(s: string) {
    exists parts: seq<string> :: |parts| == 4 && AllOctets(parts) && Join(parts, '.') == s
  }

  predicate AllOctets(parts: seq<string>) {
    forall i :: 0 <= i < |parts| ==> IsOctet(parts[i])
  }

  lemma {:induction false} OctetsSplit(parts: seq<string>)
    requires parts != [] && AllOctets(parts)
    ensures Split(Join(parts, '.'), '.') == parts
  {
    forall i | 0 <= i < |parts| ensures Free(parts[i], '.') {
      assert IsOctet(parts[i]);
    }
    SplitJoin(parts, '.');
  }

  /** The form the validator checks. */
  predicate QuadParts(s: string) {
    |Split(s, '.')| == 4 && AllOctets(Split(s, '.'))
  }

  lemma {:induction false} QuadPartsIsDottedQuad(s: string)
    ensures QuadParts(s) <==> IsDottedQuad(s)
  {
    JoinSplit(s, '.');
    forall parts: seq<string> | |parts| == 4 && AllOctets(parts) && Join(parts, '.') == s ensures QuadParts(s) {
      OctetsSplit(parts);
    }
  }

  method PartValue(part: string) returns (value: nat)
    requires AllOf(part, IsDigit)
    ensures value == DecimalValue(part)
  {
    value := 0;
    for i := 0 to |part|
      invariant value == DecimalValue(part[..i])
    {
      assert part[..i + 1][..i] == part[..i];
      value := value * 10 + (part[i] as int - '0' as int);
    }
    assert part[..|part|] == part;
  }

  lemma {:induction false} OctetsCons(p: string, rest: seq<string>)
    ensures AllOctets([p] + rest) <==> IsOctet(p) && AllOctets(rest)
  {
    var all := [p] + rest;
    if AllOctets(all) {
      assert IsOctet(all[0]);
      forall i | 0 <= i < |rest| ensures IsOctet(rest[i]) {
        assert IsOctet(all[i + 1]);
      }
    }
  }

  method IsValidIpv4(address: string) returns (valid: bool)
    ensures valid <==> QuadParts(address)
  {
    ghost var all := Split(address, '.');
    var parts, begin := 0, 0;
    while begin <= |address|
      invariant begin <= |address| && |all| == parts + |SplitFrom(address, '.', begin)|
      invariant AllOctets(all) <==> AllOctets(SplitFrom(address, '.', begin))
      decreases |address| - begin
    {
      var end := Find(address, '.', begin);
      var part := address[begin..end];
      SplitFromStep(address, '.', begin);
      OctetsCons(part, AfterPart(address, '.', begin));
      if part == "" || |part| > 3 || !AllOf(part, IsDigit) {
        return false;
      }
      var value := PartValue(part);
      if value > 255 {
        return false;
      }
      parts := parts + 1;
      if end == |address| {
        break;
      }
      begin := end + 1;
    }
    return parts == 4;
  }

  predicate IsDigitOrDot(c: char) { IsDigit(c) || c == '.' }

  lemma {:induction false} QuadChars(s: string)
    requires QuadParts(s)
    ensures AllOf(s, IsDigitOrDot) && 7 <= |s| <= 15
  {
    var parts := Split(s, '.');
    JoinSplit(s, '.');
    forall i | 0 <= i < |parts| ensures AllOf(parts[i], IsDigitOrDot) {
      assert IsOctet(parts[i]);
    }
    JoinChars(parts, '.', IsDigitOrDot);
    assert forall i :: 0 <= i < |parts| ==> IsOctet(parts[i]);
    JoinLength(parts, '.', 1, 3);
  }

  lemma {:induction false} NoDotNoQuad(s: string)
    requires Free(s, '.')
    ensures !QuadParts(s)
  {
    FindIn(s, '.', 0, |s|);
  }

  /** The usual decimal digits of a number. */
  function Decimal(n: nat): string {
    if n < 10 then [(n + '0' as int) as char] else Decimal(n / 10) + [(n % 10 + '0' as int) as char]
  }

  lemma {:induction false} DecimalIsRead(n: nat)
    ensures AllOf(Decimal(n), IsDigit) && DecimalValue(Decimal(n)) == n && Decimal(n) != ""
  {
    var s := Decimal(n);
    if n >= 10 {
      DecimalIsRead(n / 10);
      assert s[..|s| - 1] == Decimal(n / 10);
    } else {
      assert s[..0] == "";
    }
  }

  /** A number written in decimal is an octet exactly up to 255. */
  lemma {:induction false} OctetMeans(n: nat)
    ensures IsOctet(Decimal(n)) <==> n <= 255
  {
    DecimalIsRead(n);
    if n <= 255 {
      assert n >= 10 ==> |Decimal(n / 10)| <= 2;
    }
  }

  // ---------------------------------------------------------------- IPv6: pieces

  /** The hexadecimal digits, in both cases. */
  lemma {:induction false} HexDigitsMean(i: nat)
    ensures i < 10 ==> IsHexDigit((i + 48) as char) && HexDigitValue((i + 48) as char) == i
    ensures i < 6 ==> IsHexDigit((i + 65) as char) && HexDigitValue((i + 65) as char) == i + 10
    ensures i < 6 ==> IsHexDigit((i + 97) as char) && HexDigitValue((i + 97) as char) == i + 10
  {
  }

  function HexValue(s: string): nat
    requires AllOf(s, IsHexDigit)
  {
    if s == "" then 0 else HexValue(s[..|s| - 1]) * 16 + HexDigitValue(s[|s| - 1])
  }

  predicate IsHexGroup(s: string) {
    1 <= |s| <= 4 && AllOf(s, IsHexDigit)
  }

  /** The 16-bit groups a piece of an address stands for: one, or two for a dotted quad. */
  function PieceGroups(p: string): seq<nat> {
    if IsHexGroup(p) then [HexValue(p)]
    else if QuadParts(p) then
      var o := Split(p, '.');
      assert IsOctet(o[0]) && IsOctet(o[1]) && IsOctet(o[2]) && IsOctet(o[3]);
      [DecimalValue(o[0]) * 256 + DecimalValue(o[1]), DecimalValue(o[2]) * 256 + DecimalValue(o[3])]
    else []
  }

  /** A dotted quad stands for two groups, the first octet of each the higher byte. */
  lemma {:induction false} QuadMeans(a: nat, b: nat, c: nat, d: nat)
    requires a <= 255 && b <= 255 && c <= 255 && d <= 255
    ensures PieceGroups(Join([Decimal(a), Decimal(b), Decimal(c), Decimal(d)], '.')) == [a * 256 + b, c * 256 + d]
  {
    var parts := [Decimal(a), Decimal(b), Decimal(c), Decimal(d)];
    OctetMeans(a);
    OctetMeans(b);
    OctetMeans(c);
    OctetMeans(d);
    DecimalIsRead(a);
    DecimalIsRead(b);
    DecimalIsRead(c);
    DecimalIsRead(d);
    OctetsSplit(parts);
    QuadIsNoGroup(Join(parts, '.'));
  }

  lemma {:induction false} QuadIsNoGroup(s: string)
    requires QuadParts(s)
    ensures !IsHexGroup(s)
  {
    QuadChars(s);
  }

  function GroupsOf(pieces: seq<string>): seq<nat> {
    if pieces == [] then [] else PieceGroups(pieces[0]) + GroupsOf(pieces[1..])
  }

  predicate IsPiece(p: string, quadAllowed: bool) {
    IsHexGroup(p) || (quadAllowed && QuadParts(p))
  }

  /** Hexadecimal groups, the last of which may be a dotted quad where that is allowed. */
  predicate ArePieces(pieces: seq<string>, allowIpv4: bool) {
    forall i :: 0 <= i < |pieces| ==> IsPiece(pieces[i], allowIpv4 && i == |pieces| - 1)
  }

  /** What a colon-separated sequence consists of; the empty sequence has no pieces. */
  function PiecesOf(sequence: string): seq<string> {
    if sequence == "" then [] else Split(sequence, ':')
  }

  /** The body of the counting loop: how many groups one part adds, or -1. */
  method CountPart(part: string, quadAllowed: bool) returns (count: int)
    ensures count == CountOfPart(part, quadAllowed)
  {
    if part == "" {
      NoDotNoQuad(part);
      return -1;
    }
    var dot := Find(part, '.', 0);
    FindFirst(part, '.', 0);
    if dot != |part| {
      assert !IsHexGroup(part) by { assert !IsHexDigit(part[dot]); }
      var quad := IsValidIpv4(part);
      if !quadAllowed || !quad {
        return -1;
      }
      return 2;
    }
    NoDotNoQuad(part);
    if |part| > 4 || !AllOf(part, IsHexDigit) {
      return -1;
    }
    return 1;
  }

  lemma {:induction false} PiecesCons(p: string, rest: seq<string>, allowIpv4: bool)
    ensures ArePieces([p] + rest, allowIpv4) <==> IsPiece(p, allowIpv4 && rest == []) && ArePieces(rest, allowIpv4)
    ensures GroupsOf([p] + rest) == PieceGroups(p) + GroupsOf(rest)
  {
    var all := [p] + rest;
    assert all[1..] == rest;
    if ArePieces(all, allowIpv4) {
      assert IsPiece(all[0], allowIpv4 && |all| == 1);
      forall i | 0 <= i < |rest| ensures IsPiece(rest[i], allowIpv4 && i == |rest| - 1) {
        assert IsPiece(all[i + 1], allowIpv4 && i + 1 == |all| - 1);
      }
    }
  }

  function PartsFrom(sequence: string, begin: nat): seq<string>
    requires begin <= |sequence| + 1
  {
    if begin == |sequence| + 1 then [] else SplitFrom(sequence, ':', begin)
  }

  function CountOfPart(part: string, quadAllowed: bool): int {
    if IsPiece(part, quadAllowed) then |PieceGroups(part)| else -1
  }

  function PlusCount(added: int, rest: int): int {
    if added < 0 || rest < 0 then -1 else added + rest
  }

  /** How many groups a list of parts stands for, or -1 when one of them is not a piece. */
  function CountOf(parts: seq<string>, allowIpv4: bool): int {
    if parts == [] then 0
    else PlusCount(CountOfPart(parts[0], allowIpv4 && |parts| == 1), CountOf(parts[1..], allowIpv4))
  }

  lemma {:induction false} CountOfMeaning(parts: seq<string>, allowIpv4: bool)
    ensures CountOf(parts, allowIpv4) == if ArePieces(parts, allowIpv4) then |GroupsOf(parts)| else -1
  {
    if parts != [] {
      assert parts == [parts[0]] + parts[1..];
      PiecesCons(parts[0], parts[1..], allowIpv4);
      CountOfMeaning(parts[1..], allowIpv4);
    }
  }

  lemma {:induction false} CountCons(p: string, rest: seq<string>, allowIpv4: bool)
    ensures CountOf([p] + rest, allowIpv4)
         == PlusCount(CountOfPart(p, allowIpv4 && rest == []), CountOf(rest, allowIpv4))
  {
    assert ([p] + rest)[1..] == rest;
  }

  lemma {:induction false} PartsFromStep(sequence: string, begin: nat)
    requires begin <= |sequence|
    ensures var end := Find(sequence, ':', begin);
            PartsFrom(sequence, begin) == [sequence[begin..end]] + PartsFrom(sequence, end + 1)
  {
    SplitFromStep(sequence, ':', begin);
  }

  /** The count of the parts from `begin` on, or -1 when one of them is not a piece. */
  function CountFrom(sequence: string, begin: nat, allowIpv4: bool): int
    requires begin <= |sequence| + 1
    decreases |sequence| + 1 - begin
  {
    if begin == |sequence| + 1 then 0
    else
      var end := Find(sequence, ':', begin);
      PlusCount(
        CountOfPart(sequence[begin..end], allowIpv4 && end == |sequence|),
        CountFrom(sequence, end + 1, allowIpv4))
  }

  lemma {:induction false} CountFromMeaning(sequence: string, begin: nat, allowIpv4: bool)
    requires begin <= |sequence| + 1
    ensures CountFrom(sequence, begin, allowIpv4) == CountOf(PartsFrom(sequence, begin), allowIpv4)
    decreases |sequence| + 1 - begin
  {
    if begin <= |sequence| {
      var end := Find(sequence, ':', begin);
      PartsFromStep(sequence, begin);
      CountCons(sequence[begin..end], PartsFrom(sequence, end + 1), allowIpv4);
      CountFromMeaning(sequence, end + 1, allowIpv4);
    }
  }

  function CountOfSequence(sequence: string, allowIpv4: bool): int {
    if sequence == "" then 0 else CountFrom(sequence, 0, allowIpv4)
  }

  /** The count is negative unless the sequence consists of pieces, and then it is the number of their groups. */
  lemma {:induction false} CountMeaning(sequence: string, allowIpv4: bool)
    ensures CountOfSequence(sequence, allowIpv4)
         == if ArePieces(PiecesOf(sequence), allowIpv4) then |GroupsOf(PiecesOf(sequence))| else -1
  {
    CountFromMeaning(sequence, 0, allowIpv4);
    CountOfMeaning(PiecesOf(sequence), allowIpv4);
  }

  /** What one part adds to a count, or -1; the flag says whether it may be a dotted quad. */
  type PartCount = (string, bool) -> int

  ghost predicate CountsParts(countOf: PartCount) {
    forall part, quadAllowed {:trigger CountOfPart(part, quadAllowed)} ::
      countOf(part, quadAllowed) == CountOfPart(part, quadAllowed)
  }

  /** The count from `begin` on by any way of counting one part. */
  function CountFromBy(sequence: string, begin: nat, allowIpv4: bool, countOf: PartCount): int
    requires begin <= |sequence| + 1
    decreases |sequence| + 1 - begin
  {
    if begin == |sequence| + 1 then 0
    else
      var end := Find(sequence, ':', begin);
      PlusCount(
        countOf(sequence[begin..end], allowIpv4 && end == |sequence|),
        CountFromBy(sequence, end + 1, allowIpv4, countOf))
  }

  lemma {:induction false} CountByParts(sequence: string, begin: nat, allowIpv4: bool, countOf: PartCount)
    requires begin <= |sequence| + 1 && CountsParts(countOf)
    ensures CountFromBy(sequence, begin, allowIpv4, countOf) == CountFrom(sequence, begin, allowIpv4)
    decreases |sequence| + 1 - begin
  {
    if begin <= |sequence| {
      var end := Find(sequence, ':', begin);
      CountByParts(sequence, end + 1, allowIpv4, countOf);
      assert countOf(sequence[begin..end], allowIpv4 && end == |sequence|)
          == CountOfPart(sequence[begin..end], allowIpv4 && end == |sequence|);
    }
  }

  method CountPartBy(part: string, quadAllowed: bool, ghost countOf: PartCount) returns (count: int)
    requires CountsParts(countOf)
    ensures count == countOf(part, quadAllowed)
  {
    count := CountPart(part, quadAllowed);
  }

  /** The loop over the parts of a sequence that is not empty. */
  method CountParts(sequence: string, allowIpv4: bool, ghost countOf: PartCount) returns (count: int)
    requires CountsParts(countOf)
    ensures count == CountFromBy(sequence, 0, allowIpv4, countOf)
  {
    count := 0;
    var begin := 0;
    ghost var expected := CountFromBy(sequence, 0, allowIpv4, countOf);
    while begin <= |sequence|
      invariant begin <= |sequence| + 1 && count >= 0
      invariant expected == PlusCount(count, CountFromBy(sequence, begin, allowIpv4, countOf))
      decreases |sequence| + 1 - begin
    {
      var end := Find(sequence, ':', begin);
      var part := sequence[begin..end];
      var added := CountPartBy(part, allowIpv4 && end == |sequence|, countOf);
      if added < 0 {
        return -1;
      }
      count := count + added;
      begin := end + 1;
      if end == |sequence| {
        break;
      }
    }
  }

  method CountIpv6Parts(sequence: string, allowIpv4: bool) returns (count: int)
    ensures count == CountOfSequence(sequence, allowIpv4)
  {
    if sequence == "" {
      return 0;
    }
    CountByParts(sequence, 0, allowIpv4, CountOfPart);
    count := CountParts(sequence, allowIpv4, CountOfPart);
  }

  // ---------------------------------------------------------------- IPv6: whole addresses

  predicate DoubleAt(s: string, k: nat) {
    k + 1 < |s| && s[k] == ':' && s[k + 1] == ':'
  }

  /** The first "::" at or after `from`, or |s| when there is none. */
  function FindDouble(s: string, from: nat): (k: nat)
    requires from <= |s|
    ensures from <= k <= |s|
    ensures k < |s| ==> DoubleAt(s, k)
    ensures forall i :: from <= i < k ==> !DoubleAt(s, i)
    decreases |s| - from
  {
    if from == |s| || DoubleAt(s, from) then from else FindDouble(s, from + 1)
  }

  function Zeros(n: nat): seq<nat> {
    seq(n, _ => 0)
  }

  /** Eight groups written out, as in form 1 (or 3) of section 2.2 of RFC 4291. */
  ghost predicate FullForm(s: string, pieces: seq<string>, groups: seq<nat>) {
    pieces != [] && ArePieces(pieces, true) && Join(pieces, ':') == s && GroupsOf(pieces) == groups
  }

  /** One "::" standing for one or more zero groups, as in form 2 (or 3). */
  ghost predicate CompressedForm(s: string, left: seq<string>, right: seq<string>, groups: seq<nat>) {
    && ArePieces(left, false) && ArePieces(right, true)
    && s == Join(left, ':') + "::" + Join(right, ':')
    && |GroupsOf(left)| + |GroupsOf(right)| <= 7
    && groups == GroupsOf(left) + Zeros(8 - |GroupsOf(left)| - |GroupsOf(right)|) + GroupsOf(right)
  }

  /** The text s is a form of the address with the given eight groups. */
  ghost predicate Denotes(s: string, groups: seq<nat>) {
    && |groups| == 8
    && ((exists pieces :: FullForm(s, pieces, groups))
        || (exists left, right :: CompressedForm(s, left, right, groups)))
  }

  /** The groups of an address, computed the way the validator looks at it. */
  function Expand(s: string): Option<seq<nat>> {
    var k := FindDouble(s, 0);
    if k == |s| then
      var pieces := PiecesOf(s);
      if ArePieces(pieces, true) && |GroupsOf(pieces)| == 8 then Some(GroupsOf(pieces)) else None
    else if FindDouble(s, k + 2) < |s| then None
    else
      ExpandAround(PiecesOf(s[..k]), PiecesOf(s[k + 2..]))
  }

  /** The groups of an address whose pieces stand to the left and to the right of a "::". */
  function ExpandAround(left: seq<string>, right: seq<string>): Option<seq<nat>> {
    if ArePieces(left, false) && ArePieces(right, true) && |GroupsOf(left)| + |GroupsOf(right)| < 8
    then Some(GroupsOf(left) + Zeros(8 - |GroupsOf(left)| - |GroupsOf(right)|) + GroupsOf(right))
    else None
  }

  method IsValidIpv6(address: string) returns (valid: bool)
    ensures valid <==> Expand(address).Some?
  {
    var compression := FindDouble(address, 0);
    CountMeaning(address, true);
    if compression != |address| {
      var again := FindDouble(address, compression + 2);
      if again != |address| {
        return false;
      }
    }
    if compression == |address| {
      var count := CountIpv6Parts(address, true);
      return count == 8;
    }
    CountMeaning(address[..compression], false);
    CountMeaning(address[compression + 2..], true);
    var left := CountIpv6Parts(address[..compression], false);
    var right := CountIpv6Parts(address[compression + 2..], true);
    return left >= 0 && right >= 0 && left + right < 8;
  }

  // ---- the two readings agree

  /** No piece is empty or contains a colon. */
  lemma {:induction false} PieceChars(p: string, quadAllowed: bool)
    requires IsPiece(p, quadAllowed)
    ensures p != "" && Free(p, ':') && |p| <= 15
  {
    if !IsHexGroup(p) {
      QuadChars(p);
    }
    forall i | 0 <= i < |p| ensures p[i] != ':' {
      assert IsHexDigit(p[i]) || IsDigitOrDot(p[i]);
    }
  }

  ghost predicate NoDouble(s: string) {
    forall i :: 0 <= i ==> !DoubleAt(s, i)
  }

  predicate Solid(p: string) {
    p != "" && Free(p, ':')
  }

  /** Joining non-empty colon-free pieces never produces "::", nor a colon at either end. */
  lemma {:induction false} JoinHasNoDouble(pieces: seq<string>)
    requires pieces != [] && forall i :: 0 <= i < |pieces| ==> Solid(pieces[i])
    ensures var s := Join(pieces, ':'); s != "" && s[0] != ':' && s[|s| - 1] != ':' && NoDouble(s)
  {
    var p, s := pieces[0], Join(pieces, ':');
    assert Solid(p);
    if |pieces| > 1 {
      var rest := Join(pieces[1..], ':');
      JoinHasNoDouble(pieces[1..]);
      assert s == p + ":" + rest;
      forall i: nat ensures !DoubleAt(s, i) {
        if i > |p| && i + 1 < |s| {
          assert !DoubleAt(rest, i - |p| - 1);
        }
      }
    }
  }

  lemma {:induction false} PiecesAreSolid(pieces: seq<string>, allowIpv4: bool)
    requires ArePieces(pieces, allowIpv4)
    ensures forall i :: 0 <= i < |pieces| ==> Solid(pieces[i])
    ensures PiecesOf(Join(pieces, ':')) == pieces
    ensures NoDouble(Join(pieces, ':'))
    ensures var s := Join(pieces, ':'); s != "" ==> s[0] != ':' && s[|s| - 1] != ':'
  {
    forall i | 0 <= i < |pieces| ensures Solid(pieces[i]) {
      PieceChars(pieces[i], allowIpv4 && i == |pieces| - 1);
    }
    if pieces != [] {
      JoinHasNoDouble(pieces);
      SplitJoin(pieces, ':');
    }
  }

  lemma {:induction false} JoinPieces(s: string)
    ensures Join(PiecesOf(s), ':') == s
  {
    JoinSplit(s, ':');
  }

  lemma {:induction false} FullIsExpanded(s: string, pieces: seq<string>, groups: seq<nat>)
    requires |groups| == 8 && FullForm(s, pieces, groups)
    ensures Expand(s) == Some(groups)
  {
    PiecesAreSolid(pieces, true);
    assert FindDouble(s, 0) == |s|;
  }

  lemma {:induction false} FindMiddle(l: string, r: string)
    requires NoDouble(l) && NoDouble(r) && (l != "" ==> l[|l| - 1] != ':') && (r != "" ==> r[0] != ':')
    ensures var s := l + "::" + r; FindDouble(s, 0) == |l| && FindDouble(s, |l| + 2) == |s|
  {
    var s, n := l + "::" + r, |l|;
    assert DoubleAt(s, n);
    forall i | 0 <= i < n ensures !DoubleAt(s, i) {
      assert !DoubleAt(l, i);
    }
    forall i | n + 2 <= i ensures !DoubleAt(s, i) {
      assert !DoubleAt(r, i - n - 2);
    }
  }

  lemma {:induction false} CompressedIsExpanded(s: string, left: seq<string>, right: seq<string>, groups: seq<nat>)
    requires CompressedForm(s, left, right, groups)
    ensures Expand(s) == Some(groups)
  {
    PiecesAreSolid(left, false);
    PiecesAreSolid(right, true);
    var l, r := Join(left, ':'), Join(right, ':');
    FindMiddle(l, r);
    assert s[..|l|] == l && s[|l| + 2..] == r;
  }

  lemma {:induction false} ExpandedIsFull(s: string)
    requires Expand(s).Some? && FindDouble(s, 0) == |s|
    ensures FullForm(s, PiecesOf(s), Expand(s).value) && |Expand(s).value| == 8
  {
    JoinPieces(s);
  }

  lemma {:induction false} AroundIsDenoted(s: string, left: seq<string>, right: seq<string>)
    requires ExpandAround(left, right).Some? && s == Join(left, ':') + "::" + Join(right, ':')
    ensures Denotes(s, ExpandAround(left, right).value)
  {
    assert CompressedForm(s, left, right, ExpandAround(left, right).value);
  }

  lemma {:induction false} CompressedText(s: string, k: nat)
    requires DoubleAt(s, k)
    ensures s == Join(PiecesOf(s[..k]), ':') + "::" + Join(PiecesOf(s[k + 2..]), ':')
  {
    JoinPieces(s[..k]);
    JoinPieces(s[k + 2..]);
    assert s == s[..k] + "::" + s[k + 2..];
  }

  lemma {:induction false} ExpandedIsDenoted(s: string)
    requires Expand(s).Some?
    ensures Denotes(s, Expand(s).value)
  {
    if FindDouble(s, 0) == |s| {
      ExpandedIsFull(s);
    } else {
      var k := FindDouble(s, 0);
      CompressedText(s, k);
      AroundIsDenoted(s, PiecesOf(s[..k]), PiecesOf(s[k + 2..]));
    }
  }

  lemma {:induction false} DenotedIsExpanded(s: string, groups: seq<nat>)
    requires Denotes(s, groups)
    ensures Expand(s) == Some(groups)
  {
    if pieces :| FullForm(s, pieces, groups) {
      FullIsExpanded(s, pieces, groups);
    } else {
      var left, right :| CompressedForm(s, left, right, groups);
      CompressedIsExpanded(s, left, right, groups);
    }
  }

  /**
   The validator accepts exactly the forms of section 2.2 of RFC 4291, and the eight groups an accepted
   text stands for are unique.
   */
  lemma {:induction false} ExpandIsDenotes(s: string, groups: seq<nat>)
    ensures Expand(s) == Some(groups) <==> Denotes(s, groups)
  {
    if Expand(s) == Some(groups) {
      ExpandedIsDenoted(s);
    } else if Denotes(s, groups) {
      DenotedIsExpanded(s, groups);
    }
  }

  lemma {:induction false} GroupsAreUnique(s: string, g: seq<nat>, h: seq<nat>)
    requires Denotes(s, g) && Denotes(s, h)
    ensures g == h
  {
    ExpandIsDenotes(s, g);
    ExpandIsDenotes(s, h);
  }

  // ---- printing an address in full

  function HexDigitOf(v: nat): (c: char)
    requires v < 16
    ensures IsHexDigit(c) && HexDigitValue(c) == v
  {
    if v < 10 then (v + '0' as int) as char else (v - 10 + 'a' as int) as char
  }

  function PrintGroup(g: nat): string
    requires g < 0x10000
  {
    [HexDigitOf(g / 4096), HexDigitOf(g / 256 % 16), HexDigitOf(g / 16 % 16), HexDigitOf(g % 16)]
  }

  predicate AreGroups(groups: seq<nat>) {
    forall i :: 0 <= i < |groups| ==> groups[i] < 0x10000
  }

  function PrintGroups(groups: seq<nat>): seq<string>
    requires AreGroups(groups)
  {
    seq(|groups|, i requires 0 <= i < |groups| => PrintGroup(groups[i]))
  }

  /** All groups, four hexadecimal digits each, nothing compressed. */
  function PrintFull(groups: seq<nat>): string
    requires AreGroups(groups)
  {
    Join(PrintGroups(groups), ':')
  }

  lemma {:induction false} HexValueNext(s: string, c: char)
    requires AllOf(s, IsHexDigit) && IsHexDigit(c)
    ensures AllOf(s + [c], IsHexDigit) && HexValue(s + [c]) == HexValue(s) * 16 + HexDigitValue(c)
  {
    assert (s + [c])[..|s|] == s;
  }

  lemma {:induction false} HexDigitsOf(g: nat)
    requires g < 0x10000
    ensures g == ((g / 4096 * 16 + g / 256 % 16) * 16 + g / 16 % 16) * 16 + g % 16 && g / 4096 < 16
  {
    assert g / 256 == g / 16 / 16 && g / 4096 == g / 16 / 16 / 16;
  }

  lemma {:induction false} PrintGroupValue(g: nat)
    requires g < 0x10000
    ensures IsHexGroup(PrintGroup(g)) && HexValue(PrintGroup(g)) == g
  {
    var a, b, c, d := HexDigitOf(g / 4096), HexDigitOf(g / 256 % 16), HexDigitOf(g / 16 % 16), HexDigitOf(g % 16);
    HexDigitsOf(g);
    HexValueNext("", a);
    HexValueNext("" + [a], b);
    HexValueNext("" + [a] + [b], c);
    HexValueNext("" + [a] + [b] + [c], d);
    assert PrintGroup(g) == "" + [a] + [b] + [c] + [d];
  }

  lemma {:induction false} PrintGroupsBack(groups: seq<nat>)
    requires AreGroups(groups)
    ensures GroupsOf(PrintGroups(groups)) == groups
  {
    if groups != [] {
      PrintGroupsBack(groups[1..]);
      var printed := PrintGroups(groups);
      assert printed[1..] == PrintGroups(groups[1..]);
      PieceOfPrinted(groups[0]);
      assert groups == [groups[0]] + groups[1..];
    }
  }

  lemma {:induction false} PieceOfPrinted(g: nat)
    requires g < 0x10000
    ensures IsPiece(PrintGroup(g), false) && PieceGroups(PrintGroup(g)) == [g]
  {
    PrintGroupValue(g);
  }

  lemma {:induction false} HexBound(s: string)
    requires AllOf(s, IsHexDigit) && |s| <= 4
    ensures HexValue(s) < if |s| == 0 then 1
                          else if |s| == 1 then 16
                          else if |s| == 2 then 256
                          else if |s| == 3 then 4096
                          else 0x10000
  {
    if s != "" {
      HexBound(s[..|s| - 1]);
    }
  }

  lemma {:induction false} PieceGroupsBound(p: string)
    ensures AreGroups(PieceGroups(p))
  {
    if IsHexGroup(p) {
      HexBound(p);
    } else if QuadParts(p) {
      var o := Split(p, '.');
      assert IsOctet(o[0]) && IsOctet(o[1]) && IsOctet(o[2]) && IsOctet(o[3]);
    }
  }

  lemma {:induction false} GroupsBound(pieces: seq<string>)
    ensures AreGroups(GroupsOf(pieces))
  {
    if pieces != [] {
      PieceGroupsBound(pieces[0]);
      GroupsBound(pieces[1..]);
    }
  }

  /**
   Every accepted address has eight 16-bit groups, and printing them in full gives an address with the same
   groups.
   */
  lemma {:induction false} FullPrintIsAccepted(s: string, groups: seq<nat>)
    requires Denotes(s, groups)
    ensures |groups| == 8 && AreGroups(groups)
    ensures Denotes(PrintFull(groups), groups) && Expand(PrintFull(groups)) == Some(groups)
  {
    DenotedBound(s, groups);
    PrintedIsFull(groups);
    DenotedIsExpanded(PrintFull(groups), groups);
  }

  lemma {:induction false} DenotedBound(s: string, groups: seq<nat>)
    requires Denotes(s, groups)
    ensures AreGroups(groups)
  {
    if pieces :| FullForm(s, pieces, groups) {
      GroupsBound(pieces);
    } else {
      var left, right :| CompressedForm(s, left, right, groups);
      GroupsBound(left);
      GroupsBound(right);
    }
  }

  lemma {:induction false} PrintedIsFull(groups: seq<nat>)
    requires |groups| == 8 && AreGroups(groups)
    ensures FullForm(PrintFull(groups), PrintGroups(groups), groups)
  {
    var printed := PrintGroups(groups);
    PrintGroupsBack(groups);
    forall i | 0 <= i < |printed| ensures IsPiece(printed[i], i == |printed| - 1) {
      PieceOfPrinted(groups[i]);
    }
  }

  // ---- length

  lemma {:induction false} PieceLength(p: string, quadAllowed: bool)
    requires IsPiece(p, quadAllowed)
    ensures |PieceGroups(p)| >= 1 && |p| + 1 <= 5 * |PieceGroups(p)| + if quadAllowed then 6 else 0
    ensures |PieceGroups(p)| <= 2
  {
    if !IsHexGroup(p) {
      QuadChars(p);
    }
  }

  lemma {:induction false} PiecesLength(pieces: seq<string>, allowIpv4: bool)
    requires ArePieces(pieces, allowIpv4)
    ensures |Join(pieces, ':')| <= 5 * |GroupsOf(pieces)| + 5
    ensures !allowIpv4 ==> |Join(pieces, ':')| <= 5 * |GroupsOf(pieces)|
  {
    if pieces != [] {
      var p, rest := pieces[0], pieces[1..];
      assert pieces == [p] + rest;
      PiecesCons(p, rest, allowIpv4);
      PieceLength(p, allowIpv4 && rest == []);
      PiecesLength(rest, allowIpv4);
    }
  }

  lemma {:induction false} Ipv6Length(s: string)
    requires Expand(s).Some?
    ensures 2 <= |s| <= 45 && !Free(s, ':')
  {
    var groups := Expand(s).value;
    ExpandIsDenotes(s, groups);
    if pieces :| FullForm(s, pieces, groups) {
      TextOfPieces(pieces);
      PiecesLength(pieces, true);
    } else {
      var left, right :| CompressedForm(s, left, right, groups);
      PiecesLength(left, false);
      PiecesLength(right, true);
      assert s[|Join(left, ':')|] == ':';
    }
  }

  lemma {:induction false} TextOfPieces(pieces: seq<string>)
    requires ArePieces(pieces, true) && |GroupsOf(pieces)| == 8
    ensures !Free(Join(pieces, ':'), ':') && |Join(pieces, ':')| >= 2
  {
    var p, rest := pieces[0], pieces[1..];
    assert pieces == [p] + rest;
    PiecesCons(p, rest, true);
    PieceLength(p, rest == []);
    PiecesAreSolid(pieces, true);
    assert Solid(p);
    assert Join(pieces, ':')[|p|] == ':';
  }

  // ---------------------------------------------------------------- host names

  predicate IsLabelChar(c: char) { IsAlnum(c) || c == '-' }

  /** A label of section 2.1 of RFC 1123: letters, digits and inner hyphens, at most 63 of them. */
  predicate IsLabel(l: string) {
    1 <= |l| <= 63 && IsAlnum(l[0]) && IsAlnum(l[|l| - 1]) && AllOf(l, IsLabelChar)
  }

  /** The lengths of a label, and what it may begin, go on and end with. */
  lemma {:induction false} LabelMeans(n: nat, c: char)
    ensures IsLabel(seq(n, i => 'a')) <==> 1 <= n <= 63
    ensures IsLabel([c]) <==> 'a' <= c <= 'z' || 'A' <= c <= 'Z' || '0' <= c <= '9'
    ensures IsLabel(['a', c, 'a']) <==> 'a' <= c <= 'z' || 'A' <= c <= 'Z' || '0' <= c <= '9' || c == '-'
  {
    assert ['a', c, 'a'][1] == c && [c][0] == c;
  }

  predicate AreLabels(labels: seq<string>) {
    forall i :: 0 <= i < |labels| ==> IsLabel(labels[i])
  }

  /** A host name: labels joined by dots, perhaps with a final dot, at most 253 bytes, not only digits and dots. */
  ghost predicate IsHostname(s: string) {
    && |s| <= 253 && !AllOf(s, IsDigitOrDot)
    && exists labels: seq<string> ::
         labels != [] && AreLabels(labels) && (s == Join(labels, '.') || s == Join(labels, '.') + ".")
  }

  function WithoutFinalDot(s: string): string
    requires s != ""
  {
    if s[|s| - 1] == '.' then s[..|s| - 1] else s
  }

  /** The form the validator checks. */
  predicate HostLabels(s: string) {
    && 1 <= |s| <= 253
    && var h := WithoutFinalDot(s);
       h != "" && !AllOf(h, IsDigitOrDot) && AreLabels(Split(h, '.'))
  }

  lemma {:induction false} LabelsCons(l: string, rest: seq<string>)
    ensures AreLabels([l] + rest) <==> IsLabel(l) && AreLabels(rest)
  {
    var all := [l] + rest;
    if AreLabels(all) {
      assert IsLabel(all[0]);
      forall i | 0 <= i < |rest| ensures IsLabel(rest[i]) {
        assert IsLabel(all[i + 1]);
      }
    }
  }

  /** The loop over the labels. */
  method CheckLabels(h: string) returns (valid: bool)
    ensures valid <==> AreLabels(Split(h, '.'))
  {
    var begin := 0;
    while begin <= |h|
      invariant begin <= |h| && (AreLabels(Split(h, '.')) <==> AreLabels(SplitFrom(h, '.', begin)))
      decreases |h| - begin
    {
      var end := Find(h, '.', begin);
      var l := h[begin..end];
      SplitFromStep(h, '.', begin);
      LabelsCons(l, AfterPart(h, '.', begin));
      if l == "" || |l| > 63 || !IsAlnum(l[0]) || !IsAlnum(l[|l| - 1]) || !AllOf(l, IsLabelChar) {
        return false;
      }
      if end == |h| {
        break;
      }
      begin := end + 1;
    }
    return true;
  }

  method IsValidHostname(hostname: string) returns (valid: bool)
    ensures valid <==> HostLabels(hostname)
  {
    if hostname == "" || |hostname| > 253 {
      return false;
    }
    var h := hostname;
    if h[|h| - 1] == '.' {
      h := h[..|h| - 1];
    }
    if h == "" || AllOf(h, IsDigitOrDot) {
      return false;
    }
    valid := CheckLabels(h);
  }

  lemma {:induction false} LabelsEndInAlnum(labels: seq<string>)
    requires labels != [] && AreLabels(labels)
    ensures var s := Join(labels, '.'); s != "" && IsAlnum(s[|s| - 1])
  {
    assert IsLabel(labels[0]);
    if |labels| > 1 {
      LabelsEndInAlnum(labels[1..]);
    }
  }

  lemma {:induction false} LabelsSplit(labels: seq<string>)
    requires labels != [] && AreLabels(labels)
    ensures Split(Join(labels, '.'), '.') == labels
  {
    forall i | 0 <= i < |labels| ensures Free(labels[i], '.') {
      assert IsLabel(labels[i]);
    }
    SplitJoin(labels, '.');
  }

  lemma {:induction false} HostLabelsAreHostname(s: string)
    requires HostLabels(s)
    ensures IsHostname(s)
  {
    var h := WithoutFinalDot(s);
    JoinSplit(h, '.');
    assert s == h || s == h + ".";
    assert AllOf(s, IsDigitOrDot) ==> AllOf(h, IsDigitOrDot);
  }

  lemma {:induction false} HostnameHasLabels(s: string, labels: seq<string>)
    requires |s| <= 253 && !AllOf(s, IsDigitOrDot)
    requires labels != [] && AreLabels(labels) && (s == Join(labels, '.') || s == Join(labels, '.') + ".")
    ensures HostLabels(s)
  {
    var h := Join(labels, '.');
    LabelsEndInAlnum(labels);
    LabelsSplit(labels);
    assert WithoutFinalDot(s) == h;
    assert AllOf(h, IsDigitOrDot) ==> AllOf(s, IsDigitOrDot);
  }

  lemma {:induction false} HostLabelsIsHostname(s: string)
    ensures HostLabels(s) <==> IsHostname(s)
  {
    if HostLabels(s) {
      HostLabelsAreHostname(s);
    } else if IsHostname(s) {
      var labels: seq<string> :|
        labels != [] && AreLabels(labels) && (s == Join(labels, '.') || s == Join(labels, '.') + ".");
      HostnameHasLabels(s, labels);
    }
  }

  // ---------------------------------------------------------------- the three classes

  predicate IsAddress(s: string) {
    QuadParts(s) || Expand(s).Some? || HostLabels(s)
  }

  lemma {:induction false} HostChars(s: string)
    requires HostLabels(s)
    ensures AllOf(s, IsHostChar) && Free(s, ':') && !AllOf(s, IsDigitOrDot)
  {
    var h := WithoutFinalDot(s);
    var labels := Split(h, '.');
    JoinSplit(h, '.');
    forall i | 0 <= i < |labels| ensures AllOf(labels[i], IsHostChar) {
      assert IsLabel(labels[i]);
    }
    JoinChars(labels, '.', IsHostChar);
    assert AllOf(s, IsDigitOrDot) ==> AllOf(h, IsDigitOrDot);
    forall i | 0 <= i < |s| ensures IsHostChar(s[i]) {
      assert i < |h| ==> s[i] == h[i] && IsHostChar(h[i]);
    }
  }

  predicate IsHostChar(c: char) { IsLabelChar(c) || c == '.' }

  /** An accepted address is in exactly one class, with at most 15, 45 and 253 bytes. */
  lemma {:induction false} AddressClasses(s: string)
    requires IsAddress(s)
    ensures QuadParts(s) ==> !Expand(s).Some? && !HostLabels(s) && 1 <= |s| <= 15
    ensures Expand(s).Some? ==> !QuadParts(s) && !HostLabels(s) && 1 <= |s| <= 45
    ensures HostLabels(s) ==> !QuadParts(s) && !Expand(s).Some? && 1 <= |s| <= 253
  {
    if QuadParts(s) {
      QuadChars(s);
      forall i | 0 <= i < |s| ensures s[i] != ':' {
        assert IsDigitOrDot(s[i]);
      }
    }
    if Expand(s).Some? {
      Ipv6Length(s);
    }
    if HostLabels(s) {
      HostChars(s);
    }
  }
}
