/** Searching and splitting, as `std::string_view` does it. */
module Text {

  /** The first position of c at or after `from`, or |s| when there is none. */
  function Find(s: string, c: char, from: nat): (k: nat)
    requires from <= |s|
    ensures from <= k <= |s|
    decreases |s| - from
  {
    if from == |s| || s[from] == c then from else Find(s, c, from + 1)
  }

  lemma {:induction false} FindFirst(s: string, c: char, from: nat)
    requires from <= |s|
    ensures var k := Find(s, c, from); (k < |s| ==> s[k] == c) && forall i :: from <= i < k ==> s[i] != c
    decreases |s| - from
  {
    if from < |s| && s[from] != c {
      FindFirst(s, c, from + 1);
    }
  }

  /** The parts of s from `begin` on, between the separators; there is always at least one. */
  function SplitFrom(s: string, sep: char, begin: nat): (parts: seq<string>)
    requires begin <= |s|
    ensures parts != []
    decreases |s| - begin
  {
    var k := Find(s, sep, begin);
    if k == |s| then [s[begin..]] else [s[begin..k]] + SplitFrom(s, sep, k + 1)
  }

  /** What follows the part at `begin`. */
  function AfterPart(s: string, sep: char, begin: nat): seq<string>
    requires begin <= |s|
  {
    var k := Find(s, sep, begin);
    if k == |s| then [] else SplitFrom(s, sep, k + 1)
  }

  lemma {:induction false} SplitFromStep(s: string, sep: char, begin: nat)
    requires begin <= |s|
    ensures SplitFrom(s, sep, begin) == [s[begin..Find(s, sep, begin)]] + AfterPart(s, sep, begin)
  {
    assert s[begin..] == s[begin..|s|];
  }

  function Split(s: string, sep: char): (parts: seq<string>)
    ensures parts != []
  {
    SplitFrom(s, sep, 0)
  }

  function Join(parts: seq<string>, sep: char): string {
    if parts == [] then ""
    else if |parts| == 1 then parts[0]
    else parts[0] + [sep] + Join(parts[1..], sep)
  }

  predicate Free(s: string, c: char) {
    forall i :: 0 <= i < |s| ==> s[i] != c
  }

  lemma {:induction false} FindIn(s: string, c: char, from: nat, k: nat)
    requires from <= k <= |s| && (k < |s| ==> s[k] == c) && forall i :: from <= i < k ==> s[i] != c
    ensures Find(s, c, from) == k
  {
    FindFirst(s, c, from);
  }

  lemma {:induction false} JoinSplitFrom(s: string, sep: char, begin: nat)
    requires begin <= |s|
    ensures Join(SplitFrom(s, sep, begin), sep) == s[begin..]
    ensures forall i :: 0 <= i < |SplitFrom(s, sep, begin)| ==> Free(SplitFrom(s, sep, begin)[i], sep)
    decreases |s| - begin
  {
    var k := Find(s, sep, begin);
    FindFirst(s, sep, begin);
    if k < |s| {
      JoinSplitFrom(s, sep, k + 1);
      assert SplitFrom(s, sep, begin)[1..] == SplitFrom(s, sep, k + 1);
      assert s[begin..] == s[begin..k] + [sep] + s[k + 1..];
    }
  }

  lemma {:induction false} JoinSplit(s: string, sep: char)
    ensures Join(Split(s, sep), sep) == s
    ensures forall i :: 0 <= i < |Split(s, sep)| ==> Free(Split(s, sep)[i], sep)
  {
    JoinSplitFrom(s, sep, 0);
    assert s[0..] == s;
  }

  lemma {:induction false} SplitJoinFrom(s: string, parts: seq<string>, sep: char, begin: nat)
    requires begin <= |s| && s[begin..] == Join(parts, sep)
    requires parts != [] && forall i :: 0 <= i < |parts| ==> Free(parts[i], sep)
    ensures SplitFrom(s, sep, begin) == parts
    decreases |parts|
  {
    var n := |parts[0]|;
    assert Free(parts[0], sep);
    assert forall i :: begin <= i < begin + n ==> s[i] == s[begin..][i - begin] == parts[0][i - begin];
    if |parts| == 1 {
      FindIn(s, sep, begin, |s|);
    } else {
      var rest := Join(parts[1..], sep);
      assert s[begin..] == parts[0] + [sep] + rest;
      assert s[begin + n] == s[begin..][n] == sep;
      FindIn(s, sep, begin, begin + n);
      assert s[begin..begin + n] == parts[0];
      assert s[begin + n + 1..] == s[begin..][n + 1..] == rest;
      SplitJoinFrom(s, parts[1..], sep, begin + n + 1);
    }
  }

  lemma {:induction false} SplitJoin(parts: seq<string>, sep: char)
    requires parts != [] && forall i :: 0 <= i < |parts| ==> Free(parts[i], sep)
    ensures Split(Join(parts, sep), sep) == parts
  {
    assert Join(parts, sep)[0..] == Join(parts, sep);
    SplitJoinFrom(Join(parts, sep), parts, sep, 0);
  }

  lemma {:induction false} JoinLength(parts: seq<string>, sep: char, lo: nat, hi: nat)
    requires parts != [] && forall i :: 0 <= i < |parts| ==> lo <= |parts[i]| <= hi
    ensures |parts| * (lo + 1) <= |Join(parts, sep)| + 1 <= |parts| * (hi + 1)
  {
    if |parts| > 1 {
      var rest := parts[1..];
      JoinLength(rest, sep, lo, hi);
      assert |rest| * (lo + 1) + (lo + 1) == |parts| * (lo + 1);
      assert |rest| * (hi + 1) + (hi + 1) == |parts| * (hi + 1);
    }
  }

  lemma {:induction false} JoinChars(parts: seq<string>, sep: char, ok: char -> bool)
    requires ok(sep) && forall i :: 0 <= i < |parts| ==> AllOf(parts[i], ok)
    ensures AllOf(Join(parts, sep), ok)
  {
    if |parts| > 1 {
      JoinChars(parts[1..], sep, ok);
    } else if |parts| == 1 {
      assert AllOf(parts[0], ok);
    }
  }

  predicate AllOf(s: string, ok: char -> bool) {
    forall i :: 0 <= i < |s| ==> ok(s[i])
  }

  predicate IsDigit(c: char) { '0' <= c <= '9' }
  predicate IsHexDigit(c: char) { IsDigit(c) || 'a' <= c <= 'f' || 'A' <= c <= 'F' }
  predicate IsAlnum(c: char) { IsDigit(c) || 'a' <= c <= 'z' || 'A' <= c <= 'Z' }

  function HexDigitValue(c: char): (v: nat)
    requires IsHexDigit(c)
    ensures v < 16
  {
    if IsDigit(c) then c as int - '0' as int
    else if 'a' <= c <= 'f' then c as int - 'a' as int + 10
    else c as int - 'A' as int + 10
  }
}
