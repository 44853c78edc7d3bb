/** Objects with optional string members: what a printed one holds when it is read again. */
module JsonObjects {
  import opened Common
  import opened JsonText

  /** A member's value: a string, or anything else. */
  datatype Json = Str(text: string) | Other

  type Object = map<string, Json>

  /** A member that is printed only when it has a value. */
  datatype Entry = Entry(name: string, value: Option<string>)

  function PresentOne(e: Entry): seq<Member> {
    match e.value case Some(v) => [Member(e.name, v)] case None => []
  }

  /** The members printed for the first n entries. */
  function Present(es: seq<Entry>, n: nat): seq<Member>
    requires n <= |es|
  {
    if n == 0 then [] else Present(es, n - 1) + PresentOne(es[n - 1])
  }

  /** The object of a list of members; of two with one name the later stays. */
  function ObjectOf(ms: seq<Member>): Object {
    if ms == [] then map[] else ObjectOf(ms[..|ms| - 1])[ms[|ms| - 1].name := Str(ms[|ms| - 1].value)]
  }

  /** A text as the RFC 8259 reader takes it. */
  function ReadText(text: string): Option<Object> {
    match ReadObject(text, true) case Some(ms) => Some(ObjectOf(ms)) case None => None
  }

  // ---------------------------------------------------------------- what a printed object holds

  predicate HoldsEntry(o: Object, e: Entry) {
    match e.value
    case Some(v) => e.name in o && o[e.name] == Str(v)
    case None => e.name !in o
  }

  ghost predicate DistinctNames(es: seq<Entry>) {
    forall i, j :: 0 <= i < |es| && 0 <= j < |es| && es[i].name == es[j].name ==> i == j
  }

  lemma {:induction false} ObjectSnoc(ms: seq<Member>, m: Member)
    ensures ObjectOf(ms + [m]) == ObjectOf(ms)[m.name := Str(m.value)]
  {
    assert (ms + [m])[..|ms|] == ms;
  }

  lemma {:induction false} PresentNext(es: seq<Entry>, n: nat)
    requires n < |es|
    ensures es[n].value.None? ==> Present(es, n + 1) == Present(es, n)
    ensures es[n].value.Some? ==> Present(es, n + 1) == Present(es, n) + [Member(es[n].name, es[n].value.value)]
  {
  }

  function With(o: Object, e: Entry): Object {
    match e.value case Some(v) => o[e.name := Str(v)] case None => o
  }

  /** What an object holds, entry by entry. */
  function Held(es: seq<Entry>, n: nat): Object
    requires n <= |es|
  {
    if n == 0 then map[] else With(Held(es, n - 1), es[n - 1])
  }

  lemma {:induction false} ObjectWith(ms: seq<Member>, e: Entry)
    ensures ObjectOf(ms + PresentOne(e)) == With(ObjectOf(ms), e)
  {
    match e.value {
      case None => assert ms + PresentOne(e) == ms;
      case Some(v) => ObjectSnoc(ms, Member(e.name, v));
    }
  }

  predicate TakesNext(reading: seq<Member> -> Object, ms: seq<Member>, e: Entry) {
    reading(ms + PresentOne(e)) == With(reading(ms), e)
  }

  /** Any reading of member lists that takes one entry after the other gives what is held. */
  lemma {:induction false} ReadingIsHeld(es: seq<Entry>, n: nat, reading: seq<Member> -> Object)
    requires n <= |es| && reading([]) == map[]
    requires forall ms, e :: TakesNext(reading, ms, e)
    ensures reading(Present(es, n)) == Held(es, n)
  {
    if n > 0 {
      ReadingIsHeld(es, n - 1, reading);
      assert TakesNext(reading, Present(es, n - 1), es[n - 1]);
    }
  }

  lemma {:induction false} PresentIsHeld(es: seq<Entry>, n: nat)
    requires n <= |es|
    ensures ObjectOf(Present(es, n)) == Held(es, n)
  {
    forall ms, e ensures TakesNext(ObjectOf, ms, e) {
      ObjectWith(ms, e);
    }
    ReadingIsHeld(es, n, ObjectOf);
  }

  lemma {:induction false} HeldNames(es: seq<Entry>, n: nat, name: string)
    requires n <= |es| && forall i :: 0 <= i < n ==> es[i].name != name
    ensures name !in Held(es, n)
  {
    if n > 0 {
      HeldNames(es, n - 1, name);
    }
  }

  lemma {:induction false} HeldIsKept(es: seq<Entry>, n: nat, i: nat)
    requires i < n <= |es| && DistinctNames(es)
    ensures HoldsEntry(Held(es, n), es[i])
  {
    if i < n - 1 {
      HeldIsKept(es, n - 1, i);
      assert es[i].name != es[n - 1].name;
    } else {
      HeldNames(es, i, es[i].name);
    }
  }

  /** The printed object holds every entry. */
  lemma {:induction false} HoldsAll(es: seq<Entry>, i: nat)
    requires i < |es| && DistinctNames(es)
    ensures HoldsEntry(ObjectOf(Present(es, |es|)), es[i])
  {
    PresentIsHeld(es, |es|);
    HeldIsKept(es, |es|, i);
  }

  // ---------------------------------------------------------------- reading it

  predicate EntryReadable(e: Entry) {
    e.value.Some? ==> Readable(e.value.value)
  }

  lemma {:induction false} ReadableConcat(a: seq<Member>, b: seq<Member>)
    ensures ValuesReadable(a + b) <==> ValuesReadable(a) && ValuesReadable(b)
  {
    assert forall m :: m in a + b <==> m in a || m in b;
  }

  lemma {:induction false} OneReadable(e: Entry)
    ensures ValuesReadable(PresentOne(e)) <==> EntryReadable(e)
  {
    if e.value.Some? {
      assert PresentOne(e)[0] in PresentOne(e);
    }
  }

  ghost predicate EntriesReadable(es: seq<Entry>, n: nat)
    requires n <= |es|
  {
    forall i :: 0 <= i < n ==> EntryReadable(es[i])
  }

  lemma {:induction false} PresentReadable(es: seq<Entry>, n: nat)
    requires n <= |es|
    ensures ValuesReadable(Present(es, n)) <==> EntriesReadable(es, n)
  {
    if n > 0 {
      PresentReadable(es, n - 1);
      ReadableConcat(Present(es, n - 1), PresentOne(es[n - 1]));
      OneReadable(es[n - 1]);
    }
  }

  ghost predicate EntriesPlain(es: seq<Entry>) {
    forall i :: 0 <= i < |es| ==> PlainName(es[i].name)
  }

  lemma {:induction false} OnePlain(e: Entry)
    requires PlainName(e.name)
    ensures PlainNames(PresentOne(e))
  {
  }

  lemma {:induction false} PlainConcat(a: seq<Member>, b: seq<Member>)
    requires PlainNames(a) && PlainNames(b)
    ensures PlainNames(a + b)
  {
  }

  lemma {:induction false} PresentPlain(es: seq<Entry>, n: nat)
    requires n <= |es| && EntriesPlain(es)
    ensures PlainNames(Present(es, n))
  {
    if n > 0 {
      PresentPlain(es, n - 1);
      OnePlain(es[n - 1]);
      PlainConcat(Present(es, n - 1), PresentOne(es[n - 1]));
    }
  }

  /** Every printed object is read back, by a strict reader exactly when its values are readable. */
  lemma {:induction false} PresentIsRead(es: seq<Entry>, strict: bool)
    requires EntriesPlain(es)
    ensures ReadObject(PrintObject(Present(es, |es|)), strict)
         == if strict && !EntriesReadable(es, |es|) then None else Some(Present(es, |es|))
  {
    PresentPlain(es, |es|);
    PresentReadable(es, |es|);
    ObjectIsRead(Present(es, |es|), strict);
  }

  // ---------------------------------------------------------------- printing into a stream

  /** The stream before its closing brace. */
  function Open(ms: seq<Member>): string {
    if ms == [] then "{"
    else Open(ms[..|ms| - 1]) + (if |ms| == 1 then "" else ",") + PrintMember(ms[|ms| - 1])
  }

  lemma {:induction false} OpenRest(ms: seq<Member>, i: nat)
    requires i <= |ms|
    ensures Open(ms[..i]) + PrintRest(ms[i..], i == 0) == PrintObject(ms)
  {
    if i == 0 {
      assert ms[0..] == ms;
    } else {
      OpenRest(ms, i - 1);
      OpenStep(ms, i);
    }
  }

  lemma {:induction false} OpenStep(ms: seq<Member>, i: nat)
    requires 0 < i <= |ms|
    ensures Open(ms[..i]) + PrintRest(ms[i..], false) == Open(ms[..i - 1]) + PrintRest(ms[i - 1..], i == 1)
  {
    var before, m, rest := Open(ms[..i - 1]), PrintMember(ms[i - 1]), PrintRest(ms[i..], false);
    var comma := if i == 1 then "" else ",";
    assert ms[..i][..i - 1] == ms[..i - 1];
    assert ms[i - 1..][1..] == ms[i..];
    Regroup(before, comma, m, rest);
    assert "" + (m + rest) == m + rest;
  }

  lemma {:induction false} Regroup(a: string, b: string, c: string, d: string)
    ensures ((a + b) + c) + d == a + (b + (c + d))
  {
  }

  lemma {:induction false} OpenCloses(ms: seq<Member>)
    ensures Open(ms) + "}" == PrintObject(ms)
  {
    OpenRest(ms, |ms|);
    assert ms[..|ms|] == ms && ms[|ms|..] == [];
  }

  /** Appends a member to a stream that holds `done` so far. */
  method AppendField(stream: string, name: string, value: string, first: bool, ghost done: seq<Member>)
    returns (extended: string, first': bool)
    requires stream == Open(done) && (first <==> done == [])
    ensures extended == Open(done + [Member(name, value)]) && !first'
  {
    extended := stream;
    if !first {
      extended := extended + ",";
    }
    first' := false;
    var escaped := EscapeJson(value);
    var member := "\"" + name + "\":\"" + escaped + "\"";
    assert (done + [Member(name, value)])[..|done|] == done;
    extended := extended + member;
    assert Open(done) + "" == Open(done);
  }

  method AppendOptionalField(
    stream: string, name: string, value: Option<string>, first: bool, ghost es: seq<Entry>, ghost n: nat)
    returns (extended: string, first': bool)
    requires n < |es| && es[n] == Entry(name, value)
    requires stream == Open(Present(es, n)) && (first <==> Present(es, n) == [])
    ensures extended == Open(Present(es, n + 1)) && (first' <==> Present(es, n + 1) == [])
  {
    PresentNext(es, n);
    extended, first' := stream, first;
    if value.Some? {
      extended, first' := AppendField(stream, name, value.value, first, Present(es, n));
    }
  }

  /** The calls in their order; the source has the loop written out. */
  method PrintEntries(es: seq<Entry>) returns (text: string)
    ensures text == PrintObject(Present(es, |es|))
  {
    var stream, first := "{", true;
    for i := 0 to |es|
      invariant stream == Open(Present(es, i)) && (first <==> Present(es, i) == [])
    {
      stream, first := AppendOptionalField(stream, es[i].name, es[i].value, first, es, i);
    }
    OpenCloses(Present(es, |es|));
    text := stream + "}";
  }
}
