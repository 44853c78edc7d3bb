/** The request envelope as it is on the wire: the literal names of its members and types, read and printed. */
module MqttWire {
  import opened Common
  import opened JsonText
  import opened JsonObjects
  import opened MqttMessages
  import MqttTopics

  // ---------------------------------------------------------------- reading

  predicate Has(o: Object, name: string, value: Option<string>) {
    match value
    case Some(v) => name in o && o[name] == Str(v)
    case None => name !in o
  }

  /** The common members, under their names on the wire. */
  predicate HasCommon(o: Object, r: Request) {
    && Has(o, "id", Some(r.id)) && Has(o, "created_utc", Some(r.createdUtc))
    && Has(o, "source_client_id", Some(r.sourceClientId))
  }

  predicate HasType(o: Object, kind: MessageType) {
    match kind
    case ExecuteScript => Has(o, "type", Some("execute_script"))
    case SendToDevice => Has(o, "type", Some("send_to_device"))
    case CmdToDevice => Has(o, "type", Some("cmd_to_device"))
    case StoreDatabaseValue => Has(o, "type", Some("store_database_value"))
    case QueryAiPrompt => Has(o, "type", Some("query_AI_prompt"))
  }

  /** The optional members, under their names on the wire. */
  predicate HasOptional(o: Object, r: Request) {
    && Has(o, "script_name", r.scriptName) && Has(o, "device_id", r.deviceId) && Has(o, "payload", r.payload)
    && Has(o, "command", r.command) && Has(o, "key", r.key) && Has(o, "value", r.value) && Has(o, "prompt", r.prompt)
  }

  /** The object is the request's on the wire; it may have other members too. */
  predicate OnTheWire(o: Object, r: Request) {
    HasCommon(o, r) && HasType(o, r.kind) && HasOptional(o, r)
  }

  lemma {:induction false} CommonIsHeld(o: Object, r: Request)
    ensures HasCommon(o, r) <==>
              HoldsField(o, r, Id) && HoldsField(o, r, CreatedUtc) && HoldsField(o, r, SourceClientId)
  {
  }

  lemma {:induction false} TypeIsHeld(o: Object, r: Request)
    ensures HasType(o, r.kind) <==> HoldsField(o, r, Type)
  {
  }

  lemma {:induction false} OptionalIsHeld(o: Object, r: Request)
    ensures Has(o, "script_name", r.scriptName) <==> HoldsField(o, r, ScriptName)
    ensures Has(o, "device_id", r.deviceId) <==> HoldsField(o, r, DeviceId)
    ensures Has(o, "payload", r.payload) <==> HoldsField(o, r, Payload)
    ensures Has(o, "command", r.command) <==> HoldsField(o, r, Command)
    ensures Has(o, "key", r.key) <==> HoldsField(o, r, Key)
    ensures Has(o, "value", r.value) <==> HoldsField(o, r, Value)
    ensures Has(o, "prompt", r.prompt) <==> HoldsField(o, r, Prompt)
  {
  }

  lemma {:induction false} HeldIsOnTheWire(o: Object, r: Request)
    ensures Holds(o, r) <==> OnTheWire(o, r)
  {
    CommonIsHeld(o, r);
    TypeIsHeld(o, r);
    OptionalIsHeld(o, r);
    if OnTheWire(o, r) {
      forall f ensures HoldsField(o, r, f) {
        match f {
          case Id =>
          case Type =>
          case CreatedUtc =>
          case SourceClientId =>
          case ScriptName =>
          case DeviceId =>
          case Payload =>
          case Command =>
          case Key =>
          case Value =>
          case Prompt =>
        }
      }
    }
  }

  /** A request has what its kind needs, in so many words. */
  predicate HasWhatItNeeds(r: Request) {
    && r.id != "" && r.createdUtc != "" && MqttTopics.IsValidClientId(r.sourceClientId)
    && match r.kind
       case ExecuteScript => r.scriptName.Some?
       case SendToDevice => r.deviceId.Some? && r.payload.Some?
       case CmdToDevice => r.deviceId.Some? && r.command.Some?
       case StoreDatabaseValue => r.key.Some? && r.value.Some?
       case QueryAiPrompt => r.prompt.Some?
  }

  lemma {:induction false} CompleteMeans(r: Request)
    ensures Complete(r) <==> HasWhatItNeeds(r)
  {
    MissingMeansIncomplete(r);
  }

  /**
   The parser reads exactly what is on the wire: a request comes out if and only if the object has it under the
   literal names and it has what its kind needs; the ids come out of any object that is a request's.
   */
  lemma {:induction false} ReadsTheWire(o: Object, r: Request)
    ensures Parse(Some(o)).request == Some(r) <==> OnTheWire(o, r) && HasWhatItNeeds(r)
    ensures OnTheWire(o, r) ==> Parse(Some(o)).requestId == r.id && Parse(Some(o)).sourceClientId == r.sourceClientId
  {
    ExtractsWhatIsHeld(o, r);
    HeldIsOnTheWire(o, r);
    CompleteMeans(r);
    if OnTheWire(o, r) {
      HeldIsParsed(o, r);
    }
  }

  // ---------------------------------------------------------------- refusing

  /** Which of the members is missed first, for a request that lacks something. */
  lemma {:induction false} MissesInOrder(r: Request)
    ensures r.id == "" ==> MissingRequiredField(r) == Some(Missing(Id))
    ensures r.id != "" && r.createdUtc == "" ==> MissingRequiredField(r) == Some(Missing(CreatedUtc))
    ensures r.id != "" && r.createdUtc != "" && r.sourceClientId == "" ==>
              MissingRequiredField(r) == Some(Missing(SourceClientId))
    ensures r.id != "" && r.createdUtc != "" && r.sourceClientId != "" && !MqttTopics.IsValidClientId(r.sourceClientId)
            ==> MissingRequiredField(r) == Some(BadClientId)
    ensures r.id != "" && r.createdUtc != "" && MqttTopics.IsValidClientId(r.sourceClientId) ==>
              match r.kind
              case ExecuteScript => r.scriptName.None? ==> MissingRequiredField(r) == Some(Missing(ScriptName))
              case SendToDevice =>
                && (r.deviceId.None? ==> MissingRequiredField(r) == Some(Missing(DeviceId)))
                && (r.deviceId.Some? && r.payload.None? ==> MissingRequiredField(r) == Some(Missing(Payload)))
              case CmdToDevice =>
                && (r.deviceId.None? ==> MissingRequiredField(r) == Some(Missing(DeviceId)))
                && (r.deviceId.Some? && r.command.None? ==> MissingRequiredField(r) == Some(Missing(Command)))
              case StoreDatabaseValue =>
                && (r.key.None? ==> MissingRequiredField(r) == Some(Missing(Key)))
                && (r.key.Some? && r.value.None? ==> MissingRequiredField(r) == Some(Missing(Value)))
              case QueryAiPrompt => r.prompt.None? ==> MissingRequiredField(r) == Some(Missing(Prompt))
  {
  }

  /** A member that is no string is reported before anything else, then a missing type, then an unknown one. */
  lemma {:induction false} RefusesInOrder(o: Object, text: string)
    ensures forall f :: NonString(o, f) && (forall g :: Index(g) < Index(f) ==> !NonString(o, g)) ==>
              Parse(Some(o)).error == Some(NotAString(f))
    ensures (forall f :: !NonString(o, f)) && "type" !in o ==> Parse(Some(o)).error == Some(Missing(Type))
    ensures (forall f :: !NonString(o, f)) && Has(o, "type", Some(text)) && (forall kind :: !HasType(o, kind)) ==>
              Parse(Some(o)).error == Some(UnknownType(text))
    ensures Parse(None).error == Some(NotAnObject)
  {
    forall f | NonString(o, f) && (forall g :: Index(g) < Index(f) ==> !NonString(o, g))
      ensures Parse(Some(o)).error == Some(NotAString(f))
    {
      FirstIs(o, f);
    }
    if Has(o, "type", Some(text)) && MessageTypeFromString(text).Some? {
      var kind := MessageTypeFromString(text).value;
      TypeNameRoundTrip(text, kind);
      assert HasType(o, kind);
    }
  }

  lemma {:induction false} FirstIs(o: Object, f: Field)
    requires NonString(o, f) && forall g :: Index(g) < Index(f) ==> !NonString(o, g)
    ensures FirstNonString(o, 0) == Some(f)
  {
    var found := FirstNonString(o, 0).value;
    assert Index(found) == Index(f);
  }

  // ---------------------------------------------------------------- printing

  /** A member as it is printed. */
  function MemberText(name: string, value: string): string {
    "\"" + name + "\":\"" + Escape(value) + "\""
  }

  /** An optional member after others: nothing at all without a value. */
  function More(name: string, value: Option<string>): string {
    match value case Some(v) => "," + MemberText(name, v) case None => ""
  }

  function TypeText(kind: MessageType): string {
    match kind
    case ExecuteScript => "execute_script"
    case SendToDevice => "send_to_device"
    case CmdToDevice => "cmd_to_device"
    case StoreDatabaseValue => "store_database_value"
    case QueryAiPrompt => "query_AI_prompt"
  }

  lemma {:induction false} OpenSnoc(ms: seq<Member>, m: Member)
    requires ms != []
    ensures Open(ms + [m]) == Open(ms) + ("," + PrintMember(m))
  {
    assert (ms + [m])[..|ms|] == ms;
    Associates(Open(ms), ",", PrintMember(m));
  }

  /** The stream after each number of entries, without its closing brace. */
  ghost predicate IsStream(stream: int -> string, es: seq<Entry>) {
    forall k :: 0 <= k <= |es| ==> stream(k) == Open(Present(es, k))
  }

  /** A text that grows by what is printed for the k-th entry. */
  predicate Adds(stream: int -> string, es: seq<Entry>, k: int) {
    0 <= k < |es| ==> stream(k + 1) == stream(k) + More(es[k].name, es[k].value)
  }

  lemma {:induction false} OpenMore(es: seq<Entry>, n: nat)
    requires 0 < n < |es| && Present(es, n) != []
    ensures Present(es, n + 1) != []
    ensures Open(Present(es, n + 1)) == Open(Present(es, n)) + More(es[n].name, es[n].value)
  {
    PresentNext(es, n);
    match es[n].value {
      case None => assert Open(Present(es, n)) + "" == Open(Present(es, n));
      case Some(v) => OpenSnoc(Present(es, n), Member(es[n].name, v));
    }
  }

  /** The text of the entries from the i-th on, up to the n-th, after others. */
  function MoreText(es: seq<Entry>, i: nat, n: nat): string
    requires i <= n <= |es|
  {
    if n == i then "" else MoreText(es, i, n - 1) + More(es[n - 1].name, es[n - 1].value)
  }

  lemma {:induction false} OpenFirst(es: seq<Entry>, first: string)
    requires |es| > 0 && es[0].value == Some(first)
    ensures Present(es, 1) != [] && Open(Present(es, 1)) == "{" + MemberText(es[0].name, first)
  {
    var m := Member(es[0].name, first);
    PresentNext(es, 0);
    assert Present(es, 1) == [] + [m] == [m];
    assert [m][..0] == [] && "{" + "" == "{";
  }

  lemma {:induction false} Telescopes(es: seq<Entry>, i: nat, n: nat, stream: int -> string)
    requires i <= n <= |es| && forall k :: i <= k < n ==> Adds(stream, es, k)
    ensures stream(n) == stream(i) + MoreText(es, i, n)
  {
    if n > i {
      Telescopes(es, i, n - 1, stream);
      assert Adds(stream, es, n - 1);
      Associates(stream(i), MoreText(es, i, n - 1), More(es[n - 1].name, es[n - 1].value));
    }
  }

  lemma {:induction false} NeverEmpty(es: seq<Entry>, n: nat)
    requires 1 <= n <= |es| && es[0].value.Some?
    ensures Present(es, n) != []
  {
    if n > 1 {
      NeverEmpty(es, n - 1);
    }
    PresentNext(es, n - 1);
  }

  lemma {:induction false} AllAdd(es: seq<Entry>, stream: int -> string, k: nat)
    requires 1 <= k < |es| && es[0].value.Some? && IsStream(stream, es)
    ensures Adds(stream, es, k)
  {
    NeverEmpty(es, k);
    OpenMore(es, k);
  }

  /** The envelope's entries in the order they are printed, under their literal names. */
  lemma {:induction false} EntriesAreLiteral(r: Request)
    ensures Entries(r)[0] == Entry("id", Some(r.id)) && Entries(r)[1] == Entry("type", Some(TypeText(r.kind)))
    ensures Entries(r)[2] == Entry("created_utc", Some(r.createdUtc))
    ensures Entries(r)[3] == Entry("source_client_id", Some(r.sourceClientId))
    ensures Entries(r)[4] == Entry("script_name", r.scriptName) && Entries(r)[5] == Entry("device_id", r.deviceId)
    ensures Entries(r)[6] == Entry("payload", r.payload) && Entries(r)[7] == Entry("command", r.command)
    ensures Entries(r)[8] == Entry("key", r.key) && Entries(r)[9] == Entry("value", r.value)
    ensures Entries(r)[10] == Entry("prompt", r.prompt)
  {
  }

  /** What follows the four common members. */
  function OptionalText(r: Request): string {
    More("script_name", r.scriptName) + More("device_id", r.deviceId) + More("payload", r.payload)
    + More("command", r.command) + More("key", r.key) + More("value", r.value) + More("prompt", r.prompt)
  }

  lemma {:induction false} OptionalIsPrinted(r: Request)
    ensures MoreText(Entries(r), 4, 11) == OptionalText(r)
  {
    var es := Entries(r);
    EntriesAreLiteral(r);
    assert MoreText(es, 4, 5) == More("script_name", r.scriptName);
    assert MoreText(es, 4, 6) == MoreText(es, 4, 5) + More("device_id", r.deviceId);
    assert MoreText(es, 4, 7) == MoreText(es, 4, 6) + More("payload", r.payload);
    assert MoreText(es, 4, 8) == MoreText(es, 4, 7) + More("command", r.command);
    assert MoreText(es, 4, 9) == MoreText(es, 4, 8) + More("key", r.key);
    assert MoreText(es, 4, 10) == MoreText(es, 4, 9) + More("value", r.value);
    assert MoreText(es, 4, 11) == MoreText(es, 4, 10) + More("prompt", r.prompt);
  }

  /** The four common members, which every envelope begins with. */
  function CommonText(r: Request): string {
    MemberText("id", r.id)
    + ("," + MemberText("type", TypeText(r.kind)))
    + ("," + MemberText("created_utc", r.createdUtc))
    + ("," + MemberText("source_client_id", r.sourceClientId))
  }

  lemma {:induction false} CommonIsPrinted(r: Request, es: seq<Entry>, stream: int -> string)
    requires es == Entries(r) && stream(1) == "{" + MemberText("id", r.id)
    requires Adds(stream, es, 1) && Adds(stream, es, 2) && Adds(stream, es, 3)
    ensures stream(4) == "{" + CommonText(r)
  {
    EntriesAreLiteral(r);
    Four("{", MemberText("id", r.id), "," + MemberText("type", TypeText(r.kind)),
         "," + MemberText("created_utc", r.createdUtc), "," + MemberText("source_client_id", r.sourceClientId));
  }

  lemma {:induction false} Four(o: string, a: string, b: string, c: string, d: string)
    ensures (((o + a) + b) + c) + d == o + (((a + b) + c) + d)
  {
  }

  /** The printed request, letter by letter: the common members, then those that are there, in the source's order. */
  lemma {:induction false} PrintsTheWire(r: Request)
    ensures Serialize(r) == "{" + CommonText(r) + OptionalText(r) + "}"
  {
    var es := Entries(r);
    var stream := (k: int) => if 0 <= k <= |es| then Open(Present(es, k)) else "";
    EntriesAreLiteral(r);
    OpenFirst(es, r.id);
    forall k | 1 <= k < 11 ensures Adds(stream, es, k) {
      AllAdd(es, stream, k);
    }
    StreamText(r, es, stream);
    OpenCloses(Present(es, 11));
  }

  lemma {:induction false} StreamText(r: Request, es: seq<Entry>, stream: int -> string)
    requires es == Entries(r) && stream(1) == "{" + MemberText("id", r.id)
    requires forall k :: 1 <= k < 11 ==> Adds(stream, es, k)
    ensures stream(11) == "{" + CommonText(r) + OptionalText(r)
  {
    assert Adds(stream, es, 1) && Adds(stream, es, 2) && Adds(stream, es, 3);
    CommonIsPrinted(r, es, stream);
    Telescopes(es, 4, 11, stream);
    OptionalIsPrinted(r);
  }
}
