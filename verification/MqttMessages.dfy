/** The request envelope: printing it, and extracting it again from a JSON object. */
module MqttMessages {
  import opened Common
  import opened JsonText
  import opened JsonObjects
  import Utf8
  import MqttTopics

  datatype MessageType = ExecuteScript | SendToDevice | CmdToDevice | StoreDatabaseValue | QueryAiPrompt

  datatype Request = Request(
    id: string,
    kind: MessageType,
    createdUtc: string,
    sourceClientId: string,
    scriptName: Option<string>,
    deviceId: Option<string>,
    payload: Option<string>,
    command: Option<string>,
    key: Option<string>,
    value: Option<string>,
    prompt: Option<string>)

  // ---------------------------------------------------------------- names

  function ToString(t: MessageType): string {
    match t
    case ExecuteScript => "execute_script"
    case SendToDevice => "send_to_device"
    case CmdToDevice => "cmd_to_device"
    case StoreDatabaseValue => "store_database_value"
    case QueryAiPrompt => "query_AI_prompt"
  }

  function MessageTypeFromString(v: string): Option<MessageType> {
    if v == "execute_script" then Some(ExecuteScript)
    else if v == "send_to_device" then Some(SendToDevice)
    else if v == "cmd_to_device" then Some(CmdToDevice)
    else if v == "store_database_value" then Some(StoreDatabaseValue)
    else if v == "query_AI_prompt" then Some(QueryAiPrompt)
    else None
  }

  lemma {:induction false} TypeNamesDiffer(t: MessageType, u: MessageType)
    requires |ToString(t)| == |ToString(u)| && ToString(t)[0] == ToString(u)[0]
    ensures t == u
  {
  }

  /** Reading a type name inverts printing it, and accepts nothing else. */
  lemma {:induction false} TypeNameRoundTrip(v: string, t: MessageType)
    ensures MessageTypeFromString(v) == Some(t) <==> v == ToString(t)
  {
    if v == ToString(t) && MessageTypeFromString(v).Some? {
      TypeNamesDiffer(t, MessageTypeFromString(v).value);
    }
  }

  /** The members of the envelope. */
  datatype Field =
    | Id | Type | CreatedUtc | SourceClientId
    | ScriptName | DeviceId | Payload | Command | Key | Value | Prompt

  function KeyText(f: Field): (s: string)
    ensures s != ""
  {
    match f
    case Id => "id"
    case Type => "type"
    case CreatedUtc => "created_utc"
    case SourceClientId => "source_client_id"
    case ScriptName => "script_name"
    case DeviceId => "device_id"
    case Payload => "payload"
    case Command => "command"
    case Key => "key"
    case Value => "value"
    case Prompt => "prompt"
  }

  const FIELD_COUNT: nat := 11

  /** A field's place in the printed envelope, and in the order of the checks. */
  function Index(f: Field): (i: nat)
    ensures i < FIELD_COUNT
  {
    match f
    case Id => 0
    case Type => 1
    case CreatedUtc => 2
    case SourceClientId => 3
    case ScriptName => 4
    case DeviceId => 5
    case Payload => 6
    case Command => 7
    case Key => 8
    case Value => 9
    case Prompt => 10
  }

  function FieldAt(i: nat): (f: Field)
    requires i < FIELD_COUNT
    ensures Index(f) == i
  {
    if i == 0 then Id
    else if i == 1 then Type
    else if i == 2 then CreatedUtc
    else if i == 3 then SourceClientId
    else if i == 4 then ScriptName
    else if i == 5 then DeviceId
    else if i == 6 then Payload
    else if i == 7 then Command
    else if i == 8 then Key
    else if i == 9 then Value
    else Prompt
  }

  lemma {:induction false} KeysDiffer(f: Field, g: Field)
    requires |KeyText(f)| == |KeyText(g)| && KeyText(f)[0] == KeyText(g)[0]
    ensures f == g
  {
  }

  predicate IsNameChar(c: char) {
    'a' <= c <= 'z' || 'A' <= c <= 'Z' || c == '_'
  }

  lemma {:induction false} NamesArePlain(s: string)
    requires forall i :: 0 <= i < |s| ==> IsNameChar(s[i])
    ensures PlainName(s)
  {
    if s != "" {
      NamesArePlain(s[1..]);
      assert s == [s[0]] + s[1..];
      NoRawControlCons(s);
      Utf8.AsciiFirst(s);
    }
  }

  lemma {:induction false} KeyIsName(f: Field, i: nat)
    requires i < |KeyText(f)|
    ensures IsNameChar(KeyText(f)[i])
  {
    match f {
      case Id =>
      case Type =>
      case CreatedUtc =>
      case SourceClientId =>
      case ScriptName =>
      case DeviceId =>
      case Payload =>
      case Command =>
      case Key =>
      case Value =>
      case Prompt =>
    }
  }

  lemma {:induction false} KeyIsPlain(f: Field)
    ensures PlainName(KeyText(f))
  {
    var text := KeyText(f);
    forall i | 0 <= i < |text| ensures IsNameChar(text[i]) {
      KeyIsName(f, i);
    }
    NamesArePlain(text);
  }

  // ---------------------------------------------------------------- printing a request

  function ValueOf(r: Request, f: Field): Option<string> {
    match f
    case Id => Some(r.id)
    case Type => Some(ToString(r.kind))
    case CreatedUtc => Some(r.createdUtc)
    case SourceClientId => Some(r.sourceClientId)
    case ScriptName => r.scriptName
    case DeviceId => r.deviceId
    case Payload => r.payload
    case Command => r.command
    case Key => r.key
    case Value => r.value
    case Prompt => r.prompt
  }

  function EntryOf(r: Request, f: Field): Entry {
    Entry(KeyText(f), ValueOf(r, f))
  }

  /** The envelope's entries in the order they are printed. */
  function Entries(r: Request): (es: seq<Entry>)
    ensures |es| == FIELD_COUNT && forall i :: 0 <= i < FIELD_COUNT ==> es[i] == EntryOf(r, FieldAt(i))
  {
    seq(FIELD_COUNT, i requires 0 <= i < FIELD_COUNT => EntryOf(r, FieldAt(i)))
  }

  function Serialize(r: Request): string {
    PrintObject(Present(Entries(r), FIELD_COUNT))
  }

  method SerializeRequest(r: Request) returns (text: string)
    ensures text == Serialize(r)
  {
    text := PrintEntries(Entries(r));
  }

  // ---------------------------------------------------------------- what a request needs

  datatype Problem =
    | NotAnObject
    | NotAString(field: Field)
    | Missing(field: Field)
    | UnknownType(text: string)
    | BadClientId

  /** What each kind of request needs beyond the four members every request has. */
  predicate Needs(t: MessageType, f: Field) {
    match f
    case ScriptName => t == ExecuteScript
    case DeviceId => t == SendToDevice || t == CmdToDevice
    case Payload => t == SendToDevice
    case Command => t == CmdToDevice
    case Key => t == StoreDatabaseValue
    case Value => t == StoreDatabaseValue
    case Prompt => t == QueryAiPrompt
    case _ => false
  }

  ghost predicate Complete(r: Request) {
    && r.id != "" && r.createdUtc != "" && MqttTopics.IsValidClientId(r.sourceClientId)
    && forall f :: Needs(r.kind, f) ==> ValueOf(r, f).Some?
  }

  function MissingRequiredField(r: Request): (problem: Option<Problem>)
  {
    if r.id == "" then Some(Missing(Id))
    else if r.createdUtc == "" then Some(Missing(CreatedUtc))
    else if r.sourceClientId == "" then Some(Missing(SourceClientId))
    else if !MqttTopics.IsValidClientId(r.sourceClientId) then Some(BadClientId)
    else
      match r.kind
      case ExecuteScript => if r.scriptName.None? then Some(Missing(ScriptName)) else None
      case SendToDevice =>
        if r.deviceId.None? then Some(Missing(DeviceId)) else if r.payload.None? then Some(Missing(Payload)) else None
      case CmdToDevice =>
        if r.deviceId.None? then Some(Missing(DeviceId)) else if r.command.None? then Some(Missing(Command)) else None
      case StoreDatabaseValue =>
        if r.key.None? then Some(Missing(Key)) else if r.value.None? then Some(Missing(Value)) else None
      case QueryAiPrompt => if r.prompt.None? then Some(Missing(Prompt)) else None
  }

  predicate Absent(v: Option<string>) {
    v == None || v == Some("")
  }

  /** A request is refused exactly when it is not complete, and for a field that it truly lacks. */
  lemma {:induction false} MissingMeansIncomplete(r: Request)
    ensures MissingRequiredField(r).None? <==> Complete(r)
    ensures MissingRequiredField(r).Some? && MissingRequiredField(r).value.Missing? ==>
              Absent(ValueOf(r, MissingRequiredField(r).value.field))
  {
    assert Needs(ExecuteScript, ScriptName) && Needs(QueryAiPrompt, Prompt);
    assert Needs(SendToDevice, DeviceId) && Needs(SendToDevice, Payload);
    assert Needs(CmdToDevice, DeviceId) && Needs(CmdToDevice, Command);
    assert Needs(StoreDatabaseValue, Key) && Needs(StoreDatabaseValue, Value);
  }

  // ---------------------------------------------------------------- extracting a request

  datatype ParseResult = ParseResult(
    request: Option<Request>,
    requestId: string,
    sourceClientId: string,
    error: Option<Problem>)

  function StringValue(o: Object, f: Field): Option<string> {
    if KeyText(f) in o && o[KeyText(f)].Str? then Some(o[KeyText(f)].text) else None
  }

  function OrEmpty(v: Option<string>): string {
    match v case Some(s) => s case None => ""
  }

  predicate NonString(o: Object, f: Field) {
    KeyText(f) in o && o[KeyText(f)].Other?
  }

  /** The first field from the i-th on that is there without being a string. */
  function FirstNonString(o: Object, i: nat): (r: Option<Field>)
    requires i <= FIELD_COUNT
    ensures r.None? <==> forall f :: i <= Index(f) ==> !NonString(o, f)
    ensures r.Some? ==> NonString(o, r.value) && forall f :: i <= Index(f) < Index(r.value) ==> !NonString(o, f)
    decreases FIELD_COUNT - i
  {
    if i == FIELD_COUNT then None else if NonString(o, FieldAt(i)) then Some(FieldAt(i)) else FirstNonString(o, i + 1)
  }

  function Extract(o: Object, t: MessageType): Request {
    Request(
      OrEmpty(StringValue(o, Id)), t, OrEmpty(StringValue(o, CreatedUtc)), OrEmpty(StringValue(o, SourceClientId)),
      StringValue(o, ScriptName), StringValue(o, DeviceId), StringValue(o, Payload), StringValue(o, Command),
      StringValue(o, Key), StringValue(o, Value), StringValue(o, Prompt))
  }

  /** The request of an object, or the first problem with it. */
  function RequestOf(o: Object): Result<Request, Problem> {
    match FirstNonString(o, 0)
    case Some(f) => Err(NotAString(f))
    case None =>
      match StringValue(o, Type)
      case None => Err(Missing(Type))
      case Some(text) =>
        match MessageTypeFromString(text)
        case None => Err(UnknownType(text))
        case Some(t) =>
          match MissingRequiredField(Extract(o, t))
          case Some(problem) => Err(problem)
          case None => Ok(Extract(o, t))
  }

  /** `ParseRequest` after the JSON parser; None is a text that is no JSON object. */
  function Parse(json: Option<Object>): ParseResult {
    match json
    case None => ParseResult(None, "", "", Some(NotAnObject))
    case Some(o) =>
      var id, source := OrEmpty(StringValue(o, Id)), OrEmpty(StringValue(o, SourceClientId));
      match RequestOf(o)
      case Ok(r) => ParseResult(Some(r), id, source, None)
      case Err(problem) => ParseResult(None, id, source, Some(problem))
  }

  method NonStringEnvelopeField(o: Object) returns (found: Option<Field>)
    ensures found == FirstNonString(o, 0)
  {
    for i := 0 to FIELD_COUNT
      invariant FirstNonString(o, 0) == FirstNonString(o, i)
    {
      if NonString(o, FieldAt(i)) {
        return Some(FieldAt(i));
      }
    }
    return None;
  }

  method ParseRequest(json: Option<Object>) returns (result: ParseResult)
    ensures result == Parse(json)
  {
    result := ParseResult(None, "", "", None);
    if json.None? {
      return result.(error := Some(NotAnObject));
    }
    var o := json.value;
    result := result.(requestId := OrEmpty(StringValue(o, Id)));
    result := result.(sourceClientId := OrEmpty(StringValue(o, SourceClientId)));
    var nonString := NonStringEnvelopeField(o);
    if nonString.Some? {
      return result.(error := Some(NotAString(nonString.value)));
    }
    var text := StringValue(o, Type);
    if text.None? {
      return result.(error := Some(Missing(Type)));
    }
    var kind := MessageTypeFromString(text.value);
    if kind.None? {
      return result.(error := Some(UnknownType(text.value)));
    }
    var request := Extract(o, kind.value);
    var missing := MissingRequiredField(request);
    if missing.Some? {
      return result.(error := missing);
    }
    result := result.(request := Some(request));
  }

  // ---------------------------------------------------------------- what is extracted

  /** An object holds a request: field by field, the member is there exactly when the request has a value for it. */
  ghost predicate Holds(o: Object, r: Request) {
    forall f :: HoldsField(o, r, f)
  }

  predicate HoldsField(o: Object, r: Request, f: Field) {
    HoldsEntry(o, EntryOf(r, f))
  }

  lemma {:induction false} HeldIsString(o: Object, r: Request, f: Field)
    requires HoldsField(o, r, f)
    ensures StringValue(o, f) == ValueOf(r, f) && !NonString(o, f)
  {
  }

  /** From an object that holds a request, that request is extracted, unless something it needs is missing. */
  lemma {:induction false} HeldIsExtracted(o: Object, r: Request)
    requires Holds(o, r)
    ensures RequestOf(o) == match MissingRequiredField(r) case None => Ok(r) case Some(problem) => Err(problem)
  {
    forall f ensures StringValue(o, f) == ValueOf(r, f) && !NonString(o, f) {
      assert HoldsField(o, r, f);
      HeldIsString(o, r, f);
    }
    assert FirstNonString(o, 0) == None;
    assert StringValue(o, Type) == Some(ToString(r.kind));
    TypeNameRoundTrip(ToString(r.kind), r.kind);
    ExtractIsValues(o, r);
  }

  lemma {:induction false} ExtractIsValues(o: Object, r: Request)
    requires forall f :: StringValue(o, f) == ValueOf(r, f)
    ensures Extract(o, r.kind) == r
  {
    assert StringValue(o, Id) == ValueOf(r, Id) && StringValue(o, CreatedUtc) == ValueOf(r, CreatedUtc);
    assert StringValue(o, SourceClientId) == ValueOf(r, SourceClientId);
    assert StringValue(o, ScriptName) == ValueOf(r, ScriptName);
    assert StringValue(o, DeviceId) == ValueOf(r, DeviceId) && StringValue(o, Payload) == ValueOf(r, Payload);
    assert StringValue(o, Command) == ValueOf(r, Command) && StringValue(o, Key) == ValueOf(r, Key);
    assert StringValue(o, Value) == ValueOf(r, Value) && StringValue(o, Prompt) == ValueOf(r, Prompt);
  }

  /**
   Extraction succeeds exactly on the objects that hold a complete request, and gives that request. An
   object's other members are free.
   */
  lemma {:induction false} ExtractsWhatIsHeld(o: Object, r: Request)
    ensures Parse(Some(o)).request == Some(r) <==> Holds(o, r) && Complete(r)
  {
    if Holds(o, r) {
      HeldIsExtracted(o, r);
    }
    MissingMeansIncomplete(r);
    if RequestOf(o) == Ok(r) {
      forall f ensures HoldsField(o, r, f) {
        ExtractedIsHeld(o, r, f);
      }
    }
  }

  lemma {:induction false} ExtractedIsHeld(o: Object, r: Request, f: Field)
    requires RequestOf(o) == Ok(r)
    ensures HoldsField(o, r, f)
  {
    assert !NonString(o, f);
    var text := StringValue(o, Type).value;
    TypeNameRoundTrip(text, r.kind);
    assert r == Extract(o, r.kind) && MissingRequiredField(r) == None;
    assert StringValue(o, f) == ValueOf(r, f);
  }

  /**
   Whatever the outcome, the id and the client id that answers go to are the object's own string members, else
   empty.
   */
  lemma {:induction false} RecoversTheRoute(json: Option<Object>)
    ensures var p := Parse(json);
      && (p.request.Some? <==> p.error.None?)
      && (p.request.Some? ==> p.requestId == p.request.value.id && p.sourceClientId == p.request.value.sourceClientId)
      && (json.Some? ==> p.requestId == OrEmpty(StringValue(json.value, Id)))
      && (json.Some? ==> p.sourceClientId == OrEmpty(StringValue(json.value, SourceClientId)))
      && (json.None? ==> p.requestId == "" && p.sourceClientId == "")
  {
  }

  // ---------------------------------------------------------------- reading back a printed request

  lemma {:induction false} EntryAt(r: Request, f: Field)
    ensures Entries(r)[Index(f)] == EntryOf(r, f)
  {
    assert FieldAt(Index(f)) == f;
  }

  lemma {:induction false} EntriesDiffer(r: Request)
    ensures DistinctNames(Entries(r))
  {
    forall i, j | 0 <= i < FIELD_COUNT && 0 <= j < FIELD_COUNT && Entries(r)[i].name == Entries(r)[j].name
      ensures i == j
    {
      KeysDiffer(FieldAt(i), FieldAt(j));
    }
  }

  lemma {:induction false} PrintedHolds(r: Request)
    ensures Holds(ObjectOf(Present(Entries(r), FIELD_COUNT)), r)
  {
    EntriesDiffer(r);
    forall f ensures HoldsField(ObjectOf(Present(Entries(r), FIELD_COUNT)), r, f) {
      EntryAt(r, f);
      HoldsAll(Entries(r), Index(f));
    }
  }

  /** Every string of the request is UTF-8 without control bytes other than newline, carriage return and tab. */
  ghost predicate AllReadable(r: Request) {
    forall f :: EntryReadable(EntryOf(r, f))
  }

  lemma {:induction false} ReadableEntries(r: Request)
    ensures EntriesReadable(Entries(r), FIELD_COUNT) <==> AllReadable(r)
  {
    if EntriesReadable(Entries(r), FIELD_COUNT) {
      forall f ensures EntryReadable(EntryOf(r, f)) {
        EntryAt(r, f);
        assert EntryReadable(Entries(r)[Index(f)]);
      }
    }
  }

  lemma {:induction false} PrintedIsRead(r: Request, strict: bool)
    ensures ReadObject(Serialize(r), strict)
         == if strict && !AllReadable(r) then None else Some(Present(Entries(r), FIELD_COUNT))
  {
    forall i | 0 <= i < FIELD_COUNT ensures PlainName(Entries(r)[i].name) {
      KeyIsPlain(FieldAt(i));
    }
    ReadableEntries(r);
    PresentIsRead(Entries(r), strict);
  }

  /**
   What becomes of a printed request: the reader refuses it exactly when some string of it is unreadable;
   otherwise the very same request comes back exactly when nothing is missing, and else the problem is the
   one `MissingRequiredField` names, with the id and client id recovered.
   */
  lemma {:induction false} RoundTrip(r: Request)
    ensures Parse(ReadText(Serialize(r))) ==
            if !AllReadable(r) then ParseResult(None, "", "", Some(NotAnObject))
            else ParseResult(
                   if Complete(r) then Some(r) else None, r.id, r.sourceClientId, MissingRequiredField(r))
  {
    PrintedIsRead(r, true);
    if AllReadable(r) {
      PrintedHolds(r);
      HeldIsParsed(ObjectOf(Present(Entries(r), FIELD_COUNT)), r);
    }
  }

  lemma {:induction false} HeldIsParsed(o: Object, r: Request)
    requires Holds(o, r)
    ensures Parse(Some(o))
         == ParseResult(if Complete(r) then Some(r) else None, r.id, r.sourceClientId, MissingRequiredField(r))
  {
    HeldIsExtracted(o, r);
    MissingMeansIncomplete(r);
    assert HoldsField(o, r, Id) && HoldsField(o, r, SourceClientId);
  }

  lemma {:induction false} HeldIsUnique(o: Object, r: Request, r': Request)
    requires Holds(o, r) && Holds(o, r')
    ensures r == r'
  {
    forall f ensures ValueOf(r, f) == ValueOf(r', f) {
      assert HoldsField(o, r, f) && HoldsField(o, r', f);
      HeldIsString(o, r, f);
      HeldIsString(o, r', f);
    }
    SameValues(r, r');
  }

  lemma {:induction false} SameValues(r: Request, r': Request)
    requires forall f :: ValueOf(r, f) == ValueOf(r', f)
    ensures r == r'
  {
    assert ValueOf(r, Id) == ValueOf(r', Id) && ValueOf(r, CreatedUtc) == ValueOf(r', CreatedUtc);
    assert ValueOf(r, SourceClientId) == ValueOf(r', SourceClientId);
    assert ValueOf(r, ScriptName) == ValueOf(r', ScriptName);
    assert ValueOf(r, DeviceId) == ValueOf(r', DeviceId) && ValueOf(r, Payload) == ValueOf(r', Payload);
    assert ValueOf(r, Command) == ValueOf(r', Command) && ValueOf(r, Key) == ValueOf(r', Key);
    assert ValueOf(r, Value) == ValueOf(r', Value) && ValueOf(r, Prompt) == ValueOf(r', Prompt);
    assert ValueOf(r, Type) == ValueOf(r', Type);
    TypeNamesDiffer(r.kind, r'.kind);
  }

  /** No two requests, readable or not, complete or not, print alike. */
  lemma {:induction false} SerializeIsInjective(r: Request, r': Request)
    requires Serialize(r) == Serialize(r')
    ensures r == r'
  {
    PrintedIsRead(r, false);
    PrintedIsRead(r', false);
    PrintedHolds(r);
    PrintedHolds(r');
    HeldIsUnique(ObjectOf(Present(Entries(r), FIELD_COUNT)), r, r');
  }

  // ---------------------------------------------------------------- requests that do not come back

  /** A complete request to store a value, from client "c". */
  function StoreRequest(id: string): Request {
    Request(id, StoreDatabaseValue, "now", "c", None, None, None, None, Some("k"), Some("v"), None)
  }

  lemma {:induction false} StoreRequestIsComplete(id: string)
    requires id != ""
    ensures Complete(StoreRequest(id))
  {
  }

  /**
   The printer leaves a raw control byte as it is, so this complete request is printed and then refused as no
   JSON object.
   */
  lemma {:induction false} ControlByteIsNotReadBack()
    ensures var r := StoreRequest([1 as char]);
            Complete(r) && Parse(ReadText(Serialize(r))) == ParseResult(None, "", "", Some(NotAnObject))
  {
    var r := StoreRequest([1 as char]);
    StoreRequestIsComplete([1 as char]);
    assert !EntryReadable(EntryOf(r, Id)) by {
      assert IsControl(r.id[0]);
    }
    RoundTrip(r);
  }
}
