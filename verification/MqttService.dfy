/**
 The connection lifecycle and re-subscription. Every critical section of `mutex_` is one step. Connect and
 Disconnect hold `operationMutex_` from their first step to their last, so one program counter describes
 whichever of them is running; subscriptions still to be sent, and callbacks under way, are activities of
 their own. A client may call back at any time, even after it was released.
 */
module MqttService {
  import opened Common
  import MqttTopics

  type ClientId = nat
  type ActivityId = nat
  type Topic = string

  datatype Lifecycle = Offline | Connecting | Connected | Reconnecting | Disconnecting | Error

  /** What the holder of `operationMutex_` does next. */
  datatype Operation =
    | Free
    | ConnectRelease | ConnectAnnounce | ConnectCreate | ConnectOpen
    | DisconnectAnnounce | DisconnectRelease | DisconnectFinish

  datatype Activity =
    | Sending(to: Option<ClientId>, topics: seq<Topic>)
    | Losing   // connection_lost has seen that nothing is shutting down

  datatype Service = Service(
    status: Lifecycle,
    client: Option<ClientId>,
    shuttingDown: bool,
    topics: set<Topic>,
    operation: Operation,
    activities: map<ActivityId, Activity>,
    sent: set<(ClientId, Topic)>,   // since the last entry into Connected, whether or not it reported an error
    issued: nat)                    // clients created so far

  datatype Step =
    | ConnectRefused                // an argument is out of range
    | ConnectBegin
    | ReleaseForConnect
    | AnnounceConnecting
    | CreateFails
    | CreateClient
    | OpenSucceeds
    | OpenFails
    | DisconnectBegin
    | AnnounceDisconnecting
    | ReleaseForDisconnect
    | GoOffline
    | Subscribe(a: ActivityId, topic: Topic)
    | Unsubscribe(topic: Topic)
    | ConnectedCallback(from: ClientId, a: ActivityId, order: seq<Topic>)
    | LostCallback(from: ClientId, a: ActivityId)
    | LostReported(a: ActivityId)
    | FailedCallback(from: ClientId)
    | Send(a: ActivityId)

  ghost predicate Init(s: Service) {
    && s.status == Offline && s.client == None && !s.shuttingDown && s.topics == {}
    && s.operation == Free && s.activities == map[] && s.sent == {} && s.issued == 0
  }

  ghost predicate Enabled(s: Service, step: Step) {
    match step
    case ConnectRefused => true
    case ConnectBegin => s.operation == Free
    case ReleaseForConnect => s.operation == ConnectRelease
    case AnnounceConnecting => s.operation == ConnectAnnounce
    case CreateFails => s.operation == ConnectCreate
    case CreateClient => s.operation == ConnectCreate
    case OpenSucceeds => s.operation == ConnectOpen
    case OpenFails => s.operation == ConnectOpen
    case DisconnectBegin => s.operation == Free
    case AnnounceDisconnecting => s.operation == DisconnectAnnounce
    case ReleaseForDisconnect => s.operation == DisconnectRelease
    case GoOffline => s.operation == DisconnectFinish
    case Subscribe(a, topic) => topic != "" && a !in s.activities
    case Unsubscribe(topic) => topic != ""
    case ConnectedCallback(from, a, order) =>
      from < s.issued && a !in s.activities && Lists(order, s.topics)
    case LostCallback(from, a) => from < s.issued && a !in s.activities
    case LostReported(a) => a in s.activities && s.activities[a].Losing?
    case FailedCallback(from) => from < s.issued
    case Send(a) => a in s.activities && s.activities[a].Sending? && s.activities[a].topics != []
  }

  /** A list of exactly the topics of a set, each once. */
  ghost predicate Lists(order: seq<Topic>, topics: set<Topic>) {
    Distinct(order) && forall t :: t in order <==> t in topics
  }

  /** `ReportError` of an error that changes the lifecycle. */
  function Failed(s: Service): Service {
    if s.shuttingDown then s else s.(status := Error)
  }

  /** `SetStatus`. */
  function WithStatus(s: Service, next: Lifecycle): Service {
    s.(status := next)
  }

  function DoConnectBegin(s: Service): Service {
    if s.status in {Connecting, Connected, Reconnecting} then s
    else s.(shuttingDown := false, operation := ConnectRelease)
  }

  function DoDisconnectBegin(s: Service): Service {
    s.(shuttingDown := true, operation := if s.client.Some? then DisconnectAnnounce else DisconnectRelease)
  }

  function DoSubscribe(s: Service, a: ActivityId, topic: Topic): Service {
    var t := s.(topics := s.topics + {topic});
    if s.status == Connected then t.(activities := s.activities[a := Sending(s.client, [topic])]) else t
  }

  /** `HandleConnected`, up to the end of its critical section. */
  function DoConnected(s: Service, a: ActivityId, order: seq<Topic>): Service {
    if s.shuttingDown || s.status == Connected then s
    else s.(status := Connected, sent := {}, activities := s.activities[a := Sending(s.client, order)])
  }

  function DoSend(s: Service, a: ActivityId): Service
    requires a in s.activities && s.activities[a].Sending? && s.activities[a].topics != []
  {
    var sending := s.activities[a];
    var t := s.(activities := s.activities[a := sending.(topics := sending.topics[1..])]);
    match sending.to
    case Some(c) => t.(sent := s.sent + {(c, sending.topics[0])})
    case None => t
  }

  ghost function Do(s: Service, step: Step): Service
    requires Enabled(s, step)
  {
    match step
    case ConnectRefused => Failed(s)
    case ConnectBegin => DoConnectBegin(s)
    case ReleaseForConnect => s.(client := None, operation := ConnectAnnounce)
    case AnnounceConnecting => WithStatus(s, Connecting).(operation := ConnectCreate)
    case CreateFails => Failed(s.(operation := Free))
    case CreateClient => s.(client := Some(s.issued), issued := s.issued + 1, operation := ConnectOpen)
    case OpenSucceeds => s.(operation := Free)
    case OpenFails => Failed(s.(operation := Free))
    case DisconnectBegin => DoDisconnectBegin(s)
    case AnnounceDisconnecting => WithStatus(s, Disconnecting).(operation := DisconnectRelease)
    case ReleaseForDisconnect => s.(client := None, operation := DisconnectFinish)
    case GoOffline => WithStatus(s, Offline).(operation := Free)
    case Subscribe(a, topic) => DoSubscribe(s, a, topic)
    case Unsubscribe(topic) => s.(topics := s.topics - {topic})
    case ConnectedCallback(from, a, order) => DoConnected(s, a, order)
    case LostCallback(from, a) => if s.shuttingDown then s else s.(activities := s.activities[a := Losing])
    case LostReported(a) => WithStatus(s, Reconnecting).(activities := s.activities - {a})
    case FailedCallback(from) => Failed(s)
    case Send(a) => DoSend(s, a)
  }

  /** A run and the steps it took. */
  ghost predicate IsRun(run: seq<Service>, steps: seq<Step>) {
    |run| == |steps| + 1 && Init(run[0]) && forall i :: 0 <= i < |steps| ==> Takes(run, steps, i)
  }

  ghost predicate Takes(run: seq<Service>, steps: seq<Step>, i: int)
    requires 0 <= i < |steps| == |run| - 1
  {
    Enabled(run[i], steps[i]) && run[i + 1] == Do(run[i], steps[i])
  }

  // ---------------------------------------------------------------- no subscription is missed

  predicate Owes(activity: Activity, c: ClientId, t: Topic) {
    activity.Sending? && activity.to == Some(c) && t in activity.topics
  }

  ghost predicate Pending(s: Service, c: ClientId, t: Topic) {
    exists a <- s.activities :: Owes(s.activities[a], c, t)
  }

  ghost predicate Covered(s: Service, c: ClientId, t: Topic) {
    (c, t) in s.sent || Pending(s, c, t)
  }

  /**
   In Connected with a client, each registered topic has been sent to it since the last entry, or is still to be
   sent.
   */
  ghost predicate NoneMissed(s: Service) {
    s.status == Connected && s.client.Some? ==> forall t <- s.topics :: Covered(s, s.client.value, t)
  }

  lemma {:induction false} MoreActivities(s: Service, s': Service, a: ActivityId, c: ClientId, t: Topic)
    requires a !in s.activities && a in s'.activities && s'.activities == s.activities[a := s'.activities[a]]
    requires s.sent <= s'.sent && Covered(s, c, t)
    ensures Covered(s', c, t)
  {
    if Pending(s, c, t) {
      var b :| b in s.activities && Owes(s.activities[b], c, t);
      assert s'.activities[b] == s.activities[b];
    }
  }

  lemma {:induction false} SubscribeKeeps(s: Service, a: ActivityId, topic: Topic)
    requires NoneMissed(s) && a !in s.activities
    ensures NoneMissed(DoSubscribe(s, a, topic))
  {
    var s' := DoSubscribe(s, a, topic);
    if s'.status == Connected && s'.client.Some? {
      var c := s'.client.value;
      forall t | t in s'.topics ensures Covered(s', c, t) {
        if t == topic {
          assert Owes(s'.activities[a], c, t);
        } else {
          MoreActivities(s, s', a, c, t);
        }
      }
    }
  }

  lemma {:induction false} ConnectedKeeps(s: Service, a: ActivityId, order: seq<Topic>)
    requires NoneMissed(s) && a !in s.activities && Lists(order, s.topics)
    ensures NoneMissed(DoConnected(s, a, order))
  {
    var s' := DoConnected(s, a, order);
    if s' != s && s'.client.Some? {
      forall t | t in s'.topics ensures Covered(s', s'.client.value, t) {
        assert Owes(s'.activities[a], s'.client.value, t);
      }
    }
  }

  lemma {:induction false} SendCovers(s: Service, a: ActivityId, c: ClientId, t: Topic)
    requires Enabled(s, Send(a)) && Covered(s, c, t)
    ensures Covered(DoSend(s, a), c, t)
  {
    var s' := DoSend(s, a);
    if Pending(s, c, t) {
      var b :| b in s.activities && Owes(s.activities[b], c, t);
      if b == a && t == s.activities[a].topics[0] {
        assert (c, t) in s'.sent;
      } else {
        assert Owes(s'.activities[b], c, t);
      }
    }
  }

  lemma {:induction false} LostKeeps(s: Service, a: ActivityId)
    requires NoneMissed(s) && a !in s.activities
    ensures NoneMissed(s.(activities := s.activities[a := Losing]))
  {
    var s' := s.(activities := s.activities[a := Losing]);
    if s.status == Connected && s.client.Some? {
      forall t | t in s.topics ensures Covered(s', s.client.value, t) {
        MoreActivities(s, s', a, s.client.value, t);
      }
    }
  }

  /** A new client put in place while the status says Connected knows of no topic. */
  predicate Blind(s: Service, step: Step) {
    step.CreateClient? && s.status == Connected && s.topics != {}
  }

  /**
   A change that leaves topics, what was sent and the activities alone, and does not bring Connected and a client
   together.
   */
  lemma {:induction false} UnrelatedKeeps(s: Service, s': Service)
    requires NoneMissed(s) && s'.topics <= s.topics && s'.activities == s.activities && s'.sent == s.sent
    requires s'.status == Connected && s'.client.Some? ==> s.status == Connected && s.client == s'.client
    ensures NoneMissed(s')
  {
    if s'.status == Connected && s'.client.Some? {
      forall t | t in s'.topics ensures Covered(s', s'.client.value, t) {
        assert Covered(s, s.client.value, t);
        if Pending(s, s.client.value, t) {
          var b :| b in s.activities && Owes(s.activities[b], s.client.value, t);
          assert Owes(s'.activities[b], s.client.value, t);
        }
      }
    }
  }

  lemma {:induction false} StepKeeps(s: Service, step: Step)
    requires NoneMissed(s) && Enabled(s, step) && !Blind(s, step)
    ensures NoneMissed(Do(s, step))
  {
    match step {
      case Subscribe(a, topic) => SubscribeKeeps(s, a, topic);
      case ConnectedCallback(from, a, order) => ConnectedKeeps(s, a, order);
      case Send(a) =>
        if s.status == Connected && s.client.Some? {
          forall t | t in s.topics ensures Covered(DoSend(s, a), s.client.value, t) {
            SendCovers(s, a, s.client.value, t);
          }
        }
      case LostCallback(from, a) =>
        if !s.shuttingDown {
          LostKeeps(s, a);
        }
      case CreateClient =>
      case LostReported(a) =>
      case _ => UnrelatedKeeps(s, Do(s, step));
    }
  }

  // ---------------------------------------------------------------- new clients are new

  ghost predicate ActivityKnown(activity: Activity, issued: nat) {
    activity.Sending? && activity.to.Some? ==> activity.to.value < issued
  }

  ghost predicate Known(s: Service) {
    && (s.client.Some? ==> s.client.value < s.issued)
    && (forall c, t :: (c, t) in s.sent ==> c < s.issued)
    && (forall a <- s.activities :: ActivityKnown(s.activities[a], s.issued))
  }

  lemma {:induction false} StepKnown(s: Service, step: Step)
    requires Known(s) && Enabled(s, step)
    ensures Known(Do(s, step))
  {
    var s' := Do(s, step);
    forall a | a in s'.activities ensures ActivityKnown(s'.activities[a], s'.issued) {
      assert a in s.activities ==> ActivityKnown(s.activities[a], s.issued);
    }
  }

  lemma {:induction false} RunKnown(run: seq<Service>, steps: seq<Step>, i: nat)
    requires IsRun(run, steps) && i < |run|
    ensures Known(run[i])
  {
    if i > 0 {
      RunKnown(run, steps, i - 1);
      assert Takes(run, steps, i - 1);
      StepKnown(run[i - 1], steps[i - 1]);
    }
  }

  lemma {:induction false} BlindMisses(s: Service)
    requires Known(s) && Enabled(s, CreateClient) && Blind(s, CreateClient)
    ensures !NoneMissed(Do(s, CreateClient))
  {
    var s' := Do(s, CreateClient);
    var t :| t in s.topics;
    assert !Covered(s', s.issued, t);
  }

  // ---------------------------------------------------------------- theorems

  lemma {:induction false} SightedMissNone(run: seq<Service>, steps: seq<Step>, i: nat)
    requires IsRun(run, steps) && i < |run|
    requires forall k :: 0 <= k < i ==> !Blind(run[k], steps[k])
    ensures NoneMissed(run[i])
  {
    if i > 0 {
      SightedMissNone(run, steps, i - 1);
      assert Takes(run, steps, i - 1);
      StepKeeps(run[i - 1], steps[i - 1]);
    }
  }

  /**
   Whatever the callbacks of any client do, a run misses no subscription in any of its states if and only
   if no client was put in place while the status already said Connected and topics were registered.
   */
  lemma {:induction false} MissesNoneIffNeverBlind(run: seq<Service>, steps: seq<Step>)
    requires IsRun(run, steps)
    ensures (forall i :: 0 <= i < |run| ==> NoneMissed(run[i]))
       <==> (forall k :: 0 <= k < |steps| ==> !Blind(run[k], steps[k]))
  {
    if forall k :: 0 <= k < |steps| ==> !Blind(run[k], steps[k]) {
      forall i | 0 <= i < |run| ensures NoneMissed(run[i]) {
        SightedMissNone(run, steps, i);
      }
    }
    if k :| 0 <= k < |steps| && Blind(run[k], steps[k]) {
      RunKnown(run, steps, k);
      assert Takes(run, steps, k);
      BlindMisses(run[k]);
      assert !NoneMissed(run[k + 1]);
    }
  }

  /** The client that calls back is the one in place: a released client is silent. */
  predicate Timely(s: Service, step: Step) {
    match step
    case ConnectedCallback(from, _, _) => s.client == Some(from)
    case LostCallback(from, _) => s.client == Some(from)
    case FailedCallback(from) => s.client == Some(from)
    case _ => true
  }

  ghost predicate TimelyAt(run: seq<Service>, steps: seq<Step>, k: int)
    requires 0 <= k < |steps| == |run| - 1
  {
    Timely(run[k], steps[k])
  }

  /** Released clients are silent throughout the run. */
  ghost predicate IsSilentRun(run: seq<Service>, steps: seq<Step>) {
    IsRun(run, steps) && forall k :: 0 <= k < |steps| ==> TimelyAt(run, steps, k)
  }

  /** While Connect has no client in place, nothing can enter Connected. */
  ghost predicate Window(s: Service) {
    && (s.operation in {ConnectAnnounce, ConnectCreate, DisconnectFinish} ==> s.client == None)
    && (s.operation == ConnectCreate ==> s.status != Connected)
  }

  lemma {:induction false} StepWindow(s: Service, step: Step)
    requires Window(s) && Enabled(s, step) && Timely(s, step)
    ensures Window(Do(s, step))
  {
  }

  lemma {:induction false} RunWindow(run: seq<Service>, steps: seq<Step>, i: nat)
    requires IsSilentRun(run, steps) && i < |run|
    ensures Window(run[i])
  {
    if i > 0 {
      RunWindow(run, steps, i - 1);
      assert Takes(run, steps, i - 1) && TimelyAt(run, steps, i - 1);
      StepWindow(run[i - 1], steps[i - 1]);
    }
  }

  /** When released clients are silent, no subscription is missed in any state of any run. */
  lemma {:induction false} SilentClientsMissNone(run: seq<Service>, steps: seq<Step>, i: nat)
    requires IsSilentRun(run, steps) && i < |run|
    ensures NoneMissed(run[i])
  {
    forall k | 0 <= k < |steps| ensures !Blind(run[k], steps[k]) {
      RunWindow(run, steps, k);
      assert Takes(run, steps, k);
    }
    MissesNoneIffNeverBlind(run, steps);
  }

  /** Once everything pending is sent, being Connected means that every registered topic went to the client in place. */
  lemma {:induction false} QuietMeansAllSent(run: seq<Service>, steps: seq<Step>, i: nat)
    requires IsSilentRun(run, steps) && i < |run|
    requires run[i].status == Connected && run[i].client.Some?
    requires forall a <- run[i].activities :: run[i].activities[a].Sending? ==> run[i].activities[a].topics == []
    ensures forall t <- run[i].topics :: (run[i].client.value, t) in run[i].sent
  {
    SilentClientsMissNone(run, steps, i);
  }

  // ---------------------------------------------------------------- the lifecycle

  /** What each step makes of the status, the shutdown flag, the client and the topics. */
  lemma {:induction false} StatusMeans(s: Service, step: Step)
    requires Enabled(s, step)
    ensures Do(s, step).status
         == if step.ConnectRefused? || step.CreateFails? || step.OpenFails? || step.FailedCallback?
            then (if s.shuttingDown then s.status else Error)
            else if step.AnnounceConnecting? then Connecting
            else if step.AnnounceDisconnecting? then Disconnecting
            else if step.GoOffline? then Offline
            else if step.LostReported? then Reconnecting
            else if step.ConnectedCallback? && !s.shuttingDown then Connected
            else s.status
  {
  }

  lemma {:induction false} FieldsMean(s: Service, step: Step)
    requires Enabled(s, step)
    ensures Do(s, step).client
         == if step.ReleaseForConnect? || step.ReleaseForDisconnect? then None
            else if step.CreateClient? then Some(s.issued)
            else s.client
    ensures Do(s, step).topics
         == if step.Subscribe? then s.topics + {step.topic}
            else if step.Unsubscribe? then s.topics - {step.topic}
            else s.topics
    ensures Do(s, step).shuttingDown
         == if step.DisconnectBegin? then true
            else if step.ConnectBegin? && (s.status == Offline || s.status == Disconnecting || s.status == Error)
            then false
            else s.shuttingDown
  {
  }

  /** Who owes what after a subscription, a callback and a send. */
  lemma {:induction false} ActivitiesMean(s: Service, step: Step)
    requires Enabled(s, step)
    ensures step.Subscribe? ==>
              Do(s, step).activities
              == if s.status == Connected then s.activities[step.a := Sending(s.client, [step.topic])] else s.activities
    ensures step.ConnectedCallback? ==>
              Do(s, step).activities
              == if s.shuttingDown || s.status == Connected then s.activities
                 else s.activities[step.a := Sending(s.client, step.order)]
    ensures step.LostCallback? ==>
              Do(s, step).activities == if s.shuttingDown then s.activities else s.activities[step.a := Losing]
    ensures step.Send? ==>
              var sending := s.activities[step.a];
              && Do(s, step).activities == s.activities[step.a := Sending(sending.to, sending.topics[1..])]
              && Do(s, step).sent
                 == if sending.to.Some? then s.sent + {(sending.to.value, sending.topics[0])} else s.sent
  {
  }

  /** What holds while Connect or Disconnect is on its way, whatever the callbacks do. */
  ghost predicate OperationOk(s: Service) {
    && (s.operation in {DisconnectAnnounce, DisconnectRelease, DisconnectFinish} ==> s.shuttingDown)
    && (s.operation in {ConnectRelease, ConnectAnnounce, ConnectCreate, ConnectOpen} ==> !s.shuttingDown)
    && (s.operation in {ConnectAnnounce, ConnectCreate, DisconnectFinish} ==> s.client == None)
  }

  lemma {:induction false} RunOperationOk(run: seq<Service>, steps: seq<Step>, i: nat)
    requires IsRun(run, steps) && i < |run|
    ensures OperationOk(run[i])
  {
    if i > 0 {
      RunOperationOk(run, steps, i - 1);
      assert Takes(run, steps, i - 1);
      StepOperationOk(run[i - 1], steps[i - 1]);
    }
  }

  lemma {:induction false} StepOperationOk(s: Service, step: Step)
    requires OperationOk(s) && Enabled(s, step)
    ensures OperationOk(Do(s, step))
  {
  }

  /** When Disconnect ends, the service is offline without a client, and callbacks cannot take it out of there. */
  lemma {:induction false} DisconnectEndsOffline(run: seq<Service>, steps: seq<Step>, k: nat)
    requires IsRun(run, steps) && k < |steps| && steps[k] == GoOffline
    ensures run[k + 1].status == Offline && run[k + 1].client == None && run[k + 1].shuttingDown
  {
    RunOperationOk(run, steps, k);
    assert Takes(run, steps, k);
  }

  // ---------------------------------------------------------------- a late callback

  /**
   A run in which client 0 connects late: it was opened, disconnected and released, and a second Connect has
   begun.
   */
  function LateStep(i: nat): Step {
    if i == 0 then Subscribe(0, "t")
    else if i == 1 then ConnectBegin
    else if i == 2 then ReleaseForConnect
    else if i == 3 then AnnounceConnecting
    else if i == 4 then CreateClient
    else if i == 5 then OpenSucceeds
    else if i == 6 then DisconnectBegin
    else if i == 7 then AnnounceDisconnecting
    else if i == 8 then ReleaseForDisconnect
    else if i == 9 then GoOffline
    else if i == 10 then ConnectBegin
    else if i == 11 then ReleaseForConnect
    else if i == 12 then AnnounceConnecting
    else if i == 13 then ConnectedCallback(0, 0, ["t"])
    else CreateClient
  }

  function LateState(i: nat): Service {
    var status := if i <= 3 then Offline
                  else if i <= 7 then Connecting
                  else if i <= 9 then Disconnecting
                  else if i <= 12 then Offline
                  else if i == 13 then Connecting
                  else Connected;
    var operation := if i == 2 || i == 11 then ConnectRelease
                     else if i == 3 || i == 12 then ConnectAnnounce
                     else if i == 4 || i == 13 || i == 14 then ConnectCreate
                     else if i == 5 || i == 15 then ConnectOpen
                     else if i == 7 then DisconnectAnnounce
                     else if i == 8 then DisconnectRelease
                     else if i == 9 then DisconnectFinish
                     else Free;
    Service(status, if 5 <= i <= 8 then Some(0) else if i == 15 then Some(1) else None,
            7 <= i <= 10, if i == 0 then {} else {"t"}, operation,
            if i < 14 then map[] else map[0 := Sending(None, ["t"])], {},
            if i <= 4 then 0 else if i <= 14 then 1 else 2)
  }

  lemma {:induction false} LateStepTaken(i: nat)
    requires i < 15
    ensures Enabled(LateState(i), LateStep(i)) && LateState(i + 1) == Do(LateState(i), LateStep(i))
  {
    if i == 13 {
      assert Lists(["t"], {"t"});
    }
  }

  /**
   The silence is needed. The broker's answer to the first client's connect arrives after Disconnect has
   released that client and a second Connect has announced itself: the late callback enters Connected while
   no client is in place, and the second client is then put in place without being told of the topic.
   */
  lemma {:induction false} LateCallbackMisses() returns (run: seq<Service>, steps: seq<Step>)
    ensures IsRun(run, steps) && !NoneMissed(run[|run| - 1])
  {
    run, steps := seq(16, i requires 0 <= i < 16 => LateState(i)), seq(15, i requires 0 <= i < 15 => LateStep(i));
    forall i | 0 <= i < |steps| ensures Takes(run, steps, i) {
      LateStepTaken(i);
    }
    assert "t" in LateState(14).topics;
    RunKnown(run, steps, 14);
    LateStepTaken(14);
    BlindMisses(LateState(14));
  }

  // ---------------------------------------------------------------- the object

  /** A set of topics as a list. */
  method List(topics: set<Topic>) returns (order: seq<Topic>)
    ensures Lists(order, topics)
  {
    order := [];
    var rest := topics;
    while rest != {}
      invariant rest <= topics && Lists(order, topics - rest)
    {
      var t :| t in rest;
      DistinctConcat(order, [t]);
      order := order + [t];
      rest := rest - {t};
    }
  }

  type Handler = nat

  /** The fields `mutex_` guards; each method is one critical section. */
  class ServiceState {
    var status: Lifecycle
    var client: Option<ClientId>
    var shuttingDown: bool
    var subscriptions: map<Topic, Handler>

    /** A model state with these fields, the rest of it taken from s. */
    ghost function In(s: Service): Service
      reads this
    {
      s.(status := status, client := client, shuttingDown := shuttingDown, topics := subscriptions.Keys)
    }

    constructor ()
      ensures status == Offline && client == None && !shuttingDown && subscriptions == map[]
    {
      status, client, shuttingDown, subscriptions := Offline, None, false, map[];
    }

    /** The first section of Connect; it goes on only from a state that is not connected or about to be. */
    method ConnectBegin() returns (proceeds: bool)
      modifies this`shuttingDown
      ensures forall s: Service :: In(s.(operation := if proceeds then ConnectRelease else Free))
                                == DoConnectBegin(old(In(s.(operation := Free))))
      ensures proceeds <==> status == Offline || status == Disconnecting || status == Error
      ensures shuttingDown == (old(shuttingDown) && !proceeds)
    {
      if status == Connecting || status == Connected || status == Reconnecting {
        return false;
      }
      shuttingDown := false;
      return true;
    }

    method DisconnectBegin() returns (hadClient: bool)
      modifies this`shuttingDown
      ensures forall s: Service :: In(s.(operation := if hadClient then DisconnectAnnounce else DisconnectRelease))
                                == DoDisconnectBegin(old(In(s)))
      ensures shuttingDown && (hadClient <==> client.Some?)
    {
      shuttingDown := true;
      return client.Some?;
    }

    method ReleaseClient() returns (released: Option<ClientId>)
      modifies this`client
      ensures client == None && released == old(client)
    {
      released := client;
      client := None;
    }

    method SetStatus(next: Lifecycle)
      modifies this`status
      ensures status == next
      ensures forall s: Service :: In(s) == WithStatus(old(In(s)), next)
    {
      status := next;
    }

    method ReportError(changesLifecycle: bool)
      modifies this`status
      ensures forall s: Service :: In(s) == if changesLifecycle then Failed(old(In(s))) else old(In(s))
      ensures status == if changesLifecycle && !shuttingDown then Error else old(status)
    {
      if !shuttingDown && changesLifecycle {
        status := Error;
      }
    }

    /** The activity is what the caller still has to send. */
    method Subscribe(topic: Topic, handler: Option<Handler>, ghost a: ActivityId) returns (activity: Option<Activity>)
      modifies this`subscriptions
      ensures topic == "" || handler.None? ==> subscriptions == old(subscriptions) && activity == None
      ensures topic != "" && handler.Some? ==>
                && subscriptions == old(subscriptions)[topic := handler.value]
                && activity == (if status == Connected then Some(Sending(client, [topic])) else None)
                && forall s: Service :: DoSubscribe(old(In(s)), a, topic)
                                     == Started(In(s), a, activity)
    {
      if topic == "" || handler.None? {
        return None;
      }
      subscriptions := subscriptions[topic := handler.value];
      activity := if status == Connected then Some(Sending(client, [topic])) else None;
    }

    /** The client is the one the caller still has to send the unsubscription to, if any. */
    method Unsubscribe(topic: Topic) returns (sendTo: Option<ClientId>)
      modifies this`subscriptions
      ensures subscriptions == if topic == "" then old(subscriptions) else old(subscriptions) - {topic}
      ensures sendTo == if topic != "" && status == Connected then client else None
    {
      if topic == "" {
        return None;
      }
      subscriptions := subscriptions - {topic};
      if status != Connected || client.None? {
        return None;
      }
      return client;
    }

    method HandleConnected(ghost a: ActivityId) returns (activity: Option<Activity>, ghost order: seq<Topic>)
      modifies this`status
      ensures Lists(order, subscriptions.Keys)
      ensures activity == if shuttingDown || old(status) == Connected then None else Some(Sending(client, order))
      ensures status == if activity.Some? then Connected else old(status)
      ensures forall s: Service :: DoConnected(old(In(s)), a, order)
                                == Started(In(s), a, activity).(sent := if activity.Some? then {} else s.sent)
    {
      var topics := List(subscriptions.Keys);
      order := topics;
      if shuttingDown || status == Connected {
        return None, order;
      }
      status := Connected;
      return Some(Sending(client, topics)), order;
    }

    /** The filters whose handlers an arriving message goes to. */
    method Matching(topic: Topic) returns (filters: seq<Topic>)
      ensures Lists(filters, set f | f in subscriptions && MqttTopics.TopicMatch(f, topic))
    {
      var all := List(subscriptions.Keys);
      filters := [];
      for i := 0 to |all|
        invariant Distinct(filters)
        invariant forall f :: f in filters <==> f in all[..i] && MqttTopics.TopicMatch(f, topic)
      {
        var matches := MqttTopics.TopicMatches(all[i], topic);
        assert all[..i + 1] == all[..i] + [all[i]];
        if matches {
          DistinctConcat(filters, [all[i]]);
          filters := filters + [all[i]];
        }
      }
      assert all[..|all|] == all;
    }
  }

  function Started(s: Service, a: ActivityId, activity: Option<Activity>): Service {
    match activity case Some(b) => s.(activities := s.activities[a := b]) case None => s
  }
}
