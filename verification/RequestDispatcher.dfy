/**
 The acknowledgement protocol. A payload's call, the workers of the pool, `StopAccepting` and the pool's own
 shutdown interleave freely: each read of `accepting_`, each critical section of the pool and each
 acknowledgement is one step. The pool is shared, so other users' tasks may pass through it too.
 */
module RequestDispatcher {
  import opened Common
  import opened MqttMessages
  import JsonObjects
  import MqttTopics
  import Pools = ThreadPoolManager

  /** Calls are numbered; an accepted call's number is also its task's in the pool. */
  type CallId = nat

  datatype Phase =
    | Checking      // about to read accepting_ in HandleIncomingPayload
    | Dispatching   // about to read accepting_ in Dispatch
    | Enqueuing     // about to enqueue
    | Rejecting     // about to acknowledge an error
    | Rejected      // returned false
    | Accepted      // returned true

  datatype Job = Waiting | Answered(ok: bool) | Acknowledged(ok: bool) | Threw

  datatype Call = Call(payload: Option<JsonObjects.Object>, parsed: ParseResult, phase: Phase, job: Job)

  datatype Ack = Ack(call: CallId, requestId: string, clientId: string, ok: bool, byWorker: bool)

  datatype System = System(pool: Pools.Pool, accepting: bool, calls: map<CallId, Call>, acks: seq<Ack>)

  /** The transport publishes an acknowledgement only to a well-formed client id. */
  predicate Published(a: Ack) {
    MqttTopics.IsValidClientId(a.clientId)
  }

  function ErrorAck(c: CallId, parsed: ParseResult): Ack {
    Ack(c, parsed.requestId, parsed.sourceClientId, false, false)
  }

  function WorkerAck(c: CallId, r: Request, ok: bool): Ack {
    Ack(c, r.id, r.sourceClientId, ok, true)
  }

  /** The answer of each handler that returns: only a script that is not on the list gets an error. */
  predicate HandlerAnswer(r: Request) {
    r.kind == ExecuteScript ==> r.scriptName == Some("script1")
  }

  /** Only the database handler reaches code that throws. */
  predicate MayThrow(r: Request) {
    r.kind == StoreDatabaseValue
  }

  // ---------------------------------------------------------------- steps

  datatype Step =
    | Arrive(c: CallId, payload: Option<JsonObjects.Object>)
    | CheckAccepting(c: CallId)
    | CheckDispatch(c: CallId)
    | Enqueue(c: CallId)
    | Reject(c: CallId)
    | StopAccepting
    | Handle(w: nat, throws: bool)
    | Acknowledge(w: nat)
    | PoolStep(step: Pools.Step)

  predicate In(s: System, c: CallId, phase: Phase) {
    c in s.calls && s.calls[c].phase == phase
  }

  /** Worker w is executing the task of a call. */
  predicate Works(s: System, w: nat) {
    && w < |s.pool.workers| && s.pool.workers[w].Executing?
    && s.pool.workers[w].task in s.calls && s.calls[s.pool.workers[w].task].parsed.request.Some?
  }

  function TaskOf(s: System, w: nat): CallId
    requires Works(s, w)
  {
    s.pool.workers[w].task
  }

  predicate TaskEnded(s: System, w: nat) {
    Works(s, w) ==> s.calls[TaskOf(s, w)].job.Acknowledged? || s.calls[TaskOf(s, w)].job.Threw?
  }

  ghost predicate Enabled(s: System, step: Step) {
    match step
    case Arrive(c, payload) => c !in s.calls && c !in s.pool.accepted
    case CheckAccepting(c) => In(s, c, Checking)
    case CheckDispatch(c) => In(s, c, Dispatching)
    case Enqueue(c) => In(s, c, Enqueuing)
    case Reject(c) => In(s, c, Rejecting)
    case StopAccepting => true
    case Handle(w, throws) =>
      && Works(s, w) && s.calls[TaskOf(s, w)].job == Waiting
      && (throws ==> MayThrow(s.calls[TaskOf(s, w)].parsed.request.value))
    case Acknowledge(w) => Works(s, w) && s.calls[TaskOf(s, w)].job.Answered?
    case PoolStep(step) =>
      && Pools.Enabled(s.pool, step)
      && (step.Enqueue? ==> step.task !in s.calls)
      && (step.Finish? ==> TaskEnded(s, step.w))
  }

  function WithPhase(s: System, c: CallId, phase: Phase): System
    requires c in s.calls
  {
    s.(calls := s.calls[c := s.calls[c].(phase := phase)])
  }

  function WithJob(s: System, c: CallId, job: Job): System
    requires c in s.calls
  {
    s.(calls := s.calls[c := s.calls[c].(job := job)])
  }

  function DoHandle(s: System, c: CallId, throws: bool): System
    requires c in s.calls && s.calls[c].parsed.request.Some?
  {
    WithJob(s, c, if throws then Threw else Answered(HandlerAnswer(s.calls[c].parsed.request.value)))
  }

  function DoAcknowledge(s: System, c: CallId): System
    requires c in s.calls && s.calls[c].parsed.request.Some? && s.calls[c].job.Answered?
  {
    var ok := s.calls[c].job.ok;
    WithJob(s, c, Acknowledged(ok)).(acks := s.acks + [WorkerAck(c, s.calls[c].parsed.request.value, ok)])
  }

  ghost function Do(s: System, step: Step): System
    requires Enabled(s, step)
  {
    match step
    case Arrive(c, payload) =>
      var parsed := Parse(payload);
      s.(calls := s.calls[c := Call(payload, parsed, if parsed.request.Some? then Checking else Rejecting, Waiting)])
    case CheckAccepting(c) => WithPhase(s, c, if s.accepting then Dispatching else Rejecting)
    case CheckDispatch(c) => WithPhase(s, c, if s.accepting then Enqueuing else Rejecting)
    case Enqueue(c) =>
      if s.pool.stop then WithPhase(s, c, Rejecting)
      else WithPhase(s, c, Accepted).(pool := Pools.DoEnqueue(s.pool, c))
    case Reject(c) => WithPhase(s, c, Rejected).(acks := s.acks + [ErrorAck(c, s.calls[c].parsed)])
    case StopAccepting => s.(accepting := false)
    case Handle(w, throws) => DoHandle(s, TaskOf(s, w), throws)
    case Acknowledge(w) => DoAcknowledge(s, TaskOf(s, w))
    case PoolStep(step) => s.(pool := Pools.Do(s.pool, step))
  }

  ghost predicate Init(s: System) {
    Pools.Init(s.pool) && s.accepting && s.calls == map[] && s.acks == []
  }

  ghost predicate Next(s: System, s': System) {
    exists step :: Enabled(s, step) && s' == Do(s, step)
  }

  ghost predicate Linked(run: seq<System>, i: nat)
    requires i + 1 < |run|
  {
    Next(run[i], run[i + 1])
  }

  ghost predicate IsRun(run: seq<System>) {
    run != [] && Init(run[0]) && forall i: nat :: i + 1 < |run| ==> Linked(run, i)
  }

  // ---------------------------------------------------------------- invariant

  /** The acknowledgements of one call. */
  function AcksFor(acks: seq<Ack>, c: CallId): seq<Ack> {
    if acks == [] then []
    else AcksFor(acks[..|acks| - 1], c) + if acks[|acks| - 1].call == c then [acks[|acks| - 1]] else []
  }

  lemma {:induction false} AcksSnoc(acks: seq<Ack>, a: Ack, c: CallId)
    ensures AcksFor(acks + [a], c) == if a.call == c then AcksFor(acks, c) + [a] else AcksFor(acks, c)
  {
    assert (acks + [a])[..|acks|] == acks;
  }

  /** What has been acknowledged for a call in each of its stages. */
  function Due(c: CallId, call: Call): seq<Ack> {
    if call.phase == Rejected then [ErrorAck(c, call.parsed)]
    else if call.phase == Accepted && call.job.Acknowledged? && call.parsed.request.Some? then
      [WorkerAck(c, call.parsed.request.value, call.job.ok)]
    else []
  }

  /** The route a parse result gives to its answers. */
  predicate RouteAgrees(parsed: ParseResult) {
    parsed.request.Some? ==>
      && parsed.request.value.id == parsed.requestId
      && parsed.request.value.sourceClientId == parsed.sourceClientId
      && MqttTopics.IsValidClientId(parsed.sourceClientId)
  }

  ghost predicate CallInv(pool: Pools.Pool, c: CallId, call: Call) {
    && RouteAgrees(call.parsed)
    && (c in pool.accepted <==> call.phase == Accepted)
    && (call.phase != Accepted ==> call.job == Waiting)
    && (call.phase in {Checking, Dispatching, Enqueuing, Accepted} ==> call.parsed.request.Some?)
    && (c in pool.finished ==> call.job.Acknowledged? || call.job.Threw?)
    && (call.job.Threw? ==> call.parsed.request.Some? && MayThrow(call.parsed.request.value))
    && (call.job.Answered? ==> call.parsed.request.Some? && call.job.ok == HandlerAnswer(call.parsed.request.value))
    && (call.job.Acknowledged? ==> call.parsed.request.Some? && call.job.ok == HandlerAnswer(call.parsed.request.value))
  }

  ghost predicate AcksAre(s: System, c: CallId) {
    AcksFor(s.acks, c) == if c in s.calls then Due(c, s.calls[c]) else []
  }

  ghost predicate Inv(s: System) {
    && Pools.Inv(s.pool)
    && (forall c <- s.calls :: CallInv(s.pool, c, s.calls[c]))
    && (forall c :: AcksAre(s, c))
  }

  // ---------------------------------------------------------------- what the pool keeps

  lemma {:induction false} ExecutingWasAccepted(p: Pools.Pool, w: nat)
    requires Pools.Inv(p) && w < |p.workers| && p.workers[w].Executing?
    ensures p.workers[w].task in p.accepted
  {
    var t := p.workers[w].task;
    assert Pools.Accounted(p, t);
    Pools.UpdateInHand(p.workers, w, Pools.Awake, t);
    assert t in multiset(p.started);
  }

  lemma {:induction false} FinishedWasAccepted(p: Pools.Pool, t: CallId)
    requires Pools.Inv(p) && t in p.finished
    ensures t in p.accepted
  {
    assert Pools.Accounted(p, t);
    assert t in multiset(p.finished);
    assert t in multiset(p.started);
  }

  lemma {:induction false} PoolGrows(p: Pools.Pool, step: Pools.Step, t: CallId)
    requires Pools.Enabled(p, step)
    ensures t in Pools.Do(p, step).accepted <==> t in p.accepted || (step == Pools.Enqueue(t) && !p.stop)
    ensures t in Pools.Do(p, step).finished <==> t in p.finished || (step.Finish? && p.workers[step.w].task == t)
  {
  }

  // ---------------------------------------------------------------- every step keeps the invariant

  /** A step that changes one call without acknowledging it. */
  lemma {:induction false} CallChanges(s: System, c: CallId, call: Call)
    requires Inv(s) && c in s.calls && CallInv(s.pool, c, call) && Due(c, call) == Due(c, s.calls[c])
    ensures Inv(s.(calls := s.calls[c := call]))
  {
    var s' := s.(calls := s.calls[c := call]);
    forall d ensures AcksAre(s', d) {
      assert AcksAre(s, d);
    }
  }

  /** A step that makes the first acknowledgement of a call. */
  lemma {:induction false} CallAcknowledged(s: System, c: CallId, call: Call, a: Ack)
    requires Inv(s) && c in s.calls && CallInv(s.pool, c, call)
    requires a.call == c && Due(c, s.calls[c]) == [] && Due(c, call) == [a]
    ensures Inv(s.(calls := s.calls[c := call], acks := s.acks + [a]))
  {
    var s' := s.(calls := s.calls[c := call], acks := s.acks + [a]);
    forall d ensures AcksAre(s', d) {
      assert AcksAre(s, d);
      AcksSnoc(s.acks, a, d);
    }
  }

  lemma {:induction false} ArriveInv(s: System, c: CallId, payload: Option<JsonObjects.Object>)
    requires Inv(s) && Enabled(s, Arrive(c, payload))
    ensures Inv(Do(s, Arrive(c, payload)))
  {
    var s' := Do(s, Arrive(c, payload));
    ParsedRoute(payload);
    if c in s.pool.finished {
      FinishedWasAccepted(s.pool, c);
    }
    forall d ensures AcksAre(s', d) {
      assert AcksAre(s, d);
    }
  }

  lemma {:induction false} ParsedRoute(payload: Option<JsonObjects.Object>)
    ensures RouteAgrees(Parse(payload))
  {
    RecoversTheRoute(payload);
    if Parse(payload).request.Some? {
      ExtractsWhatIsHeld(payload.value, Parse(payload).request.value);
    }
  }

  lemma {:induction false} PhaseInv(s: System, c: CallId, phase: Phase)
    requires Inv(s) && c in s.calls
    requires s.calls[c].phase !in {Rejected, Accepted} && phase !in {Rejected, Accepted}
    requires phase != Rejecting ==> s.calls[c].parsed.request.Some?
    ensures Inv(WithPhase(s, c, phase))
  {
    CallChanges(s, c, s.calls[c].(phase := phase));
  }

  lemma {:induction false} RejectInv(s: System, c: CallId)
    requires Inv(s) && In(s, c, Rejecting)
    ensures Inv(Do(s, Reject(c)))
  {
    CallAcknowledged(s, c, s.calls[c].(phase := Rejected), ErrorAck(c, s.calls[c].parsed));
  }

  lemma {:induction false} EnqueueInv(s: System, c: CallId)
    requires Inv(s) && Enabled(s, Enqueue(c)) && !s.pool.stop
    ensures Inv(Do(s, Enqueue(c)))
  {
    var s' := Do(s, Enqueue(c));
    Pools.EnqueueInv(s.pool, c);
    forall d ensures AcksAre(s', d) {
      assert AcksAre(s, d);
    }
  }

  lemma {:induction false} HandleInv(s: System, w: nat, throws: bool)
    requires Inv(s) && Enabled(s, Handle(w, throws))
    ensures Inv(Do(s, Handle(w, throws)))
  {
    var c := TaskOf(s, w);
    ExecutingWasAccepted(s.pool, w);
    CallChanges(s, c, DoHandle(s, c, throws).calls[c]);
  }

  lemma {:induction false} AcknowledgeInv(s: System, w: nat)
    requires Inv(s) && Enabled(s, Acknowledge(w))
    ensures Inv(Do(s, Acknowledge(w)))
  {
    var c := TaskOf(s, w);
    ExecutingWasAccepted(s.pool, w);
    var call := s.calls[c];
    var ack := WorkerAck(c, call.parsed.request.value, call.job.ok);
    CallAcknowledged(s, c, call.(job := Acknowledged(call.job.ok)), ack);
  }

  lemma {:induction false} PoolStepInv(s: System, step: Pools.Step)
    requires Inv(s) && Enabled(s, PoolStep(step))
    ensures Inv(Do(s, PoolStep(step)))
  {
    var s' := Do(s, PoolStep(step));
    Pools.StepInv(s.pool, step);
    if step.Finish? {
      ExecutingWasAccepted(s.pool, step.w);
    }
    forall c | c in s.calls ensures CallInv(s'.pool, c, s.calls[c]) {
      PoolGrows(s.pool, step, c);
    }
    forall d ensures AcksAre(s', d) {
      assert AcksAre(s, d);
    }
  }

  lemma {:induction false} StopInv(s: System)
    requires Inv(s)
    ensures Inv(s.(accepting := false))
  {
    var s' := s.(accepting := false);
    forall d ensures AcksAre(s', d) {
      assert AcksAre(s, d);
    }
  }

  lemma {:induction false} StepInv(s: System, step: Step)
    requires Inv(s) && Enabled(s, step)
    ensures Inv(Do(s, step))
  {
    match step {
      case Arrive(c, payload) => ArriveInv(s, c, payload);
      case CheckAccepting(c) => PhaseInv(s, c, if s.accepting then Dispatching else Rejecting);
      case CheckDispatch(c) => PhaseInv(s, c, if s.accepting then Enqueuing else Rejecting);
      case Enqueue(c) =>
        if s.pool.stop {
          PhaseInv(s, c, Rejecting);
        } else {
          EnqueueInv(s, c);
        }
      case Reject(c) => RejectInv(s, c);
      case StopAccepting => StopInv(s);
      case Handle(w, throws) => HandleInv(s, w, throws);
      case Acknowledge(w) => AcknowledgeInv(s, w);
      case PoolStep(step) => PoolStepInv(s, step);
    }
  }

  lemma {:induction false} RunInv(run: seq<System>, i: nat)
    requires IsRun(run) && i < |run|
    ensures Inv(run[i])
  {
    if i == 0 {
      Pools.RunInv([run[0].pool], 0);
    } else {
      RunInv(run, i - 1);
      assert Linked(run, i - 1);
      var step :| Enabled(run[i - 1], step) && run[i] == Do(run[i - 1], step);
      StepInv(run[i - 1], step);
    }
  }

  // ---------------------------------------------------------------- what every call was given

  /** A well-formed request is only ever turned away by a shutdown. */
  ghost predicate TurnedAway(s: System, call: Call) {
    call.phase in {Rejecting, Rejected} && call.parsed.request.Some? ==> !s.accepting || s.pool.stop
  }

  ghost predicate Fair(s: System, call: Call) {
    call.parsed == Parse(call.payload) && TurnedAway(s, call)
  }

  ghost predicate AllFair(s: System) {
    forall c <- s.calls :: Fair(s, s.calls[c])
  }

  /** Only an arrival brings a call, and nothing changes what a call was given. */
  lemma {:induction false} GivenStays(s: System, step: Step, c: CallId)
    requires Enabled(s, step) && c in Do(s, step).calls && !(step.Arrive? && step.c == c)
    ensures c in s.calls
    ensures Do(s, step).calls[c].payload == s.calls[c].payload && Do(s, step).calls[c].parsed == s.calls[c].parsed
  {
  }

  lemma {:induction false} TurnedAwayStays(s: System, step: Step, c: CallId)
    requires Inv(s) && Enabled(s, step) && !step.Arrive? && c in s.calls && TurnedAway(s, s.calls[c])
    ensures c in Do(s, step).calls && TurnedAway(Do(s, step), Do(s, step).calls[c])
  {
  }

  lemma {:induction false} StepFair(s: System, step: Step)
    requires Inv(s) && Enabled(s, step) && AllFair(s)
    ensures AllFair(Do(s, step))
  {
    var s' := Do(s, step);
    forall c | c in s'.calls ensures Fair(s', s'.calls[c]) {
      if !(step.Arrive? && step.c == c) {
        GivenStays(s, step, c);
        assert Fair(s, s.calls[c]);
        if !step.Arrive? {
          TurnedAwayStays(s, step, c);
        }
      }
    }
  }

  lemma {:induction false} RunFair(run: seq<System>, i: nat)
    requires IsRun(run) && i < |run|
    ensures AllFair(run[i])
  {
    if i > 0 {
      RunFair(run, i - 1);
      RunInv(run, i - 1);
      assert Linked(run, i - 1);
      var step :| Enabled(run[i - 1], step) && run[i] == Do(run[i - 1], step);
      StepFair(run[i - 1], step);
    }
  }

  // ---------------------------------------------------------------- theorems

  /** The only acknowledgement a call can have: its id and client id are the ones recovered from the payload. */
  predicate IsAnswer(a: Ack, c: CallId, payload: Option<JsonObjects.Object>) {
    a.call == c && a.requestId == Parse(payload).requestId && a.clientId == Parse(payload).sourceClientId
  }

  /** In every state of every run, a payload has at most one acknowledgement, and it carries the recovered ids. */
  lemma {:induction false} AcknowledgedAtMostOnce(run: seq<System>, i: nat, c: CallId)
    requires IsRun(run) && i < |run| && c in run[i].calls
    ensures |AcksFor(run[i].acks, c)| <= 1
    ensures forall a <- AcksFor(run[i].acks, c) :: IsAnswer(a, c, run[i].calls[c].payload)
  {
    RunInv(run, i);
    RunFair(run, i);
    assert AcksAre(run[i], c);
    assert CallInv(run[i].pool, c, run[i].calls[c]);
    assert Fair(run[i], run[i].calls[c]);
  }

  /**
   A call that returned false has been acknowledged, once, with an error, by the caller's own thread, and
   its task never reached the pool. A well-formed request is turned away only in a shutdown.
   */
  lemma {:induction false} FalseMeansErrorAck(run: seq<System>, i: nat, c: CallId)
    requires IsRun(run) && i < |run| && In(run[i], c, Rejected)
    ensures var acks := AcksFor(run[i].acks, c);
            |acks| == 1 && !acks[0].ok && !acks[0].byWorker && IsAnswer(acks[0], c, run[i].calls[c].payload)
    ensures c !in run[i].pool.accepted
    ensures Parse(run[i].calls[c].payload).request.Some? ==> !run[i].accepting || run[i].pool.stop
  {
    RunInv(run, i);
    RunFair(run, i);
    assert AcksAre(run[i], c);
    assert CallInv(run[i].pool, c, run[i].calls[c]);
    assert Fair(run[i], run[i].calls[c]);
  }

  /** A call that returned true is in the pool, and whatever acknowledges it is the worker with the handler's answer. */
  lemma {:induction false} TrueMeansWorkerAck(run: seq<System>, i: nat, c: CallId)
    requires IsRun(run) && i < |run| && In(run[i], c, Accepted)
    ensures c in run[i].pool.accepted
    ensures run[i].calls[c].parsed.request.Some?
    ensures forall a <- AcksFor(run[i].acks, c) ::
              var r := run[i].calls[c].parsed.request.value;
              && a.call == c && a.byWorker && a.requestId == r.id && a.clientId == r.sourceClientId
              && (a.ok <==> r.kind != ExecuteScript || r.scriptName == Some("script1"))
  {
    RunInv(run, i);
    assert AcksAre(run[i], c);
    assert CallInv(run[i].pool, c, run[i].calls[c]);
  }

  predicate Undecided(s: System, c: CallId) {
    c in s.calls && s.calls[c].phase in {Checking, Dispatching, Rejecting, Rejected}
  }

  /** Once `StopAccepting` has been called, no call that has not passed both checks is accepted any more. */
  lemma {:induction false} ClosedDispatcherAcceptsNothing(run: seq<System>, i: nat, j: nat, c: CallId)
    requires IsRun(run) && i <= j < |run| && !run[i].accepting
    requires c !in run[i].calls || Undecided(run[i], c)
    ensures !run[j].accepting && (c !in run[j].calls || Undecided(run[j], c))
  {
    if i < j {
      ClosedDispatcherAcceptsNothing(run, i, j - 1, c);
      assert Linked(run, j - 1);
      var step :| Enabled(run[j - 1], step) && run[j] == Do(run[j - 1], step);
      StaysUndecided(run[j - 1], step, c);
    }
  }

  lemma {:induction false} StaysUndecided(s: System, step: Step, c: CallId)
    requires Enabled(s, step) && !s.accepting && (c !in s.calls || Undecided(s, c))
    ensures !Do(s, step).accepting && (c !in Do(s, step).calls || Undecided(Do(s, step), c))
  {
  }

  /**
   Once the pool has drained, every call that returned true has exactly one acknowledgement unless its
   handler threw, which only a store request can do; then it has none.
   */
  lemma {:induction false} DrainedMeansExactlyOne(run: seq<System>, i: nat, c: CallId)
    requires IsRun(run) && i < |run| && In(run[i], c, Accepted) && Pools.AllExited(run[i].pool)
    ensures |AcksFor(run[i].acks, c)| == if run[i].calls[c].job == Threw then 0 else 1
    ensures run[i].calls[c].job == Threw ==>
              run[i].calls[c].parsed.request.Some? && MayThrow(run[i].calls[c].parsed.request.value)
  {
    RunInv(run, i);
    var s := run[i];
    Pools.Drained(s.pool);
    assert AcksAre(s, c);
    assert CallInv(s.pool, c, s.calls[c]);
    assert multiset(s.pool.finished)[c] == 1;
    assert c in s.pool.finished;
  }

  /**
   Every answer to a well-formed request is published; only a malformed payload without a usable client id is not
   answered on the wire.
   */
  lemma {:induction false} AnswersArePublished(run: seq<System>, i: nat, c: CallId, a: Ack)
    requires IsRun(run) && i < |run| && c in run[i].calls && a in AcksFor(run[i].acks, c)
    ensures Published(a) <==> MqttTopics.IsValidClientId(run[i].calls[c].parsed.sourceClientId)
    ensures run[i].calls[c].parsed.request.Some? ==> Published(a)
  {
    RunInv(run, i);
    assert AcksAre(run[i], c);
    assert CallInv(run[i].pool, c, run[i].calls[c]);
  }

  /** What a call has returned, and what has been acknowledged, is never taken back. */
  lemma {:induction false} AnswersAreFinal(run: seq<System>, i: nat, j: nat, c: CallId)
    requires IsRun(run) && i <= j < |run| && c in run[i].calls && run[i].calls[c].phase in {Rejected, Accepted}
    ensures In(run[j], c, run[i].calls[c].phase)
    ensures AcksFor(run[i].acks, c) <= AcksFor(run[j].acks, c)
  {
    if i < j {
      AnswersAreFinal(run, i, j - 1, c);
      assert Linked(run, j - 1);
      var step :| Enabled(run[j - 1], step) && run[j] == Do(run[j - 1], step);
      StepIsFinal(run[j - 1], step, c);
    }
  }

  lemma {:induction false} StepIsFinal(s: System, step: Step, c: CallId)
    requires Enabled(s, step) && c in s.calls && s.calls[c].phase in {Rejected, Accepted}
    ensures In(Do(s, step), c, s.calls[c].phase)
    ensures AcksFor(s.acks, c) <= AcksFor(Do(s, step).acks, c)
  {
    match step {
      case Reject(d) => AcksSnoc(s.acks, ErrorAck(d, s.calls[d].parsed), c);
      case Acknowledge(w) =>
        var d := TaskOf(s, w);
        AcksSnoc(s.acks, WorkerAck(d, s.calls[d].parsed.request.value, s.calls[d].job.ok), c);
      case _ =>
    }
  }

  // ---------------------------------------------------------------- a handler that throws

  lemma {:induction false} ExtendRun(run: seq<System>, step: Step)
    requires IsRun(run) && Enabled(run[|run| - 1], step)
    ensures IsRun(run + [Do(run[|run| - 1], step)])
  {
    var last := |run| - 1;
    var longer := run + [Do(run[last], step)];
    forall i: nat | i + 1 < |longer| ensures Linked(longer, i) {
      if i < last {
        assert Linked(run, i) && longer[i] == run[i] && longer[i + 1] == run[i + 1];
      } else {
        assert Next(run[last], Do(run[last], step));
      }
    }
  }

  /** The object that the parser finds in the printed request. */
  function ObjectWith(r: Request): JsonObjects.Object {
    JsonObjects.ObjectOf(JsonObjects.Present(Entries(r), FIELD_COUNT))
  }

  /** A first state, and the arrival of a request in it. */
  lemma {:induction false} RequestArrives(r: Request) returns (run: seq<System>)
    requires Complete(r)
    ensures IsRun(run)
    ensures var s := run[|run| - 1];
            && s.pool == Pools.Pool([], false, [Pools.Awake], 0, false, [], [], []) && s.accepting && s.acks == []
            && s.calls.Keys == {0} && s.calls[0].phase == Checking && s.calls[0].job == Waiting
            && s.calls[0].parsed.request == Some(r)
  {
    var payload := Some(ObjectWith(r));
    PrintedHolds(r);
    HeldIsParsed(ObjectWith(r), r);
    var s0 := System(Pools.Pool([], false, [Pools.Awake], 0, false, [], [], []), true, map[], []);
    run := [s0];
    ExtendRun(run, Arrive(0, payload));
    run := run + [Do(s0, Arrive(0, payload))];
  }

  /** Steps after which the one call of a pool with one worker is in the worker's hands. */
  lemma {:induction false} ReachesWorker(r: Request) returns (run: seq<System>)
    requires Complete(r)
    ensures IsRun(run)
    ensures var s := run[|run| - 1];
            && s.pool == Pools.Pool([], false, [Pools.Executing(0)], 0, false, [0], [0], [])
            && s.acks == [] && s.calls.Keys == {0} && s.calls[0].phase == Accepted && s.calls[0].job == Waiting
            && s.calls[0].parsed.request == Some(r)
  {
    run := RequestArrives(r);
    var s1 := run[|run| - 1];
    var s4 := WithPhase(s1, 0, Accepted).(pool := Pools.Pool([0], false, [Pools.Awake], 1, false, [0], [], []));
    var s5 := s4.(pool := s4.pool.(inFlight := 0));
    var s6 := s5.(pool := Pools.Pool([], false, [Pools.Executing(0)], 0, false, [0], [0], []));
    ExtendRun(run, CheckAccepting(0));
    run := run + [WithPhase(s1, 0, Dispatching)];
    ExtendRun(run, CheckDispatch(0));
    assert Do(WithPhase(s1, 0, Dispatching), CheckDispatch(0)) == WithPhase(s1, 0, Enqueuing);
    run := run + [WithPhase(s1, 0, Enqueuing)];
    ExtendRun(run, Enqueue(0));
    assert Do(WithPhase(s1, 0, Enqueuing), Enqueue(0)) == s4;
    run := run + [s4];
    assert !Pools.SomeoneSleeps(s4.pool);
    ExtendRun(run, PoolStep(Pools.NotifyOne(0)));
    run := run + [s5];
    ExtendRun(run, PoolStep(Pools.Check(0)));
    assert Do(s5, PoolStep(Pools.Check(0))) == s6;
    run := run + [s6];
  }

  /**
   For every complete store request there is a run in which its handler throws, the pool drains, and nothing
   acknowledges it.
   */
  lemma {:induction false} ThrowingLeavesUnanswered(r: Request) returns (run: seq<System>)
    requires Complete(r) && MayThrow(r)
    ensures IsRun(run)
    ensures var s := run[|run| - 1];
            && Pools.AllExited(s.pool) && In(s, 0, Accepted) && s.calls[0].parsed.request == Some(r)
            && s.calls[0].job == Threw && AcksFor(s.acks, 0) == []
  {
    run := ReachesWorker(r);
    var s6 := run[|run| - 1];
    var s7 := WithJob(s6, 0, Threw);
    var s8 := s7.(pool := Pools.Pool([], false, [Pools.Awake], 0, false, [0], [0], [0]));
    var s9 := s8.(pool := s8.pool.(stop := true, owesAll := true));
    var s10 := s9.(pool := s9.pool.(owesAll := false));
    var s11 := s10.(pool := s10.pool.(workers := [Pools.Exited]));
    ExtendRun(run, Handle(0, true));
    run := run + [s7];
    ExtendRun(run, PoolStep(Pools.Finish(0)));
    assert Do(s7, PoolStep(Pools.Finish(0))) == s8;
    run := run + [s8];
    ExtendRun(run, PoolStep(Pools.Stop));
    run := run + [s9];
    ExtendRun(run, PoolStep(Pools.NotifyAll));
    assert Pools.WakeAll(s9.pool.workers) == s9.pool.workers;
    run := run + [s10];
    ExtendRun(run, PoolStep(Pools.Check(0)));
    assert Do(s10, PoolStep(Pools.Check(0))) == s11;
    run := run + [s11];
  }

  // ---------------------------------------------------------------- the object

  /** The dispatcher, its pool's queue and the acknowledgements it has sent; each method without interference. */
  class Dispatcher {
    const queue: Pools.TaskQueue
    const hasPublisher: bool
    var accepting: bool
    var acks: seq<Ack>         // every acknowledgement made
    var published: seq<Ack>    // those handed to the transport

    constructor (queue: Pools.TaskQueue, hasPublisher: bool)
      ensures this.queue == queue && this.hasPublisher == hasPublisher && accepting && acks == [] && published == []
    {
      this.queue, this.hasPublisher := queue, hasPublisher;
      accepting, acks, published := true, [], [];
    }

    method StopAccepting()
      modifies this`accepting
      ensures !accepting
    {
      accepting := false;
    }

    /** The part of an acknowledgement that goes out. */
    function Outgoing(ack: Ack): seq<Ack> {
      if hasPublisher && Published(ack) then [ack] else []
    }

    method RecordAndPublishAck(ack: Ack)
      modifies this`acks, this`published
      ensures acks == old(acks) + [ack]
      ensures published == old(published) + Outgoing(ack)
    {
      acks := acks + [ack];
      if hasPublisher && MqttTopics.IsValidClientId(ack.clientId) {
        published := published + [ack];
      }
    }

    /** `Dispatch`: an error is the exception. */
    method Dispatch(c: CallId) returns (queued: Result<(), string>)
      modifies queue
      ensures queued.Ok? <==> accepting && !old(queue.stop)
      ensures queue.stop == old(queue.stop)
      ensures queue.tasks == old(queue.tasks) + if queued.Ok? then [c] else []
    {
      if !accepting {
        return Err("RequestDispatcher is not accepting requests");
      }
      ghost var p := Pools.Pool(queue.tasks, queue.stop, [], 0, false, [], [], []);
      queued := queue.Enqueue(c);
      assert queue.tasks == Pools.DoEnqueue(p, c).tasks;
    }

    /** Either the task is queued and nothing acknowledged, or the other way round, with the recovered ids. */
    method HandleIncomingPayload(c: CallId, payload: Option<JsonObjects.Object>) returns (accepted: bool)
      modifies this`acks, this`published, queue
      ensures accepted <==> Parse(payload).request.Some? && accepting && !old(queue.stop)
      ensures queue.stop == old(queue.stop)
      ensures accepted ==> queue.tasks == old(queue.tasks) + [c] && acks == old(acks) && published == old(published)
      ensures !accepted ==>
                && queue.tasks == old(queue.tasks) && acks == old(acks) + [ErrorAck(c, Parse(payload))]
                && published == old(published) + Outgoing(ErrorAck(c, Parse(payload)))
    {
      var parsed := ParseRequest(payload);
      if parsed.request.None? || !accepting {
        RecordAndPublishAck(ErrorAck(c, parsed));
        return false;
      }
      var queued := Dispatch(c);
      if queued.Err? {
        RecordAndPublishAck(ErrorAck(c, parsed));
        return false;
      }
      return true;
    }

    /** What a worker runs for an accepted request; a handler that throws ends it before the acknowledgement. */
    method RunTask(c: CallId, request: Request, throws: bool)
      requires throws ==> MayThrow(request)
      modifies this`acks, this`published
      ensures throws ==> acks == old(acks) && published == old(published)
      ensures !throws ==>
                var ack := WorkerAck(c, request, HandlerAnswer(request));
                acks == old(acks) + [ack] && published == old(published) + Outgoing(ack)
      ensures forall s: System ::
                s.acks == old(acks) && c in s.calls && s.calls[c].parsed.request == Some(request) ==>
                  acks == if throws then DoHandle(s, c, true).acks else DoAcknowledge(DoHandle(s, c, false), c).acks
    {
      if throws {
        return;
      }
      RecordAndPublishAck(WorkerAck(c, request, HandlerAnswer(request)));
    }
  }
}
