/**
 The generator-fed event loop: submissions are accepted or rejected under `queue_mutex_`, one consumer
 executes accepted events in order, producer threads feed generated sequences, and `shutdown` closes
 admission, joins the producers and then the consumer.
 */
module EventLoopGenerator {
  import opened Common

  const MAX_ID: nat := 0xFFFF_FFFF_FFFF_FFFF

  datatype EventStatus = Executed | ActionFailed | RejectedStopped | RejectedIdExhausted

  datatype EventResult = EventResult(id: nat, status: EventStatus)

  datatype SequenceStatus = Completed | Cancelled | Failed

  /** An accepted event waiting in the queue, with the index of its promise. */
  datatype Queued = Queued(id: nat, promise: nat)

  // ---------------------------------------------------------------- sequence outcomes

  function Severity(s: SequenceStatus): nat {
    match s case Completed => 0 case Cancelled => 1 case Failed => 2
  }

  /** What an event's result means for its sequence. */
  function OutcomeOf(e: EventResult): SequenceStatus {
    match e.status
    case Executed => Completed
    case ActionFailed => Failed
    case RejectedStopped => Cancelled
    case RejectedIdExhausted => Cancelled
  }

  /** The update `consume_sequence` makes for one settled event. */
  function Combine(status: SequenceStatus, e: EventResult): SequenceStatus {
    if e.status == ActionFailed then Failed
    else if e.status != Executed && status != Failed then Cancelled
    else status
  }

  /** `status` is the worst of the producer's own outcome and its events' outcomes. */
  ghost predicate IsWorst(status: SequenceStatus, producer: SequenceStatus, events: seq<EventResult>) {
    && Severity(producer) <= Severity(status)
    && (forall i :: 0 <= i < |events| ==> Severity(OutcomeOf(events[i])) <= Severity(status))
    && (status == producer || exists i :: 0 <= i < |events| && OutcomeOf(events[i]) == status)
  }

  lemma {:induction false} CombineIsWorst(
    status: SequenceStatus, producer: SequenceStatus, events: seq<EventResult>, e: EventResult)
    requires IsWorst(status, producer, events)
    ensures IsWorst(Combine(status, e), producer, events + [e])
  {
    var all := events + [e];
    assert forall i :: 0 <= i < |events| ==> all[i] == events[i];
    assert all[|events|] == e;
    if Combine(status, e) == status && status != producer {
      var i :| 0 <= i < |events| && OutcomeOf(events[i]) == status;
      assert OutcomeOf(all[i]) == status;
    }
  }

  /**
   In so many words: failed if anything failed, else cancelled if anything was cancelled or rejected, else
   completed.
   */
  lemma {:induction false} WorstMeans(status: SequenceStatus, producer: SequenceStatus, events: seq<EventResult>)
    requires IsWorst(status, producer, events)
    ensures status == Failed <==> producer == Failed || exists e :: e in events && e.status == ActionFailed
    ensures status == Completed <==> producer == Completed && forall e :: e in events ==> e.status == Executed
  {
    if e :| e in events && e.status == ActionFailed {
      var i :| 0 <= i < |events| && events[i] == e;
      assert Severity(OutcomeOf(events[i])) <= Severity(status);
    }
    if e :| e in events && e.status != Executed {
      var i :| 0 <= i < |events| && events[i] == e;
      assert Severity(OutcomeOf(events[i])) <= Severity(status);
    }
    if status != producer {
      var i :| 0 <= i < |events| && OutcomeOf(events[i]) == status;
      assert events[i] in events;
    }
  }

  /** What a sequence's future gets; the exception is the producer's own, by number. */
  datatype SequenceResult = SequenceResult(
    status: SequenceStatus,
    events: seq<EventResult>,
    producerException: Option<nat>)

  /** The collecting loop of `consume_sequence` over results that are already there, from what the producer left. */
  method CollectResults(produced: SequenceResult, results: seq<EventResult>) returns (result: SequenceResult)
    requires produced.events == []
    ensures IsWorst(result.status, produced.status, results)
    ensures result.events == results && result.producerException == produced.producerException
    ensures result.status == Failed <==>
              produced.status == Failed || exists e :: e in results && e.status == ActionFailed
    ensures result.status == Completed <==>
              produced.status == Completed && forall e :: e in results ==> e.status == Executed
  {
    result := produced;
    for i := 0 to |results|
      invariant IsWorst(result.status, produced.status, results[..i])
      invariant result.events == results[..i] && result.producerException == produced.producerException
    {
      CombineIsWorst(result.status, produced.status, results[..i], results[i]);
      if results[i].status == ActionFailed {
        result := result.(status := Failed);
      } else if results[i].status != Executed && result.status != Failed {
        result := result.(status := Cancelled);
      }
      result := result.(events := result.events + [results[i]]);
      assert results[..i + 1] == results[..i] + [results[i]];
    }
    assert results[..|results|] == results;
    WorstMeans(result.status, produced.status, results);
  }

  // ---------------------------------------------------------------- state

  datatype Consumer = Awake | Asleep | Executing(event: Queued) | Exited

  datatype Producer =
    | Generating(handles: seq<nat>)      // handles: the promises of the events submitted so far
    | Yielded(handles: seq<nat>)
    | Submitting(handles: seq<nat>)
    | Collecting(handles: seq<nat>, outcome: SequenceStatus, status: SequenceStatus, events: seq<EventResult>)
    | Done(handles: seq<nat>, outcome: SequenceStatus, status: SequenceStatus, events: seq<EventResult>)

  datatype Shutdown =
    | NotCalled
    | Closed                 // admission closed, notify_all still to come
    | Requesting(k: nat)     // request_stop sent to the first k producers
    | Joining(k: nat)        // the first k producers joined
    | Joined                 // producers cleared, the second notify_all still to come
    | JoiningConsumer
    | Complete

  datatype State = State(
    first: nat,                           // last_issued_event_id_ at construction
    last: nat,
    accepting: bool,
    events: seq<Queued>,
    promises: seq<seq<EventResult>>,      // every set_value made on each submission's promise
    issued: seq<nat>,                     // the id each submission returned, 0 when rejected
    executed: seq<nat>,                   // ids whose action has been run, in order
    consumer: Consumer,
    inFlight: nat,                        // notify_one calls owed by submitters
    producers: seq<Producer>,
    stopRequested: seq<bool>,
    shutdown: Shutdown)

  ghost predicate Init(s: State) {
    && s.first == s.last <= MAX_ID && s.accepting && s.events == [] && s.promises == [] && s.issued == []
    && s.executed == [] && s.consumer == Awake && s.inFlight == 0 && s.producers == [] && s.stopRequested == []
    && s.shutdown == NotCalled
  }

  /** The critical section of `schedule_event`; the new submission's promise is the last one. */
  function Submit(s: State): State {
    if !s.accepting then
      s.(promises := s.promises + [[EventResult(0, RejectedStopped)]], issued := s.issued + [0])
    else if s.last == MAX_ID then
      s.(promises := s.promises + [[EventResult(0, RejectedIdExhausted)]], issued := s.issued + [0])
    else
      s.(last := s.last + 1,
         events := s.events + [Queued(s.last + 1, |s.promises|)],
         promises := s.promises + [[]],
         issued := s.issued + [s.last + 1],
         inFlight := s.inFlight + 1)
  }

  predicate WouldAccept(s: State) {
    s.accepting && s.last < MAX_ID
  }

  // ---------------------------------------------------------------- steps

  datatype Step =
    | Schedule                      // schedule_event from any thread but a producer
    | AddProducer                   // process_event_sequence
    | NotifyOne
    | SpuriousWake
    | Check                         // the critical section of run
    | Execute(failed: bool)         // the action returns or throws, and the promise is set
    | Yield(p: nat)
    | Exhausted(p: nat)
    | Throw(p: nat)                 // the generator throws
    | TestStop(p: nat)
    | SubmitNext(p: nat)
    | Collect(p: nat)
    | Settle(p: nat)                // the sequence promise is set
    | Close
    | NotifyClosed
    | RequestStop
    | JoinProducer
    | NotifyJoined
    | JoinConsumer

  predicate CanCollect(s: State, c: Producer) {
    && c.Collecting? && |c.events| < |c.handles|
    && c.handles[|c.events|] < |s.promises| && s.promises[c.handles[|c.events|]] != []
  }

  predicate Enabled(s: State, step: Step) {
    match step
    case Schedule => true
    case AddProducer => !s.shutdown.Closed? && !s.shutdown.Requesting? && !s.shutdown.Joining?   // producers_mutex_
    case NotifyOne => s.inFlight > 0
    case SpuriousWake => s.consumer == Asleep
    case Check => s.consumer == Awake
    case Execute(_) => s.consumer.Executing?
    case Yield(p) => p < |s.producers| && s.producers[p].Generating?
    case Exhausted(p) => p < |s.producers| && s.producers[p].Generating?
    case Throw(p) => p < |s.producers| && s.producers[p].Generating?
    case TestStop(p) => p < |s.producers| && s.producers[p].Yielded?
    case SubmitNext(p) => p < |s.producers| && s.producers[p].Submitting?
    case Collect(p) => p < |s.producers| && CanCollect(s, s.producers[p])
    case Settle(p) =>
      p < |s.producers| && s.producers[p].Collecting? && |s.producers[p].events| == |s.producers[p].handles|
    case Close => s.shutdown == NotCalled
    case NotifyClosed => s.shutdown == Closed
    case RequestStop => s.shutdown.Requesting?
    case JoinProducer =>
      s.shutdown.Joining? && (s.shutdown.k < |s.producers| ==> s.producers[s.shutdown.k].Done?)
    case NotifyJoined => s.shutdown == Joined
    case JoinConsumer => s.shutdown == JoiningConsumer && s.consumer == Exited
  }

  function Woken(c: Consumer): Consumer {
    if c == Asleep then Awake else c
  }

  function DoCheck(s: State): State {
    if s.accepting && s.events == [] then s.(consumer := Asleep)
    else if s.events == [] then s.(consumer := Exited)
    else s.(consumer := Executing(s.events[0]), events := s.events[1..])
  }

  function SetValue(promises: seq<seq<EventResult>>, k: nat, r: EventResult): seq<seq<EventResult>> {
    if k < |promises| then promises[k := promises[k] + [r]] else promises
  }

  function DoExecute(s: State, failed: bool): State
    requires s.consumer.Executing?
  {
    var e := s.consumer.event;
    s.(consumer := Awake,
       executed := s.executed + [e.id],
       promises := SetValue(s.promises, e.promise, EventResult(e.id, if failed then ActionFailed else Executed)))
  }

  function WithProducer(s: State, p: nat, c: Producer): State
    requires p < |s.producers|
  {
    s.(producers := s.producers[p := c])
  }

  function Finishing(handles: seq<nat>, outcome: SequenceStatus): Producer {
    Collecting(handles, outcome, outcome, [])
  }

  function DoSubmitNext(s: State, p: nat): State
    requires p < |s.producers|
  {
    var handles := s.producers[p].handles + [|s.promises|];
    WithProducer(Submit(s), p, if WouldAccept(s) then Generating(handles) else Finishing(handles, Cancelled))
  }

  function DoCollect(s: State, p: nat): State
    requires p < |s.producers| && CanCollect(s, s.producers[p])
  {
    var c := s.producers[p];
    var r := s.promises[c.handles[|c.events|]][0];
    WithProducer(s, p, Collecting(c.handles, c.outcome, Combine(c.status, r), c.events + [r]))
  }

  function Do(s: State, step: Step): State
    requires Enabled(s, step)
  {
    match step
    case Schedule => Submit(s)
    case AddProducer =>
      if s.accepting then s.(producers := s.producers + [Generating([])], stopRequested := s.stopRequested + [false])
      else s    // the sequence's future is settled as Cancelled at once
    case NotifyOne => s.(inFlight := s.inFlight - 1, consumer := Woken(s.consumer))
    case SpuriousWake => s.(consumer := Awake)
    case Check => DoCheck(s)
    case Execute(failed) => DoExecute(s, failed)
    case Yield(p) => WithProducer(s, p, Yielded(s.producers[p].handles))
    case Exhausted(p) => WithProducer(s, p, Finishing(s.producers[p].handles, Completed))
    case Throw(p) => WithProducer(s, p, Finishing(s.producers[p].handles, Failed))
    case TestStop(p) =>
      if p < |s.stopRequested| && s.stopRequested[p]
      then WithProducer(s, p, Finishing(s.producers[p].handles, Cancelled))
      else WithProducer(s, p, Submitting(s.producers[p].handles))
    case SubmitNext(p) => DoSubmitNext(s, p)
    case Collect(p) => DoCollect(s, p)
    case Settle(p) =>
      var c := s.producers[p];
      WithProducer(s, p, Done(c.handles, c.outcome, c.status, c.events))
    case Close => s.(accepting := false, shutdown := Closed)
    case NotifyClosed => s.(consumer := Woken(s.consumer), shutdown := Requesting(0))
    case RequestStop =>
      var k := s.shutdown.k;
      if k < |s.stopRequested| then s.(stopRequested := s.stopRequested[k := true], shutdown := Requesting(k + 1))
      else s.(shutdown := Joining(0))
    case JoinProducer =>
      if s.shutdown.k < |s.producers| then s.(shutdown := Joining(s.shutdown.k + 1)) else s.(shutdown := Joined)
    case NotifyJoined => s.(consumer := Woken(s.consumer), shutdown := JoiningConsumer)
    case JoinConsumer => s.(shutdown := Complete)
  }

  ghost predicate Next(s: State, s': State) {
    exists step :: Enabled(s, step) && s' == Do(s, step)
  }

  ghost predicate Linked(run: seq<State>, i: nat)
    requires i + 1 < |run|
  {
    Next(run[i], run[i + 1])
  }

  ghost predicate IsRun(run: seq<State>) {
    run != [] && Init(run[0]) && forall i: nat :: i + 1 < |run| ==> Linked(run, i)
  }

  // ---------------------------------------------------------------- invariants

  /** Accepted events whose action has not returned yet: the one in hand, then the queue. */
  function Outstanding(s: State): seq<Queued> {
    (if s.consumer.Executing? then [s.consumer.event] else []) + s.events
  }

  /** Executed ids, then the one in hand, then the queued ones, are exactly first + 1, first + 2, ..., last. */
  ghost predicate IdsOk(s: State) {
    && s.first <= s.last <= MAX_ID
    && |s.executed| + |Outstanding(s)| == s.last - s.first
    && (forall i :: 0 <= i < |s.executed| ==> s.executed[i] == s.first + 1 + i)
    && (forall i :: 0 <= i < |Outstanding(s)| ==> Outstanding(s)[i].id == s.first + 1 + |s.executed| + i)
  }

  /** Every promise is set once, except those of outstanding events, which are not set yet. */
  ghost predicate PromisesOk(s: State) {
    && |s.issued| == |s.promises|
    && (forall i :: 0 <= i < |Outstanding(s)| ==> Owed(s, Outstanding(s)[i]))
    && (forall k :: 0 <= k < |s.promises| && s.promises[k] == [] ==> Awaited(s, k))
    && (forall k :: 0 <= k < |s.promises| ==> SetRight(s.promises[k], s.issued[k]))
  }

  /** The event's promise is still to be set, and belongs to the submission that returned its id. */
  ghost predicate Owed(s: State, q: Queued) {
    q.promise < |s.promises| && s.promises[q.promise] == [] && q.promise < |s.issued| && s.issued[q.promise] == q.id
  }

  ghost predicate Awaited(s: State, k: nat) {
    exists i :: 0 <= i < |Outstanding(s)| && Outstanding(s)[i].promise == k
  }

  /** At most one value, carrying the id the submission returned; rejections carry 0 and executions do not. */
  ghost predicate SetRight(values: seq<EventResult>, id: nat) {
    && |values| <= 1
    && (values == [] ==> id != 0)
    && (values != [] ==>
          && values[0].id == id
          && (id == 0 <==> values[0].status == RejectedStopped || values[0].status == RejectedIdExhausted))
  }

  ghost predicate ProducerOk(s: State, c: Producer) {
    && (forall i :: 0 <= i < |c.handles| ==> c.handles[i] < |s.promises|)
    && (c.Collecting? || c.Done? ==>
          && |c.events| <= |c.handles|
          && (forall i :: 0 <= i < |c.events| ==> s.promises[c.handles[i]] == [c.events[i]])
          && IsWorst(c.status, c.outcome, c.events))
    && (c.Done? ==> |c.events| == |c.handles|)
  }

  ghost predicate ProducersOk(s: State) {
    && |s.stopRequested| == |s.producers|
    && forall p :: 0 <= p < |s.producers| ==> ProducerOk(s, s.producers[p])
  }

  ghost predicate ShutdownOk(s: State) {
    && (s.accepting <==> s.shutdown == NotCalled)
    && (s.consumer == Exited ==> !s.accepting && s.events == [])
    && (s.consumer == Asleep ==> s.inFlight > 0 || s.shutdown == Closed || (s.accepting && s.events == []))
    && (s.shutdown.Requesting? ==> s.shutdown.k <= |s.producers|)
    && (s.shutdown.Joining? ==> s.shutdown.k <= |s.producers|)
    && (forall p :: 0 <= p < |s.producers| && JoinedUpTo(s) > p ==> s.producers[p].Done?)
    && (s.shutdown == Complete ==> s.consumer == Exited)
  }

  /** How many producers shutdown has joined. */
  function JoinedUpTo(s: State): nat {
    match s.shutdown
    case Joining(k) => k
    case Joined => |s.producers|
    case JoiningConsumer => |s.producers|
    case Complete => |s.producers|
    case _ => 0
  }

  ghost predicate Inv(s: State) {
    IdsOk(s) && PromisesOk(s) && ProducersOk(s) && ShutdownOk(s)
  }

  // ---------------------------------------------------------------- the object

  /** The fields `queue_mutex_` guards; each method is one critical section. */
  class EventQueue {
    var events: seq<Queued>
    var last: nat
    var accepting: bool

    ghost predicate Mirrors(s: State)
      reads this
    {
      s.events == events && s.last == last && s.accepting == accepting
    }

    constructor (lastIssued: nat)
      ensures events == [] && last == lastIssued && accepting
    {
      events, last, accepting := [], lastIssued, true;
    }

    /** The id returned, and the value set on the promise at once when the submission is rejected. */
    method ScheduleEvent(promise: nat) returns (id: nat, rejection: seq<EventResult>)
      modifies this
      ensures forall s :: old(Mirrors(s)) && |s.promises| == promise ==>
                && Mirrors(Submit(s))
                && Submit(s).issued == s.issued + [id] && Submit(s).promises == s.promises + [rejection]
      ensures accepting == old(accepting)
      ensures !accepting ==> id == 0 && rejection == [EventResult(0, RejectedStopped)]
      ensures accepting && old(last) == 0xFFFF_FFFF_FFFF_FFFF ==>
                id == 0 && rejection == [EventResult(0, RejectedIdExhausted)]
      ensures rejection != [] ==> events == old(events) && last == old(last)
      ensures accepting && old(last) != 0xFFFF_FFFF_FFFF_FFFF ==>
                && rejection == [] && id == last == old(last) + 1 && events == old(events) + [Queued(id, promise)]
    {
      if !accepting {
        return 0, [EventResult(0, RejectedStopped)];
      }
      if last == MAX_ID {
        return 0, [EventResult(0, RejectedIdExhausted)];
      }
      last := last + 1;
      events := events + [Queued(last, promise)];
      return last, [];
    }

    /** One pass through the consumer's critical section: what the consumer becomes. */
    method Take() returns (next: Consumer)
      modifies this
      ensures forall s :: old(Mirrors(s)) ==> Mirrors(DoCheck(s)) && DoCheck(s).consumer == next
      ensures accepting == old(accepting) && last == old(last)
      ensures old(events) == [] ==> events == [] && next == if accepting then Asleep else Exited
      ensures old(events) != [] ==> next == Executing(old(events)[0]) && events == old(events)[1..]
    {
      if accepting && events == [] {
        return Asleep;
      }
      if events == [] {
        return Exited;
      }
      next := Executing(events[0]);
      events := events[1..];
    }

    method CloseAdmission()
      modifies this
      ensures !accepting && events == old(events) && last == old(last)
      ensures forall s :: old(Mirrors(s)) && s.shutdown == NotCalled ==> Mirrors(Do(s, Close))
    {
      accepting := false;
    }
  }
}
