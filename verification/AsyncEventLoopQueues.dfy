/**
 The object whose fields `mutex_` guards. Each method is the body of one critical section, and its contract
 is the section's effect in the transition system, so every run of the object's methods under the lock is
 covered by the theorems about runs.
 */
module AsyncEventLoopQueues {
  import opened Common
  import opened AsyncEventLoop
  import opened AsyncEventLoopEffects

  datatype EventData = IntData(i: int) | RealData(r: real) | TextData(s: string)

  datatype Event = Event(name: string, data: EventData)

  class LoopQueues {
    var delayed: seq<DelayedTask>
    var ready: seq<Frame>
    var waiters: map<string, seq<Frame>>
    var nextSequence: nat
    var accepting: bool
    var stopping: bool
    var slots: map<Frame, Event>    // the event each awaiter gives to its frame when it is resumed

    ghost function Data(): Queues
      reads this
    {
      Queues(delayed, ready, waiters, nextSequence, accepting, stopping)
    }

    constructor ()
      ensures Data() == Queues([], [], map[], 0, true, false) && slots == map[]
    {
      delayed, ready, waiters, nextSequence, accepting, stopping := [], [], map[], 0, true, false;
      slots := map[];
    }

    method EnqueueAfter(now: Time, delay: Time, f: Frame) returns (accepted: bool)
      modifies this`delayed, this`nextSequence
      ensures accepted == old(accepting)
      ensures Data() == if accepted then Enqueue(old(Data()), now, DelayAwait(delay), f) else old(Data())
      ensures accepted ==>
                var until := if delay < 0 then now else now + delay;
                AddsOne(old(delayed), delayed, DelayedTask(until, old(nextSequence), f))
      ensures slots == old(slots)
    {
      if !accepting {
        return false;
      }
      var deadline := if delay < 0 then now else now + delay;
      var e := DelayedTask(deadline, nextSequence, f);
      InsertAdds(delayed, e);
      delayed := InsertDelayed(delayed, e);
      nextSequence := (nextSequence + 1) % SEQUENCE_MODULUS;
      return true;
    }

    method EnqueueReady(f: Frame) returns (accepted: bool)
      modifies this
      ensures accepted == old(accepting)
      ensures forall now :: Data() == if accepted then Enqueue(old(Data()), now, ReadyAwait, f) else old(Data())
      ensures accepted ==> ready == old(ready) + [f]
      ensures slots == old(slots)
    {
      if !accepting {
        return false;
      }
      ready := ready + [f];
      return true;
    }

    method EnqueueEventWait(name: string, f: Frame) returns (accepted: bool)
      modifies this
      ensures accepted == old(accepting)
      ensures forall now :: Data() == if accepted then Enqueue(old(Data()), now, EventAwait(name), f) else old(Data())
      ensures accepted ==>
                var before := if name in old(waiters) then old(waiters)[name] else [];
                waiters == old(waiters)[name := before + [f]]
      ensures slots == if accepted then old(slots)[f := Event("", IntData(0))] else old(slots)
    {
      if !accepting {
        return false;
      }
      if name !in waiters {
        waiters := waiters[name := []];
      }
      waiters := waiters[name := waiters[name] + [f]];
      slots := slots[f := Event("", IntData(0))];
      return true;
    }

    /**
     Returns whether the loop accepts, and whether anything was made ready so that a notification is owed.
     Exactly the frames that waited for the name are given the event.
     */
    method EmitEvent(event: Event) returns (accepted: bool, notify: bool)
      modifies this
      ensures accepted == old(accepting) && notify == (accepted && event.name in old(waiters))
      ensures Data() == if notify then Emit(old(Data()), event.name) else old(Data())
      ensures notify ==> ready == old(ready) + old(waiters)[event.name] && waiters == old(waiters) - {event.name}
      ensures forall f :: f in slots <==> f in old(slots) || (notify && f in old(waiters)[event.name])
      ensures forall f :: f in slots ==>
                slots[f] == if notify && f in old(waiters)[event.name] then event else old(slots)[f]
    {
      if !accepting {
        return false, false;
      }
      if event.name !in waiters {
        return true, false;
      }
      var resumed := waiters[event.name];
      waiters := waiters - {event.name};
      for i := 0 to |resumed|
        invariant ready == old(ready) + resumed[..i]
        invariant forall f :: f in slots <==> f in old(slots) || f in resumed[..i]
        invariant forall f :: f in slots ==> slots[f] == if f in resumed[..i] then event else old(slots)[f]
        invariant delayed == old(delayed) && waiters == old(waiters) - {event.name}
        invariant nextSequence == old(nextSequence) && accepting && stopping == old(stopping)
      {
        slots := slots[resumed[i] := event];
        ready := ready + [resumed[i]];
        assert resumed[..i + 1] == resumed[..i] + [resumed[i]];
      }
      return true, true;
    }

    method DrainDelayed() returns (frames: seq<Frame>)
      modifies this`delayed
      ensures frames == FramesOf(old(delayed)) && delayed == []
    {
      frames := [];
      while delayed != []
        invariant frames + FramesOf(delayed) == FramesOf(old(delayed))
        decreases |delayed|
      {
        assert FramesOf(delayed) == [delayed[0].frame] + FramesOf(delayed[1..]);
        frames, delayed := frames + [delayed[0].frame], delayed[1..];
      }
    }

    /** All waiting frames, name by name in the order the map is walked. */
    method CollectWaiters() returns (frames: seq<Frame>, ghost order: seq<string>)
      ensures IsOrderOf(order, waiters.Keys) && frames == Flatten(waiters, order)
    {
      frames, order := [], [];
      var left := waiters.Keys;
      while left != {}
        invariant left <= waiters.Keys && Distinct(order)
        invariant forall n :: n in order <==> n in waiters && n !in left
        invariant frames == Flatten(waiters, order)
        decreases left
      {
        var n :| n in left;
        FlattenAppend(waiters, order, n);
        frames := frames + waiters[n];
        order := order + [n];
        left := left - {n};
      }
    }

    /** Closes the loop and hands over everything queued; `order` is the order the waiter map was walked in. */
    method Close() returns (cancelled: seq<Frame>, ghost order: seq<string>)
      modifies this
      ensures old(accepting) ==>
                && IsOrderOf(order, old(waiters).Keys)
                && cancelled == Drained(old(Data()), order) && Data() == Closed(old(Data()))
                && delayed == [] && ready == [] && waiters == map[] && !accepting && stopping
                && |old(delayed)| + |old(ready)| <= |cancelled|
                && (forall i :: 0 <= i < |old(delayed)| ==> cancelled[i] == old(delayed)[i].frame)
                && cancelled[|old(delayed)|..|old(delayed)| + |old(ready)|] == old(ready)
      ensures !old(accepting) ==> cancelled == [] && Data() == old(Data())
      ensures slots == old(slots)
    {
      if !accepting {
        return [], [];
      }
      accepting, stopping := false, true;
      var later := DrainDelayed();
      cancelled := later + ready;
      ready := [];
      var waiting, walked := CollectWaiters();
      cancelled, order := cancelled + waiting, walked;
      waiters := map[];
    }

    /** The first critical section of `run` when the wait has ended and the loop is not stopping. */
    method TakeReady() returns (frame: Option<Frame>)
      modifies this
      ensures frame.Some? <==> old(ready) != []
      ensures frame.Some? ==> old(ready) == ready + [frame.value]
      ensures Data() == old(Data()).(ready := ready) && (frame.None? ==> ready == old(ready))
      ensures frame.Some? && !stopping ==>
                forall s: State :: s.q == old(Data()) ==>
                  CheckFirst(s) == s.(worker := Holding(frame.value), q := Data())
      ensures slots == old(slots)
    {
      if ready == [] {
        return None;
      }
      var last := |ready| - 1;
      frame := Some(ready[last]);
      ready := ready[..last];
    }

    /** The end of the timed wait: the least entry, if it is due. */
    method TakeDue(now: Time) returns (frame: Option<Frame>)
      modifies this
      ensures frame.Some? <==> old(delayed) != [] && old(delayed)[0].time <= now
      ensures frame.Some? ==> frame.value == old(delayed)[0].frame && delayed == old(delayed)[1..]
      ensures Data() == old(Data()).(delayed := delayed) && (frame.None? ==> delayed == old(delayed))
      ensures frame.Some? && !stopping && ready == [] ==>
                forall s: State, deadline ::
                  s.q == old(Data()) && s.now == now && deadline <= old(delayed)[0].time ==>
                    CheckSecond(s, deadline, true) == s.(worker := Holding(frame.value), q := Data())
      ensures slots == old(slots)
    {
      if delayed != [] && delayed[0].time <= now {
        frame := Some(delayed[0].frame);
        delayed := delayed[1..];
      } else {
        frame := None;
      }
    }
  }

  lemma {:induction false} FlattenAppend(waiters: map<string, seq<Frame>>, order: seq<string>, n: string)
    requires n in waiters
    ensures Flatten(waiters, order + [n]) == Flatten(waiters, order) + waiters[n]
  {
    if order != [] {
      assert (order + [n])[1..] == order[1..] + [n];
      FlattenAppend(waiters, order[1..], n);
    }
  }
}
