/**
 * The part of an rxjs BehaviorSubject the router and its matchers rely on: `next`, `complete`,
 * and what a new subscriber is delivered. A BehaviorSubject starts with a seed value and replays
 * its latest value to each new subscriber. Values are kept as the log of everything emitted, so a
 * subscriber that joined at `cursor` has been delivered `log[cursor..]`.
 */
module Rx {

  class Subject<X> {
    /** Every value emitted so far, in order, starting with the seed. */
    var log: seq<X>
    var completed: bool

    /** The seed is never taken back: there is always a latest value. */
    ghost predicate Valid()
      reads this
    {
      log != []
    }

    /** `new BehaviorSubject(seed)`. */
    constructor Behavior(seed: X)
      ensures Valid()
      ensures log == [seed] && !completed
    {
      log := [seed];
      completed := false;
    }

    /** `subject.next(x)`: delivered to every subscriber, unless the subject has completed. */
    method Next(x: X)
      requires Valid()
      modifies this
      ensures Valid()
      ensures completed == old(completed)
      ensures log == if old(completed) then old(log) else old(log) + [x]
    {
      if !completed {
        log := log + [x];
      }
    }

    /** `subject.complete()`: no value is delivered after it. */
    method Complete()
      requires Valid()
      modifies this
      ensures Valid()
      ensures completed && log == old(log)
    {
      completed := true;
    }

    /** The values delivered to a subscriber that joined at `cursor`. */
    function Delivered(cursor: nat): seq<X>
      reads this
      requires cursor <= |log|
    {
      log[cursor..]
    }

    /**
     * `subject.subscribe(observer)`: a live BehaviorSubject delivers its current value at once,
     * so a new subscriber's first value is the latest one; a completed one delivers nothing.
     */
    method Subscribe() returns (cursor: nat)
      requires Valid()
      ensures cursor <= |log|
      ensures !completed ==> Delivered(cursor) == [log[|log| - 1]]
      ensures completed ==> Delivered(cursor) == []
    {
      if !completed {
        cursor := |log| - 1;
      } else {
        cursor := |log|;
      }
    }
  }
}
