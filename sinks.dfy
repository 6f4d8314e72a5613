/**
  The delivery handle of one subscription: the sink that the stream
  primitive hands to the session when a caller starts a stream. A sink is
  modelled by what its observer sees, an ordered log of events:
  `sink.next(p)` offers `Next(p)`, `sink.complete()` offers `Complete`, and
  once the sink has completed whatever it is offered is ignored.
 */
module Sinks {

  import opened Protocol

  /** What an observer of a stream receives. */
  datatype Event = Next(payload: Payload) | Complete

  /** A log ends the stream once it holds a completion. */
  predicate Completed(events: seq<Event>) {
    Complete in events
  }

  /** The log after offering `e` to a sink whose log is `events`. */
  function Deliver(events: seq<Event>, e: Event): seq<Event> {
    if Completed(events) then events else events + [e]
  }

  /** A completion, if present, is the last event of the log. */
  ghost predicate WellFormed(events: seq<Event>) {
    forall i :: 0 <= i < |events| && events[i] == Complete ==> i == |events| - 1
  }

  /** Number of completions in a log. */
  function Completions(events: seq<Event>): nat {
    if events == [] then 0
    else Completions(events[..|events| - 1]) + (if events[|events| - 1] == Complete then 1 else 0)
  }

  /** The values delivered, in order. */
  function Values(events: seq<Event>): seq<Payload> {
    if events == [] then []
    else
      var last := events[|events| - 1];
      Values(events[..|events| - 1]) + (if last.Next? then [last.payload] else [])
  }

  /** The empty log is well formed and delivering keeps it so. */
  lemma DeliverKeepsWellFormed(events: seq<Event>, e: Event)
    requires WellFormed(events)
    ensures WellFormed(Deliver(events, e))
    ensures events <= Deliver(events, e)
  {
    if !Completed(events) {
      var r := events + [e];
      forall i | 0 <= i < |events| ensures r[i] == events[i] != Complete {
        assert events[i] in events;
      }
    }
  }

  /** A well-formed log records at most one completion. */
  lemma {:induction false} CompletesAtMostOnce(events: seq<Event>)
    requires WellFormed(events)
    ensures Completions(events) <= 1
    ensures Completions(events) == 1 <==> Completed(events)
  {
    if events != [] {
      var init := events[..|events| - 1];
      assert WellFormed(init);
      CompletesAtMostOnce(init);
      assert Complete !in init by {
        forall i | 0 <= i < |init| ensures init[i] != Complete {
          assert events[i] == init[i];
        }
      }
      assert events == init + [events[|events| - 1]];
    }
  }

  /** Completing a sink leaves exactly one completion in its log, whatever came before. */
  lemma CompleteDeliversOnce(events: seq<Event>)
    requires WellFormed(events)
    ensures Completions(Deliver(events, Complete)) == 1
    ensures Values(Deliver(events, Complete)) == Values(events)
  {
    DeliverKeepsWellFormed(events, Complete);
    CompletesAtMostOnce(Deliver(events, Complete));
    if !Completed(events) {
      assert (events + [Complete])[..|events|] == events;
    }
  }

  /** Once completed, a sink receives no further values. */
  lemma {:induction false} NoValuesAfterComplete(events: seq<Event>, updates: seq<Payload>)
    requires Completed(events)
    ensures DeliverAll(events, updates) == events
  {
    if updates != [] {
      NoValuesAfterComplete(events, updates[..|updates| - 1]);
    }
  }

  /** The log after offering each of `updates` in turn as a value. */
  function DeliverAll(events: seq<Event>, updates: seq<Payload>): seq<Event> {
    if updates == [] then events
    else Deliver(DeliverAll(events, updates[..|updates| - 1]), Next(updates[|updates| - 1]))
  }

  /** An open sink receives successive values in the order they were offered. */
  lemma {:induction false} ValuesInOrder(events: seq<Event>, updates: seq<Payload>)
    requires !Completed(events)
    ensures !Completed(DeliverAll(events, updates))
    ensures Values(DeliverAll(events, updates)) == Values(events) + updates
  {
    if updates != [] {
      var init := updates[..|updates| - 1];
      ValuesInOrder(events, init);
      var before := DeliverAll(events, init);
      var last := Next(updates[|updates| - 1]);
      assert (before + [last])[..|before|] == before;
      assert Complete !in before + [last];
      assert updates == init + [updates[|updates| - 1]];
    }
  }

  /** Completing an already completed sink changes nothing. */
  lemma CompleteIdempotent(events: seq<Event>)
    ensures Completed(Deliver(events, Complete))
    ensures Deliver(Deliver(events, Complete), Complete) == Deliver(events, Complete)
  {
    if !Completed(events) {
      assert (events + [Complete])[|events|] == Complete;
    }
  }

  /** The log kept under `k`; a sink that has not received anything has the empty log. */
  function Log(logs: map<nat, seq<Event>>, k: nat): seq<Event> {
    if k in logs then logs[k] else []
  }

  /**
    The sink logs after `sink.complete()` has been called, in turn, on the
    sink of each of `ids` (one log per subscription id).
   */
  function CompleteEach(logs: map<nat, seq<Event>>, ids: seq<nat>): (r: map<nat, seq<Event>>)
    ensures forall k :: k in r <==> k in logs || k in ids
  {
    if ids == [] then logs
    else
      var init, last := ids[..|ids| - 1], ids[|ids| - 1];
      assert ids == init + [last];
      var before := CompleteEach(logs, init);
      before[last := Deliver(Log(before, last), Complete)]
  }

  /** Each sink named in `ids`, once or more, ends up completed once; every other sink is untouched. */
  lemma {:induction false} CompleteEachAt(logs: map<nat, seq<Event>>, ids: seq<nat>, k: nat)
    ensures Log(CompleteEach(logs, ids), k) == if k in ids then Deliver(Log(logs, k), Complete) else Log(logs, k)
  {
    if ids != [] {
      var init, last := ids[..|ids| - 1], ids[|ids| - 1];
      CompleteEachAt(logs, init, k);
      assert ids == init + [last];
      if last == k {
        CompleteIdempotent(Log(logs, k));
      }
    }
  }
}
