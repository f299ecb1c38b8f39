/** Who owns each capture buffer of uvc/main.c: the log of the successful and rejected queue requests
    and of the dequeues, and what a log that breaks no rule guarantees. */
module Ownership {
  import opened Prelude

  datatype Event = Enqueued(index: nat) | Rejected(index: nat) | Dequeued(index: nat)

  /** idle: not handed to the driver yet; queued: with the driver; held: dequeued, being copied;
      lost: dequeued, but the driver refused to take it back. */
  datatype State = State(idle: set<nat>, queued: set<nat>, held: Option<nat>, lost: set<nat>)

  /** The rules. A buffer may be queued when it is idle or held, a buffer may be dequeued when it is
      queued, and at most one buffer is held. None marks a broken rule. */
  function Next(s: State, e: Event): Option<State> {
    match e
    case Enqueued(i) =>
      if s.held == Some(i) then Some(s.(queued := s.queued + {i}, held := None))
      else if s.held == None && i in s.idle then Some(s.(idle := s.idle - {i}, queued := s.queued + {i}))
      else None
    case Rejected(i) =>
      if s.held == Some(i) then Some(s.(held := None, lost := s.lost + {i}))
      else if s.held == None && i in s.idle then Some(s)
      else None
    case Dequeued(i) =>
      if s.held == None && i in s.queued then Some(s.(queued := s.queued - {i}, held := Some(i)))
      else None
  }

  function Indices(count: nat): (r: set<nat>)
    ensures forall i :: i in r <==> 0 <= i < count
  {
    if count == 0 then {} else Indices(count - 1) + {count - 1}
  }

  /** The owners after a log that starts with `count` idle buffers. */
  function Replay(count: nat, log: seq<Event>): Option<State> {
    if |log| == 0 then Some(State(Indices(count), {}, None, {}))
    else
      var before := Replay(count, log[..|log| - 1]);
      if before == None then None else Next(before.value, log[|log| - 1])
  }

  function HeldSet(s: State): set<nat> {
    if s.held == None then {} else {s.held.value}
  }

  /** Every buffer has exactly one owner. */
  ghost predicate Partition(s: State, count: nat) {
    && s.idle + s.queued + HeldSet(s) + s.lost == Indices(count)
    && s.idle !! s.queued !! HeldSet(s) !! s.lost
  }

  lemma {:induction false} ReplayPartition(count: nat, log: seq<Event>)
    requires Replay(count, log).Some?
    ensures Partition(Replay(count, log).value, count)
  {
    if |log| > 0 {
      ReplayPartition(count, log[..|log| - 1]);
    }
  }

  lemma {:induction false} IndicesSize(count: nat)
    ensures |Indices(count)| == count
  {
    if count > 0 {
      IndicesSize(count - 1);
    }
  }

  /** Buffers are conserved. */
  lemma BuffersConserved(count: nat, log: seq<Event>)
    requires Replay(count, log).Some?
    ensures var s := Replay(count, log).value;
            |s.idle| + |s.queued| + |HeldSet(s)| + |s.lost| == count
  {
    ReplayPartition(count, log);
    IndicesSize(count);
    var s := Replay(count, log).value;
    var a, b := s.idle + s.queued, s.idle + s.queued + HeldSet(s);
    assert |a| == |s.idle| + |s.queued|;
    assert |b| == |a| + |HeldSet(s)|;
    assert |b + s.lost| == |b| + |s.lost|;
  }

  function Enqueues(log: seq<Event>): nat {
    if |log| == 0 then 0 else Enqueues(log[..|log| - 1]) + if log[|log| - 1].Enqueued? then 1 else 0
  }

  function Dequeues(log: seq<Event>): nat {
    if |log| == 0 then 0 else Dequeues(log[..|log| - 1]) + if log[|log| - 1].Dequeued? then 1 else 0
  }

  /** The driver has what was queued less what was dequeued. */
  lemma {:induction false} QueuedIsBalance(count: nat, log: seq<Event>)
    requires Replay(count, log).Some?
    ensures |Replay(count, log).value.queued| == Enqueues(log) - Dequeues(log)
  {
    if |log| > 0 {
      var front := log[..|log| - 1];
      QueuedIsBalance(count, front);
      ReplayPartition(count, front);
    }
  }

  lemma {:induction false} ReplayPrefix(count: nat, log: seq<Event>, k: nat)
    requires k <= |log| && Replay(count, log).Some?
    ensures Replay(count, log[..k]).Some?
    ensures k < |log| ==> Next(Replay(count, log[..k]).value, log[k]) == Replay(count, log[..k + 1])
    decreases |log|
  {
    if k < |log| {
      var front := log[..|log| - 1];
      ReplayPrefix(count, front, k);
      assert log[..k] == front[..k];
      if k + 1 < |log| {
        assert log[..k + 1] == front[..k + 1];
      } else {
        assert log[..k + 1] == log && front[..k] == front;
      }
    } else {
      assert log[..k] == log;
    }
  }

  /** No buffer is queued twice: between two queueings of an index it was dequeued. */
  lemma NeverQueuedTwice(count: nat, log: seq<Event>, j: nat, k: nat)
    requires Replay(count, log).Some? && j < k < |log|
    requires log[j].Enqueued? && log[k] == log[j]
    ensures exists m :: j < m < k && log[m] == Dequeued(log[j].index)
  {
    var i := log[j].index;
    if forall m :: j < m < k ==> log[m] != Dequeued(i) {
      ReplayPrefix(count, log, j);
      ReplayPrefix(count, log, j + 1);
      StaysQueued(count, log, i, j + 1, k);
      ReplayPrefix(count, log, k);
      ReplayPrefix(count, log, k + 1);
      ReplayPartition(count, log[..k]);
      assert false;
    }
  }

  lemma {:induction false} StaysQueued(count: nat, log: seq<Event>, i: nat, j: nat, k: nat)
    requires Replay(count, log).Some? && j <= k <= |log|
    requires Replay(count, log[..j]).Some? && i in Replay(count, log[..j]).value.queued
    requires forall m :: j <= m < k ==> log[m] != Dequeued(i)
    ensures Replay(count, log[..k]).Some? && i in Replay(count, log[..k]).value.queued
    decreases k
  {
    if j < k {
      StaysQueued(count, log, i, j, k - 1);
      ReplayPrefix(count, log, k - 1);
      ReplayPrefix(count, log, k);
    }
  }

  /** At most one buffer is out for copying: between two dequeues the first one was given back or
      refused. */
  lemma OneOutAtATime(count: nat, log: seq<Event>, j: nat, k: nat)
    requires Replay(count, log).Some? && j < k < |log|
    requires log[j].Dequeued? && log[k].Dequeued?
    ensures exists m :: j < m < k && (log[m] == Enqueued(log[j].index) || log[m] == Rejected(log[j].index))
  {
    ReplayPrefix(count, log, j);
    ReplayPrefix(count, log, j + 1);
    ReplayPrefix(count, log, j + 2);
    if j + 1 < k {
      assert log[j + 1] == Enqueued(log[j].index) || log[j + 1] == Rejected(log[j].index);
    }
  }
}
