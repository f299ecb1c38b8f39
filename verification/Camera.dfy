/** The capture buffers of uvc/main.c: `xioctl`, `camera_init`, `camera_start`, `camera_capture` and
    `camera_finish` against a driver whose answers are arbitrary within its contract. */
module Camera {
  import opened Prelude
  import opened Ownership

  // ----- xioctl -----

  /** One answer of ioctl(): success, -1 with EINTR, or -1 with any other error. */
  datatype Raw<+T> = Done(value: T) | Interrupted | Failed

  const TRIES := 100

  /** The answer of `xioctl`: None stands for -1. */
  function Resolve<T>(answers: nat -> Raw<T>, i: nat): Option<T>
    requires i <= TRIES
    decreases TRIES - i
  {
    if i == TRIES then None
    else match answers(i)
      case Done(v) => Some(v)
      case Failed => None
      case Interrupted => Resolve(answers, i + 1)
  }

  /** v is the first answer that is no interruption, and comes within 100 tries. */
  ghost predicate SucceedsWith<T(!new)>(answers: nat -> Raw<T>, v: T) {
    exists k :: 0 <= k < 100 && answers(k) == Done(v) && forall m :: 0 <= m < k ==> answers(m) == Interrupted
  }

  ghost predicate Succeeds<T(!new)>(answers: nat -> Raw<T>) {
    exists v :: SucceedsWith(answers, v)
  }

  /** `xioctl` succeeds with v exactly when one of the first 100 answers is v and all answers before
      it are interruptions. */
  lemma {:induction false} ResolveExactly<T>(answers: nat -> Raw<T>, i: nat, v: T)
    requires i <= 100
    ensures Resolve(answers, i) == Some(v) <==>
            exists k :: i <= k < 100 && answers(k) == Done(v) && forall m :: i <= m < k ==> answers(m) == Interrupted
    decreases 100 - i
  {
    if i < 100 {
      ResolveExactly(answers, i + 1, v);
      assert Resolve(answers, i) == Some(v) && answers(i).Done? ==> answers(i) == Done(v);
    }
  }

  lemma SucceedsExactly<T(!new)>(answers: nat -> Raw<T>)
    ensures forall v :: SucceedsWith(answers, v) <==> Resolve(answers, 0) == Some(v)
    ensures Succeeds(answers) <==> Resolve(answers, 0).Some?
  {
    forall v ensures SucceedsWith(answers, v) <==> Resolve(answers, 0) == Some(v) {
      ResolveExactly(answers, 0, v);
    }
    if Resolve(answers, 0).Some? {
      assert SucceedsWith(answers, Resolve(answers, 0).value);
    }
  }

  lemma ResolvedAtAll<T(!new)>(answers: nat -> Raw<T>)
    ensures Resolve(answers, 0).Some? <==>
            exists k :: 0 <= k < 100 && answers(k).Done? && forall m :: 0 <= m < k ==> answers(m) == Interrupted
  {
    SucceedsExactly(answers);
    hide Resolve;
    if k :| 0 <= k < 100 && answers(k).Done? && forall m :: 0 <= m < k ==> answers(m) == Interrupted {
      assert SucceedsWith(answers, answers(k).value);
    }
  }

  /** `xioctl` (uvc/main.c:28-34). */
  method Xioctl<T>(answers: nat -> Raw<T>) returns (r: Option<T>)
    ensures r == Resolve(answers, 0)
  {
    var i := 0;
    while i < TRIES
      invariant 0 <= i <= TRIES
      invariant Resolve(answers, 0) == Resolve(answers, i)
    {
      match answers(i) {
        case Done(v) => return Some(v);
        case Failed => return None;
        case Interrupted =>
      }
      i := i + 1;
    }
    return None;
  }

  // ----- One capture, and any number of them -----

  /** A dequeue: the buffer handed over and the `bytesused` bytes in it. */
  datatype Frame = Frame(index: nat, payload: seq<byte>)

  /** The driver's answers during one `camera_capture`. */
  datatype Answer = Answer(frame: Option<Frame>, requeued: bool)

  /** The driver's contract: it hands over a buffer it has, and no more bytes than the buffer holds. */
  predicate MayAnswer(s: State, lengths: seq<nat>, a: Answer) {
    a.frame.Some? ==>
      var f := a.frame.value;
      f.index in s.queued && f.index < |lengths| && |f.payload| <= lengths[f.index]
  }

  function Events(a: Answer): seq<Event> {
    match a.frame
    case None => []
    case Some(f) => [Dequeued(f.index), if a.requeued then Enqueued(f.index) else Rejected(f.index)]
  }

  /** The owners after one capture. */
  function AfterCapture(s: State, a: Answer): State {
    match a.frame
    case None => s
    case Some(f) => if a.requeued then s else s.(queued := s.queued - {f.index}, lost := s.lost + {f.index})
  }

  function AllEvents(answers: seq<Answer>): seq<Event> {
    if |answers| == 0 then [] else Events(answers[0]) + AllEvents(answers[1..])
  }

  predicate MayAnswerAll(s: State, lengths: seq<nat>, answers: seq<Answer>)
    decreases |answers|
  {
    |answers| == 0 ||
    (MayAnswer(s, lengths, answers[0]) && MayAnswerAll(AfterCapture(s, answers[0]), lengths, answers[1..]))
  }

  /** The captures whose re-queue failed. */
  function FailedRequeues(answers: seq<Answer>): nat {
    if |answers| == 0 then 0
    else (if answers[0].frame.Some? && !answers[0].requeued then 1 else 0) + FailedRequeues(answers[1..])
  }

  /** Between calls no buffer is held. */
  ghost predicate Resting(count: nat, log: seq<Event>) {
    Replay(count, log).Some? && Replay(count, log).value.held == None
  }

  lemma CaptureReplays(count: nat, log: seq<Event>, lengths: seq<nat>, a: Answer)
    requires Resting(count, log)
    requires MayAnswer(Replay(count, log).value, lengths, a)
    ensures Resting(count, log + Events(a))
    ensures Replay(count, log + Events(a)).value == AfterCapture(Replay(count, log).value, a)
  {
    var after := log + Events(a);
    if a.frame == None {
      assert after == log;
    } else {
      assert after[..|log| + 1][..|log|] == log;
      assert after[..|after| - 1] == after[..|log| + 1];
      ReplayPartition(count, log);
      var s := Replay(count, log).value;
      assert s.queued - {a.frame.value.index} + {a.frame.value.index} == s.queued;
    }
  }

  lemma CapturePartition(s: State, count: nat, lengths: seq<nat>, a: Answer)
    requires Partition(s, count) && MayAnswer(s, lengths, a)
    ensures Partition(AfterCapture(s, a), count)
  {
    if a.frame.Some? && !a.requeued {
      var i := a.frame.value.index;
      assert i in s.idle + s.queued + HeldSet(s) + s.lost;
    }
  }

  lemma CaptureCounts(s: State, count: nat, lengths: seq<nat>, a: Answer)
    requires Partition(s, count) && MayAnswer(s, lengths, a)
    ensures var s' := AfterCapture(s, a);
            && |s'.queued| == |s.queued| - FailedRequeues([a])
            && |s'.lost| == |s.lost| + FailedRequeues([a])
  {
    assert s.queued !! s.lost;
    hide Partition;
    assert FailedRequeues([a]) == (if a.frame.Some? && !a.requeued then 1 else 0);
    if a.frame.Some? && !a.requeued {
      var i := a.frame.value.index;
      assert |s.queued - {i}| == |s.queued| - 1 && |s.lost + {i}| == |s.lost| + 1;
    }
  }

  lemma FailedFirst(answers: seq<Answer>)
    requires |answers| > 0
    ensures FailedRequeues(answers) == FailedRequeues([answers[0]]) + FailedRequeues(answers[1..])
  {
    assert [answers[0]][1..] == [];
  }

  /** The owners after any number of captures. */
  function AfterCaptures(s: State, answers: seq<Answer>): State
    decreases |answers|
  {
    if |answers| == 0 then s else AfterCaptures(AfterCapture(s, answers[0]), answers[1..])
  }

  lemma Associative(a: seq<Event>, b: seq<Event>, c: seq<Event>)
    ensures (a + b) + c == a + (b + c)
  {
  }

  lemma {:induction false} CapturesReplay(count: nat, log: seq<Event>, lengths: seq<nat>, answers: seq<Answer>)
    requires Resting(count, log)
    requires MayAnswerAll(Replay(count, log).value, lengths, answers)
    ensures Resting(count, log + AllEvents(answers))
    ensures Replay(count, log + AllEvents(answers)).value == AfterCaptures(Replay(count, log).value, answers)
    decreases |answers|
  {
    if |answers| == 0 {
      assert log + AllEvents(answers) == log;
    } else {
      hide Replay, Events, AfterCapture, MayAnswer;
      var first, rest := Events(answers[0]), answers[1..];
      CaptureReplays(count, log, lengths, answers[0]);
      CapturesReplay(count, log + first, lengths, rest);
      Associative(log, first, AllEvents(rest));
    }
  }

  lemma {:induction false} CapturesCount(s: State, count: nat, lengths: seq<nat>, answers: seq<Answer>)
    requires Partition(s, count) && s.held == None && MayAnswerAll(s, lengths, answers)
    ensures var s' := AfterCaptures(s, answers);
            && Partition(s', count)
            && s'.held == None && s'.idle == s.idle
            && |s'.queued| == |s.queued| - FailedRequeues(answers)
            && |s'.lost| == |s.lost| + FailedRequeues(answers)
    decreases |answers|
  {
    if |answers| > 0 {
      var next := AfterCapture(s, answers[0]);
      assert next.held == None && next.idle == s.idle;
      CapturePartition(s, count, lengths, answers[0]);
      CaptureCounts(s, count, lengths, answers[0]);
      FailedFirst(answers);
      hide AfterCapture, MayAnswer, Partition, FailedRequeues;
      CapturesCount(next, count, lengths, answers[1..]);
    }
  }

  /** Over any sequence of captures with any answers the contract allows: no rule of buffer ownership
      is broken, so no buffer is queued twice and at most one is out; between calls none is out, and
      the driver has all buffers it had but one for each capture whose re-queue failed. */
  lemma CapturesKeepOwnership(count: nat, log: seq<Event>, lengths: seq<nat>, answers: seq<Answer>)
    requires Resting(count, log)
    requires MayAnswerAll(Replay(count, log).value, lengths, answers)
    ensures Resting(count, log + AllEvents(answers))
    ensures var s, s' := Replay(count, log).value, Replay(count, log + AllEvents(answers)).value;
            && s'.idle == s.idle
            && |s'.queued| == |s.queued| - FailedRequeues(answers)
            && |s'.lost| == |s.lost| + FailedRequeues(answers)
  {
    CapturesReplay(count, log, lengths, answers);
    ReplayPartition(count, log);
    CapturesCount(Replay(count, log).value, count, lengths, answers);
  }

  /** The log of `camera_start` when the driver accepts every buffer. */
  function StartLog(n: nat): seq<Event> {
    if n == 0 then [] else StartLog(n - 1) + [Enqueued(n - 1)]
  }

  lemma {:induction false} StartReplays(count: nat, n: nat)
    requires n <= count
    ensures Resting(count, StartLog(n))
    ensures Replay(count, StartLog(n)).value == State(Indices(count) - Indices(n), Indices(n), None, {})
  {
    if n > 0 {
      StartReplays(count, n - 1);
      assert StartLog(n)[..|StartLog(n)| - 1] == StartLog(n - 1);
    }
  }

  /** After `camera_start` and any captures, the driver has `count` buffers less the failed re-queues. */
  lemma QueuedCount(count: nat, lengths: seq<nat>, answers: seq<Answer>)
    requires MayAnswerAll(State({}, Indices(count), None, {}), lengths, answers)
    ensures var log := StartLog(count) + AllEvents(answers);
            && Resting(count, log)
            && |Replay(count, log).value.queued| == count - FailedRequeues(answers)
  {
    StartReplays(count, count);
    assert Indices(count) - Indices(count) == {};
    IndicesSize(count);
    CapturesKeepOwnership(count, StartLog(count), lengths, answers);
  }

  function MaxLength(lengths: seq<nat>): (max: nat)
    ensures forall i :: 0 <= i < |lengths| ==> lengths[i] <= max
    ensures max == 0 || max in lengths
  {
    if |lengths| == 0 then 0
    else
      var m := MaxLength(lengths[..|lengths| - 1]);
      var last := lengths[|lengths| - 1];
      if last > m then last else m
  }

  lemma MaxAppend(lengths: seq<nat>, last: nat)
    ensures MaxLength(lengths + [last]) == if last > MaxLength(lengths) then last else MaxLength(lengths)
  {
    assert (lengths + [last])[..|lengths|] == lengths;
  }

  lemma MaxEmpty()
    ensures MaxLength([]) == 0
  {
  }

  // ----- The driver and the kernel -----

  /** The environment: the buffers the driver granted, the mappings mmap() made of them, and the log
      of the queue requests. Its methods are the effects of successful calls. */
  class Device {
    var regions: seq<array<byte>>           // what mmap() returned, buffer by buffer
    var live: set<array<byte>>              // mapped and not yet unmapped
    ghost var unmapped: seq<array<byte>>    // the arguments of munmap(), in order
    ghost var log: seq<Event>

    constructor ()
      ensures regions == [] && live == {} && unmapped == [] && log == []
    {
      regions, live, unmapped, log := [], {}, [], [];
    }

    /** mmap(): a new region of the given length. */
    method Mmap(length: nat) returns (start: array<byte>)
      modifies this`regions, this`live
      ensures fresh(start) && start.Length == length
      ensures regions == old(regions) + [start] && live == old(live) + {start}
    {
      start := new byte[length](_ => 0);
      regions, live := regions + [start], live + {start};
    }

    /** munmap(): only of a live mapping, with its own start and length. */
    method Munmap(start: array<byte>, length: nat)
      requires start in live && start.Length == length
      modifies this`live, this`unmapped
      ensures live == old(live) - {start} && unmapped == old(unmapped) + [start]
    {
      live, unmapped := live - {start}, unmapped + [start];
    }

    /** VIDIOC_DQBUF succeeded: the payload is in the region of the buffer. */
    method Dequeue(frame: Frame)
      requires frame.index < |regions| && |frame.payload| <= regions[frame.index].Length
      modifies this`log, regions[frame.index]
      ensures log == old(log) + [Dequeued(frame.index)]
      ensures regions[frame.index][..|frame.payload|] == frame.payload
    {
      var region := regions[frame.index];
      forall k | 0 <= k < |frame.payload| {
        region[k] := frame.payload[k];
      }
      log := log + [Dequeued(frame.index)];
    }

    /** VIDIOC_QBUF, accepted or refused. */
    method Queue(index: nat, accepted: bool)
      modifies this`log
      ensures log == old(log) + [if accepted then Enqueued(index) else Rejected(index)]
    {
      log := log + [if accepted then Enqueued(index) else Rejected(index)];
    }
  }

  // ----- camera_t -----

  ghost predicate Distinct(regions: seq<array<byte>>) {
    forall i, j :: 0 <= i < j < |regions| ==> regions[i] != regions[j]
  }

  datatype Buffer = Buffer(start: array?<byte>, length: nat)

  datatype Outcome = Ready | Quit(message: string)

  /** What the driver answers to `camera_init`, each as resolved by `xioctl`: the two capability bits,
      the format request, the granted count, and for each buffer its length and whether it maps. */
  datatype InitAnswers = InitAnswers(
    capabilities: Option<(bool, bool)>, format: bool, request: Option<nat>,
    query: nat -> Option<nat>, maps: nat -> bool)

  /** The first of the buffers i, i + 1, ... that fails, if any. */
  function BufferOutcome(a: InitAnswers, i: nat, count: nat): Outcome
    requires i <= count
    decreases count - i
  {
    if i == count then Ready
    else if a.query(i) == None then Quit("VIDIOC_QUERYBUF")
    else if !a.maps(i) then Quit("mmap")
    else BufferOutcome(a, i + 1, count)
  }

  function InitOutcome(a: InitAnswers): Outcome {
    if a.capabilities == None then Quit("VIDIOC_QUERYCAP")
    else if !a.capabilities.value.0 then Quit("no capture")
    else if !a.capabilities.value.1 then Quit("no streaming")
    else if !a.format then Quit("VIDIOC_S_FMT")
    else if a.request == None then Quit("VIDIOC_REQBUFS")
    else BufferOutcome(a, 0, a.request.value)
  }

  /** Buffer i is described and mapped. */
  predicate BufferWorks(a: InitAnswers, i: nat) {
    a.query(i).Some? && a.maps(i)
  }

  /** Buffer i is the first one that fails, at the request or at the mapping. */
  ghost predicate FirstBad(a: InitAnswers, from: nat, count: nat, i: nat, described: bool) {
    from <= i < count && a.query(i).Some? == described && !BufferWorks(a, i)
    && forall k :: from <= k < i ==> BufferWorks(a, k)
  }

  lemma {:induction false} BufferOutcomeExactly(a: InitAnswers, i: nat, count: nat)
    requires i <= count
    ensures BufferOutcome(a, i, count) == Ready <==> forall k :: i <= k < count ==> BufferWorks(a, k)
    ensures BufferOutcome(a, i, count) == Quit("VIDIOC_QUERYBUF") <==> exists k :: FirstBad(a, i, count, k, false)
    ensures BufferOutcome(a, i, count) == Quit("mmap") <==> exists k :: FirstBad(a, i, count, k, true)
    ensures var o := BufferOutcome(a, i, count); o == Ready || o == Quit("VIDIOC_QUERYBUF") || o == Quit("mmap")
    decreases count - i
  {
    DistinctMessages();
    if i < count && BufferWorks(a, i) {
      var next := i + 1;
      BufferOutcomeExactly(a, next, count);
      assert forall k, described :: FirstBad(a, i, count, k, described) ==> FirstBad(a, next, count, k, described);
      assert forall k, described :: FirstBad(a, next, count, k, described) ==> FirstBad(a, i, count, k, described);
    } else if i < count {
      assert FirstBad(a, i, count, i, a.query(i).Some?);
      assert forall k, described :: FirstBad(a, i, count, k, described) ==> k == i;
    }
  }

  /** The messages of equal length. */
  lemma DistinctMessages()
    ensures "VIDIOC_QUERYCAP" != "VIDIOC_QUERYBUF" && "VIDIOC_S_FMT" != "no streaming"
  {
    assert "VIDIOC_QUERYCAP"[12] != "VIDIOC_QUERYBUF"[12];
    assert "VIDIOC_S_FMT"[0] != "no streaming"[0];
  }

  /** What decides the outcome of `camera_init`: it is ready exactly if every request succeeds, and each
      message stands for the failure of its request after the success of all before it. */
  lemma InitOutcomeExactly(a: InitAnswers)
    ensures InitOutcome(a) == Ready <==>
            a.capabilities == Some((true, true)) && a.format && a.request.Some?
            && forall i :: 0 <= i < a.request.value ==> a.query(i).Some? && a.maps(i)
    ensures InitOutcome(a) == Quit("VIDIOC_QUERYCAP") <==> a.capabilities == None
    ensures InitOutcome(a) == Quit("no capture") <==> a.capabilities.Some? && !a.capabilities.value.0
    ensures InitOutcome(a) == Quit("no streaming") <==> a.capabilities == Some((true, false))
    ensures InitOutcome(a) == Quit("VIDIOC_S_FMT") <==> a.capabilities == Some((true, true)) && !a.format
    ensures InitOutcome(a) == Quit("VIDIOC_REQBUFS") <==>
            a.capabilities == Some((true, true)) && a.format && a.request == None
    ensures InitOutcome(a) == Quit("VIDIOC_QUERYBUF") <==>
            a.capabilities == Some((true, true)) && a.format && a.request.Some?
            && exists i :: FirstBad(a, 0, a.request.value, i, false)
    ensures InitOutcome(a) == Quit("mmap") <==>
            a.capabilities == Some((true, true)) && a.format && a.request.Some?
            && exists i :: FirstBad(a, 0, a.request.value, i, true)
  {
    DistinctMessages();
    if a.request.Some? {
      BufferOutcomeExactly(a, 0, a.request.value);
      assert forall i: nat :: BufferWorks(a, i) <==> a.query(i).Some? && a.maps(i);
    }
    hide BufferOutcome, FirstBad;
  }

  /** The lengths the driver reports for the first n buffers. */
  function ReportedLengths(a: InitAnswers, n: nat): (lengths: seq<nat>)
    ensures |lengths| == n
    ensures forall i :: 0 <= i < n ==> lengths[i] == a.query(i).GetOr(0)
  {
    if n == 0 then [] else ReportedLengths(a, n - 1) + [a.query(n - 1).GetOr(0)]
  }

  ghost predicate FirstRefused(accepts: nat -> bool, i: nat) {
    !accepts(i) && forall k :: 0 <= k < i ==> accepts(k)
  }

  class Camera {
    var bufferCount: nat
    var buffers: array?<Buffer>
    var headStart: array?<byte>
    var headLength: nat
    ghost var lengths: seq<nat>

    /** `camera_open` after a successful open(). */
    constructor ()
      ensures Closed()
    {
      bufferCount, buffers, headStart, headLength, lengths := 0, null, null, 0, [];
    }

    ghost predicate Closed()
      reads this
    {
      bufferCount == 0 && buffers == null && headStart == null && headLength == 0
    }

    /** The first n buffers describe the first n mappings of the device. */
    ghost predicate Mapped(dev: Device, n: nat)
      reads this, buffers, dev
    {
      && buffers != null && n <= buffers.Length && n == |dev.regions| == |lengths|
      && (forall i :: 0 <= i < n ==> buffers[i] == Buffer(dev.regions[i], lengths[i]))
      && (forall i :: 0 <= i < n ==> dev.regions[i].Length == lengths[i])
      && Distinct(dev.regions)
      && dev.live == (set r | r in dev.regions)
    }

    /** The first n mappings are gone, the others are live. */
    ghost predicate UnmappedUpTo(dev: Device, n: nat)
      reads this, buffers, dev
    {
      && buffers != null && n <= bufferCount == buffers.Length == |dev.regions| == |lengths|
      && (forall i :: 0 <= i < bufferCount ==> buffers[i] == Buffer(dev.regions[i], lengths[i]))
      && (forall i :: 0 <= i < bufferCount ==> dev.regions[i].Length == lengths[i])
      && Distinct(dev.regions)
      && dev.live == (set r | r in dev.regions[n..])
    }

    /** Initialised: every buffer is mapped and the head holds the largest of them. */
    ghost predicate Valid(dev: Device)
      reads this, buffers, dev
    {
      && Mapped(dev, bufferCount) && buffers.Length == bufferCount
      && headStart != null && headStart !in dev.regions
      && headStart.Length == MaxLength(lengths) && headLength <= headStart.Length
    }

    /** The bytes the head holds. */
    ghost function Head(dev: Device): seq<byte>
      requires Valid(dev)
      reads this, buffers, dev, headStart
    {
      headStart[..headLength]
    }

    /** `camera_init` (uvc/main.c:66-119). */
    method Init(dev: Device, a: InitAnswers) returns (outcome: Outcome)
      requires Closed() && dev.regions == [] && dev.live == {}
      modifies this, dev`regions, dev`live
      ensures outcome == InitOutcome(a)
      ensures outcome == Ready <==>
        a.capabilities == Some((true, true)) && a.format && a.request.Some?
        && forall i :: 0 <= i < a.request.value ==> a.query(i).Some? && a.maps(i)
      ensures outcome == Ready ==>
        Valid(dev) && lengths == ReportedLengths(a, |lengths|) && Some(bufferCount) == a.request
      ensures outcome == Ready ==> fresh(buffers) && fresh(headStart) && headLength == 0
      ensures outcome == Ready ==> forall k :: 0 <= k < |dev.regions| ==> fresh(dev.regions[k])
    {
      hide BufferOutcome, ReportedLengths, MaxLength, FirstBad;
      InitOutcomeExactly(a);
      if a.capabilities == None { return Quit("VIDIOC_QUERYCAP"); }
      if !a.capabilities.value.0 { return Quit("no capture"); }
      if !a.capabilities.value.1 { return Quit("no streaming"); }
      if !a.format { return Quit("VIDIOC_S_FMT"); }
      if a.request == None { return Quit("VIDIOC_REQBUFS"); }
      bufferCount := a.request.value;
      buffers := new Buffer[bufferCount](_ => Buffer(null, 0));
      lengths := [];
      var max;
      outcome, max := MapBuffers(dev, a);
      if outcome == Ready {
        headStart := new byte[max](_ => 0);
      }
    }

    /** Its loop over the buffers, which also keeps the running maximum of their lengths. */
    method MapBuffers(dev: Device, a: InitAnswers) returns (outcome: Outcome, max: nat)
      requires buffers != null && buffers.Length == bufferCount
      requires Mapped(dev, 0)
      modifies buffers, `lengths, dev`regions, dev`live
      ensures outcome == BufferOutcome(a, 0, bufferCount)
      ensures outcome == Ready ==>
        Mapped(dev, bufferCount) && lengths == ReportedLengths(a, |lengths|) && max == MaxLength(lengths)
      ensures forall k :: 0 <= k < |dev.regions| ==> fresh(dev.regions[k])
    {
      hide MaxLength;
      MaxEmpty();
      max := 0;
      var i := 0;
      while i < bufferCount
        invariant 0 <= i <= bufferCount
        invariant Mapped(dev, i) && lengths == ReportedLengths(a, |lengths|) && max == MaxLength(lengths)
        invariant forall k :: 0 <= k < i ==> fresh(dev.regions[k])
        invariant BufferOutcome(a, 0, bufferCount) == BufferOutcome(a, i, bufferCount)
      {
        var length := a.query(i);
        if length == None { return Quit("VIDIOC_QUERYBUF"), max; }
        if length.value > max { max := length.value; }
        if !a.maps(i) { return Quit("mmap"), max; }
        ghost var before := lengths;
        MapBuffer(dev, i, length.value);
        MaxAppend(before, length.value);
        i := i + 1;
      }
      return Ready, max;
    }

    method MapBuffer(dev: Device, i: nat, length: nat)
      requires Mapped(dev, i) && i < buffers.Length
      modifies buffers, `lengths, dev`regions, dev`live
      ensures Mapped(dev, i + 1) && lengths == old(lengths) + [length]
      ensures dev.regions == old(dev.regions) + [dev.regions[i]] && fresh(dev.regions[i])
    {
      var start := dev.Mmap(length);
      buffers[i] := Buffer(start, length);
      lengths := lengths + [length];
    }

    /** `camera_start` (uvc/main.c:122-135). */
    method Start(dev: Device, accepts: nat -> bool, streamOn: bool) returns (outcome: Outcome)
      requires Valid(dev) && dev.log == []
      modifies dev`log
      ensures outcome == Ready <==> streamOn && forall i :: 0 <= i < bufferCount ==> accepts(i)
      ensures outcome == Quit("VIDIOC_QBUF") <==> exists i :: 0 <= i < bufferCount && !accepts(i)
      ensures outcome == Ready || outcome == Quit("VIDIOC_QBUF") || outcome == Quit("VIDIOC_STREAMON")
      ensures outcome != Quit("VIDIOC_QBUF") ==> dev.log == StartLog(bufferCount)
      ensures outcome == Quit("VIDIOC_QBUF") ==>
        exists i: nat :: FirstRefused(accepts, i) && dev.log == StartLog(i) + [Rejected(i)]
    {
      var i := 0;
      while i < bufferCount
        invariant 0 <= i <= bufferCount
        invariant dev.log == StartLog(i) && forall k :: 0 <= k < i ==> accepts(k)
      {
        dev.Queue(i, accepts(i));
        if !accepts(i) {
          assert FirstRefused(accepts, i);
          return Quit("VIDIOC_QBUF");
        }
        i := i + 1;
      }
      return if streamOn then Ready else Quit("VIDIOC_STREAMON");
    }

    /** `camera_capture` (uvc/main.c:161-171), with the answers of ioctl() to its two requests. */
    method Capture(dev: Device, dequeue: nat -> Raw<Frame>, requeue: nat -> Raw<()>) returns (ok: bool)
      requires Valid(dev)
      requires Resting(bufferCount, dev.log)
      requires MayAnswer(Replay(bufferCount, dev.log).value, lengths, Resolved(dequeue, requeue))
      modifies this`headLength, headStart, dev`log, dev.regions
      ensures Valid(dev) && Resting(bufferCount, dev.log)
      ensures ok <==> Succeeds(dequeue) && Succeeds(requeue)
      ensures forall f :: SucceedsWith(dequeue, f) ==>
        && Head(dev) == f.payload
        && dev.log == old(dev.log) + [Dequeued(f.index),
                                      if Succeeds(requeue) then Enqueued(f.index) else Rejected(f.index)]
      ensures !Succeeds(dequeue) ==> dev.log == old(dev.log) && Head(dev) == old(Head(dev))
      ensures dev.log == old(dev.log) + Events(Resolved(dequeue, requeue))
      ensures Head(dev) == (if Resolved(dequeue, requeue).frame.Some?
                            then Resolved(dequeue, requeue).frame.value.payload else old(Head(dev)))
      ensures var a := Resolved(dequeue, requeue);
              && ok == (a.frame.Some? && a.requeued)
              && (a.frame == None ==> headLength == old(headLength) && headStart[..] == old(headStart[..]))
    {
      hide Replay, MaxLength, Resolve, Succeeds, SucceedsWith;
      SucceedsExactly(dequeue);
      SucceedsExactly(requeue);
      CaptureReplays(bufferCount, dev.log, lengths, Resolved(dequeue, requeue));
      var frame := Xioctl(dequeue);
      if frame == None { return false; }
      var Frame(index, payload) := frame.value;
      dev.Dequeue(frame.value);
      var source := buffers[index].start;
      forall k | 0 <= k < |payload| {
        headStart[k] := source[k];
      }
      headLength := |payload|;
      var again := Xioctl(requeue);
      dev.Queue(index, again.Some?);
      assert dev.log == old(dev.log) + Events(Resolved(dequeue, requeue));
      return again.Some?;
    }

    /** `camera_finish` (uvc/main.c:143-153). */
    method Finish(dev: Device)
      requires Valid(dev)
      modifies this, dev`live, dev`unmapped
      ensures Closed()
      ensures dev.live == {} && dev.unmapped == old(dev.unmapped) + dev.regions
    {
      var i := 0;
      assert dev.regions[0..] == dev.regions;
      while i < bufferCount
        invariant 0 <= i <= bufferCount && UnmappedUpTo(dev, i)
        invariant dev.unmapped == old(dev.unmapped) + dev.regions[..i]
      {
        dev.Munmap(buffers[i].start, buffers[i].length);
        i := i + 1;
      }
      bufferCount, buffers, headStart, headLength := 0, null, null, 0;
    }
  }

  /** The answers of ioctl() during one `camera_capture`. */
  datatype RawAnswer = RawAnswer(dequeue: nat -> Raw<Frame>, requeue: nat -> Raw<()>)

  /** The answers of `xioctl` to its two requests. */
  function Resolved(dequeue: nat -> Raw<Frame>, requeue: nat -> Raw<()>): Answer {
    Answer(Resolve(dequeue, 0), Resolve(requeue, 0).Some?)
  }

  /** The frame of the answer is the one the first request succeeds with, and the buffer is back with the
      driver exactly if the second one succeeds. */
  lemma ResolvedExactly(dequeue: nat -> Raw<Frame>, requeue: nat -> Raw<()>, f: Frame)
    ensures Resolved(dequeue, requeue).frame == Some(f) <==>
            exists k :: 0 <= k < 100 && dequeue(k) == Done(f) && forall m :: 0 <= m < k ==> dequeue(m) == Interrupted
    ensures Resolved(dequeue, requeue).requeued <==>
            exists k :: 0 <= k < 100 && requeue(k).Done? && forall m :: 0 <= m < k ==> requeue(m) == Interrupted
  {
    ResolveExactly(dequeue, 0, f);
    ResolvedAtAll(requeue);
    hide Resolve;
  }

  function ResolvedAll(raw: seq<RawAnswer>): (answers: seq<Answer>)
    ensures |answers| == |raw|
    ensures forall i :: 0 <= i < |raw| ==> answers[i] == Resolved(raw[i].dequeue, raw[i].requeue)
  {
    if |raw| == 0 then [] else [Resolved(raw[0].dequeue, raw[0].requeue)] + ResolvedAll(raw[1..])
  }

  /** The driver's contract for a whole run: it holds for each capture in turn. */
  ghost predicate DriverKeepsContract(a: InitAnswers, raw: seq<RawAnswer>) {
    a.request.Some? ==>
      MayAnswerAll(State({}, Indices(a.request.value), None, {}), ReportedLengths(a, a.request.value), ResolvedAll(raw))
  }

  /** The frame of the last successful dequeue. */
  function LastFrame(answers: seq<Answer>): (frame: Option<Frame>)
    ensures frame == None ==> forall k :: 0 <= k < |answers| ==> answers[k].frame == None
    ensures frame.Some? ==> exists i :: 0 <= i < |answers| && answers[i].frame == frame
                                        && forall k :: i < k < |answers| ==> answers[k].frame == None
  {
    if |answers| == 0 then None
    else
      var later := LastFrame(answers[1..]);
      if later.Some? then later else answers[0].frame
  }

  /** What the head holds after some captures. */
  function HeadAfter(head: seq<byte>, answers: seq<Answer>): seq<byte> {
    var last := LastFrame(answers);
    if last.Some? then last.value.payload else head
  }

  lemma HeadNone(head: seq<byte>)
    ensures HeadAfter(head, []) == head
  {
  }

  lemma HeadStep(head: seq<byte>, next: seq<byte>, answers: seq<Answer>)
    requires |answers| > 0
    requires next == if answers[0].frame.Some? then answers[0].frame.value.payload else head
    ensures HeadAfter(head, answers) == HeadAfter(next, answers[1..])
  {
  }

  /** Any number of captures in a row (uvc/main.c:254-257). The head then holds the payload of the last
      frame that was dequeued, whether or not later captures failed. */
  method CaptureAll(cam: Camera, dev: Device, raw: seq<RawAnswer>)
    requires cam.Valid(dev) && Resting(cam.bufferCount, dev.log)
    requires MayAnswerAll(Replay(cam.bufferCount, dev.log).value, cam.lengths, ResolvedAll(raw))
    modifies cam`headLength, cam.headStart, dev`log, dev.regions
    ensures cam.Valid(dev)
    ensures dev.log == old(dev.log) + AllEvents(ResolvedAll(raw))
    ensures cam.Head(dev) == HeadAfter(old(cam.Head(dev)), ResolvedAll(raw))
  {
    hide Camera.Valid, Camera.Head, Replay, Events, AfterCapture, MayAnswer, Resolved, HeadAfter;
    var i := 0;
    assert raw[0..] == raw;
    while i < |raw|
      invariant 0 <= i <= |raw|
      invariant cam.Valid(dev) && Resting(cam.bufferCount, dev.log)
      invariant MayAnswerAll(Replay(cam.bufferCount, dev.log).value, cam.lengths, ResolvedAll(raw[i..]))
      invariant dev.log + AllEvents(ResolvedAll(raw[i..])) == old(dev.log) + AllEvents(ResolvedAll(raw))
      invariant HeadAfter(cam.Head(dev), ResolvedAll(raw[i..])) == HeadAfter(old(cam.Head(dev)), ResolvedAll(raw))
    {
      ghost var log, answer := dev.log, Resolved(raw[i].dequeue, raw[i].requeue);
      ghost var head := cam.Head(dev);
      assert raw[i..][0] == raw[i] && raw[i..][1..] == raw[i + 1..];
      assert ResolvedAll(raw[i..])[1..] == ResolvedAll(raw[i + 1..]);
      var _ := cam.Capture(dev, raw[i].dequeue, raw[i].requeue);
      CaptureReplays(cam.bufferCount, log, cam.lengths, answer);
      Associative(log, Events(answer), AllEvents(ResolvedAll(raw[i + 1..])));
      HeadStep(head, cam.Head(dev), ResolvedAll(raw[i..]));
      i := i + 1;
    }
    HeadNone(cam.Head(dev));
  }

  /** Captures and `camera_finish` on a started camera: every mapping is unmapped once, with its own
      start and length, and the driver has kept every buffer but those it refused to take back. */
  method CaptureAndFinish(cam: Camera, dev: Device, raw: seq<RawAnswer>)
    requires cam.Valid(dev) && dev.unmapped == [] && dev.log == StartLog(cam.bufferCount)
    requires MayAnswerAll(State({}, Indices(cam.bufferCount), None, {}), cam.lengths, ResolvedAll(raw))
    modifies cam, cam.headStart, dev`log, dev`live, dev`unmapped, dev.regions
    ensures cam.Closed() && dev.live == {} && dev.unmapped == dev.regions && Distinct(dev.regions)
    ensures dev.log == StartLog(|dev.regions|) + AllEvents(ResolvedAll(raw))
    ensures OwnershipKept(|dev.regions|, dev.log, FailedRequeues(ResolvedAll(raw)))
  {
    hide Replay, Resting, Indices, MayAnswerAll, MaxLength, AllEvents, ResolvedAll, StartLog,
         FailedRequeues, OwnershipKept;
    SessionOwnership(cam.bufferCount, cam.lengths, ResolvedAll(raw));
    assert |dev.regions| == cam.bufferCount && Distinct(dev.regions);
    hide Distinct, Camera.Valid;
    CaptureAll(cam, dev, raw);
    cam.Finish(dev);
  }

  lemma SessionOwnership(count: nat, lengths: seq<nat>, answers: seq<Answer>)
    requires MayAnswerAll(State({}, Indices(count), None, {}), lengths, answers)
    ensures Resting(count, StartLog(count))
    ensures Replay(count, StartLog(count)).value == State({}, Indices(count), None, {})
    ensures OwnershipKept(count, StartLog(count) + AllEvents(answers), FailedRequeues(answers))
  {
    StartReplays(count, count);
    assert Indices(count) - Indices(count) == {};
    QueuedCount(count, lengths, answers);
  }

  /** No rule is broken, no buffer is out, and the driver has all but `refused` of them. */
  ghost predicate OwnershipKept(count: nat, log: seq<Event>, refused: nat) {
    Resting(count, log) && |Replay(count, log).value.queued| == count - refused
  }

  /** A whole session of `main`: init, start, any captures, finish. It is ready exactly if no step of
      init and start fails, and then every mapping was unmapped exactly once, none is live, the head is
      gone, and no ownership rule was broken. */
  method Session(dev: Device, a: InitAnswers, accepts: nat -> bool, streamOn: bool, raw: seq<RawAnswer>)
    returns (outcome: Outcome, cam: Camera)
    requires dev.regions == [] && dev.live == {} && dev.unmapped == [] && dev.log == []
    requires DriverKeepsContract(a, raw)
    modifies dev
    ensures outcome == Ready <==>
      a.capabilities == Some((true, true)) && a.format && a.request.Some? && streamOn
      && forall i :: 0 <= i < a.request.value ==> a.query(i).Some? && a.maps(i) && accepts(i)
    ensures InitOutcome(a) != Ready ==> outcome == InitOutcome(a)
    ensures outcome == Ready ==>
      && cam.Closed() && a.request == Some(|dev.regions|)
      && dev.live == {} && dev.unmapped == dev.regions && Distinct(dev.regions)
      && dev.log == StartLog(|dev.regions|) + AllEvents(ResolvedAll(raw))
      && OwnershipKept(|dev.regions|, dev.log, FailedRequeues(ResolvedAll(raw)))
  {
    hide Replay, Indices, MayAnswerAll, MaxLength, AllEvents, ResolvedAll, Distinct, InitOutcome, OwnershipKept;
    cam := new Camera();
    outcome := cam.Init(dev, a);
    if outcome != Ready { return; }
    outcome := cam.Start(dev, accepts, streamOn);
    if outcome != Ready { return; }
    CaptureAndFinish(cam, dev, raw);
  }
}
