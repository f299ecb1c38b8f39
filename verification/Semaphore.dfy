/** The producers and consumers of ipc/semaphore.c: any number of threads of both kinds, and `main`,
    interleaved step by step over one semaphore and the flag `quit`. sem_post() and sem_timedwait() may
    fail or time out at any time, and then change nothing. */
module Semaphore {
  import opened Runs
  import opened Sums

  /** A thread is not created yet; about to test `quit`; in sem_post() or sem_timedwait(); in sleep()
      (producers only); or has returned. */
  datatype ThreadPc = Unborn | Testing | Calling | Sleeping | Done

  /** `count` is the number of its successful posts or takes. */
  datatype Thread = Thread(pc: ThreadPc, count: nat)

  /** Where `main` is: creating or joining thread k, in getchar(), about to set `quit`, about to call
      sem_destroy(), or past it. Stray: it has called pthread_join() for a thread that was never created. */
  datatype MainPc =
    | StartingProducers(k: nat) | StartingConsumers(k: nat) | Reading | Quitting
    | JoiningProducers(k: nat) | JoiningConsumers(k: nat) | Stray | Destroying | Finished

  /** `failed` records that the creation of a producer failed. */
  datatype State = State(main: MainPc, quit: bool, failed: bool, destroyed: bool, counter: nat, max: nat,
                         producers: seq<Thread>, consumers: seq<Thread>)

  /** The answer says whether pthread_create() succeeds, the key read is 'q', sem_post()
      succeeds, or sem_timedwait() takes the semaphore. Other steps ignore it. */
  datatype Event = MainStep(answer: bool) | ProducerStep(i: nat, answer: bool) | ConsumerStep(i: nat, answer: bool)

  predicate MainEnabled(s: State) {
    match s.main
    case JoiningProducers(k) => k < |s.producers| ==> s.producers[k].pc == Done
    case JoiningConsumers(k) => k < |s.consumers| ==> s.consumers[k].pc == Done || s.consumers[k].pc == Unborn
    case Stray => false
    case Finished => false
    case _ => true
  }

  /** sem_post() succeeds only below the maximum, sem_timedwait() only above zero, and neither means
      anything once the semaphore is destroyed. */
  predicate Enabled(s: State, e: Event) {
    match e
    case MainStep(_) => MainEnabled(s)
    case ProducerStep(i, ok) =>
      i < |s.producers| && s.producers[i].pc != Unborn && s.producers[i].pc != Done &&
      (s.producers[i].pc == Calling ==> !s.destroyed && (ok ==> s.counter < s.max))
    case ConsumerStep(i, taken) =>
      i < |s.consumers| && (s.consumers[i].pc == Testing || s.consumers[i].pc == Calling) &&
      (s.consumers[i].pc == Calling ==> !s.destroyed && (taken ==> s.counter > 0))
  }

  /** `main` (ipc/semaphore.c:57-79, 82-119). */
  function ApplyMain(s: State, answer: bool): State {
    match s.main
    case StartingProducers(k) =>
      if k >= |s.producers| then s.(main := StartingConsumers(0))
      else if answer then s.(main := StartingProducers(k + 1), producers := s.producers[k := Thread(Testing, 0)])
      else s.(main := Destroying, failed := true)
    case StartingConsumers(k) =>
      if k >= |s.consumers| then s.(main := Reading)
      else if answer then s.(main := StartingConsumers(k + 1), consumers := s.consumers[k := Thread(Testing, 0)])
      else s.(main := StartingConsumers(k + 1))
    case Reading => if answer then s.(main := Quitting) else s
    case Quitting => s.(main := JoiningProducers(0), quit := true)
    case JoiningProducers(k) =>
      s.(main := if k >= |s.producers| then JoiningConsumers(0) else JoiningProducers(k + 1))
    case JoiningConsumers(k) =>
      s.(main := if k >= |s.consumers| then Destroying
                 else if s.consumers[k].pc == Unborn then Stray
                 else JoiningConsumers(k + 1))
    case Stray => s
    case Destroying => s.(main := Finished, destroyed := true)
    case Finished => s
  }

  /** `producer_process_thread` (ipc/semaphore.c:25-36). */
  function ApplyProducer(s: State, i: nat, ok: bool): State
    requires i < |s.producers|
  {
    var t := s.producers[i];
    match t.pc
    case Testing => s.(producers := s.producers[i := t.(pc := if s.quit then Done else Calling)])
    case Calling =>
      if ok then s.(counter := s.counter + 1, producers := s.producers[i := Thread(Sleeping, t.count + 1)])
      else s.(producers := s.producers[i := t.(pc := Sleeping)])
    case Sleeping => s.(producers := s.producers[i := t.(pc := Testing)])
    case _ => s
  }

  /** `consumer_process_thread` (ipc/semaphore.c:38-55). */
  function ApplyConsumer(s: State, i: nat, taken: bool): State
    requires i < |s.consumers|
  {
    var t := s.consumers[i];
    match t.pc
    case Testing => s.(consumers := s.consumers[i := t.(pc := if s.quit then Done else Calling)])
    case Calling =>
      if taken && s.counter > 0
      then s.(counter := s.counter - 1, consumers := s.consumers[i := Thread(Testing, t.count + 1)])
      else s.(consumers := s.consumers[i := t.(pc := Testing)])
    case _ => s
  }

  function Apply(s: State, e: Event): State {
    if !Enabled(s, e) then s
    else match e
      case MainStep(answer) => ApplyMain(s, answer)
      case ProducerStep(i, ok) => ApplyProducer(s, i, ok)
      case ConsumerStep(i, taken) => ApplyConsumer(s, i, taken)
  }

  /** After sem_init(&sem, 0, 1), before the first pthread_create(). */
  predicate Initial(s: State) {
    && s.main == StartingProducers(0) && !s.quit && !s.failed && !s.destroyed && s.counter == 1 <= s.max
    && (forall i :: 0 <= i < |s.producers| ==> s.producers[i] == Thread(Unborn, 0))
    && (forall i :: 0 <= i < |s.consumers| ==> s.consumers[i] == Thread(Unborn, 0))
  }

  // ----- Conservation -----

  function Counts(ts: seq<Thread>): (r: seq<int>)
    ensures |r| == |ts| && forall i :: 0 <= i < |ts| ==> r[i] == ts[i].count
  {
    seq(|ts|, i requires 0 <= i < |ts| => ts[i].count)
  }

  /** All posts and the initial value are either in the counter or taken. */
  ghost predicate Balanced(s: State) {
    && s.counter + Sum(Counts(s.consumers)) == 1 + Sum(Counts(s.producers))
    && s.counter <= s.max
  }

  /** A thread that is not created has no posts or takes. */
  ghost predicate Fresh(ts: seq<Thread>) {
    forall i :: 0 <= i < |ts| && ts[i].pc == Unborn ==> ts[i].count == 0
  }

  lemma CountUpdate(ts: seq<Thread>, i: nat, t: Thread)
    requires i < |ts|
    ensures Sum(Counts(ts[i := t])) == Sum(Counts(ts)) - ts[i].count + t.count
  {
    assert Counts(ts[i := t]) == Counts(ts)[i := t.count];
    SumUpdate(Counts(ts), i, t.count);
  }

  ghost predicate Accounted(s: State) {
    Balanced(s) && Fresh(s.producers) && Fresh(s.consumers)
  }

  lemma BalanceMain(s: State, answer: bool)
    requires Accounted(s) && Control(s) && Enabled(s, MainStep(answer))
    ensures Accounted(ApplyMain(s, answer))
  {
    if s.main.StartingProducers? && s.main.k < |s.producers| && answer {
      CountUpdate(s.producers, s.main.k, Thread(Testing, 0));
    } else if s.main.StartingConsumers? && s.main.k < |s.consumers| && answer {
      CountUpdate(s.consumers, s.main.k, Thread(Testing, 0));
    }
  }

  lemma BalanceProducer(s: State, i: nat, ok: bool)
    requires Accounted(s) && Enabled(s, ProducerStep(i, ok))
    ensures Accounted(ApplyProducer(s, i, ok))
  {
    var t := ApplyProducer(s, i, ok);
    var x := t.producers[i];
    assert t == s.(counter := t.counter, producers := s.producers[i := x]) && x.pc != Unborn && t.counter <= t.max;
    assert t.counter - s.counter == x.count - s.producers[i].count;
    hide ApplyProducer, Enabled;
    CountUpdate(s.producers, i, x);
  }

  lemma BalanceConsumer(s: State, i: nat, taken: bool)
    requires Accounted(s) && Enabled(s, ConsumerStep(i, taken))
    ensures Accounted(ApplyConsumer(s, i, taken))
  {
    var t := ApplyConsumer(s, i, taken);
    var x := t.consumers[i];
    assert t == s.(counter := t.counter, consumers := s.consumers[i := x]) && x.pc != Unborn && t.counter <= t.max;
    assert t.counter - s.counter == s.consumers[i].count - x.count;
    hide ApplyConsumer, Enabled;
    CountUpdate(s.consumers, i, x);
  }

  // ----- The control state -----

  predicate Live(t: Thread) {
    t.pc != Unborn && t.pc != Done
  }

  /** Only the first k threads may exist. */
  ghost predicate UnbornFrom(ts: seq<Thread>, k: nat) {
    k <= |ts| && forall i :: k <= i < |ts| ==> ts[i].pc == Unborn
  }

  /** The first k threads exist, the others do not. */
  ghost predicate BornUpTo(ts: seq<Thread>, k: nat) {
    k <= |ts| && forall i :: 0 <= i < |ts| ==> (ts[i].pc == Unborn <==> k <= i)
  }

  ghost predicate DoneUpTo(ts: seq<Thread>, k: nat) {
    k <= |ts| && forall i :: 0 <= i < k ==> ts[i].pc == Done
  }

  ghost predicate NoneDone(ts: seq<Thread>) {
    forall i :: 0 <= i < |ts| ==> ts[i].pc != Done
  }

  /** What `main` and the flag say about the threads. A failed creation of a producer leaves `quit` unset
      and a prefix of the producers running; that of a consumer leaves a gap. */
  ghost predicate Control(s: State) {
    && (s.destroyed <==> s.main == Finished)
    && (s.quit <==> s.main.JoiningProducers? || s.main.JoiningConsumers? || s.main == Stray
                    || ((s.main == Destroying || s.main == Finished) && !s.failed))
    && (s.failed ==> s.main == Destroying || s.main == Finished)
    && (forall i :: 0 <= i < |s.consumers| ==> s.consumers[i].pc != Sleeping)
    && (!s.quit ==> NoneDone(s.producers) && NoneDone(s.consumers))
    && (s.failed ==> (exists k :: 0 <= k < |s.producers| && BornUpTo(s.producers, k)) && UnbornFrom(s.consumers, 0))
    && match s.main
       case StartingProducers(k) => BornUpTo(s.producers, k) && UnbornFrom(s.consumers, 0)
       case StartingConsumers(k) => BornUpTo(s.producers, |s.producers|) && UnbornFrom(s.consumers, k)
       case _ => s.failed || (BornUpTo(s.producers, |s.producers|) && Joined(s))
  }

  /** The threads already joined have returned. */
  ghost predicate Joined(s: State) {
    match s.main
    case JoiningProducers(k) => DoneUpTo(s.producers, k)
    case JoiningConsumers(k) => DoneUpTo(s.producers, |s.producers|) && DoneUpTo(s.consumers, k)
    case Stray =>
      DoneUpTo(s.producers, |s.producers|) && exists i :: 0 <= i < |s.consumers| && s.consumers[i].pc == Unborn
    case Destroying => DoneUpTo(s.producers, |s.producers|) && DoneUpTo(s.consumers, |s.consumers|)
    case Finished => DoneUpTo(s.producers, |s.producers|) && DoneUpTo(s.consumers, |s.consumers|)
    case _ => true
  }

  lemma ControlMain(s: State, answer: bool)
    requires Control(s) && Enabled(s, MainStep(answer))
    ensures Control(ApplyMain(s, answer))
  {
    var t := ApplyMain(s, answer);
    if t.failed && !s.failed {
      assert BornUpTo(t.producers, s.main.k);
    }
  }

  lemma ControlProducer(s: State, i: nat, ok: bool)
    requires Control(s) && Enabled(s, ProducerStep(i, ok))
    ensures Control(ApplyProducer(s, i, ok))
  {
    var t := ApplyProducer(s, i, ok);
    if s.failed {
      var k :| 0 <= k < |s.producers| && BornUpTo(s.producers, k);
      assert BornUpTo(t.producers, k);
    }
  }

  lemma ControlConsumer(s: State, i: nat, taken: bool)
    requires Control(s) && Enabled(s, ConsumerStep(i, taken))
    ensures Control(ApplyConsumer(s, i, taken))
  {
    if s.main == Stray {
      var j :| 0 <= j < |s.consumers| && s.consumers[j].pc == Unborn;
      assert ApplyConsumer(s, i, taken).consumers[j].pc == Unborn;
    }
  }

  ghost predicate Inv(s: State) {
    Accounted(s) && Control(s)
  }

  lemma InvStep(s: State, e: Event)
    requires Inv(s) && Enabled(s, e)
    ensures Inv(Apply(s, e))
  {
    hide Accounted, Control, ApplyMain, ApplyProducer, ApplyConsumer;
    match e {
      case MainStep(answer) =>
        BalanceMain(s, answer);
        ControlMain(s, answer);
      case ProducerStep(i, ok) =>
        BalanceProducer(s, i, ok);
        ControlProducer(s, i, ok);
      case ConsumerStep(i, taken) =>
        BalanceConsumer(s, i, taken);
        ControlConsumer(s, i, taken);
    }
  }

  lemma {:induction false} InvRun(s: State, es: seq<Event>)
    requires Inv(s) && IsRun(Enabled, Apply, s, es)
    ensures Inv(Final(Apply, s, es))
    decreases |es|
  {
    if |es| > 0 {
      hide Inv, Apply, Enabled;
      InvStep(s, es[0]);
      InvRun(Apply(s, es[0]), es[1..]);
    }
  }

  lemma {:induction false} NoCounts(ts: seq<Thread>)
    requires forall i :: 0 <= i < |ts| ==> ts[i].count == 0
    ensures Sum(Counts(ts)) == 0
  {
    SumBounds(Counts(ts), 0);
  }

  lemma InitialInv(s: State)
    requires Initial(s)
    ensures Inv(s)
  {
    NoCounts(s.producers);
    NoCounts(s.consumers);
  }

  /** A successful sem_post() of producer i. */
  function Post(i: nat): (State, Event) -> bool {
    (s: State, e: Event) => e == ProducerStep(i, true) && i < |s.producers| && s.producers[i].pc == Calling
  }

  /** A successful sem_timedwait() of consumer i. */
  function Take(i: nat): (State, Event) -> bool {
    (s: State, e: Event) => e == ConsumerStep(i, true) && i < |s.consumers| && s.consumers[i].pc == Calling
  }

  /** The number of posts of each producer in a run, and of takes of each consumer. */
  function Posts(s: State, es: seq<Event>): (r: seq<int>)
    ensures |r| == |s.producers| && forall i :: 0 <= i < |r| ==> r[i] == Tally(Apply, Post(i), s, es)
  {
    seq(|s.producers|, i requires 0 <= i < |s.producers| => Tally(Apply, Post(i), s, es))
  }

  function Takes(s: State, es: seq<Event>): (r: seq<int>)
    ensures |r| == |s.consumers| && forall i :: 0 <= i < |r| ==> r[i] == Tally(Apply, Take(i), s, es)
  {
    seq(|s.consumers|, i requires 0 <= i < |s.consumers| => Tally(Apply, Take(i), s, es))
  }

  lemma CountStep(s: State, e: Event, i: nat)
    requires Inv(s) && Enabled(s, e)
    ensures var t := Apply(s, e);
            && |t.producers| == |s.producers| && |t.consumers| == |s.consumers|
            && (i < |s.producers| ==> t.producers[i].count == s.producers[i].count + if Post(i)(s, e) then 1 else 0)
            && (i < |s.consumers| ==> t.consumers[i].count == s.consumers[i].count + if Take(i)(s, e) then 1 else 0)
  {
    hide Balanced, Fresh;
    if e.MainStep? {
      CountMain(s, e.answer, i);
    }
    hide Accounted, Control, ApplyMain;
  }

  lemma CountMain(s: State, answer: bool, i: nat)
    requires Inv(s) && Enabled(s, MainStep(answer))
    ensures var t := ApplyMain(s, answer);
            && |t.producers| == |s.producers| && |t.consumers| == |s.consumers|
            && (i < |s.producers| ==> t.producers[i].count == s.producers[i].count)
            && (i < |s.consumers| ==> t.consumers[i].count == s.consumers[i].count)
  {
    hide Balanced;
  }

  /** The count a thread ends with is the number of its successful calls in the run. */
  lemma {:induction false} CountsAreCalls(s: State, es: seq<Event>, i: nat)
    requires Inv(s) && IsRun(Enabled, Apply, s, es)
    ensures var t := Final(Apply, s, es);
            && |t.producers| == |s.producers| && |t.consumers| == |s.consumers|
            && (i < |s.producers| ==> t.producers[i].count == s.producers[i].count + Tally(Apply, Post(i), s, es))
            && (i < |s.consumers| ==> t.consumers[i].count == s.consumers[i].count + Tally(Apply, Take(i), s, es))
    decreases |es|
  {
    if |es| > 0 {
      CountStep(s, es[0], i);
      InvStep(s, es[0]);
      hide Inv, Enabled, Apply, Post, Take;
      CountsAreCalls(Apply(s, es[0]), es[1..], i);
    }
  }

  /** In every reachable state the counter is 1 plus all posts of the run minus all takes, and at most
      the maximum; so there are never more takes than posts plus one. */
  lemma Conservation(s: State, es: seq<Event>)
    requires Initial(s) && IsRun(Enabled, Apply, s, es)
    ensures var t := Final(Apply, s, es);
            && t.counter == 1 + Sum(Posts(s, es)) - Sum(Takes(s, es))
            && 0 <= t.counter <= t.max
            && Sum(Takes(s, es)) <= Sum(Posts(s, es)) + 1
  {
    InitialInv(s);
    InvRun(s, es);
    var t := Final(Apply, s, es);
    CountsAreCalls(s, es, 0);
    forall i: nat | i < |s.producers| ensures t.producers[i].count == Posts(s, es)[i] {
      CountsAreCalls(s, es, i);
    }
    forall i: nat | i < |s.consumers| ensures t.consumers[i].count == Takes(s, es)[i] {
      CountsAreCalls(s, es, i);
    }
    assert Counts(t.producers) == Posts(s, es) && Counts(t.consumers) == Takes(s, es);
  }

  // ----- Shutdown -----

  /** Once `quit` is set, each producer posts at most once more and each consumer takes at most once
      more, and only if it is already past its test. */
  lemma {:induction false} AtMostOneMore(s: State, es: seq<Event>, i: nat)
    requires Inv(s) && s.quit && IsRun(Enabled, Apply, s, es)
    ensures i < |s.producers| ==> Tally(Apply, Post(i), s, es) <= if s.producers[i].pc == Calling then 1 else 0
    ensures i < |s.consumers| ==> Tally(Apply, Take(i), s, es) <= if s.consumers[i].pc == Calling then 1 else 0
    decreases |es|
  {
    if |es| > 0 {
      var t := Apply(s, es[0]);
      InvStep(s, es[0]);
      QuitStep(s, es[0], i);
      hide Inv, Enabled, Apply;
      AtMostOneMore(t, es[1..], i);
    }
  }

  /** The same from any reachable state in which `quit` is set. */
  lemma AfterQuit(s: State, before: seq<Event>, after: seq<Event>, i: nat)
    requires Initial(s) && IsRun(Enabled, Apply, s, before) && Final(Apply, s, before).quit
    requires IsRun(Enabled, Apply, Final(Apply, s, before), after)
    ensures i < |s.producers| ==> Tally(Apply, Post(i), Final(Apply, s, before), after) <= 1
    ensures i < |s.consumers| ==> Tally(Apply, Take(i), Final(Apply, s, before), after) <= 1
  {
    InitialInv(s);
    InvRun(s, before);
    SameThreads(s, before);
    AtMostOneMore(Final(Apply, s, before), after, i);
  }

  /** After `quit`, no thread goes back to its call. */
  lemma QuitStep(s: State, e: Event, i: nat)
    requires Inv(s) && s.quit && Enabled(s, e)
    ensures var t := Apply(s, e);
            && t.quit && |t.producers| == |s.producers| && |t.consumers| == |s.consumers|
            && (i < |s.producers| ==>
                  if e.ProducerStep? && e.i == i then t.producers[i].pc != Calling
                  else t.producers[i] == s.producers[i])
            && (i < |s.consumers| ==>
                  if e.ConsumerStep? && e.i == i then t.consumers[i].pc != Calling
                  else t.consumers[i] == s.consumers[i])
  {
  }

  /** The steps a thread has left once `quit` is set. */
  function Rank(t: Thread): nat {
    match t.pc
    case Calling => 3
    case Sleeping => 2
    case Testing => 1
    case _ => 0
  }

  function Ranks(ts: seq<Thread>): (r: seq<int>)
    ensures |r| == |ts| && forall i :: 0 <= i < |ts| ==> r[i] == Rank(ts[i])
  {
    seq(|ts|, i requires 0 <= i < |ts| => Rank(ts[i]))
  }

  /** The steps `main` has left once `quit` is set. */
  function MainRank(s: State): int {
    match s.main
    case JoiningProducers(k) => |s.producers| - k + |s.consumers| + 3
    case JoiningConsumers(k) => |s.consumers| - k + 2
    case Destroying => 1
    case _ => 0
  }

  function Measure(s: State): int {
    MainRank(s) + Sum(Ranks(s.producers)) + Sum(Ranks(s.consumers))
  }

  lemma RankUpdate(ts: seq<Thread>, i: nat, t: Thread)
    requires i < |ts|
    ensures Sum(Ranks(ts[i := t])) == Sum(Ranks(ts)) - Rank(ts[i]) + Rank(t)
  {
    assert Ranks(ts[i := t]) == Ranks(ts)[i := Rank(t)];
    SumUpdate(Ranks(ts), i, Rank(t));
  }

  lemma MeasureProducer(s: State, i: nat, ok: bool)
    requires s.quit && Enabled(s, ProducerStep(i, ok))
    ensures Measure(ApplyProducer(s, i, ok)) < Measure(s)
  {
    var t := ApplyProducer(s, i, ok);
    var x := t.producers[i];
    assert t == s.(counter := t.counter, producers := s.producers[i := x]) && Rank(x) < Rank(s.producers[i]);
    hide ApplyProducer, Enabled;
    RankUpdate(s.producers, i, x);
  }

  lemma MeasureConsumer(s: State, i: nat, taken: bool)
    requires s.quit && Enabled(s, ConsumerStep(i, taken))
    ensures Measure(ApplyConsumer(s, i, taken)) < Measure(s)
  {
    var t := ApplyConsumer(s, i, taken);
    var x := t.consumers[i];
    assert t == s.(counter := t.counter, consumers := s.consumers[i := x]) && Rank(x) < Rank(s.consumers[i]);
    hide ApplyConsumer, Enabled;
    RankUpdate(s.consumers, i, x);
  }

  lemma MeasureMain(s: State, answer: bool)
    requires Inv(s) && s.quit && Enabled(s, MainStep(answer))
    ensures Measure(ApplyMain(s, answer)) < Measure(s)
  {
    assert s.main.JoiningProducers? || s.main.JoiningConsumers? || s.main == Destroying;
    hide Inv, Control, Accounted, Balanced;
  }

  /** After `quit` every step of anyone uses up the measure. */
  lemma MeasureStep(s: State, e: Event)
    requires Inv(s) && s.quit && Enabled(s, e)
    ensures Measure(Apply(s, e)) < Measure(s)
  {
    hide Inv, Measure, ApplyMain, ApplyProducer, ApplyConsumer;
    match e {
      case MainStep(answer) => MeasureMain(s, answer);
      case ProducerStep(i, ok) => MeasureProducer(s, i, ok);
      case ConsumerStep(i, taken) => MeasureConsumer(s, i, taken);
    }
  }

  lemma MeasureBounds(s: State)
    requires Inv(s) && s.quit
    ensures 0 <= Measure(s) <= 4 * |s.producers| + 4 * |s.consumers| + 3
  {
    SumBounds(Ranks(s.producers), 3);
    SumBounds(Ranks(s.consumers), 3);
  }

  lemma {:induction false} QuitRunLength(s: State, es: seq<Event>)
    requires Inv(s) && s.quit && IsRun(Enabled, Apply, s, es)
    ensures Final(Apply, s, es).quit && |es| <= Measure(s) - Measure(Final(Apply, s, es))
    decreases |es|
  {
    if |es| > 0 {
      InvStep(s, es[0]);
      MeasureStep(s, es[0]);
      QuitStep(s, es[0], 0);
      hide Inv, Enabled, Apply, Measure;
      QuitRunLength(Apply(s, es[0]), es[1..]);
    }
  }

  /** While `main` has not finished, something can happen: `main` itself, or the thread it joins; unless
      it has joined a thread that was never created. */
  lemma NeverStuck(s: State) returns (e: Event)
    requires Inv(s) && s.main != Finished && s.main != Stray
    ensures Enabled(s, e)
  {
    if MainEnabled(s) {
      e := MainStep(false);
    } else if s.main.JoiningProducers? {
      e := ProducerStep(s.main.k, false);
    } else {
      e := ConsumerStep(s.main.k, false);
    }
  }

  /** Shutdown ends: from any reachable state with `quit` set, every run has at most 4 steps per thread
      and 3 more; and if every consumer was created, a run that cannot be continued has destroyed the
      semaphore after every thread had left its loop. Otherwise `main` can only have joined a thread that
      does not exist, and the semaphore is not destroyed. */
  lemma ShutdownEnds(s: State, before: seq<Event>, after: seq<Event>)
    requires Initial(s) && IsRun(Enabled, Apply, s, before) && Final(Apply, s, before).quit
    requires IsRun(Enabled, Apply, Final(Apply, s, before), after)
    ensures |after| <= 4 * |s.producers| + 4 * |s.consumers| + 3
    ensures var end := Final(Apply, Final(Apply, s, before), after);
            (forall e :: !Enabled(end, e)) ==>
              if AllBorn(end.consumers) then end.destroyed && AllDone(end) else end.main == Stray && !end.destroyed
  {
    var mid := Final(Apply, s, before);
    InitialInv(s);
    InvRun(s, before);
    SameThreads(s, before);
    InvRun(mid, after);
    QuitRunLength(mid, after);
    MeasureBounds(mid);
    var end := Final(Apply, mid, after);
    MeasureBounds(end);
    hide IsRun, Final, Enabled;
    if end.main != Finished && end.main != Stray {
      var e := NeverStuck(end);
      assert Enabled(end, e);
    } else {
      WhenStuck(end);
    }
  }

  predicate AllBorn(ts: seq<Thread>) {
    forall i :: 0 <= i < |ts| ==> ts[i].pc != Unborn
  }

  lemma WhenStuck(s: State)
    requires Inv(s) && s.quit && (s.main == Finished || s.main == Stray)
    ensures if AllBorn(s.consumers) then s.main == Finished && s.destroyed && AllDone(s)
            else s.main == Stray && !s.destroyed
  {
    hide Accounted;
  }

  lemma {:induction false} SameThreads(s: State, es: seq<Event>)
    requires IsRun(Enabled, Apply, s, es)
    ensures |Final(Apply, s, es).producers| == |s.producers| && |Final(Apply, s, es).consumers| == |s.consumers|
    decreases |es|
  {
    if |es| > 0 {
      var t := Apply(s, es[0]);
      assert |t.producers| == |s.producers| && |t.consumers| == |s.consumers|;
      hide Apply, Enabled;
      SameThreads(t, es[1..]);
    }
  }

  ghost predicate AllDone(s: State) {
    DoneUpTo(s.producers, |s.producers|) && DoneUpTo(s.consumers, |s.consumers|)
  }

  /** If every creation succeeded, sem_destroy() runs after every thread has left its loop, and no
      thread is in a semaphore call afterwards. */
  lemma DestroyIsSafe(s: State, es: seq<Event>)
    requires Initial(s) && IsRun(Enabled, Apply, s, es) && !Final(Apply, s, es).failed && Final(Apply, s, es).destroyed
    ensures AllDone(Final(Apply, s, es))
  {
    InitialInv(s);
    InvRun(s, es);
  }

  /** Once the semaphore is destroyed no call on it has an effect: nothing is posted or taken any more. */
  lemma {:induction false} AfterDestroy(s: State, es: seq<Event>, i: nat)
    requires s.destroyed && s.main == Finished && IsRun(Enabled, Apply, s, es)
    ensures Tally(Apply, Post(i), s, es) == 0 && Tally(Apply, Take(i), s, es) == 0
    ensures Final(Apply, s, es).destroyed && Final(Apply, s, es).counter == s.counter
    decreases |es|
  {
    if |es| > 0 {
      StaysDestroyed(s, es[0], i);
      hide Enabled, Apply, Post, Take;
      AfterDestroy(Apply(s, es[0]), es[1..], i);
    }
  }

  lemma StaysDestroyed(s: State, e: Event, i: nat)
    requires s.destroyed && s.main == Finished && Enabled(s, e)
    ensures var t := Apply(s, e);
            && t.destroyed && t.main == Finished && t.counter == s.counter
            && !Post(i)(s, e) && !Take(i)(s, e)
  {
  }

  lemma NoCallAfterDestroy(s: State)
    requires Inv(s)
    ensures s.main == Finished ==> s.destroyed
    ensures s.destroyed || s.main == Destroying ==> s.failed || AllDone(s)
  {
  }

  lemma RunningAfterDestroy(s: State, t: Thread)
    requires Inv(s) && s.destroyed && t.pc == Calling && (t in s.producers || t in s.consumers)
    ensures s.failed
  {
  }

  lemma WhenStarted(s: State)
    requires Inv(s)
    ensures s.main.StartingConsumers? || s.main == Reading ==> AllBorn(s.producers)
  {
  }

  ghost predicate NoneLive(s: State) {
    && (forall i :: 0 <= i < |s.producers| ==> !Live(s.producers[i]))
    && (forall i :: 0 <= i < |s.consumers| ==> !Live(s.consumers[i]))
  }

  /** Whatever the creations did: when the semaphore is destroyed no thread is left running exactly if
      no creation of a producer failed or the first one did. */
  lemma DestroySafeExactly(s: State, es: seq<Event>)
    requires Initial(s) && IsRun(Enabled, Apply, s, es) && Final(Apply, s, es).destroyed
    ensures var t := Final(Apply, s, es);
            NoneLive(t) <==> !t.failed || (|t.producers| > 0 && t.producers[0].pc == Unborn)
  {
    InitialInv(s);
    InvRun(s, es);
    LiveExactly(Final(Apply, s, es));
  }

  lemma LiveExactly(s: State)
    requires Inv(s) && s.destroyed
    ensures NoneLive(s) <==> !s.failed || (|s.producers| > 0 && s.producers[0].pc == Unborn)
  {
    hide Accounted;
    if s.failed {
      var k :| 0 <= k < |s.producers| && BornUpTo(s.producers, k);
      assert Live(s.producers[0]) <==> k > 0;
    }
  }

  /** A run that leaves a thread running: with two producers or more the second creation fails, the
      semaphore is destroyed, and the first producer then calls sem_post() on it. */
  lemma DestroyUnsafeHappens(s: State) returns (es: seq<Event>)
    requires Initial(s) && |s.producers| >= 2
    ensures IsRun(Enabled, Apply, s, es)
    ensures var t := Final(Apply, s, es);
            t.destroyed && !NoneLive(t) && |t.producers| == |s.producers| && t.producers[0].pc == Calling
  {
    es := [MainStep(true), MainStep(false), MainStep(false), ProducerStep(0, true)];
    var s1 := Apply(s, es[0]);
    var s2 := Apply(s1, es[1]);
    var s3 := Apply(s2, es[2]);
    assert es[3..] == es[2..][1..] && IsRun(Enabled, Apply, s3, es[3..]);
    assert es[2..] == es[1..][1..] && IsRun(Enabled, Apply, s2, es[2..]);
    assert IsRun(Enabled, Apply, s1, es[1..]);
    var t := Final(Apply, s, es);
    assert t == Final(Apply, s1, es[1..]) == Final(Apply, s2, es[2..]) == Final(Apply, s3, es[3..]);
    assert t == Apply(s3, es[3]);
    assert Live(t.producers[0]);
  }

  // ----- A run that joins a missing thread -----

  /** All producers are created, from the k-th on. */
  lemma {:induction false} CreateAll(s: State, k: nat) returns (es: seq<Event>)
    requires s.main == StartingProducers(k) && k <= |s.producers|
    requires forall i :: 0 <= i < k ==> s.producers[i] == Thread(Testing, 0)
    ensures IsRun(Enabled, Apply, s, es)
    ensures Final(Apply, s, es)
            == s.(main := StartingConsumers(0), producers := seq(|s.producers|, _ => Thread(Testing, 0)))
    decreases |s.producers| - k
  {
    var t := Apply(s, MainStep(true));
    if k == |s.producers| {
      assert s.producers == seq(|s.producers|, _ => Thread(Testing, 0));
      RunCons(Enabled, Apply, s, MainStep(true), []);
      es := [MainStep(true)];
    } else {
      es := CreateAll(t, k + 1);
      RunCons(Enabled, Apply, s, MainStep(true), es);
      es := [MainStep(true)] + es;
    }
  }

  /** No consumer is created, from the k-th on. */
  lemma {:induction false} CreateNone(s: State, k: nat) returns (es: seq<Event>)
    requires s.main == StartingConsumers(k) && k <= |s.consumers|
    ensures IsRun(Enabled, Apply, s, es)
    ensures Final(Apply, s, es) == s.(main := Reading)
    decreases |s.consumers| - k
  {
    es := [];
    if k < |s.consumers| {
      es := CreateNone(Apply(s, MainStep(false)), k + 1);
    }
    RunCons(Enabled, Apply, s, MainStep(false), es);
    es := [MainStep(false)] + es;
  }

  /** The producers from the k-th on find `quit` set, return and are joined. */
  lemma {:induction false} ReturnAndJoin(s: State, k: nat) returns (es: seq<Event>)
    requires s.quit && s.main == JoiningProducers(k) && k <= |s.producers|
    requires forall i :: 0 <= i < |s.producers| ==> s.producers[i].pc == if i < k then Done else Testing
    ensures IsRun(Enabled, Apply, s, es)
    ensures var t := Final(Apply, s, es);
            && t == s.(main := JoiningConsumers(0), producers := t.producers) && |t.producers| == |s.producers|
            && DoneUpTo(t.producers, |t.producers|)
    decreases |s.producers| - k
  {
    if k == |s.producers| {
      RunCons(Enabled, Apply, s, MainStep(false), []);
      es := [MainStep(false)];
    } else {
      var returned := Apply(s, ProducerStep(k, false));
      es := ReturnAndJoin(Apply(returned, MainStep(false)), k + 1);
      RunCons(Enabled, Apply, returned, MainStep(false), es);
      es := [MainStep(false)] + es;
      RunCons(Enabled, Apply, s, ProducerStep(k, false), es);
      es := [ProducerStep(k, false)] + es;
    }
  }

  /** With any number of producers and at least one consumer: if no consumer can be created, `main` goes
      on all the same, joins a thread that does not exist after 'q', and the run ends there with the
      semaphore not destroyed. */
  lemma StrayHappens(s: State) returns (es: seq<Event>)
    requires Initial(s) && |s.consumers| > 0
    ensures IsRun(Enabled, Apply, s, es)
    ensures var t := Final(Apply, s, es);
            t.quit && t.main == Stray && !t.destroyed && forall e :: !Enabled(t, e)
  {
    var a := CreateAll(s, 0);
    var s1 := Final(Apply, s, a);
    var b := CreateNone(s1, 0);
    RunAppend(Enabled, Apply, s, a, b);
    var s2 := Final(Apply, s, a + b);
    var c := QuitAndJoin(s2);
    RunAppend(Enabled, Apply, s, a + b, c);
    es := a + b + c;
  }

  lemma QuitAndJoin(s: State) returns (es: seq<Event>)
    requires s.main == Reading && !s.destroyed && |s.consumers| > 0
    requires forall i :: 0 <= i < |s.producers| ==> s.producers[i].pc == Testing
    requires forall i :: 0 <= i < |s.consumers| ==> s.consumers[i].pc == Unborn
    ensures IsRun(Enabled, Apply, s, es)
    ensures var t := Final(Apply, s, es);
            t.quit && t.main == Stray && !t.destroyed && forall e :: !Enabled(t, e)
  {
    var s1 := Apply(s, MainStep(true));
    var s2 := Apply(s1, MainStep(true));
    var joins := ReturnAndJoin(s2, 0);
    RunCons(Enabled, Apply, s1, MainStep(true), joins);
    RunCons(Enabled, Apply, s, MainStep(true), [MainStep(true)] + joins);
    es := [MainStep(true)] + ([MainStep(true)] + joins);
    var s3 := Final(Apply, s, es);
    RunCons(Enabled, Apply, s3, MainStep(false), []);
    RunAppend(Enabled, Apply, s, es, [MainStep(false)]);
    es := es + [MainStep(false)];
  }

  // ----- Every run can be brought to its end -----

  /** The creation of consumer j has failed, and that of no producer. */
  predicate Missed(s: State, j: nat) {
    && !s.failed && !s.main.StartingProducers? && (s.main.StartingConsumers? ==> j < s.main.k)
    && j < |s.consumers| && s.consumers[j].pc == Unborn
  }

  lemma MissedStep(s: State, e: Event)
    requires Inv(s) && Enabled(s, e) && (e == MainStep(false) ==> s.quit)
    ensures forall j :: Missed(Apply(s, e), j) <==> Missed(s, j)
  {
    hide Accounted;
  }

  /** The steps `main` needs until it sets `quit`, or until it is done after a failed creation. */
  function StepsToQuit(s: State): int {
    match s.main
    case StartingProducers(k) => |s.producers| - k + |s.consumers| + 4
    case StartingConsumers(k) => |s.consumers| - k + 3
    case Reading => 2
    case Quitting => 1
    case Destroying => 1
    case _ => 0
  }

  lemma {:induction false} RunToQuit(s: State) returns (es: seq<Event>)
    requires Inv(s)
    ensures IsRun(Enabled, Apply, s, es)
    ensures var t := Final(Apply, s, es);
            (t.quit || t.main == Finished) && forall j :: Missed(t, j) <==> Missed(s, j)
    decreases StepsToQuit(s)
  {
    es := [];
    if !s.quit && s.main != Finished {
      var e := MainStep(true);
      StepsFall(s);
      InvStep(s, e);
      MissedStep(s, e);
      hide Inv, Enabled, Apply, Missed, StepsToQuit;
      es := RunToQuit(Apply(s, e));
      RunCons(Enabled, Apply, s, e, es);
      es := [e] + es;
    }
  }

  lemma StepsFall(s: State)
    requires Inv(s) && !s.quit && s.main != Finished
    ensures Enabled(s, MainStep(true)) && 0 <= StepsToQuit(Apply(s, MainStep(true))) < StepsToQuit(s)
  {
    hide Accounted;
  }

  lemma {:induction false} RunOut(s: State) returns (es: seq<Event>)
    requires Inv(s) && (s.quit || s.main == Finished)
    ensures IsRun(Enabled, Apply, s, es)
    ensures var t := Final(Apply, s, es);
            && (t.main == Finished || t.main == Stray) && (s.quit ==> t.quit)
            && forall j :: Missed(t, j) <==> Missed(s, j)
    decreases if s.quit then Measure(s) else 0
  {
    es := [];
    if s.main != Finished && s.main != Stray {
      var e := NeverStuck(s);
      InvStep(s, e);
      MeasureStep(s, e);
      QuitStep(s, e, 0);
      MissedStep(s, e);
      MeasureBounds(Apply(s, e));
      hide Inv, Enabled, Apply, Missed, Measure;
      es := RunOut(Apply(s, e));
      RunCons(Enabled, Apply, s, e, es);
      es := [e] + es;
    }
  }

  /** Every run can be continued until `main` stops: past sem_destroy(), unless the creation of a consumer
      has already failed, and then in the join of a missing thread. */
  lemma CanFinish(s: State, before: seq<Event>) returns (after: seq<Event>)
    requires Initial(s) && IsRun(Enabled, Apply, s, before)
    ensures IsRun(Enabled, Apply, Final(Apply, s, before), after)
    ensures var mid := Final(Apply, s, before);
            var end := Final(Apply, mid, after);
            if exists j :: Missed(mid, j) then end.main == Stray else end.main == Finished && end.destroyed
  {
    var mid := Final(Apply, s, before);
    InitialInv(s);
    InvRun(s, before);
    var first := RunToQuit(mid);
    var t := Final(Apply, mid, first);
    InvRun(mid, first);
    var second := RunOut(t);
    InvRun(t, second);
    RunAppend(Enabled, Apply, mid, first, second);
    after := first + second;
    hide IsRun, Final, Enabled, Apply;
    AtTheEnd(Final(Apply, t, second));
  }

  lemma AtTheEnd(s: State)
    requires Inv(s) && (s.main == Finished || s.main == Stray)
    ensures if exists j :: Missed(s, j) then s.main == Stray else s.main == Finished && s.destroyed
  {
    hide Accounted;
    if s.quit {
      WhenStuck(s);
      if !AllBorn(s.consumers) {
        var j :| 0 <= j < |s.consumers| && s.consumers[j].pc == Unborn;
        assert Missed(s, j);
      }
    }
  }

  // ----- The threads of the source -----

  datatype Who = Main | Producer(i: nat) | Consumer(i: nat)

  predicate By(e: Event, who: Who) {
    match e
    case MainStep(_) => who == Main
    case ProducerStep(i, _) => who == Producer(i)
    case ConsumerStep(i, _) => who == Consumer(i)
  }

  /** The same threads exist. */
  ghost predicate SameBirths(before: State, after: State) {
    && |after.producers| == |before.producers| && |after.consumers| == |before.consumers|
    && (forall i :: 0 <= i < |before.producers| ==>
          (after.producers[i].pc == Unborn <==> before.producers[i].pc == Unborn))
    && (forall i :: 0 <= i < |before.consumers| ==>
          (after.consumers[i].pc == Unborn <==> before.consumers[i].pc == Unborn))
  }

  /** What steps of others cannot change. Only `main` creates threads. */
  ghost predicate Kept(before: State, after: State, who: Who) {
    && |after.producers| == |before.producers| && |after.consumers| == |before.consumers|
    && (before.quit ==> after.quit)
    && match who
       case Main => SameBirths(before, after) && after.main == before.main && after.failed == before.failed
       case Producer(i) => i < |before.producers| && after.producers[i] == before.producers[i]
       case Consumer(i) => i < |before.consumers| && after.consumers[i] == before.consumers[i]
  }

  lemma OthersKeep(s: State, e: Event, who: Who)
    requires Inv(s) && Enabled(s, e) && !By(e, who)
    requires who.Producer? ==> who.i < |s.producers| && Live(s.producers[who.i])
    requires who.Consumer? ==> who.i < |s.consumers| && Live(s.consumers[who.i])
    ensures Kept(s, Apply(s, e), who)
  {
    hide Kept, Inv, ApplyMain, ApplyProducer, ApplyConsumer;
    match e {
      case MainStep(answer) => MainKeeps(s, answer, who);
      case ProducerStep(i, ok) => ProducerKeeps(s, i, ok, who);
      case ConsumerStep(i, taken) => ConsumerKeeps(s, i, taken, who);
    }
  }

  lemma ProducerKeeps(s: State, i: nat, ok: bool, who: Who)
    requires Enabled(s, ProducerStep(i, ok)) && who != Producer(i)
    requires who.Producer? ==> who.i < |s.producers|
    requires who.Consumer? ==> who.i < |s.consumers|
    ensures Kept(s, ApplyProducer(s, i, ok), who)
  {
  }

  lemma ConsumerKeeps(s: State, i: nat, taken: bool, who: Who)
    requires Enabled(s, ConsumerStep(i, taken)) && who != Consumer(i)
    requires who.Producer? ==> who.i < |s.producers|
    requires who.Consumer? ==> who.i < |s.consumers|
    ensures Kept(s, ApplyConsumer(s, i, taken), who)
  {
  }

  lemma MainKeeps(s: State, answer: bool, who: Who)
    requires Inv(s) && Enabled(s, MainStep(answer)) && who != Main
    requires who.Producer? ==> who.i < |s.producers| && Live(s.producers[who.i])
    requires who.Consumer? ==> who.i < |s.consumers| && Live(s.consumers[who.i])
    ensures Kept(s, ApplyMain(s, answer), who)
  {
    hide Accounted;
  }

  /** Undefined: the thread called a semaphore that `main` has destroyed. */
  datatype Outcome = Running | Returned | Undefined

  /** One iteration of a thread loop: what others do before the test, during the call and in sleep(),
      and whether the call succeeds as soon as it can. */
  datatype Turn = Turn(first: seq<Event>, calling: seq<Event>, success: bool, sleeping: seq<Event>)

  /** A test of `quit` by a thread. */
  function Test(who: Who): (State, Event) -> bool {
    (s: State, e: Event) =>
      By(e, who) &&
      match who
      case Main => false
      case Producer(i) => i < |s.producers| && s.producers[i].pc == Testing
      case Consumer(i) => i < |s.consumers| && s.consumers[i].pc == Testing
  }

  /** A call of sem_post() by producer i while the counter is at its maximum. */
  function Full(i: nat): (State, Event) -> bool {
    (s: State, e: Event) =>
      e.ProducerStep? && e.i == i && i < |s.producers| && s.producers[i].pc == Calling && s.counter >= s.max
  }

  /** A call of sem_timedwait() by consumer i that ends while the counter is zero. */
  function Empty(i: nat): (State, Event) -> bool {
    (s: State, e: Event) =>
      e.ConsumerStep? && e.i == i && i < |s.consumers| && s.consumers[i].pc == Calling && s.counter == 0
  }

  /** Events of this kind are steps of `who`. */
  ghost predicate Belongs(kind: (State, Event) -> bool, who: Who) {
    forall s, e :: kind(s, e) ==> By(e, who)
  }

  lemma KindsBelong(i: nat)
    ensures Belongs(Test(Producer(i)), Producer(i)) && Belongs(Test(Consumer(i)), Consumer(i))
    ensures Belongs(Post(i), Producer(i)) && Belongs(Full(i), Producer(i))
    ensures Belongs(Take(i), Consumer(i)) && Belongs(Empty(i), Consumer(i))
  {
  }

  /** The number of turns whose call is to succeed as soon as it can. */
  function Willing(turns: seq<Turn>): nat {
    if |turns| == 0 then 0 else Willing(turns[..|turns| - 1]) + if turns[|turns| - 1].success then 1 else 0
  }

  lemma WillingOne(turn: Turn)
    ensures Willing([turn]) == (if turn.success then 1 else 0) && Willing([]) == 0
  {
    assert [turn][..0] == [];
  }

  /** The counts of a thread: its tests, its successful calls, its calls that could not succeed. */
  type Counters = (nat, nat, nat)

  /** What one step of a thread adds. */
  function Added(before: Counters, pc: ThreadPc, success: bool, stuck: bool): Counters {
    (before.0 + if pc == Testing then 1 else 0,
     before.1 + if pc == Calling && success then 1 else 0,
     before.2 + if pc == Calling && stuck then 1 else 0)
  }

  /** Between the counts the thread made the calls of these turns: one succeeds exactly if its turn says so,
      except some of those that could not. */
  ghost predicate Called(before: Counters, after: Counters, turns: seq<Turn>) {
    && after.0 == before.0 && before.1 <= after.1 && before.2 <= after.2
    && after.1 - before.1 <= Willing(turns) <= after.1 - before.1 + after.2 - before.2
  }

  /** The same for whole iterations, with one test each and another one after them, unless the loop still
      runs. */
  ghost predicate Looped(before: Counters, after: Counters, turns: seq<Turn>, outcome: Outcome) {
    && after.0 == before.0 + |turns| + (if outcome == Running then 0 else 1)
    && Called(before, (before.0, after.1, after.2), turns)
  }

  /** The whole program, with the history of all steps. */
  class Machine {
    var s: State
    ghost const start: State
    ghost var history: seq<Event>

    ghost predicate Valid()
      reads this
    {
      Initial(start) && IsRun(Enabled, Apply, start, history) && s == Final(Apply, start, history) && Inv(s)
    }

    /** The number of events of a kind so far. */
    ghost function Made(kind: (State, Event) -> bool): nat
      reads this
    {
      Tally(Apply, kind, start, history)
    }

    constructor (producers: nat, consumers: nat, max: nat)
      requires max >= 1
      ensures Valid() && s == start && history == []
      ensures |s.producers| == producers && |s.consumers| == consumers
    {
      var ps := seq(producers, _ => Thread(Unborn, 0));
      var cs := seq(consumers, _ => Thread(Unborn, 0));
      s := State(StartingProducers(0), false, false, false, 1, max, ps, cs);
      start := State(StartingProducers(0), false, false, false, 1, max, ps, cs);
      history := [];
      new;
      InitialInv(start);
    }

    method Do(e: Event)
      requires Valid() && Enabled(s, e)
      modifies this
      ensures Valid() && s == Apply(old(s), e) && history == old(history) + [e]
      ensures forall kind :: Made(kind) == old(Made(kind)) + if kind(old(s), e) then 1 else 0
    {
      RunAppend(Enabled, Apply, start, history, [e]);
      forall kind
        ensures Tally(Apply, kind, start, history + [e]) == Made(kind) + if kind(s, e) then 1 else 0
      {
        TallyOne(Apply, kind, start, history, e);
      }
      InvStep(s, e);
      match e {
        case MainStep(answer) => s := ApplyMain(s, answer);
        case ProducerStep(i, ok) => s := ApplyProducer(s, i, ok);
        case ConsumerStep(i, taken) => s := ApplyConsumer(s, i, taken);
      }
      history := history + [e];
    }

    /** Other threads run. Events that cannot happen are skipped. */
    method Interleave(who: Who, es: seq<Event>)
      requires Valid()
      requires who.Producer? ==> who.i < |s.producers| && Live(s.producers[who.i])
      requires who.Consumer? ==> who.i < |s.consumers| && Live(s.consumers[who.i])
      modifies this
      ensures Valid() && old(history) <= history && Kept(old(s), s, who)
      ensures forall kind :: Belongs(kind, who) ==> Made(kind) == old(Made(kind))
    {
      hide Inv, Enabled, Apply, Final, IsRun, Initial, Made;
      var k := 0;
      while k < |es|
        invariant 0 <= k <= |es| && Valid() && old(history) <= history && Kept(old(s), s, who)
        invariant forall kind :: Belongs(kind, who) ==> Made(kind) == old(Made(kind))
      {
        if !By(es[k], who) && Enabled(s, es[k]) {
          OthersKeep(s, es[k], who);
          Do(es[k]);
        }
        k := k + 1;
      }
    }

    /** The tests, posts and calls at the maximum of producer i so far, and so for a consumer. */
    ghost function ProducerCounts(i: nat): Counters
      reads this
    {
      (Made(Test(Producer(i))), Made(Post(i)), Made(Full(i)))
    }

    ghost function ConsumerCounts(i: nat): Counters
      reads this
    {
      (Made(Test(Consumer(i))), Made(Take(i)), Made(Empty(i)))
    }

    /** Others run while producer i is between two of its steps. */
    method AroundProducer(i: nat, es: seq<Event>)
      requires Valid() && i < |s.producers| && Live(s.producers[i])
      modifies this
      ensures Valid() && old(history) <= history && Kept(old(s), s, Producer(i))
      ensures ProducerCounts(i) == old(ProducerCounts(i))
    {
      KindsBelong(i);
      hide Inv, Enabled, Apply, Final, IsRun, Initial, Made, Belongs;
      Interleave(Producer(i), es);
    }

    method AroundConsumer(i: nat, es: seq<Event>)
      requires Valid() && i < |s.consumers| && Live(s.consumers[i])
      modifies this
      ensures Valid() && old(history) <= history && Kept(old(s), s, Consumer(i))
      ensures ConsumerCounts(i) == old(ConsumerCounts(i))
    {
      KindsBelong(i);
      hide Inv, Enabled, Apply, Final, IsRun, Initial, Made, Belongs;
      Interleave(Consumer(i), es);
    }

    /** A step of producer i and what it adds to its counts. */
    method StepProducer(i: nat, ok: bool)
      requires Valid() && Enabled(s, ProducerStep(i, ok))
      modifies this
      ensures Valid() && s == ApplyProducer(old(s), i, ok) && old(history) <= history
      ensures ProducerCounts(i) == Added(old(ProducerCounts(i)), old(s.producers[i].pc), ok, old(s.counter >= s.max))
    {
      hide Valid, Final, IsRun, Initial, Inv, Made, ApplyProducer;
      Do(ProducerStep(i, ok));
    }

    method StepConsumer(i: nat, taken: bool)
      requires Valid() && Enabled(s, ConsumerStep(i, taken))
      modifies this
      ensures Valid() && s == ApplyConsumer(old(s), i, taken) && old(history) <= history
      ensures ConsumerCounts(i) == Added(old(ConsumerCounts(i)), old(s.consumers[i].pc), taken, old(s.counter == 0))
    {
      hide Valid, Final, IsRun, Initial, Inv, Made, ApplyConsumer;
      Do(ConsumerStep(i, taken));
    }

    method AroundMain(es: seq<Event>)
      requires Valid()
      modifies this
      ensures Valid() && old(history) <= history && Kept(old(s), s, Main)
    {
      Interleave(Main, es);
    }

    method StepMain(answer: bool)
      requires Valid() && Enabled(s, MainStep(answer))
      modifies this
      ensures Valid() && s == ApplyMain(old(s), answer) && old(history) <= history
    {
      hide Valid, Final, IsRun, Initial, Inv, Made, ApplyMain;
      Do(MainStep(answer));
    }

    /** The body of the producer's loop: sem_post() and sleep(). False stands for a call of a destroyed
        semaphore. */
    method PostAndSleep(i: nat, turn: Turn) returns (defined: bool)
      requires Valid() && i < |s.producers| && s.producers[i].pc == Calling
      modifies this
      ensures Valid() && old(history) <= history && i < |s.producers|
      ensures if defined then s.producers[i].pc == Testing
              else s.producers[i].pc == Calling && s.destroyed && s.failed
      ensures Called(old(ProducerCounts(i)), ProducerCounts(i), if defined then [turn] else [])
    {
      hide Valid, Final, IsRun, Initial, Inv, AllDone, ProducerCounts, ApplyMain;
      AroundProducer(i, turn.calling);
      if s.destroyed {
        ValidInv();
        RunningAfterDestroy(s, s.producers[i]);
        return false;
      }
      StepProducer(i, turn.success && s.counter < s.max);
      AroundProducer(i, turn.sleeping);
      StepProducer(i, false);
      WillingOne(turn);
      return true;
    }

    /** `producer_process_thread` (ipc/semaphore.c:25-36), for any number of iterations. It does n whole
        iterations, each with one test and one call, which posts unless the turn lets it fail or the counter
        is at its maximum. It stops before the last turn only when a test finds `quit` set or at a call of a
        destroyed semaphore. */
    method ProducerThread(i: nat, turns: seq<Turn>) returns (outcome: Outcome, n: nat)
      requires Valid() && i < |s.producers| && s.producers[i].pc == Testing
      modifies this
      ensures Valid() && old(history) <= history && i < |s.producers|
      ensures if outcome == Running then n == |turns| else n < |turns|
      ensures Looped(old(ProducerCounts(i)), ProducerCounts(i), turns[..n], outcome)
      ensures outcome == Running ==> s.producers[i].pc == Testing
      ensures outcome == Returned ==> s.producers[i].pc == Done && s.quit
      ensures outcome == Undefined ==> s.producers[i].pc == Calling && s.destroyed && s.failed
    {
      hide Valid, Final, IsRun, Initial, Inv, AllDone, ProducerCounts, ApplyMain;
      n := 0;
      while n < |turns|
        invariant 0 <= n <= |turns| && Looped(old(ProducerCounts(i)), ProducerCounts(i), turns[..n], Running)
        invariant Valid() && old(history) <= history && i < |s.producers| && s.producers[i].pc == Testing
      {
        AroundProducer(i, turns[n].first);
        var quit := s.quit;
        StepProducer(i, false);
        if quit { return Returned, n; }
        var ok := PostAndSleep(i, turns[n]);
        if !ok { return Undefined, n; }
        assert turns[..n + 1][..n] == turns[..n];
        n := n + 1;
      }
      return Running, n;
    }

    /** `consumer_process_thread` (ipc/semaphore.c:38-55), in the same way. A call takes unless the turn lets
        it fail or the counter is zero. */
    method ConsumerThread(i: nat, turns: seq<Turn>) returns (outcome: Outcome, n: nat)
      requires Valid() && i < |s.consumers| && s.consumers[i].pc == Testing
      modifies this
      ensures Valid() && old(history) <= history && i < |s.consumers|
      ensures if outcome == Running then n == |turns| else n < |turns|
      ensures Looped(old(ConsumerCounts(i)), ConsumerCounts(i), turns[..n], outcome)
      ensures outcome == Running ==> s.consumers[i].pc == Testing
      ensures outcome == Returned ==> s.consumers[i].pc == Done && s.quit
      ensures outcome == Undefined ==> s.consumers[i].pc == Calling && s.destroyed && s.failed
    {
      hide Valid, Final, IsRun, Initial, Inv, AllDone, ConsumerCounts, ApplyMain;
      n := 0;
      while n < |turns|
        invariant 0 <= n <= |turns| && Looped(old(ConsumerCounts(i)), ConsumerCounts(i), turns[..n], Running)
        invariant Valid() && old(history) <= history && i < |s.consumers| && s.consumers[i].pc == Testing
      {
        AroundConsumer(i, turns[n].first);
        var quit := s.quit;
        StepConsumer(i, false);
        if quit { return Returned, n; }
        AroundConsumer(i, turns[n].calling);
        if s.destroyed {
          ValidInv();
          RunningAfterDestroy(s, s.consumers[i]);
          return Undefined, n;
        }
        StepConsumer(i, turns[n].success && s.counter > 0);
        assert turns[..n + 1][..n] == turns[..n];
        n := n + 1;
      }
      return Running, n;
    }

    /** `start_producer` (ipc/semaphore.c:57-67). The first k producers are created. */
    method StartProducers(creates: nat -> bool, others: nat -> seq<Event>) returns (ret: int, k: nat)
      requires Valid() && s.main == StartingProducers(0)
      modifies this
      ensures Valid() && old(history) <= history && |s.producers| == |old(s.producers)| && BornUpTo(s.producers, k)
      ensures ret == 0 <==> forall j :: 0 <= j < |s.producers| ==> creates(j)
      ensures ret == 0 ==> s.main == StartingConsumers(0) && k == |s.producers| && !s.failed
      ensures ret != 0 ==> ret == -1 && s.main == Destroying && s.failed
      ensures ret != 0 ==> k < |s.producers| && !creates(k) && forall j :: 0 <= j < k ==> creates(j)
    {
      hide Valid, Final, IsRun, Initial, Inv, Control, ApplyProducer, ApplyConsumer;
      k := 0;
      while k < |s.producers|
        invariant Valid() && old(history) <= history && k <= |s.producers| == |old(s.producers)|
        invariant s.main == StartingProducers(k)
        invariant forall j :: 0 <= j < k ==> creates(j)
        decreases |s.producers| - k
      {
        AroundMain(others(k));
        ProducersSoFar();
        StepMain(creates(k));
        if !creates(k) { return -1, k; }
        k := k + 1;
      }
      ProducersSoFar();
      StepMain(true);
      return 0, k;
    }

    lemma ProducersSoFar()
      requires Valid() && s.main.StartingProducers?
      ensures BornUpTo(s.producers, s.main.k) && !s.failed
    {
    }

    /** `start_consumer` (ipc/semaphore.c:69-79), which goes on when a creation fails. */
    method StartConsumers(creates: nat -> bool, others: nat -> seq<Event>)
      requires Valid() && s.main == StartingConsumers(0)
      modifies this
      ensures Valid() && old(history) <= history && s.main == Reading && s.failed == old(s.failed)
      ensures AllBorn(s.producers)
      ensures |s.producers| == |old(s.producers)| && |s.consumers| == |old(s.consumers)|
      ensures forall j :: 0 <= j < |s.consumers| ==> (s.consumers[j].pc == Unborn <==> !creates(j))
    {
      hide Valid, Final, IsRun, Initial, Inv, Control, ApplyProducer, ApplyConsumer;
      var k := 0;
      while k < |s.consumers|
        invariant Valid() && old(history) <= history && k <= |s.consumers| == |old(s.consumers)|
        invariant |s.producers| == |old(s.producers)|
        invariant s.main == StartingConsumers(k)
        invariant forall j :: 0 <= j < k ==> (s.consumers[j].pc == Unborn <==> !creates(j))
        invariant s.failed == old(s.failed)
        decreases |s.consumers| - k
      {
        AroundMain(others(k));
        ConsumersToCome();
        StepMain(creates(k));
        k := k + 1;
      }
      StepMain(true);
      ValidInv();
      WhenStarted(s);
    }

    lemma ConsumersToCome()
      requires Valid() && s.main.StartingConsumers?
      ensures UnbornFrom(s.consumers, s.main.k)
    {
    }

    /** The command loop (ipc/semaphore.c:98-105), up to the first 'q'. */
    method ReadCommands(keys: seq<char>, others: nat -> seq<Event>) returns (pressed: bool)
      requires Valid() && s.main == Reading
      modifies this
      ensures Valid() && old(history) <= history && s.failed == old(s.failed) && SameBirths(old(s), s)
      ensures pressed <==> 'q' in keys
      ensures s.main == if pressed then Quitting else Reading
    {
      hide Final, IsRun, Initial, Inv;
      var k := 0;
      while k < |keys|
        invariant 0 <= k <= |keys| && Valid() && old(history) <= history && s.main == Reading
        invariant s.failed == old(s.failed) && SameBirths(old(s), s) && 'q' !in keys[..k]
      {
        AroundMain(others(k));
        StepMain(keys[k] == 'q');
        if keys[k] == 'q' { return true; }
        k := k + 1;
      }
      return false;
    }

    /** The two join loops of `main` (ipc/semaphore.c:109-116). They stop only at a thread that has not
        returned yet, or after the call for a thread that was never created. */
    method Join(others: nat -> seq<Event>) returns (finished: bool)
      requires Valid() && s.main == JoiningProducers(0)
      modifies this
      ensures Valid() && old(history) <= history && s.failed == old(s.failed) && SameBirths(old(s), s)
      ensures finished ==> s.main == Destroying && AllDone(s)
      ensures !finished ==> !MainEnabled(s)
      ensures s.main == Stray ==> !AllBorn(s.consumers)
    {
      hide Valid, Final, IsRun, Initial, Inv, Control, Accounted, ApplyProducer, ApplyConsumer, AllDone;
      JoiningNotFailed();
      finished := JoinProducers(others);
      if !finished { return; }
      var j := 0;
      while j < |s.consumers|
        invariant Valid() && old(history) <= history && j <= |s.consumers| && s.main == JoiningConsumers(j)
        invariant s.failed == old(s.failed) && SameBirths(old(s), s)
        decreases |s.consumers| - j
      {
        AroundMain(others(|s.producers| + j));
        if Live(s.consumers[j]) { return false; }
        var missing := s.consumers[j].pc == Unborn;
        StepMain(false);
        if missing { return false; }
        j := j + 1;
      }
      StepMain(false);
      AfterJoin();
    }

    method JoinProducers(others: nat -> seq<Event>) returns (finished: bool)
      requires Valid() && s.main == JoiningProducers(0)
      modifies this
      ensures Valid() && old(history) <= history && s.failed == old(s.failed) && SameBirths(old(s), s)
      ensures finished ==> s.main == JoiningConsumers(0)
      ensures !finished ==> s.main.JoiningProducers? && !MainEnabled(s)
    {
      hide Valid, Final, IsRun, Initial, Inv, Control, Accounted, ApplyProducer, ApplyConsumer;
      var k := 0;
      while k < |s.producers|
        invariant Valid() && old(history) <= history && k <= |s.producers| && s.main == JoiningProducers(k)
        invariant s.failed == old(s.failed) && SameBirths(old(s), s)
        decreases |s.producers| - k
      {
        AroundMain(others(k));
        if s.producers[k].pc != Done { return false; }
        StepMain(false);
        k := k + 1;
      }
      StepMain(false);
      return true;
    }

    lemma AfterJoin()
      requires Valid() && !s.failed && s.main == Destroying
      ensures AllDone(s)
    {
    }

    lemma JoiningNotFailed()
      requires Valid() && s.main == JoiningProducers(0)
      ensures !s.failed
    {
    }

    /** `main` after sem_init() (ipc/semaphore.c:90-118). It finishes unless no 'q' is read or a join does
        not return. The semaphore is then destroyed; no thread is running exactly if every producer was
        created or the first one was not; and if all were, every thread exists and has left its loop. */
    method MainProgram(creates: nat -> bool, createsConsumer: nat -> bool, keys: seq<char>,
                       others: nat -> nat -> seq<Event>)
      returns (finished: bool)
      requires Valid() && s.main == StartingProducers(0)
      modifies this
      ensures Valid() && old(history) <= history && |s.producers| == |old(s.producers)|
      ensures finished ==> s.destroyed && (s.failed <==> exists k :: 0 <= k < |s.producers| && !creates(k))
      ensures finished ==> (NoneLive(s) <==> !s.failed || !creates(0))
      ensures finished && !s.failed ==>
        'q' in keys && AllDone(s) && forall j :: 0 <= j < |s.consumers| ==> createsConsumer(j)
      ensures !finished ==> !MainEnabled(s) || (s.main == Reading && 'q' !in keys)
      ensures s.main == Stray ==> exists j :: 0 <= j < |s.consumers| && !createsConsumer(j)
    {
      hide Valid, Final, IsRun, Initial, Inv, AllDone, NoneLive, Control, ApplyProducer, ApplyConsumer;
      var ret, k := StartProducers(creates, others(0));
      if ret == 0 {
        var joined := ServeAndJoin(createsConsumer, keys, others);
        if !joined { return false; }
      }
      AroundMain(others(5)(0));
      StepMain(false);
      assert Inv(s) by { ValidInv(); }
      NoCallAfterDestroy(s);
      LiveExactly(s);
      return true;
    }

    lemma ValidInv()
      requires Valid()
      ensures Inv(s)
    {
    }

    /** `main` between the creation of the producers and sem_destroy() (ipc/semaphore.c:95-116). */
    method ServeAndJoin(creates: nat -> bool, keys: seq<char>, others: nat -> nat -> seq<Event>)
      returns (joined: bool)
      requires Valid() && s.main == StartingConsumers(0)
      modifies this
      ensures Valid() && old(history) <= history && s.failed == old(s.failed)
      ensures |s.producers| == |old(s.producers)|
      ensures joined ==> s.main == Destroying && 'q' in keys && forall j :: 0 <= j < |s.consumers| ==> creates(j)
      ensures !joined ==> !MainEnabled(s) || (s.main == Reading && 'q' !in keys)
      ensures s.main == Stray ==> exists j :: 0 <= j < |s.consumers| && !creates(j)
    {
      hide Valid, Final, IsRun, Initial, Inv, Control, ApplyProducer, ApplyConsumer;
      StartConsumers(creates, others(1));
      var pressed := ReadCommands(keys, others(2));
      if !pressed { return false; }
      AroundMain(others(3)(0));
      StepMain(false);
      joined := Join(others(4));
    }
  }
}
