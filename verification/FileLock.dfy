/** The readers and writers of sync/file_lock.c: any number of processes running `process_write` or
    `process_read`, interleaved step by step over the kernel's lock table. A request is granted only
    when it conflicts with no lock of another process; it may fail at any time, and so may an unlock. */
module FileLock {
  import opened Runs
  import opened Sums

  datatype Kind = Writer | Reader

  datatype Lock = Unlocked | ReadLock | WriteLock

  /** Where a process is: about to test `g_app_quit`; blocked in F_SETLKW; between lock and unlock;
      calling `file_unlock`; in msleep(); out of the loop; after close(). */
  datatype Pc = Checking | Requesting | Inside | Releasing | Napping | Leaving | Exited

  /** `lock` is the entry of this process in the lock table. */
  datatype Process = Process(kind: Kind, pc: Pc, quit: bool, lock: Lock)

  type State = seq<Process>

  /** Grant: F_SETLKW returns 0. Refuse: it returns -1, with errno EINTR or another. Unlock: the call
      of `file_unlock` releases the lock or fails. Signal: the handler of a caught signal runs. */
  datatype Event =
    | Check(p: nat) | Grant(p: nat) | Refuse(p: nat, interrupted: bool) | Work(p: nat)
    | Unlock(p: nat, released: bool) | WakeUp(p: nat) | Close(p: nat) | Signal(p: nat)

  function Wanted(k: Kind): Lock {
    if k == Writer then WriteLock else ReadLock
  }

  /** Two locks of different processes conflict when one of them is a write lock. */
  predicate Conflict(a: Lock, b: Lock) {
    a != Unlocked && b != Unlocked && (a == WriteLock || b == WriteLock)
  }

  predicate Grantable(s: State, p: nat)
    requires p < |s|
  {
    forall q :: 0 <= q < |s| && q != p ==> !Conflict(Wanted(s[p].kind), s[q].lock)
  }

  /** Only a caught signal interrupts the request, and the handler of every caught signal sets the
      flag (sync/file_lock.c:100-121). */
  predicate Enabled(s: State, e: Event) {
    e.p < |s| &&
    match e
    case Check(p) => s[p].pc == Checking
    case Grant(p) => s[p].pc == Requesting && Grantable(s, p)
    case Refuse(p, interrupted) => s[p].pc == Requesting && (interrupted ==> s[p].quit)
    case Work(p) => s[p].pc == Inside
    case Unlock(p, _) => s[p].pc == Releasing
    case WakeUp(p) => s[p].pc == Napping
    case Close(p) => s[p].pc == Leaving
    case Signal(p) => s[p].pc != Exited
  }

  function Step(p: Process, e: Event): Process {
    match e
    case Check(_) => p.(pc := if p.quit then Leaving else Requesting)
    case Grant(_) => p.(pc := Inside, lock := Wanted(p.kind))
    case Refuse(_, _) => p.(pc := Napping)
    case Work(_) => p.(pc := Releasing)
    case Unlock(_, released) => p.(pc := Napping, lock := if released then Unlocked else p.lock)
    case WakeUp(_) => p.(pc := Checking)
    case Close(_) => p.(pc := Exited, lock := Unlocked)
    case Signal(_) => p.(quit := true)
  }

  function Apply(s: State, e: Event): State {
    if Enabled(s, e) then s[e.p := Step(s[e.p], e)] else s
  }

  predicate Initial(s: State) {
    forall p :: 0 <= p < |s| ==> s[p].pc == Checking && s[p].lock == Unlocked && !s[p].quit
  }

  // ----- Exclusion -----

  /** Between a successful lock and the return of the unlock. */
  predicate Critical(p: Process) {
    p.pc == Inside || p.pc == Releasing
  }

  ghost predicate Exclusive(s: State) {
    forall p, q :: 0 <= p < |s| && 0 <= q < |s| && p != q && Critical(s[p]) && s[p].kind == Writer ==> !Critical(s[q])
  }

  /** A process holds no lock but its own kind, holds it while critical, and locks do not conflict. */
  ghost predicate Inv(s: State) {
    && (forall p :: 0 <= p < |s| ==> s[p].lock == Unlocked || s[p].lock == Wanted(s[p].kind))
    && (forall p :: 0 <= p < |s| && Critical(s[p]) ==> s[p].lock == Wanted(s[p].kind))
    && (forall p :: 0 <= p < |s| && s[p].pc == Exited ==> s[p].lock == Unlocked)
    && (forall p :: 0 <= p < |s| && (s[p].pc == Leaving || s[p].pc == Exited) ==> s[p].quit)
    && (forall p, q :: 0 <= p < q < |s| ==> !Conflict(s[p].lock, s[q].lock))
  }

  lemma InvStep(s: State, e: Event)
    requires Inv(s) && Enabled(s, e)
    ensures Inv(Apply(s, e))
  {
  }

  lemma {:induction false} InvRun(s: State, es: seq<Event>)
    requires Inv(s) && IsRun(Enabled, Apply, s, es)
    ensures Inv(Final(Apply, s, es))
    decreases |es|
  {
    if |es| > 0 {
      InvStep(s, es[0]);
      InvRun(Apply(s, es[0]), es[1..]);
    }
  }

  /** In every reachable state of any number of processes, a writer between lock and unlock excludes
      every other reader and writer, whatever requests and unlocks have failed before. */
  lemma MutualExclusion(s: State, es: seq<Event>)
    requires Initial(s) && IsRun(Enabled, Apply, s, es)
    ensures Exclusive(Final(Apply, s, es))
  {
    InvRun(s, es);
  }

  // ----- Sharing -----

  /** A waiting reader is granted its lock exactly when no writer holds one, and a waiting writer exactly
      when nobody else does; so readers share the file. */
  lemma GrantedExactly(s: State, es: seq<Event>, p: nat)
    requires Initial(s) && IsRun(Enabled, Apply, s, es)
    requires p < |Final(Apply, s, es)| && Final(Apply, s, es)[p].pc == Requesting
    ensures var t := Final(Apply, s, es);
            && (t[p].kind == Reader ==>
                  (Enabled(t, Grant(p)) <==>
                     forall q :: 0 <= q < |t| && q != p && t[q].kind == Writer ==> t[q].lock == Unlocked))
            && (t[p].kind == Writer ==>
                  (Enabled(t, Grant(p)) <==> forall q :: 0 <= q < |t| && q != p ==> t[q].lock == Unlocked))
  {
    InvRun(s, es);
    GrantableExactly(Final(Apply, s, es), p);
  }

  /** Somebody else holds a lock that keeps p waiting. */
  predicate Opposed(s: State, p: nat)
    requires p < |s|
  {
    exists q :: 0 <= q < |s| && q != p && s[q].lock != Unlocked && (s[p].kind == Writer || s[q].kind == Writer)
  }

  lemma GrantableExactly(s: State, p: nat)
    requires Inv(s) && p < |s|
    ensures Grantable(s, p) <==> !Opposed(s, p)
    ensures s[p].kind == Reader ==>
      (Grantable(s, p) <==> forall q :: 0 <= q < |s| && q != p && s[q].kind == Writer ==> s[q].lock == Unlocked)
    ensures s[p].kind == Writer ==>
      (Grantable(s, p) <==> forall q :: 0 <= q < |s| && q != p ==> s[q].lock == Unlocked)
  {
  }

  /** Any number of readers can hold their locks at once: this run brings all of them between lock and
      unlock. */
  lemma ReadersShare(s: State) returns (es: seq<Event>)
    requires Initial(s)
    ensures IsRun(Enabled, Apply, s, es)
    ensures var t := Final(Apply, s, es);
            |t| == |s| && forall p :: 0 <= p < |t| ==>
              t[p].kind == s[p].kind && if s[p].kind == Reader then t[p].pc == Inside && t[p].lock == ReadLock
                                        else t[p] == s[p]
  {
    es := EnterReaders(s, 0);
  }

  /** The readers from the k-th on enter. */
  lemma {:induction false} EnterReaders(s: State, k: nat) returns (es: seq<Event>)
    requires k <= |s|
    requires forall p :: 0 <= p < |s| ==> s[p].lock == if p < k && s[p].kind == Reader then ReadLock else Unlocked
    requires forall p :: k <= p < |s| ==> s[p].pc == Checking && !s[p].quit
    ensures IsRun(Enabled, Apply, s, es)
    ensures var t := Final(Apply, s, es);
            |t| == |s| && forall p :: 0 <= p < |t| ==>
              t[p].kind == s[p].kind && if k <= p && s[p].kind == Reader then t[p].pc == Inside && t[p].lock == ReadLock
                                        else t[p] == s[p]
    decreases |s| - k
  {
    if k == |s| {
      es := [];
    } else if s[k].kind == Writer {
      es := EnterReaders(s, k + 1);
    } else {
      var asked := Apply(s, Check(k));
      var entered := Apply(asked, Grant(k));
      es := EnterReaders(entered, k + 1);
      RunCons(Enabled, Apply, asked, Grant(k), es);
      RunCons(Enabled, Apply, s, Check(k), [Grant(k)] + es);
      es := [Check(k)] + ([Grant(k)] + es);
    }
  }

  // ----- Progress -----

  /** A step of process p that is not a failure. */
  function NextStep(s: State, p: nat): Event
    requires p < |s|
  {
    match s[p].pc
    case Checking => Check(p)
    case Requesting => Grant(p)
    case Inside => Work(p)
    case Releasing => Unlock(p, true)
    case Napping => WakeUp(p)
    case Leaving => Close(p)
    case Exited => Signal(p)
  }

  /** Whoever blocks a request can move itself, so there is no chain of waiting processes and never a
      reason for EDEADLK. */
  lemma BlockerMoves(s: State, es: seq<Event>, p: nat, q: nat)
    requires Initial(s) && IsRun(Enabled, Apply, s, es)
    requires p < |Final(Apply, s, es)| && q < |Final(Apply, s, es)| && p != q
    requires Final(Apply, s, es)[p].pc == Requesting
    requires Conflict(Wanted(Final(Apply, s, es)[p].kind), Final(Apply, s, es)[q].lock)
    ensures Final(Apply, s, es)[q].pc != Exited && Enabled(Final(Apply, s, es), NextStep(Final(Apply, s, es), q))
  {
    InvRun(s, es);
  }

  /** No reachable state is stuck: while some process has not exited, some process has a step that is
      neither a failure nor a signal. */
  lemma NeverStuck(s: State, es: seq<Event>, p: nat) returns (q: nat)
    requires Initial(s) && IsRun(Enabled, Apply, s, es)
    requires p < |Final(Apply, s, es)| && Final(Apply, s, es)[p].pc != Exited
    ensures q < |Final(Apply, s, es)| && Final(Apply, s, es)[q].pc != Exited
    ensures Enabled(Final(Apply, s, es), NextStep(Final(Apply, s, es), q))
  {
    InvRun(s, es);
    q := Mover(Final(Apply, s, es), p);
  }

  lemma Mover(s: State, p: nat) returns (q: nat)
    requires Inv(s) && p < |s| && s[p].pc != Exited
    ensures q < |s| && s[q].pc != Exited && Enabled(s, NextStep(s, q))
  {
    q := p;
    if s[p].pc == Requesting && !Grantable(s, p) {
      q :| 0 <= q < |s| && q != p && Conflict(Wanted(s[p].kind), s[q].lock);
    }
  }

  // ----- Shutdown -----

  function Entry(p: nat): (State, Event) -> bool {
    (_, e: Event) => e == Grant(p)
  }

  /** A step of p itself, signals apart. */
  function OwnStep(p: nat): (State, Event) -> bool {
    (_, e: Event) => e.p == p && !e.Signal?
  }

  function NoSignal(): (State, Event) -> bool {
    (_, e: Event) => !e.Signal?
  }

  /** An upper bound on the steps a process has left once its flag is set. */
  function Rank(p: Process): nat {
    match p.pc
    case Requesting => 6
    case Inside => 5
    case Releasing => 4
    case Napping => 3
    case Checking => 2
    case Leaving => 1
    case Exited => 0
  }

  /** Once the flag of a process is set, it enters at most once more in any run, only if it is already
      waiting for the lock, and it takes at most six more steps. */
  lemma {:induction false} AtMostOneMoreEntry(s: State, es: seq<Event>, p: nat)
    requires IsRun(Enabled, Apply, s, es) && p < |s| && s[p].quit
    ensures Tally(Apply, Entry(p), s, es) <= if s[p].pc == Requesting then 1 else 0
    ensures p < |Final(Apply, s, es)|
    ensures Tally(Apply, OwnStep(p), s, es) <= Rank(s[p]) - Rank(Final(Apply, s, es)[p])
    decreases |es|
  {
    if |es| > 0 {
      AtMostOneMoreEntry(Apply(s, es[0]), es[1..], p);
    }
  }

  /** A request interrupted by a signal leads to exit without entering: no run after it holds a grant
      for that process, which can always go on by itself and has exited after three steps. */
  lemma InterruptedNeverEnters(s: State, p: nat, es: seq<Event>)
    requires Enabled(s, Refuse(p, true)) && IsRun(Enabled, Apply, Apply(s, Refuse(p, true)), es)
    ensures var s' := Apply(s, Refuse(p, true));
            var t := Final(Apply, s', es);
            && Tally(Apply, Entry(p), s', es) == 0
            && p < |t| && Tally(Apply, OwnStep(p), s', es) <= 3
            && (Tally(Apply, OwnStep(p), s', es) == 3 ==> t[p].pc == Exited)
            && (t[p].pc != Exited ==> Enabled(t, NextStep(t, p)))
  {
    AtMostOneMoreEntry(Apply(s, Refuse(p, true)), es, p);
  }

  function Ranks(s: State): (r: seq<int>)
    ensures |r| == |s| && forall p :: 0 <= p < |s| ==> r[p] == Rank(s[p])
  {
    seq(|s|, p requires 0 <= p < |s| => Rank(s[p]))
  }

  predicate AllQuit(s: State) {
    forall p :: 0 <= p < |s| ==> s[p].quit
  }

  /** When every flag is set, every step but a signal uses up one unit of the total rank. */
  lemma {:induction false} ShutdownSteps(s: State, es: seq<Event>)
    requires IsRun(Enabled, Apply, s, es) && AllQuit(s)
    ensures Tally(Apply, NoSignal(), s, es) <= Sum(Ranks(s)) - Sum(Ranks(Final(Apply, s, es)))
    decreases |es|
  {
    if |es| > 0 {
      ShutdownStep(s, es[0]);
      hide Enabled, Apply, AllQuit;
      ShutdownSteps(Apply(s, es[0]), es[1..]);
    }
  }

  lemma ShutdownStep(s: State, e: Event)
    requires Enabled(s, e) && AllQuit(s)
    ensures AllQuit(Apply(s, e))
    ensures Sum(Ranks(Apply(s, e))) + (if e.Signal? then 0 else 1) <= Sum(Ranks(s))
  {
    var t := Apply(s, e);
    assert Ranks(t) == Ranks(s)[e.p := Rank(t[e.p])];
    SumUpdate(Ranks(s), e.p, Rank(t[e.p]));
  }

  /** Shutdown ends: once every process has its signal, at most six steps per process remain, and a run
      that cannot be continued by a step that is neither failure nor signal has everyone exited and
      the lock table empty. */
  lemma ShutdownEnds(s: State, before: seq<Event>, after: seq<Event>)
    requires Initial(s) && IsRun(Enabled, Apply, s, before) && AllQuit(Final(Apply, s, before))
    requires IsRun(Enabled, Apply, Final(Apply, s, before), after)
    ensures Tally(Apply, NoSignal(), Final(Apply, s, before), after) <= 6 * |Final(Apply, s, before)|
    ensures var end := Final(Apply, Final(Apply, s, before), after);
            (forall p :: 0 <= p < |end| ==> end[p].pc == Exited && end[p].lock == Unlocked)
            || exists p :: 0 <= p < |end| && end[p].pc != Exited && Enabled(end, NextStep(end, p))
  {
    hide Final, IsRun, Tally;
    var mid := Final(Apply, s, before);
    var end := Final(Apply, mid, after);
    ShutdownSteps(mid, after);
    SumBounds(Ranks(mid), 6);
    SumBounds(Ranks(end), 6);
    RunAppend(Enabled, Apply, s, before, after);
    InvRun(s, before + after);
    if p :| 0 <= p < |end| && end[p].pc != Exited {
      var q := NeverStuck(s, before + after, p);
      assert Enabled(end, NextStep(end, q));
    }
  }

  /** In every run a process has its flag set exactly if it had before or a signal has arrived. */
  lemma {:induction false} QuitExactly(s: State, es: seq<Event>, p: nat)
    requires IsRun(Enabled, Apply, s, es) && p < |s|
    ensures |Final(Apply, s, es)| == |s|
    ensures Final(Apply, s, es)[p].quit <==> s[p].quit || Signal(p) in es
    decreases |es|
  {
    if |es| > 0 {
      assert Apply(s, es[0])[p].quit <==> s[p].quit || es[0] == Signal(p);
      assert es == [es[0]] + es[1..];
      QuitExactly(Apply(s, es[0]), es[1..], p);
    }
  }

  /** Shutdown is always possible: every run can be continued so that all processes have exited and the
      lock table is empty. */
  lemma CanShutDown(s: State, before: seq<Event>) returns (after: seq<Event>)
    requires Initial(s) && IsRun(Enabled, Apply, s, before)
    ensures IsRun(Enabled, Apply, Final(Apply, s, before), after)
    ensures var end := Final(Apply, Final(Apply, s, before), after);
            |end| == |s| && forall p :: 0 <= p < |end| ==> end[p].pc == Exited && end[p].lock == Unlocked
  {
    var mid := Final(Apply, s, before);
    InvRun(s, before);
    SameProcesses(s, before);
    var signals := SignalAll(mid, 0);
    var signalled := Final(Apply, mid, signals);
    InvRun(mid, signals);
    var steps := RunOut(signalled);
    InvRun(signalled, steps);
    RunAppend(Enabled, Apply, mid, signals, steps);
    after := signals + steps;
  }

  lemma {:induction false} SameProcesses(s: State, es: seq<Event>)
    requires IsRun(Enabled, Apply, s, es)
    ensures |Final(Apply, s, es)| == |s|
    decreases |es|
  {
    if |es| > 0 {
      SameProcesses(Apply(s, es[0]), es[1..]);
    }
  }

  /** Each process from the k-th on that is left gets a signal. */
  lemma {:induction false} SignalAll(s: State, k: nat) returns (es: seq<Event>)
    requires Inv(s) && k <= |s| && forall p :: 0 <= p < k ==> s[p].quit
    ensures IsRun(Enabled, Apply, s, es) && |Final(Apply, s, es)| == |s| && AllQuit(Final(Apply, s, es))
    decreases |s| - k
  {
    if k == |s| {
      es := [];
    } else if s[k].pc == Exited {
      es := SignalAll(s, k + 1);
    } else {
      InvStep(s, Signal(k));
      es := SignalAll(Apply(s, Signal(k)), k + 1);
      RunCons(Enabled, Apply, s, Signal(k), es);
      es := [Signal(k)] + es;
    }
  }

  /** Processes with their flags set take steps until none is left. */
  lemma {:induction false} RunOut(s: State) returns (es: seq<Event>)
    requires Inv(s) && AllQuit(s)
    ensures IsRun(Enabled, Apply, s, es) && |Final(Apply, s, es)| == |s|
    ensures forall p :: 0 <= p < |s| ==> Final(Apply, s, es)[p].pc == Exited
    decreases Sum(Ranks(s))
  {
    es := [];
    if p :| 0 <= p < |s| && s[p].pc != Exited {
      var q := Mover(s, p);
      var e := NextStep(s, q);
      InvStep(s, e);
      ShutdownStep(s, e);
      SumBounds(Ranks(Apply(s, e)), 6);
      es := RunOut(Apply(s, e));
      RunCons(Enabled, Apply, s, e, es);
      es := [e] + es;
    }
  }

  // ----- The loops of the source -----

  datatype Answer = Granted | Failed(interrupted: bool)

  /** What happens during one iteration of a loop: what other processes do and which signals arrive
      before the test, during the request, in the critical section, before the unlock and in msleep(),
      and the answers of fcntl() to the lock and the unlock. */
  datatype Turn = Turn(first: seq<Event>, waiting: seq<Event>, answer: Answer,
                       working: seq<Event>, releasing: seq<Event>, released: bool, napping: seq<Event>)

  function Grants(turns: seq<Turn>): nat {
    if |turns| == 0 then 0
    else Grants(turns[..|turns| - 1]) + if turns[|turns| - 1].answer == Granted then 1 else 0
  }

  function Test(p: nat): (State, Event) -> bool {
    (_, e: Event) => e == Check(p)
  }

  /** The processes and the lock table, with the history of all steps. */
  class Machine {
    var procs: State
    ghost const start: State
    ghost var history: seq<Event>

    ghost predicate Valid()
      reads this
    {
      Initial(start) && IsRun(Enabled, Apply, start, history) && procs == Final(Apply, start, history)
    }

    /** How often process p has tested its flag, and how often it has entered. */
    ghost function Tests(p: nat): nat
      reads this
    {
      Tally(Apply, Test(p), start, history)
    }

    ghost function Entries(p: nat): nat
      reads this
    {
      Tally(Apply, Entry(p), start, history)
    }

    constructor (kinds: seq<Kind>)
      ensures Valid() && history == [] && |procs| == |kinds|
      ensures forall p :: 0 <= p < |kinds| ==> procs[p].kind == kinds[p]
    {
      procs := seq(|kinds|, p requires 0 <= p < |kinds| => Process(kinds[p], Checking, false, Unlocked));
      start := seq(|kinds|, p requires 0 <= p < |kinds| => Process(kinds[p], Checking, false, Unlocked));
      history := [];
    }

    method Do(e: Event)
      requires Valid() && Enabled(procs, e)
      modifies this
      ensures Valid() && procs == Apply(old(procs), e) && history == old(history) + [e]
      ensures forall p: nat :: Tests(p) == old(Tests(p)) + if e == Check(p) then 1 else 0
      ensures forall p: nat :: Entries(p) == old(Entries(p)) + if e == Grant(p) then 1 else 0
    {
      RunAppend(Enabled, Apply, start, history, [e]);
      forall p: nat
        ensures Tally(Apply, Test(p), start, history + [e]) == Tests(p) + if e == Check(p) then 1 else 0
      {
        TallyOne(Apply, Test(p), start, history, e);
      }
      forall p: nat
        ensures Tally(Apply, Entry(p), start, history + [e]) == Entries(p) + if e == Grant(p) then 1 else 0
      {
        TallyOne(Apply, Entry(p), start, history, e);
      }
      procs := procs[e.p := Step(procs[e.p], e)];
      history := history + [e];
    }

    /** Other processes run, and signals arrive anywhere. Events that cannot happen are skipped. */
    method Interleave(p: nat, es: seq<Event>)
      requires Valid() && p < |procs|
      modifies this
      ensures Valid() && old(history) <= history && p < |procs|
      ensures procs[p] == old(procs[p]).(quit := procs[p].quit) && (old(procs[p].quit) ==> procs[p].quit)
      ensures Tests(p) == old(Tests(p)) && Entries(p) == old(Entries(p))
    {
      hide Tests, Entries;
      var i := 0;
      while i < |es|
        invariant 0 <= i <= |es| && Valid() && old(history) <= history && p < |procs|
        invariant procs[p] == old(procs[p]).(quit := procs[p].quit) && (old(procs[p].quit) ==> procs[p].quit)
        invariant Tests(p) == old(Tests(p)) && Entries(p) == old(Entries(p))
      {
        if (es[i].p != p || es[i].Signal?) && Enabled(procs, es[i]) {
          Do(es[i]);
        }
        i := i + 1;
      }
    }

    /** `file_wlock` and `file_rlock` (sync/file_lock.c:26-54). The call returns what fcntl() returned, and 0
        only when the process excludes whom it must; `blocked` says that it has not returned yet, which
        happens only while another process holds a conflicting lock. */
    method Lock(p: nat, waiting: seq<Event>, answer: Answer) returns (blocked: bool, ret: int)
      requires Valid() && p < |procs| && procs[p].pc == Requesting
      modifies this
      ensures Valid() && old(history) <= history && p < |procs|
      ensures blocked ==> answer == Granted && procs[p].pc == Requesting && Opposed(procs, p)
      ensures !blocked && ret == 0 ==> !Opposed(procs, p)
      ensures !blocked ==> ret == if answer == Granted then 0 else -1
      ensures !blocked && ret == 0 ==> procs[p].pc == Inside && Exclusive(procs)
      ensures !blocked && ret == -1 ==> procs[p].pc == Napping && procs[p].lock == old(procs[p].lock)
      ensures Tests(p) == old(Tests(p)) && Entries(p) == old(Entries(p)) + if !blocked && ret == 0 then 1 else 0
    {
      hide Tests, Entries;
      Interleave(p, waiting);
      InvRun(start, history);
      GrantableExactly(procs, p);
      match answer {
        case Granted =>
          if !Grantable(procs, p) { return true, 0; }
          Do(Grant(p));
          MutualExclusion(start, history);
          return false, 0;
        case Failed(interrupted) =>
          Do(Refuse(p, interrupted && procs[p].quit));
          return false, -1;
      }
    }

    /** From the return of the lock to the return of `file_unlock`, which may fail
        (sync/file_lock.c:56-69, 77-79, 92-94). */
    method Hold(p: nat, turn: Turn)
      requires Valid() && p < |procs| && procs[p].pc == Inside
      modifies this
      ensures Valid() && old(history) <= history && p < |procs| && procs[p].pc == Napping
      ensures procs[p].lock == if turn.released then Unlocked else old(procs[p].lock)
      ensures Tests(p) == old(Tests(p)) && Entries(p) == old(Entries(p))
    {
      hide Valid, Tests, Entries;
      Interleave(p, turn.working);
      Do(Work(p));
      Interleave(p, turn.releasing);
      Do(Unlock(p, turn.released));
    }

    /** The body of the loop: the request, the critical section if it is granted, and msleep(). */
    method Iterate(p: nat, turn: Turn) returns (blocked: bool)
      requires Valid() && p < |procs| && procs[p].pc == Requesting
      modifies this
      ensures Valid() && old(history) <= history && p < |procs|
      ensures if blocked then turn.answer == Granted && procs[p].pc == Requesting && Opposed(procs, p)
              else procs[p].pc == Checking
      ensures Tests(p) == old(Tests(p))
      ensures Entries(p) == old(Entries(p)) + if !blocked && turn.answer == Granted then 1 else 0
    {
      hide Valid, IsRun, Final, Grantable, Opposed, Exclusive, Tests, Entries;
      var ret;
      blocked, ret := Lock(p, turn.waiting, turn.answer);
      if blocked { return; }
      if ret == 0 {
        Hold(p, turn);
      }
      Interleave(p, turn.napping);
      Do(WakeUp(p));
    }

    /** `process_write` and `process_read` (sync/file_lock.c:71-98) followed by close(), for any number
        of iterations. They do n whole iterations, each with one test and one entry for each granted
        request, and stop before the last one only with the flag set, and then hold nothing, or in a
        request that another process blocks. */
    method RunProcess(p: nat, turns: seq<Turn>) returns (left: bool, n: nat)
      requires Valid() && p < |procs| && procs[p].pc == Checking
      modifies this
      ensures Valid() && old(history) <= history && p < |procs| && n <= |turns|
      ensures left ==> procs[p].pc == Exited && procs[p].lock == Unlocked && procs[p].quit && n < |turns|
      ensures !left && n < |turns| ==>
        turns[n].answer == Granted && procs[p].pc == Requesting && Opposed(procs, p)
      ensures n == |turns| ==> procs[p].pc == Checking
      ensures Tests(p) == old(Tests(p)) + n + if n < |turns| then 1 else 0
      ensures Entries(p) == old(Entries(p)) + Grants(turns[..n])
    {
      hide Valid, IsRun, Final, Grantable, Opposed, Exclusive, Tests, Entries;
      n := 0;
      while n < |turns|
        invariant 0 <= n <= |turns|
        invariant Valid() && old(history) <= history && p < |procs| && procs[p].pc == Checking
        invariant Tests(p) == old(Tests(p)) + n && Entries(p) == old(Entries(p)) + Grants(turns[..n])
      {
        Interleave(p, turns[n].first);
        var quit := procs[p].quit;
        Do(Check(p));
        if quit { break; }
        var blocked := Iterate(p, turns[n]);
        if blocked { return false, n; }
        assert turns[..n + 1][..n] == turns[..n];
        n := n + 1;
      }
      if n == |turns| { return false, n; }
      Interleave(p, turns[n].waiting);
      Do(Close(p));
      return true, n;
    }
  }
}
