/** The accept loop and the session threads of net/tls_server.c: any number of connections,
    interleaved step by step over the open descriptors of the process. socket() and accept() take the
    lowest descriptor that is not open; accept() may fail at any time, and handshakes and reads may
    return anything. */
module TlsServer {
  import opened Runs
  import opened Sums

  /** What is done to one accepted connection, in order. */
  datatype Action =
    | NewSsl | SetFd | Handshake(result: int) | Read(result: int) | Shutdown
    | FreeSsl | CloseFd | FreeSession

  /** Allocating to Releasing are with `main`: before malloc() and before pthread_create(), and when that
      failed, before close() and before free(). Starting to Freeing are with the session thread, one
      stage for each call or test. */
  datatype Stage =
    | Allocating | Creating | Dropping | Releasing
    | Starting | Binding | Handshaking | Testing | Reading | ShuttingDown | FreeingSsl | Closing | Freeing
    | Ended

  datatype Connection = Connection(fd: nat, stage: Stage, log: seq<Action>)

  /** Where `main` is: testing the flag, in accept(), busy with connection c, in msleep(), about to
      close the listening socket, about to return, or gone, and the process with it. */
  datatype MainPc = MainTesting | Accepting | Handling(c: nat) | Napping | Stopping | Returning | Gone

  /** `inherited` are the descriptors the process had open when it called socket(). */
  datatype State = State(main: MainPc, quit: bool, inherited: set<nat>, listener: nat, open: set<nat>,
                         conns: seq<Connection>)

  /** The answer is the result of accept(), pthread_create(), SSL_accept() or SSL_read(); other steps
      ignore it. */
  datatype Event = MainStep(answer: int) | SessionStep(c: nat, answer: int) | Signal

  /** The thread has its session and has not returned. */
  predicate Running(g: Stage) {
    match g
    case Starting | Binding | Handshaking | Testing | Reading | ShuttingDown | FreeingSsl | Closing | Freeing => true
    case _ => false
  }

  predicate WithMain(g: Stage) {
    g == Allocating || g == Creating || g == Dropping || g == Releasing
  }

  /** What socket() and accept() choose (section 2.14 of the System Interfaces volume of POSIX.1-2017). */
  predicate LowestFree(open: set<nat>, fd: nat) {
    fd !in open && forall k :: 0 <= k < fd ==> k in open
  }

  predicate Enabled(s: State, e: Event) {
    s.main != Gone &&
    match e
    case MainStep(answer) =>
      && (s.main == Accepting && answer >= 0 ==> LowestFree(s.open, answer))
      && (s.main.Handling? ==> s.main.c < |s.conns|)
    case SessionStep(c, _) => c < |s.conns| && Running(s.conns[c].stage)
    case Signal => true
  }

  function Move(s: State, c: nat, stage: Stage, actions: seq<Action>): State
    requires c < |s.conns|
  {
    s.(conns := s.conns[c := Connection(s.conns[c].fd, stage, s.conns[c].log + actions)])
  }

  function CloseOf(s: State, c: nat): State
    requires c < |s.conns|
  {
    s.(open := s.open - {s.conns[c].fd})
  }

  /** The loop of `main` (net/tls_server.c:145-171). It takes descriptor 0 for an error and would leak it;
      ZeroNeverAccepted shows that accept() cannot return it here. */
  function ApplyMain(s: State, answer: int): State
    requires Enabled(s, MainStep(answer))
  {
    match s.main
    case MainTesting => s.(main := if s.quit then Stopping else Accepting)
    case Accepting =>
      if answer > 0 then
        s.(main := Handling(|s.conns|), open := s.open + {answer},
           conns := s.conns + [Connection(answer, Allocating, [])])
      else s.(main := Napping, open := if answer == 0 then s.open + {0} else s.open)
    case Handling(c) =>
      (match s.conns[c].stage
       case Allocating => Move(s, c, Creating, [])
       case Creating => if answer == 0 then Move(s, c, Starting, []).(main := Napping) else Move(s, c, Dropping, [])
       case Dropping => CloseOf(Move(s, c, Releasing, [CloseFd]), c)
       case Releasing => Move(s, c, Ended, [FreeSession]).(main := Napping)
       case _ => s)
    case Napping => s.(main := MainTesting)
    case Stopping => s.(main := Returning, open := s.open - {s.listener})
    case Returning => s.(main := Gone)
    case Gone => s
  }

  /** The next step of `session_process_thread` (net/tls_server.c:41-73) on its connection. */
  function Next(x: Connection, quit: bool, answer: int): Connection {
    match x.stage
    case Starting => Connection(x.fd, Binding, x.log + [NewSsl])
    case Binding => Connection(x.fd, Handshaking, x.log + [SetFd])
    case Handshaking => Connection(x.fd, if answer == -1 then FreeingSsl else Testing, x.log + [Handshake(answer)])
    case Testing => Connection(x.fd, if quit then ShuttingDown else Reading, x.log)
    case Reading =>
      Connection(x.fd, if answer == -1 || answer == 0 then ShuttingDown else Testing, x.log + [Read(answer)])
    case ShuttingDown => Connection(x.fd, FreeingSsl, x.log + [Shutdown])
    case FreeingSsl => Connection(x.fd, Closing, x.log + [FreeSsl])
    case Closing => Connection(x.fd, Freeing, x.log + [CloseFd])
    case Freeing => Connection(x.fd, Ended, x.log + [FreeSession])
    case _ => x
  }

  function ApplySession(s: State, c: nat, answer: int): State
    requires c < |s.conns|
  {
    var x := s.conns[c];
    s.(conns := s.conns[c := Next(x, s.quit, answer)],
       open := if x.stage == Closing then s.open - {x.fd} else s.open)
  }

  function Apply(s: State, e: Event): State {
    if !Enabled(s, e) then s
    else match e
      case MainStep(answer) => ApplyMain(s, answer)
      case SessionStep(c, answer) => ApplySession(s, c, answer)
      case Signal => s.(quit := true)
  }

  /** After listen(): the listening socket is the descriptor that socket() chose. */
  predicate Initial(s: State) {
    && s.main == MainTesting && !s.quit && s.conns == []
    && LowestFree(s.inherited, s.listener) && s.open == s.inherited + {s.listener}
  }

  // ----- Descriptors -----

  /** The descriptor of the connection is open. */
  predicate Holding(g: Stage) {
    g != Releasing && g != Freeing && g != Ended
  }

  predicate Listening(s: State) {
    s.main != Returning && s.main != Gone
  }

  /** The open descriptors are the inherited ones, the listening socket and those of the connections that
      hold one, all different; the connection `main` is busy with is the only one `main` owns. */
  ghost predicate Descriptors(s: State) {
    && LowestFree(s.inherited, s.listener) && s.inherited <= s.open
    && (forall fd :: fd in s.open ==> Known(s, fd) || HeldBySome(s, fd))
    && (forall c :: 0 <= c < |s.conns| ==> s.conns[c].fd > 0)
    && (forall c :: 0 <= c < |s.conns| && Holding(s.conns[c].stage) ==>
          s.conns[c].fd in s.open && !Known(s, s.conns[c].fd))
    && (forall c, d :: 0 <= c < d < |s.conns| && Holding(s.conns[c].stage) && Holding(s.conns[d].stage) ==>
          s.conns[c].fd != s.conns[d].fd)
    && (Listening(s) ==> s.listener in s.open)
    && (forall c :: 0 <= c < |s.conns| ==> (WithMain(s.conns[c].stage) <==> s.main == Handling(c)))
    && (s.main.Handling? ==> s.main.c < |s.conns|)
  }

  /** Open, but not an accepted connection. */
  predicate Known(s: State, fd: nat) {
    fd in s.inherited || (fd == s.listener && Listening(s))
  }

  ghost predicate HeldBySome(s: State, fd: nat) {
    exists c :: 0 <= c < |s.conns| && Holding(s.conns[c].stage) && s.conns[c].fd == fd
  }

  predicate SameSetting(s: State, t: State) {
    t.inherited == s.inherited && t.listener == s.listener
  }

  /** t is s with connection c moved on, its descriptor neither opened nor changed. */
  ghost predicate Moved(s: State, t: State, c: nat) {
    && c < |s.conns| && |t.conns| == |s.conns| && SameSetting(s, t) && Listening(t) == Listening(s)
    && (forall d :: 0 <= d < |s.conns| && d != c ==> t.conns[d] == s.conns[d])
    && t.conns[c].fd == s.conns[c].fd
    && (WithMain(t.conns[c].stage) <==> t.main == Handling(c))
    && (forall d: nat :: d != c ==> (t.main == Handling(d) <==> s.main == Handling(d)))
  }

  lemma MoveKeeps(s: State, t: State, c: nat)
    requires Descriptors(s) && Moved(s, t, c)
    requires Holding(t.conns[c].stage) == Holding(s.conns[c].stage) && t.open == s.open
    ensures Descriptors(t)
  {
    forall fd | fd in t.open ensures Known(t, fd) || HeldBySome(t, fd) {
      if HeldBySome(s, fd) {
        var d :| 0 <= d < |s.conns| && Holding(s.conns[d].stage) && s.conns[d].fd == fd;
        assert Holding(t.conns[d].stage) && t.conns[d].fd == fd;
      }
    }
  }

  lemma CloseKeeps(s: State, t: State, c: nat)
    requires Descriptors(s) && Moved(s, t, c)
    requires Holding(s.conns[c].stage) && !Holding(t.conns[c].stage) && t.open == s.open - {s.conns[c].fd}
    ensures Descriptors(t)
  {
    forall fd | fd in t.open ensures Known(t, fd) || HeldBySome(t, fd) {
      if HeldBySome(s, fd) {
        var d :| 0 <= d < |s.conns| && Holding(s.conns[d].stage) && s.conns[d].fd == fd;
        assert d != c && Holding(t.conns[d].stage) && t.conns[d].fd == fd;
      }
    }
  }

  lemma NewKeeps(s: State, t: State, x: Connection)
    requires Descriptors(s) && s.main == Accepting && x.fd !in s.open && x.fd > 0 && x.stage == Allocating
    requires t.conns == s.conns + [x] && t.open == s.open + {x.fd} && SameSetting(s, t)
    requires t.main == Handling(|s.conns|)
    ensures Descriptors(t)
  {
    var n := |s.conns|;
    assert t.conns[n] == x && forall d :: 0 <= d < n ==> t.conns[d] == s.conns[d];
    forall fd | fd in t.open ensures Known(t, fd) || HeldBySome(t, fd) {
      if fd == x.fd {
        assert Holding(t.conns[n].stage);
      } else if HeldBySome(s, fd) {
        var d :| 0 <= d < n && Holding(s.conns[d].stage) && s.conns[d].fd == fd;
        assert Holding(t.conns[d].stage) && t.conns[d].fd == fd;
      }
    }
  }

  /** Steps of `main` that leave the connections alone. */
  lemma IdleKeeps(s: State, t: State)
    requires Descriptors(s) && t.conns == s.conns && SameSetting(s, t)
    requires !s.main.Handling? && !t.main.Handling?
    requires if Listening(s) && !Listening(t) then t.open == s.open - {s.listener}
             else t.open == s.open && Listening(t) == Listening(s)
    ensures Descriptors(t)
  {
    forall fd | fd in t.open ensures Known(t, fd) || HeldBySome(t, fd) {
      if HeldBySome(s, fd) {
        var d :| 0 <= d < |s.conns| && Holding(s.conns[d].stage) && s.conns[d].fd == fd;
        assert Holding(t.conns[d].stage) && t.conns[d].fd == fd;
      }
    }
  }

  /** Descriptor 0 is taken before the first accept(), by the caller of the program or by socket(), and
      `main` closes neither before its last test. */
  lemma ZeroTaken(s: State)
    requires Descriptors(s) && Listening(s)
    ensures 0 in s.open
  {
  }

  lemma DescriptorsHandling(s: State, answer: int)
    requires Descriptors(s) && s.main.Handling? && Enabled(s, MainStep(answer))
    ensures Descriptors(ApplyMain(s, answer))
  {
    var t, c := ApplyMain(s, answer), s.main.c;
    assert WithMain(s.conns[c].stage);
    hide Descriptors;
    assert t.conns == s.conns[c := t.conns[c]] && t.conns[c].fd == s.conns[c].fd;
    assert Moved(s, t, c);
    if s.conns[c].stage == Dropping {
      CloseKeeps(s, t, c);
    } else {
      MoveKeeps(s, t, c);
    }
  }

  lemma DescriptorsMain(s: State, answer: int)
    requires Descriptors(s) && Enabled(s, MainStep(answer))
    ensures Descriptors(ApplyMain(s, answer))
  {
    hide Descriptors;
    var t := ApplyMain(s, answer);
    if s.main == Accepting {
      ZeroTaken(s);
    }
    if s.main == Accepting && answer >= 0 {
      NewKeeps(s, t, t.conns[|s.conns|]);
    } else if s.main.Handling? {
      DescriptorsHandling(s, answer);
    } else {
      IdleKeeps(s, t);
    }
  }

  lemma DescriptorsSession(s: State, c: nat, answer: int)
    requires Descriptors(s) && Enabled(s, SessionStep(c, answer))
    ensures Descriptors(ApplySession(s, c, answer))
  {
    var t := ApplySession(s, c, answer);
    assert !WithMain(s.conns[c].stage) && s.main != Handling(c);
    hide Descriptors;
    assert t.conns == s.conns[c := t.conns[c]] && t.main == s.main && !WithMain(t.conns[c].stage);
    assert Moved(s, t, c);
    if s.conns[c].stage == Closing {
      CloseKeeps(s, t, c);
    } else {
      MoveKeeps(s, t, c);
    }
  }

  // ----- The trace of a connection -----

  /** SSL_accept() did not return -1, and reads followed. */
  ghost predicate Talked(log: seq<Action>) {
    && |log| >= 3 && log[0] == NewSsl && log[1] == SetFd
    && log[2].Handshake? && log[2] != Handshake(-1)
    && forall k :: 3 <= k < |log| ==> log[k].Read?
  }

  /** Up to SSL_free(): the handshake failed, or the connection was shut down. */
  ghost predicate Served(log: seq<Action>) {
    log == [NewSsl, SetFd, Handshake(-1)] || (|log| >= 1 && log[|log| - 1] == Shutdown && Talked(log[..|log| - 1]))
  }

  ghost predicate ServedThen(log: seq<Action>, tail: seq<Action>) {
    |log| >= |tail| && log[|log| - |tail|..] == tail && Served(log[..|log| - |tail|])
  }

  /** What has happened to a connection, stage by stage. */
  ghost predicate Traced(c: Connection) {
    match c.stage
    case Allocating | Creating | Dropping | Starting => c.log == []
    case Releasing => c.log == [CloseFd]
    case Binding => c.log == [NewSsl]
    case Handshaking => c.log == [NewSsl, SetFd]
    case Testing | Reading | ShuttingDown => Talked(c.log)
    case FreeingSsl => ServedThen(c.log, [])
    case Closing => ServedThen(c.log, [FreeSsl])
    case Freeing => ServedThen(c.log, [FreeSsl, CloseFd])
    case Ended => c.log == [CloseFd, FreeSession] || ServedThen(c.log, [FreeSsl, CloseFd, FreeSession])
  }

  lemma ThenMore(log: seq<Action>, tail: seq<Action>, a: Action)
    requires ServedThen(log, tail)
    ensures ServedThen(log + [a], tail + [a])
  {
    hide Served;
    assert (log + [a])[..|log| - |tail|] == log[..|log| - |tail|];
  }

  lemma ServedNow(log: seq<Action>)
    requires Served(log)
    ensures ServedThen(log, [])
  {
    hide Served;
    assert log[..|log| - 0] == log && log[|log| - 0..] == [];
  }

  lemma TracedServing(x: Connection, quit: bool, answer: int)
    requires Running(x.stage) && Traced(x)
    requires x.stage != FreeingSsl && x.stage != Closing && x.stage != Freeing
    ensures Traced(Next(x, quit, answer))
  {
    hide ServedThen;
    var log := Next(x, quit, answer).log;
    if x.stage == ShuttingDown {
      assert log[..|log| - 1] == x.log;
      ServedNow(log);
    } else if x.stage == Handshaking && answer == -1 {
      ServedNow(log);
    }
  }

  lemma TracedCleaning(x: Connection, quit: bool, answer: int)
    requires x.stage == FreeingSsl || x.stage == Closing || x.stage == Freeing
    requires Traced(x)
    ensures Traced(Next(x, quit, answer))
  {
    hide ServedThen;
    if x.stage == FreeingSsl {
      ThenMore(x.log, [], FreeSsl);
      assert [] + [FreeSsl] == [FreeSsl];
    } else if x.stage == Closing {
      ThenMore(x.log, [FreeSsl], CloseFd);
      assert [FreeSsl] + [CloseFd] == [FreeSsl, CloseFd];
    } else {
      ThenMore(x.log, [FreeSsl, CloseFd], FreeSession);
      assert [FreeSsl, CloseFd] + [FreeSession] == [FreeSsl, CloseFd, FreeSession];
    }
  }

  lemma TracedSession(s: State, c: nat, answer: int)
    requires Enabled(s, SessionStep(c, answer)) && Traced(s.conns[c])
    ensures Traced(ApplySession(s, c, answer).conns[c])
  {
    hide Traced, Next;
    var x := s.conns[c];
    if x.stage == FreeingSsl || x.stage == Closing || x.stage == Freeing {
      TracedCleaning(x, s.quit, answer);
    } else {
      TracedServing(x, s.quit, answer);
    }
  }

  lemma TracedMain(s: State, answer: int, c: nat)
    requires Enabled(s, MainStep(answer)) && Descriptors(s) && c < |ApplyMain(s, answer).conns|
    requires forall d :: 0 <= d < |s.conns| ==> Traced(s.conns[d])
    ensures Traced(ApplyMain(s, answer).conns[c])
  {
    if s.main == Handling(c) {
      assert Traced(s.conns[c]) && WithMain(s.conns[c].stage);
    }
  }

  // ----- Every reachable state -----

  function Closed(c: Connection): int {
    if Holding(c.stage) then 0 else 1
  }

  function ClosedFlags(conns: seq<Connection>): (r: seq<int>)
    ensures |r| == |conns| && forall c :: 0 <= c < |conns| ==> r[c] == Closed(conns[c])
  {
    seq(|conns|, c requires 0 <= c < |conns| => Closed(conns[c]))
  }

  /** open = inherited + listening + accepted - closed. */
  ghost predicate Counted(s: State) {
    |s.open| == |s.inherited| + (if Listening(s) then 1 else 0) + |s.conns| - Sum(ClosedFlags(s.conns))
  }

  lemma CountMove(s: State, t: State, c: nat)
    requires Counted(s) && c < |s.conns| == |t.conns| && t.conns == s.conns[c := t.conns[c]]
    requires Listening(t) == Listening(s) && t.inherited == s.inherited
    requires |t.open| == |s.open| - Closed(t.conns[c]) + Closed(s.conns[c])
    ensures Counted(t)
  {
    assert ClosedFlags(t.conns) == ClosedFlags(s.conns)[c := Closed(t.conns[c])];
    SumUpdate(ClosedFlags(s.conns), c, Closed(t.conns[c]));
  }

  lemma CountAccept(s: State, answer: int)
    requires Counted(s) && s.main == Accepting && answer > 0 && Enabled(s, MainStep(answer))
    ensures Counted(ApplyMain(s, answer))
  {
    var t := ApplyMain(s, answer);
    assert ClosedFlags(t.conns)[..|s.conns|] == ClosedFlags(s.conns);
  }

  lemma CountHandling(s: State, answer: int)
    requires Counted(s) && Descriptors(s) && s.main.Handling? && Enabled(s, MainStep(answer))
    ensures Counted(ApplyMain(s, answer))
  {
    assert WithMain(s.conns[s.main.c].stage);
    CountMove(s, ApplyMain(s, answer), s.main.c);
  }

  lemma CountMain(s: State, answer: int)
    requires Counted(s) && Descriptors(s) && Enabled(s, MainStep(answer))
    ensures Counted(ApplyMain(s, answer))
  {
    if s.main == Accepting {
      ZeroTaken(s);
    }
    if s.main == Accepting && answer >= 0 {
      CountAccept(s, answer);
    } else if s.main.Handling? {
      CountHandling(s, answer);
    }
  }

  lemma CountSession(s: State, c: nat, answer: int)
    requires Counted(s) && Descriptors(s) && Enabled(s, SessionStep(c, answer))
    ensures Counted(ApplySession(s, c, answer))
  {
    var t, x := ApplySession(s, c, answer), s.conns[c];
    NextHolds(x, s.quit, answer);
    hide Counted, Next, Running;
    if x.stage == Closing {
      assert x.fd in s.open;
      hide Descriptors;
      assert |t.open| == |s.open| - 1;
    }
    hide Descriptors;
    CountMove(s, t, c);
  }

  /** Closing is the one step of a thread that gives up the descriptor. */
  lemma NextHolds(x: Connection, quit: bool, answer: int)
    requires Running(x.stage)
    ensures Holding(Next(x, quit, answer).stage) <==> Holding(x.stage) && x.stage != Closing
  {
  }

  ghost predicate Inv(s: State) {
    Descriptors(s) && Counted(s) && forall c :: 0 <= c < |s.conns| ==> Traced(s.conns[c])
  }

  lemma InvStep(s: State, e: Event)
    requires Inv(s) && Enabled(s, e)
    ensures Inv(Apply(s, e))
  {
    hide Traced, Counted;
    match e {
      case MainStep(answer) =>
        DescriptorsMain(s, answer);
        CountMain(s, answer);
        forall c | 0 <= c < |ApplyMain(s, answer).conns| ensures Traced(ApplyMain(s, answer).conns[c]) {
          TracedMain(s, answer, c);
        }
      case SessionStep(c, answer) =>
        DescriptorsSession(s, c, answer);
        CountSession(s, c, answer);
        TracedSession(s, c, answer);
      case Signal =>
        SignalKeeps(s);
    }
  }

  lemma SignalKeeps(s: State)
    requires Descriptors(s) && Counted(s)
    ensures Descriptors(s.(quit := true)) && Counted(s.(quit := true))
  {
    forall fd | fd in s.open && HeldBySome(s, fd) ensures HeldBySome(s.(quit := true), fd) {
    }
  }

  lemma {:induction false} InvRun(s: State, es: seq<Event>)
    requires Inv(s) && IsRun(Enabled, Apply, s, es)
    ensures Inv(Final(Apply, s, es))
    decreases |es|
  {
    if |es| > 0 {
      InvStep(s, es[0]);
      hide Inv, Enabled, Apply;
      InvRun(Apply(s, es[0]), es[1..]);
    }
  }

  lemma Reachable(s: State, es: seq<Event>)
    requires Initial(s) && IsRun(Enabled, Apply, s, es)
    ensures Inv(Final(Apply, s, es))
  {
    assert ClosedFlags(s.conns) == [];
    InvRun(s, es);
  }

  // ----- Ownership -----

  /** Connection c is the only one that holds this descriptor. */
  ghost predicate OnlyHolder(s: State, fd: nat, c: nat) {
    && c < |s.conns| && Holding(s.conns[c].stage) && s.conns[c].fd == fd
    && forall d :: 0 <= d < |s.conns| && d != c && Holding(s.conns[d].stage) ==> s.conns[d].fd != fd
  }

  /** In no reachable state can accept() return descriptor 0, which `main` takes for an error: every
      descriptor it returns is above 0 and becomes a connection. */
  lemma ZeroNeverAccepted(s: State, es: seq<Event>)
    requires Initial(s) && IsRun(Enabled, Apply, s, es)
    ensures var t := Final(Apply, s, es);
            && !(t.main == Accepting && Enabled(t, MainStep(0)))
            && forall c :: 0 <= c < |t.conns| ==> t.conns[c].fd > 0
  {
    Reachable(s, es);
    var t := Final(Apply, s, es);
    if t.main == Accepting {
      ZeroTaken(t);
    }
  }

  /** In every reachable state the program has every open descriptor that it did not inherit, the listening
      socket apart, with exactly one owner: `main`, or one session thread that has not closed it. */
  lemma UniqueOwner(s: State, es: seq<Event>, fd: nat) returns (c: nat)
    requires Initial(s) && IsRun(Enabled, Apply, s, es)
    requires fd in Final(Apply, s, es).open && fd !in s.inherited
    requires !(Listening(Final(Apply, s, es)) && fd == s.listener)
    ensures var t := Final(Apply, s, es);
            && OnlyHolder(t, fd, c)
            && (Running(t.conns[c].stage) || (WithMain(t.conns[c].stage) && t.main == Handling(c)))
  {
    Reachable(s, es);
    KeepsSetting(s, es);
    var t := Final(Apply, s, es);
    assert HeldBySome(t, fd);
    c :| 0 <= c < |t.conns| && Holding(t.conns[c].stage) && t.conns[c].fd == fd;
  }

  /** Nothing leaks and nothing foreign is closed: what the program inherited stays open, and when every
      connection has ended, nothing else is open but the socket it listens on. */
  lemma NothingLeaks(s: State, es: seq<Event>)
    requires Initial(s) && IsRun(Enabled, Apply, s, es)
    ensures var t := Final(Apply, s, es);
            && s.inherited <= t.open
            && ((forall c :: 0 <= c < |t.conns| ==> t.conns[c].stage == Ended) ==>
                  t.open == s.inherited + if Listening(t) then {s.listener} else {})
  {
    Reachable(s, es);
    KeepsSetting(s, es);
  }

  /** A step that closes a connection closes a descriptor that is open and belongs to it alone. */
  lemma CloseIsOwn(s: State, es: seq<Event>, c: nat)
    requires Initial(s) && IsRun(Enabled, Apply, s, es) && c < |Final(Apply, s, es).conns|
    requires Final(Apply, s, es).conns[c].stage == Closing || Final(Apply, s, es).conns[c].stage == Dropping
    ensures var t := Final(Apply, s, es);
            && t.conns[c].fd in t.open && OnlyHolder(t, t.conns[c].fd, c)
            && t.conns[c].fd !in s.inherited && (Listening(t) ==> t.conns[c].fd != s.listener)
  {
    Reachable(s, es);
    KeepsSetting(s, es);
  }

  lemma {:induction false} KeepsSetting(s: State, es: seq<Event>)
    requires IsRun(Enabled, Apply, s, es)
    ensures SameSetting(s, Final(Apply, s, es))
    decreases |es|
  {
    if |es| > 0 {
      KeepsSetting(Apply(s, es[0]), es[1..]);
    }
  }

  // ----- Clean-up -----

  function Count(log: seq<Action>, a: Action): nat {
    if |log| == 0 then 0 else (if log[|log| - 1] == a then 1 else 0) + Count(log[..|log| - 1], a)
  }

  lemma {:induction false} CountNone(log: seq<Action>, a: Action)
    requires a !in log
    ensures Count(log, a) == 0
  {
    if |log| > 0 {
      assert log[|log| - 1] in log;
      CountNone(log[..|log| - 1], a);
    }
  }

  lemma {:induction false} CountAppend(x: seq<Action>, y: seq<Action>, a: Action)
    ensures Count(x + y, a) == Count(x, a) + Count(y, a)
  {
    if |y| == 0 {
      assert x + y == x;
    } else {
      assert (x + y)[..|x + y| - 1] == x + y[..|y| - 1];
      CountAppend(x, y[..|y| - 1], a);
    }
  }

  /** Of the releasing actions, a served connection has seen one shutdown, or none after a handshake
      that returned -1. */
  lemma ServedCounts(log: seq<Action>)
    requires Served(log)
    ensures Count(log, FreeSsl) == Count(log, CloseFd) == Count(log, FreeSession) == 0
    ensures Count(log, Shutdown) == if Handshake(-1) in log then 0 else 1
  {
    CountNone(log, FreeSsl);
    CountNone(log, CloseFd);
    CountNone(log, FreeSession);
    if log == [NewSsl, SetFd, Handshake(-1)] {
      CountNone(log, Shutdown);
    } else {
      CountNone(log[..|log| - 1], Shutdown);
    }
  }

  lemma TailCounts(a: Action)
    ensures Count([FreeSsl], a) == if a == FreeSsl then 1 else 0
    ensures Count([FreeSsl, CloseFd], a) == if a == FreeSsl || a == CloseFd then 1 else 0
    ensures Count([FreeSsl, CloseFd, FreeSession], a)
            == if a == FreeSsl || a == CloseFd || a == FreeSession then 1 else 0
  {
    assert [FreeSsl][..0] == [];
    assert [FreeSsl, CloseFd][..1] == [FreeSsl];
    assert [FreeSsl, CloseFd, FreeSession][..2] == [FreeSsl, CloseFd];
  }

  /** Each connection is closed at most once, and no longer holds its descriptor exactly if it was. */
  lemma ClosedOnce(c: Connection)
    requires Traced(c)
    ensures Count(c.log, CloseFd) == Closed(c)
  {
    TailCounts(CloseFd);
    if c.stage == FreeingSsl || c.stage == Closing || c.stage == Freeing
       || (c.stage == Ended && c.log != [CloseFd, FreeSession]) {
      ClosedOnceServed(c.log, if c.stage == FreeingSsl then [] else if c.stage == Closing then [FreeSsl]
                              else if c.stage == Freeing then [FreeSsl, CloseFd] else [FreeSsl, CloseFd, FreeSession]);
    } else if c.stage == Ended || c.stage == Releasing {
      assert [CloseFd, FreeSession][..1] == [CloseFd] && [CloseFd][..0] == [];
    } else {
      CountNone(c.log, CloseFd);
    }
  }

  lemma ClosedOnceServed(log: seq<Action>, tail: seq<Action>)
    requires ServedThen(log, tail)
    ensures Count(log, CloseFd) == Count(tail, CloseFd)
  {
    var front := log[..|log| - |tail|];
    assert log == front + tail;
    CountAppend(front, tail, CloseFd);
    ServedCounts(front);
  }

  function Closes(conns: seq<Connection>): (r: seq<int>)
    ensures |r| == |conns| && forall c :: 0 <= c < |conns| ==> r[c] == Count(conns[c].log, CloseFd)
  {
    seq(|conns|, c requires 0 <= c < |conns| => Count(conns[c].log, CloseFd))
  }

  /** In every reachable state: the open descriptors are the inherited ones, the listening socket and the
      accepted ones less the closed ones, and no connection was closed twice. */
  lemma OpenIsAcceptedLessClosed(s: State, es: seq<Event>)
    requires Initial(s) && IsRun(Enabled, Apply, s, es)
    ensures var t := Final(Apply, s, es);
            && |t.open| == |s.inherited| + (if Listening(t) then 1 else 0) + |t.conns| - Sum(Closes(t.conns))
            && forall c :: 0 <= c < |t.conns| ==> Count(t.conns[c].log, CloseFd) <= 1
  {
    Reachable(s, es);
    KeepsSetting(s, es);
    var t := Final(Apply, s, es);
    forall c | 0 <= c < |t.conns| ensures Count(t.conns[c].log, CloseFd) == Closed(t.conns[c]) {
      ClosedOnce(t.conns[c]);
    }
    assert Closes(t.conns) == ClosedFlags(t.conns);
  }

  /** A connection that has ended was closed once and its session freed once, in that order and at the
      end. If its thread ran, the SSL object was freed once, just before, and shut down exactly once
      unless SSL_accept() returned -1, and then never. */
  lemma EndedConnection(s: State, es: seq<Event>, c: nat)
    requires Initial(s) && IsRun(Enabled, Apply, s, es)
    requires c < |Final(Apply, s, es).conns| && Final(Apply, s, es).conns[c].stage == Ended
    ensures var log := Final(Apply, s, es).conns[c].log;
            && |log| >= 2 && log[|log| - 2..] == [CloseFd, FreeSession]
            && Count(log, CloseFd) == 1 && Count(log, FreeSession) == 1
            && (NewSsl in log ==> |log| >= 3 && log[|log| - 3] == FreeSsl)
            && Count(log, FreeSsl) == (if NewSsl in log then 1 else 0)
            && Count(log, Shutdown) == (if NewSsl in log && Handshake(-1) !in log then 1 else 0)
  {
    Reachable(s, es);
    hide IsRun, Final, Traced, Descriptors, Counted, Count;
    EndedTrace(Final(Apply, s, es).conns[c]);
  }

  /** At every moment: a connection that was shut down had a handshake that did not return -1. */
  lemma ShutdownAfterHandshake(s: State, es: seq<Event>, c: nat)
    requires Initial(s) && IsRun(Enabled, Apply, s, es) && c < |Final(Apply, s, es).conns|
    requires Shutdown in Final(Apply, s, es).conns[c].log
    ensures var log := Final(Apply, s, es).conns[c].log;
            |log| >= 3 && log[2].Handshake? && Handshake(-1) !in log
  {
    Reachable(s, es);
    hide IsRun, Final, Descriptors, Counted, Traced;
    var x := Final(Apply, s, es).conns[c];
    var tail := ShutdownIsServed(x);
    ServedShutdown(x.log, tail);
  }

  lemma ShutdownIsServed(x: Connection) returns (tail: seq<Action>)
    requires Traced(x) && Shutdown in x.log
    ensures ServedThen(x.log, tail) && Shutdown !in tail && Handshake(-1) !in tail
  {
    hide ServedThen;
    tail := if x.stage == FreeingSsl then [] else if x.stage == Closing then [FreeSsl]
            else if x.stage == Freeing then [FreeSsl, CloseFd] else [FreeSsl, CloseFd, FreeSession];
  }

  lemma ServedShutdown(log: seq<Action>, tail: seq<Action>)
    requires ServedThen(log, tail) && Shutdown in log && Shutdown !in tail && Handshake(-1) !in tail
    ensures |log| >= 3 && log[2].Handshake? && Handshake(-1) !in log
  {
    var front := log[..|log| - |tail|];
    assert log == front + tail && Shutdown in front;
    hide ServedThen;
    assert front != [NewSsl, SetFd, Handshake(-1)];
    assert front[2] == log[2];
  }

  lemma EndedTrace(x: Connection)
    requires Traced(x) && x.stage == Ended
    ensures var log := x.log;
            && |log| >= 2 && log[|log| - 2..] == [CloseFd, FreeSession]
            && Count(log, CloseFd) == 1 && Count(log, FreeSession) == 1
            && (NewSsl in log ==> |log| >= 3 && log[|log| - 3] == FreeSsl)
            && Count(log, FreeSsl) == (if NewSsl in log then 1 else 0)
            && Count(log, Shutdown) == (if NewSsl in log && Handshake(-1) !in log then 1 else 0)
  {
    var log := x.log;
    assert log == [CloseFd, FreeSession] || ServedThen(log, [FreeSsl, CloseFd, FreeSession]);
    hide Traced, ServedThen, Count;
    if log == [CloseFd, FreeSession] {
      CountNone(log, FreeSsl);
      CountNone(log, Shutdown);
      DroppedCounts();
    } else {
      EndedServed(log);
    }
  }

  lemma DroppedCounts()
    ensures Count([CloseFd, FreeSession], CloseFd) == Count([CloseFd, FreeSession], FreeSession) == 1
  {
    assert [CloseFd, FreeSession][..1] == [CloseFd] && [CloseFd][..0] == [];
  }

  lemma EndedServed(log: seq<Action>)
    requires ServedThen(log, [FreeSsl, CloseFd, FreeSession])
    ensures |log| >= 3 && log[|log| - 3] == FreeSsl && log[|log| - 2..] == [CloseFd, FreeSession] && NewSsl in log
    ensures Count(log, CloseFd) == 1 && Count(log, FreeSession) == 1 && Count(log, FreeSsl) == 1
    ensures Count(log, Shutdown) == if Handshake(-1) in log then 0 else 1
  {
    hide Served, Count;
    var front := EndedSplit(log);
    ServedCounts(front);
    ServedStart(front);
    EndedCount(front, CloseFd);
    EndedCount(front, FreeSession);
    EndedCount(front, FreeSsl);
    EndedCount(front, Shutdown);
  }

  lemma EndedSplit(log: seq<Action>) returns (front: seq<Action>)
    requires ServedThen(log, [FreeSsl, CloseFd, FreeSession])
    ensures Served(front) && log == front + [FreeSsl, CloseFd, FreeSession]
    ensures |log| >= 3 && log[|log| - 3] == FreeSsl && log[|log| - 2..] == [CloseFd, FreeSession]
    ensures Handshake(-1) in log <==> Handshake(-1) in front
    ensures NewSsl in front ==> NewSsl in log
  {
    hide Served;
    front := log[..|log| - 3];
  }

  lemma ServedStart(log: seq<Action>)
    requires Served(log)
    ensures NewSsl in log
  {
    assert log[0] == NewSsl;
  }

  lemma EndedCount(front: seq<Action>, a: Action)
    ensures Count(front + [FreeSsl, CloseFd, FreeSession], a)
            == Count(front, a) + if a == FreeSsl || a == CloseFd || a == FreeSession then 1 else 0
  {
    CountAppend(front, [FreeSsl, CloseFd, FreeSession], a);
    TailCounts(a);
  }

  // ----- When a session stops reading -----

  predicate FailedRead(a: Action) {
    a == Read(-1) || a == Read(0)
  }

  /** A failed read is followed by the shutdown and nothing else is, unless the flag is set. */
  ghost predicate Halting(x: Connection, quit: bool) {
    && (forall k :: 0 < k < |x.log| && FailedRead(x.log[k - 1]) ==> x.log[k] == Shutdown)
    && (forall k :: 0 < k < |x.log| && x.log[k] == Shutdown ==> quit || FailedRead(x.log[k - 1]))
    && (|x.log| > 0 && FailedRead(x.log[|x.log| - 1]) ==> x.stage == ShuttingDown)
    && (x.stage == ShuttingDown ==> quit || (|x.log| > 0 && FailedRead(x.log[|x.log| - 1])))
  }

  ghost predicate AllHalting(s: State) {
    forall c :: 0 <= c < |s.conns| ==> Halting(s.conns[c], s.quit)
  }

  lemma HaltingNext(x: Connection, quit: bool, answer: int)
    requires Halting(x, quit) && Running(x.stage)
    ensures Halting(Next(x, quit, answer), quit)
  {
    var y := Next(x, quit, answer);
    if x.stage == Testing {
      assert y == Connection(x.fd, if quit then ShuttingDown else Reading, x.log);
      hide Next;
    } else {
      var a := y.log[|x.log|];
      assert y == Connection(x.fd, y.stage, x.log + [a]);
      assert (a == Shutdown <==> x.stage == ShuttingDown) && (y.stage == ShuttingDown <==> FailedRead(a));
      hide Next, Running;
      HaltingGrow(x, a, y.stage, quit);
    }
  }

  lemma HaltingGrow(x: Connection, a: Action, stage: Stage, quit: bool)
    requires Halting(x, quit) && (a == Shutdown <==> x.stage == ShuttingDown)
    requires stage == ShuttingDown <==> FailedRead(a)
    ensures Halting(Connection(x.fd, stage, x.log + [a]), quit)
  {
    var log := x.log + [a];
    assert forall k :: 0 <= k < |x.log| ==> log[k] == x.log[k];
  }

  lemma HaltingMove(x: Connection, stage: Stage, actions: seq<Action>, quit: bool)
    requires Halting(x, quit) && x.stage != ShuttingDown && stage != ShuttingDown
    requires actions == [] || actions == [CloseFd] || actions == [FreeSession]
    ensures Halting(Connection(x.fd, stage, x.log + actions), quit)
  {
  }

  lemma HaltingMain(s: State, answer: int)
    requires Descriptors(s) && AllHalting(s) && Enabled(s, MainStep(answer))
    ensures AllHalting(ApplyMain(s, answer))
  {
    var t := ApplyMain(s, answer);
    if s.main.Handling? {
      var c := s.main.c;
      assert WithMain(s.conns[c].stage);
      hide Descriptors, Halting;
      var actions := if s.conns[c].stage == Dropping then [CloseFd]
                     else if s.conns[c].stage == Releasing then [FreeSession] else [];
      HaltingMove(s.conns[c], t.conns[c].stage, actions, s.quit);
      assert t.conns == s.conns[c := Connection(s.conns[c].fd, t.conns[c].stage, s.conns[c].log + actions)];
    }
  }

  lemma HaltingStep(s: State, e: Event)
    requires Descriptors(s) && AllHalting(s) && Enabled(s, e)
    ensures AllHalting(Apply(s, e))
  {
    match e {
      case MainStep(answer) => HaltingMain(s, answer);
      case SessionStep(c, answer) =>
        HaltingNext(s.conns[c], s.quit, answer);
        hide Halting, Next, Descriptors;
      case Signal =>
    }
  }

  lemma {:induction false} HaltingRun(s: State, es: seq<Event>)
    requires Inv(s) && AllHalting(s) && IsRun(Enabled, Apply, s, es)
    ensures AllHalting(Final(Apply, s, es))
    decreases |es|
  {
    if |es| > 0 {
      HaltingStep(s, es[0]);
      InvStep(s, es[0]);
      hide Inv, AllHalting, Enabled, Apply;
      HaltingRun(Apply(s, es[0]), es[1..]);
    }
  }

  /** At every moment of every run: what a connection does after a read that returned -1 or 0 is shut down,
      and it shuts down after nothing else unless a signal has arrived. */
  lemma ShutdownExactly(s: State, es: seq<Event>, c: nat, k: nat)
    requires Initial(s) && IsRun(Enabled, Apply, s, es)
    requires c < |Final(Apply, s, es).conns| && 0 < k < |Final(Apply, s, es).conns[c].log|
    ensures var log := Final(Apply, s, es).conns[c].log;
            && (log[k - 1] == Read(-1) || log[k - 1] == Read(0) ==> log[k] == Shutdown)
            && (log[k] == Shutdown ==> log[k - 1] == Read(-1) || log[k - 1] == Read(0) || Signal in es)
  {
    Reachable(s, []);
    HaltingRun(s, es);
    QuitExactly(s, es);
    hide Inv, IsRun, Final, Apply, Enabled;
    assert Halting(Final(Apply, s, es).conns[c], Final(Apply, s, es).quit);
  }

  // ----- Shutdown -----

  function SessionRead(c: nat): (State, Event) -> bool {
    (s: State, e: Event) => e.SessionStep? && e.c == c && c < |s.conns| && s.conns[c].stage == Reading
  }

  function OwnStep(c: nat): (State, Event) -> bool {
    (s: State, e: Event) => e.SessionStep? && e.c == c
  }

  function Accept(): (State, Event) -> bool {
    (s: State, e: Event) => e.MainStep? && s.main == Accepting
  }

  function StepOfMain(): (State, Event) -> bool {
    (s: State, e: Event) => e.MainStep?
  }

  /** The steps a session thread has left once `quit` is set. */
  function SessionRank(g: Stage): nat {
    match g
    case Allocating | Creating | Starting => 8
    case Binding => 7
    case Handshaking | Reading => 6
    case Testing => 5
    case ShuttingDown => 4
    case FreeingSsl => 3
    case Closing => 2
    case Freeing => 1
    case Dropping | Releasing | Ended => 0
  }

  /** Connections to come included. */
  function RankOf(s: State, c: nat): nat {
    if c < |s.conns| then SessionRank(s.conns[c].stage) else 8
  }

  /** The steps `main` has left once `quit` is set. */
  function MainRank(s: State): nat {
    match s.main
    case Accepting => 9
    case Handling(c) =>
      if c >= |s.conns| then 0
      else
        (match s.conns[c].stage
         case Allocating => 8
         case Creating => 7
         case Dropping => 6
         case _ => 5)
    case Napping => 4
    case MainTesting => 3
    case Stopping => 2
    case Returning => 1
    case Gone => 0
  }

  lemma SessionAfterQuitStep(s: State, e: Event, c: nat)
    requires Enabled(s, e) && s.quit
    ensures var t := Apply(s, e);
            && t.quit && RankOf(t, c) + (if OwnStep(c)(s, e) then 1 else 0) <= RankOf(s, c)
            && ((c < |t.conns| && t.conns[c].stage == Reading) ==>
                  c < |s.conns| && s.conns[c].stage == Reading && !SessionRead(c)(s, e))
  {
    hide ApplyMain;
    if e.MainStep? {
      MainKeepsReading(s, e.answer, c);
    }
  }

  lemma MainKeepsReading(s: State, answer: int, c: nat)
    requires Enabled(s, MainStep(answer)) && s.quit
    ensures var t := ApplyMain(s, answer);
            && t.quit && RankOf(t, c) <= RankOf(s, c)
            && ((c < |t.conns| && t.conns[c].stage == Reading) ==> c < |s.conns| && s.conns[c].stage == Reading)
  {
  }

  /** Once `quit` is set, each session reads at most once more, only if it is already past its test, and
      takes at most eight more steps; the one connection `main` may still accept included. */
  lemma {:induction false} SessionAfterQuit(s: State, es: seq<Event>, c: nat)
    requires IsRun(Enabled, Apply, s, es) && s.quit
    ensures Tally(Apply, SessionRead(c), s, es) <= if c < |s.conns| && s.conns[c].stage == Reading then 1 else 0
    ensures Tally(Apply, OwnStep(c), s, es) <= RankOf(s, c) - RankOf(Final(Apply, s, es), c)
    decreases |es|
  {
    if |es| > 0 {
      SessionAfterQuitStep(s, es[0], c);
      hide Enabled, Apply, RankOf;
      SessionAfterQuit(Apply(s, es[0]), es[1..], c);
    }
  }

  lemma MainAfterQuitStep(s: State, e: Event)
    requires Enabled(s, e) && Descriptors(s) && s.quit
    ensures var t := Apply(s, e);
            && t.quit && MainRank(t) + (if e.MainStep? then 1 else 0) <= MainRank(s)
            && (t.main == Accepting ==> s.main == Accepting && !e.MainStep?)
  {
    if s.main.Handling? {
      assert WithMain(s.conns[s.main.c].stage);
    }
    hide Descriptors;
  }

  /** Once `quit` is set, `main` accepts at most once more, only if it is already past its test, and has
      returned after at most nine more steps; it can always go on. */
  lemma {:induction false} MainAfterQuitRun(s: State, es: seq<Event>)
    requires Inv(s) && IsRun(Enabled, Apply, s, es) && s.quit
    ensures Tally(Apply, Accept(), s, es) <= if s.main == Accepting then 1 else 0
    ensures Tally(Apply, StepOfMain(), s, es) <= MainRank(s) - MainRank(Final(Apply, s, es))
    decreases |es|
  {
    if |es| > 0 {
      InvStep(s, es[0]);
      MainAfterQuitStep(s, es[0]);
      hide Inv, Enabled, Apply, MainRank;
      MainAfterQuitRun(Apply(s, es[0]), es[1..]);
    }
  }

  /** In every run the flag is set exactly if it was before or a signal has arrived. */
  lemma {:induction false} QuitExactly(s: State, es: seq<Event>)
    requires IsRun(Enabled, Apply, s, es)
    ensures Final(Apply, s, es).quit <==> s.quit || Signal in es
    decreases |es|
  {
    if |es| > 0 {
      QuitStep(s, es[0]);
      assert es == [es[0]] + es[1..];
      hide Enabled, Apply;
      QuitExactly(Apply(s, es[0]), es[1..]);
    }
  }

  lemma QuitStep(s: State, e: Event)
    requires Enabled(s, e)
    ensures Apply(s, e).quit <==> s.quit || e == Signal
  {
  }

  /** Shutdown is always possible: every run can be continued so that `main` has returned. */
  lemma CanShutDown(s: State, before: seq<Event>) returns (after: seq<Event>)
    requires Initial(s) && IsRun(Enabled, Apply, s, before)
    ensures IsRun(Enabled, Apply, Final(Apply, s, before), after)
    ensures Final(Apply, Final(Apply, s, before), after).main == Gone
  {
    var mid := Final(Apply, s, before);
    Reachable(s, before);
    if mid.main == Gone {
      after := [];
    } else {
      InvStep(mid, Signal);
      QuitStep(mid, Signal);
      after := RunOut(Apply(mid, Signal));
      RunCons(Enabled, Apply, mid, Signal, after);
      after := [Signal] + after;
    }
  }

  /** With the flag set, `main` goes on until it has returned. */
  lemma {:induction false} RunOut(s: State) returns (es: seq<Event>)
    requires Inv(s) && s.quit
    ensures IsRun(Enabled, Apply, s, es) && Final(Apply, s, es).main == Gone
    decreases MainRank(s)
  {
    es := [];
    MainCanMove(s);
    if s.main != Gone {
      var e := MainStep(-1);
      InvStep(s, e);
      MainAfterQuitStep(s, e);
      hide Inv, Enabled, Apply, MainRank;
      es := RunOut(Apply(s, e));
      RunCons(Enabled, Apply, s, e, es);
      es := [e] + es;
    }
  }

  lemma MainCanMove(s: State)
    requires Inv(s)
    ensures s.main == Gone ==> forall e :: !Enabled(s, e)
    ensures if s.main == Gone then MainRank(s) == 0 else MainRank(s) > 0 && Enabled(s, MainStep(-1))
  {
    hide Counted, Traced;
  }

  /** Once `quit` is set in a reachable state, `main` accepts at most once more, only if it is already past
      its test; it can always go on, and after nine more steps it has returned. */
  lemma MainAfterQuit(s: State, before: seq<Event>, after: seq<Event>)
    requires Initial(s) && IsRun(Enabled, Apply, s, before) && Final(Apply, s, before).quit
    requires IsRun(Enabled, Apply, Final(Apply, s, before), after)
    ensures var mid := Final(Apply, s, before);
            var end := Final(Apply, mid, after);
            && Tally(Apply, Accept(), mid, after) <= (if mid.main == Accepting then 1 else 0)
            && Tally(Apply, StepOfMain(), mid, after) <= 9
            && (Tally(Apply, StepOfMain(), mid, after) == 9 ==> end.main == Gone)
            && (if end.main == Gone then forall e :: !Enabled(end, e) else Enabled(end, MainStep(-1)))
  {
    var mid := Final(Apply, s, before);
    Reachable(s, before);
    InvRun(mid, after);
    hide IsRun, Final, Tally, Inv, Enabled, Apply;
    MainAfterQuitRun(mid, after);
    MainCanMove(Final(Apply, mid, after));
  }

  // ----- The loops of the source -----

  /** The successful reads and a last one that may have failed. */
  function ReadLog(results: seq<int>): (log: seq<Action>) {
    if |results| == 0 then [] else ReadLog(results[..|results| - 1]) + [Read(results[|results| - 1])]
  }

  /** The loop used n results and stopped where the source does: the n-th was the first that failed, or
      none had failed and the flag was set. */
  predicate ReadsUntil(received: seq<int>, n: nat, quit: bool) {
    && n <= |received|
    && (forall k :: 0 <= k < n - 1 ==> received[k] != -1 && received[k] != 0)
    && (quit || (n > 0 && (received[n - 1] == -1 || received[n - 1] == 0)))
  }

  lemma QuitStays(received: seq<int>, n: nat, before: bool, after: bool)
    requires ReadsUntil(received, n, before) && (before ==> after)
    ensures ReadsUntil(received, n, after)
  {
  }

  datatype Who = Main | Session(c: nat)

  predicate By(e: Event, who: Who) {
    match e
    case MainStep(_) => who == Main
    case SessionStep(c, _) => who == Session(c)
    case Signal => false
  }

  /** The session thread was created. */
  predicate Started(x: Connection) {
    x.stage == Starting || NewSsl in x.log
  }

  /** It could not be created, and `main` has closed the connection and freed the session. */
  predicate GivenUp(x: Connection) {
    x.stage == Ended && x.log == [CloseFd, FreeSession]
  }

  /** Whether the thread of a connection was created does not change any more. */
  ghost predicate Settled(before: seq<Connection>, after: seq<Connection>) {
    |before| <= |after| && forall c :: 0 <= c < |before| ==>
      (Started(before[c]) ==> Started(after[c])) && (GivenUp(before[c]) ==> GivenUp(after[c]))
  }

  lemma SettledTwice(a: seq<Connection>, b: seq<Connection>, c: seq<Connection>)
    requires Settled(a, b) && Settled(b, c)
    ensures Settled(a, c)
  {
  }

  /** What steps of others cannot change. */
  ghost predicate Kept(before: State, after: State, who: Who) {
    && |after.conns| >= |before.conns| && (before.quit ==> after.quit) && Settled(before.conns, after.conns)
    && match who
       case Main =>
         && after.main == before.main && |after.conns| == |before.conns|
         && (before.main.Handling? && before.main.c < |before.conns| ==>
               after.conns[before.main.c] == before.conns[before.main.c])
       case Session(c) => c < |before.conns| && after.conns[c] == before.conns[c]
  }

  lemma OthersKeep(s: State, e: Event, who: Who)
    requires Inv(s) && Enabled(s, e) && !By(e, who)
    requires who.Session? ==> who.c < |s.conns| && Running(s.conns[who.c].stage)
    ensures Kept(s, Apply(s, e), who)
  {
    hide Kept, Inv, ApplyMain, ApplySession;
    match e {
      case MainStep(answer) => MainKeeps(s, answer, who);
      case SessionStep(c, answer) => SessionKeeps(s, c, answer, who);
      case Signal => SignalLeaves(s, who);
    }
  }

  lemma SignalLeaves(s: State, who: Who)
    requires who.Session? ==> who.c < |s.conns|
    ensures Kept(s, s.(quit := true), who)
  {
  }

  lemma MainKeeps(s: State, answer: int, who: Who)
    requires Inv(s) && Enabled(s, MainStep(answer)) && who.Session?
    requires who.c < |s.conns| && Running(s.conns[who.c].stage)
    ensures Kept(s, ApplyMain(s, answer), who)
  {
    hide Counted, Traced;
    if s.main.Handling? {
      assert WithMain(s.conns[s.main.c].stage);
    }
  }

  lemma SessionKeeps(s: State, c: nat, answer: int, who: Who)
    requires Inv(s) && Enabled(s, SessionStep(c, answer)) && who != Session(c)
    requires who.Session? ==> who.c < |s.conns|
    ensures Kept(s, ApplySession(s, c, answer), who)
  {
    hide Counted, Traced;
    assert !WithMain(s.conns[c].stage) && s.main != Handling(c);
    NextSettles(s.conns[c], s.quit, answer);
    hide Descriptors, Started, GivenUp, Next, Running;
  }

  lemma NextSettles(x: Connection, quit: bool, answer: int)
    requires Running(x.stage)
    ensures (Started(x) ==> Started(Next(x, quit, answer))) && !GivenUp(x)
  {
  }

  /** A new connection after the call of pthread_create() and, if that failed, the clean-up of `main`. */
  function HandedOver(fd: nat, created: int): Connection {
    if created == 0 then Connection(fd, Starting, []) else Connection(fd, Ended, [CloseFd, FreeSession])
  }

  /** The lowest descriptor from `low` on that is not open. */
  function FirstFree(open: set<nat>, low: nat): (fd: nat)
    ensures low <= fd && fd !in open && forall k :: low <= k < fd ==> k in open
    decreases |open|
  {
    if low !in open then low
    else
      var rest := open - {low};
      var fd := FirstFree(rest, low + 1);
      assert forall k :: low <= k < fd ==> k in open by {
        forall k | low <= k < fd ensures k in open {
          assert k != low ==> k in rest;
        }
      }
      fd
  }

  function Successes(turns: seq<Turn>): nat {
    if |turns| == 0 then 0 else Successes(turns[..|turns| - 1]) + if turns[|turns| - 1].accepts then 1 else 0
  }

  /** Each successful accept() among the turns has its connection, in order: started if pthread_create()
      returned 0, given up otherwise. */
  ghost predicate HandedOut(conns: seq<Connection>, first: nat, turns: seq<Turn>) {
    forall k :: 0 <= k < |turns| && turns[k].accepts ==>
      var c := first + Successes(turns[..k]);
      c < |conns| && if turns[k].created == 0 then Started(conns[c]) else GivenUp(conns[c])
  }

  lemma HandedOutNone(conns: seq<Connection>, first: nat, turns: seq<Turn>)
    ensures HandedOut(conns, first, turns[..0])
  {
  }

  lemma HandedOutStep(before: seq<Connection>, after: seq<Connection>, first: nat, turns: seq<Turn>, n: nat)
    requires n < |turns| && HandedOut(before, first, turns[..n]) && Settled(before, after)
    requires turns[n].accepts ==>
      var c := first + Successes(turns[..n]);
      c < |after| && if turns[n].created == 0 then Started(after[c]) else GivenUp(after[c])
    ensures HandedOut(after, first, turns[..n + 1])
  {
    hide Started, GivenUp;
    forall k | 0 <= k <= n && turns[k].accepts
      ensures var c := first + Successes(turns[..n + 1][..k]);
              c < |after| && if turns[k].created == 0 then Started(after[c]) else GivenUp(after[c])
    {
      assert turns[..n + 1][..k] == turns[..k];
      if k < n {
        assert turns[..n][k] == turns[k] && turns[..n][..k] == turns[..k];
      }
    }
  }

  lemma HandedOutSettled(before: seq<Connection>, after: seq<Connection>, first: nat, turns: seq<Turn>)
    requires HandedOut(before, first, turns) && Settled(before, after)
    ensures HandedOut(after, first, turns)
  {
    hide Started, GivenUp, Successes;
  }

  /** What accept() and the hand-off do: exactly one new connection, or nothing. */
  predicate Offered(before: State, after: State, turn: Turn) {
    if turn.accepts
    then |after.conns| == |before.conns| + 1
         && after.conns[|before.conns|] == HandedOver(FirstFree(before.open, 0), turn.created)
    else after.conns == before.conns && after.open == before.open
  }

  function TestOfMain(): (State, Event) -> bool {
    (s: State, e: Event) => e.MainStep? && s.main == MainTesting
  }

  /** One iteration of the accept loop: whether accept() succeeds, the result of pthread_create(), and what
      the session threads and signals do before each step. */
  datatype Turn = Turn(accepts: bool, created: int, others: nat -> seq<Event>)

  /** The process, with the history of all steps. */
  class Machine {
    var s: State
    ghost const start: State
    ghost var history: seq<Event>

    ghost predicate Valid()
      reads this
    {
      Initial(start) && IsRun(Enabled, Apply, start, history) && s == Final(Apply, start, history) && Inv(s)
    }

    /** How often `main` has tested the flag. */
    ghost function Tests(): nat
      reads this
    {
      Tally(Apply, TestOfMain(), start, history)
    }

    constructor (inherited: set<nat>)
      ensures Valid() && history == [] && s == start && s.main == MainTesting && s.inherited == inherited
    {
      var listener := FirstFree(inherited, 0);
      s := State(MainTesting, false, inherited, listener, inherited + {listener}, []);
      start := State(MainTesting, false, inherited, listener, inherited + {listener}, []);
      history := [];
      new;
      Reachable(start, []);
    }

    method Do(e: Event)
      requires Valid() && Enabled(s, e)
      modifies this
      ensures Valid() && s == Apply(old(s), e) && history == old(history) + [e]
      ensures Tests() == old(Tests()) + if TestOfMain()(old(s), e) then 1 else 0
    {
      RunAppend(Enabled, Apply, start, history, [e]);
      TallyOne(Apply, TestOfMain(), start, history, e);
      InvStep(s, e);
      match e {
        case MainStep(answer) => s := ApplyMain(s, answer);
        case SessionStep(c, answer) => s := ApplySession(s, c, answer);
        case Signal => s := s.(quit := true);
      }
      history := history + [e];
    }

    /** Others run and signals arrive. Events that cannot happen are skipped. */
    method Interleave(who: Who, es: seq<Event>)
      requires Valid()
      requires who.Session? ==> who.c < |s.conns| && Running(s.conns[who.c].stage)
      modifies this
      ensures Valid() && old(history) <= history && Kept(old(s), s, who)
      ensures who == Main ==> Tests() == old(Tests())
    {
      hide Inv, Enabled, Apply, Final, IsRun, Initial, Tally;
      var k := 0;
      while k < |es|
        invariant 0 <= k <= |es| && Valid() && old(history) <= history && Kept(old(s), s, who)
        invariant who == Main ==> Tests() == old(Tests())
      {
        if !By(es[k], who) && Enabled(s, es[k]) {
          OthersKeep(s, es[k], who);
          Do(es[k]);
        }
        k := k + 1;
      }
    }

    /** Others run, then the thread of connection c takes one step, unless the process has exited. */
    method Act(c: nat, answer: int, es: seq<Event>) returns (alive: bool, quit: bool)
      requires Valid() && c < |s.conns| && Running(s.conns[c].stage)
      modifies this
      ensures Valid() && old(history) <= history && c < |s.conns|
      ensures !alive ==> s.main == Gone
      ensures alive ==> s.conns[c] == Next(old(s.conns[c]), quit, answer)
      ensures (quit ==> s.quit) && (old(s.quit) ==> quit)
    {
      hide Inv, Final, IsRun, Initial, Next, Tally;
      Interleave(Session(c), es);
      quit := s.quit;
      if s.main == Gone { return false, quit; }
      Do(SessionStep(c, answer));
      alive := true;
    }

    /** `session_process_thread` (net/tls_server.c:41-73). When it returns, it has used n of the results
        of SSL_read() and done exactly this, in this order. It stops early exactly when the process exits
        or SSL_read() does not return. */
    method SessionThread(c: nat, handshake: int, received: seq<int>, others: nat -> seq<Event>)
      returns (ended: bool, n: nat)
      requires Valid() && c < |s.conns| && s.conns[c] == Connection(s.conns[c].fd, Starting, [])
      modifies this
      ensures Valid() && old(history) <= history && c < |s.conns| && n <= |received|
      ensures ended ==> s.conns[c] == Connection(old(s.conns[c].fd), Ended,
                [NewSsl, SetFd, Handshake(handshake)]
                + (if handshake == -1 then [] else ReadLog(received[..n]) + [Shutdown])
                + [FreeSsl, CloseFd, FreeSession])
      ensures ended && handshake != -1 ==> ReadsUntil(received, n, s.quit)
      ensures !ended ==> s.main == Gone || (s.conns[c].stage == Reading && n == |received|)
    {
      hide Valid, ReadsUntil;
      n := 0;
      ended := Greet(c, handshake, others);
      if !ended { return false, n; }
      if handshake != -1 {
        ended, n := Talk(c, received, (k: nat) => others(k + 3));
        if !ended { return false, n; }
      }
      ghost var quit := s.quit;
      ended := CleanUp(c, others);
      if ended && handshake != -1 {
        QuitStays(received, n, quit, s.quit);
      }
    }

    /** Up to the result of SSL_accept(). */
    method Greet(c: nat, handshake: int, others: nat -> seq<Event>) returns (alive: bool)
      requires Valid() && c < |s.conns| && s.conns[c].stage == Starting
      modifies this
      ensures Valid() && old(history) <= history && c < |s.conns|
      ensures alive ==> s.conns[c] == Connection(old(s.conns[c].fd), if handshake == -1 then FreeingSsl else Testing,
                                                 old(s.conns[c].log) + [NewSsl, SetFd, Handshake(handshake)])
      ensures !alive ==> s.main == Gone
    {
      hide Valid;
      var quit;
      alive, quit := Act(c, 0, others(0));
      if !alive { return false; }
      alive, quit := Act(c, 0, others(1));
      if !alive { return false; }
      alive, quit := Act(c, handshake, others(2));
    }

    /** The receive loop and SSL_shutdown(). */
    method Talk(c: nat, received: seq<int>, others: nat -> seq<Event>) returns (done: bool, n: nat)
      requires Valid() && c < |s.conns| && s.conns[c].stage == Testing
      modifies this
      ensures Valid() && old(history) <= history && c < |s.conns| && n <= |received|
      ensures done ==> s.conns[c] == Connection(old(s.conns[c].fd), FreeingSsl,
                                                old(s.conns[c].log) + (ReadLog(received[..n]) + [Shutdown]))
      ensures done ==> ReadsUntil(received, n, s.quit)
      ensures !done ==> s.main == Gone || (s.conns[c].stage == Reading && n == |received|)
    {
      hide Valid, ReadsUntil;
      done, n := Receive(c, received, others);
      if !done { return; }
      ghost var before := s.quit;
      var quit;
      done, quit := Act(c, 0, others(2 * n));
      QuitStays(received, n, before, s.quit);
    }

    /** The loop. */
    method Receive(c: nat, received: seq<int>, others: nat -> seq<Event>) returns (left: bool, n: nat)
      requires Valid() && c < |s.conns| && s.conns[c].stage == Testing
      modifies this
      ensures Valid() && old(history) <= history && c < |s.conns| && n <= |received|
      ensures left ==> s.conns[c] == Connection(old(s.conns[c].fd), ShuttingDown,
                                                old(s.conns[c].log) + ReadLog(received[..n]))
      ensures left ==> ReadsUntil(received, n, s.quit)
      ensures !left ==> s.main == Gone || (s.conns[c].stage == Reading && n == |received|)
    {
      hide Valid;
      n := 0;
      var alive, quit;
      while true
        invariant n <= |received| && Valid() && old(history) <= history && c < |s.conns|
        invariant forall k :: 0 <= k < n ==> received[k] != -1 && received[k] != 0
        invariant s.conns[c] == Connection(old(s.conns[c].fd), Testing, old(s.conns[c].log) + ReadLog(received[..n]))
        decreases |received| - n
      {
        alive, quit := Act(c, 0, others(2 * n));
        if !alive { return false, n; }
        if quit { return true, n; }
        if n == |received| { return false, n; }
        var rsize := received[n];
        alive, quit := Act(c, rsize, others(2 * n + 1));
        if !alive { return false, n; }
        n := n + 1;
        assert received[..n][..n - 1] == received[..n - 1];
        if rsize == -1 || rsize == 0 { return true, n; }
      }
    }

    /** The common clean-up of every path. */
    method CleanUp(c: nat, others: nat -> seq<Event>) returns (alive: bool)
      requires Valid() && c < |s.conns| && s.conns[c].stage == FreeingSsl
      modifies this
      ensures Valid() && old(history) <= history && c < |s.conns|
      ensures alive ==> s.conns[c] == Connection(old(s.conns[c].fd), Ended,
                                                 old(s.conns[c].log) + [FreeSsl, CloseFd, FreeSession])
      ensures !alive ==> s.main == Gone
      ensures old(s.quit) ==> s.quit
    {
      hide Valid;
      var quit;
      alive, quit := Act(c, 0, others(0));
      if !alive { return false; }
      alive, quit := Act(c, 0, others(1));
      if !alive { return false; }
      alive, quit := Act(c, 0, others(2));
    }

    /** The accept loop and the end of `main` (net/tls_server.c:145-171), for any number of iterations.
        It does n of them, each with one test and a new connection for each success, which is then with its
        thread or, if the thread could not be created, closed and freed. It returns when a test finds the
        flag set. */
    method AcceptLoop(turns: seq<Turn>) returns (returned: bool, n: nat)
      requires Valid() && s.main == MainTesting
      modifies this
      ensures Valid() && old(history) <= history
      ensures s.main == if returned then Gone else MainTesting
      ensures if returned then s.quit && n < |turns| else n == |turns|
      ensures Tests() == old(Tests()) + n + if returned then 1 else 0
      ensures |s.conns| == |old(s.conns)| + Successes(turns[..n])
      ensures HandedOut(s.conns, |old(s.conns)|, turns[..n])
    {
      hide Valid, Inv, Tests, FirstFree, Settled, HandedOut, Started, GivenUp;
      HandedOutNone(s.conns, |s.conns|, turns);
      n := 0;
      while n < |turns|
        invariant 0 <= n <= |turns| && Valid() && old(history) <= history && s.main == MainTesting
        invariant HandedOut(s.conns, |old(s.conns)|, turns[..n])
        invariant Tests() == old(Tests()) + n && |s.conns| == |old(s.conns)| + Successes(turns[..n])
      {
        ghost var before := s.conns;
        Interleave(Main, turns[n].others(0));
        var quit := s.quit;
        Do(MainStep(0));
        if quit {
          ghost var tested := s.conns;
          Stop(turns[n]);
          SettledTwice(before, tested, s.conns);
          HandedOutSettled(before, s.conns, |old(s.conns)|, turns[..n]);
          return true, n;
        }
        Iterate(turns[n], before);
        HandedOutStep(before, s.conns, |old(s.conns)|, turns, n);
        assert turns[..n + 1][..n] == turns[..n];
        n := n + 1;
      }
      assert turns[..n] == turns;
      return false, n;
    }

    /** An iteration after its test. */
    method Iterate(turn: Turn, ghost before: seq<Connection>)
      requires Valid() && s.main == Accepting && Settled(before, s.conns) && |s.conns| == |before|
      modifies this
      ensures Valid() && old(history) <= history && s.main == MainTesting && Tests() == old(Tests())
      ensures Settled(before, s.conns) && |s.conns| == |before| + if turn.accepts then 1 else 0
      ensures turn.accepts ==>
        if turn.created == 0 then Started(s.conns[|before|]) else GivenUp(s.conns[|before|])
    {
      hide Valid, Inv, Tests, FirstFree;
      Interleave(Main, turn.others(1));
      HandOff(turn);
      ghost var given := s.conns;
      assert turn.accepts ==>
        if turn.created == 0 then Started(given[|before|]) else GivenUp(given[|before|]);
      hide Started, GivenUp;
      Interleave(Main, turn.others(5));
      Do(MainStep(0));
    }

    method Stop(turn: Turn)
      requires Valid() && s.main == Stopping
      modifies this
      ensures Valid() && old(history) <= history && s.main == Gone && (old(s.quit) ==> s.quit)
      ensures Tests() == old(Tests()) && |s.conns| == |old(s.conns)| && Settled(old(s.conns), s.conns)
    {
      hide Valid, Inv;
      Interleave(Main, turn.others(1));
      Do(MainStep(0));
      Interleave(Main, turn.others(2));
      Do(MainStep(0));
    }

    /** accept(), and the hand-off of a new connection to its thread. There is a new connection exactly if
        accept() succeeded; it has the descriptor that accept() returned, and its thread is about to
        start, or it has been given up when the creation of the thread failed. */
    method HandOff(turn: Turn)
      requires Valid() && s.main == Accepting
      modifies this
      ensures Valid() && old(history) <= history && s.main == Napping && Tests() == old(Tests())
      ensures Offered(old(s), s, turn) && Settled(old(s.conns), s.conns)
    {
      hide Valid, Inv, Tests, FirstFree;
      var fd := if turn.accepts then FirstFree(s.open, 0) else -1;
      var c := |s.conns|;
      FreeAboveZero(fd);
      Do(MainStep(fd));
      if 0 < fd {
        Interleave(Main, turn.others(2));
        CreateSession(c, turn);
      }
    }

    lemma FreeAboveZero(fd: int)
      requires Valid() && Listening(s)
      ensures fd >= 0 && LowestFree(s.open, fd) ==> fd > 0
    {
      hide IsRun, Final, Initial, Counted, Traced;
      ZeroTaken(s);
      hide Descriptors;
    }

    /** malloc() and pthread_create(); if that fails, `main` releases what it has. */
    method CreateSession(c: nat, turn: Turn)
      requires Valid() && s.main == Handling(c) && c < |s.conns|
      requires s.conns[c] == Connection(s.conns[c].fd, Allocating, [])
      modifies this
      ensures Valid() && old(history) <= history && s.main == Napping && Tests() == old(Tests())
      ensures |s.conns| == |old(s.conns)| && s.conns[c] == HandedOver(old(s.conns[c].fd), turn.created)
      ensures Settled(old(s.conns)[..c], s.conns)
    {
      hide Valid, Inv, Tests, FirstFree, Started, GivenUp;
      Do(MainStep(0));
      Interleave(Main, turn.others(3));
      Do(MainStep(turn.created));
      if turn.created != 0 {
        Do(MainStep(0));
        Interleave(Main, turn.others(4));
        Do(MainStep(0));
      }
    }
  }
}
