# Verification of the linux-tutorial programs

Dafny models of the five programs of the repository that hold logic of their own, with proofs.
`dafny verify dfyconfig.toml` checks everything.

| files | program | what is modelled |
|---|---|---|
| `Pixels.dfy`, `Frame.dfy`, `Image.dfy` | uvc/main.c | `minmax`, `yuyv2rgb`, the row copy of `jpeg`: loops over arrays against a pointwise image |
| `Ownership.dfy`, `Camera.dfy` | uvc/main.c | `xioctl`, `camera_init`, `camera_start`, `camera_capture`, `camera_finish`: a class over a driver |
| `Snapshot.dfy` | uvc/main.c | the captures of `main` joined to the image |
| `Runs.dfy`, `Sums.dfy` | | runs of a step machine, sums over threads |
| `FileLock.dfy` | sync/file_lock.c | readers and writers over the kernel's lock table |
| `Semaphore.dfy` | ipc/semaphore.c | producers, consumers and `main` over one semaphore and the flag `quit` |
| `HexDump.dfy` | include/log.h | `wdm_log_data` |
| `TlsServer.dfy` | net/tls_server.c | the accept loop and the session threads |

**Environments.** Kernel and library calls are contracts with arbitrary answers. A driver hands over
only buffers it has and reports no more bytes than the buffer holds. F_SETLKW is granted only when it
conflicts with no other process's lock, and may fail at any time; EINTR needs a caught signal, and every
handler the program installs sets its flag (the fcntl() page of the System Interfaces volume of
POSIX.1-2017). sem_post() and sem_timedwait() may fail at any time and then change nothing; they succeed
only below the maximum and above zero (the sem_post() and sem_timedwait() pages of the same volume).
socket() and accept() return -1 or the lowest descriptor that is not open (section 2.14 of the same
volume), and close() releases its descriptor; the process may have inherited any descriptors.
pthread_create() may fail at any time.

**Threads.** The three concurrent programs are step machines: a state, an event for each step of each
thread with the answer it gets, and runs of any length over any number of threads. `Machine` in each of
these modules holds that state as the program changes it. Its methods follow the loops and branches of the
C functions, let any other threads run between two steps, and are proved to perform only steps of the
machine, so what is proved of all runs holds of them.

**Exact conditions.** Four properties hold on part of the inputs only, and each comes with the exact part:
`Frame.InBoundsExactly` (a shape with pixels needs an even width, enough input, and an output size below
2^32), `Semaphore.DestroySafeExactly` (a producer that cannot be created, other than the first one, leaves
threads running when the semaphore is destroyed; `Semaphore.DestroyUnsafeHappens` is such a run),
`Semaphore.ShutdownEnds` (a consumer that cannot be created makes `main` join a thread that does not exist;
`Semaphore.StrayHappens` is such a run) and `Pixels.StandardExactly`: red and blue truncate where ITU-T T.871
rounds, so they are the prescribed byte exactly if both saturate at the same end or the fraction that the
shift drops is small enough, and otherwise one less (`Pixels.OffByAtMostOne`, `Pixels.OffByOneHappens`).

**Code and comments.** In sync/file_lock.c:140-145 the comments name the wrong branches: `pid == 0` is the
child, and the child writes. The model follows the code. The header of `wdm_log_data` says `[FATAL]` in the
colour of the trace level (include/log.h:129); it is a parameter here.

## Model

| member | source | states |
|---|---|---|
| `Pixels.MinMaxIsNearest` | uvc/main.c:220-222 | `minmax` gives the point of [min, max] nearest to v |
| `Pixels.ConvertMonotone` | uvc/main.c:229-238 | with fixed chroma every channel grows with the luma |
| `Pixels.AccuracyT871` | uvc/main.c:229-238 | red is less than 1.05 below and at most 0.05 above the clamped exact value of section 7 of ITU-T T.871, blue less than 1.19 below and at most 0.19 above |
| `Pixels.GreenRoundsDown` | uvc/main.c:230-237 | green is the clamped floor of the source's own formula, with coefficients 88/256 and -183/256 |
| `Pixels.OffByAtMostOne` | uvc/main.c:233-238 | red and blue are the rounded byte T.871 prescribes or one less |
| `Pixels.StandardExactly` | uvc/main.c:233-238 | they are that byte if and only if both saturate at the same end or the dropped fraction, corrected by the error of the coefficient, is below one half |
| `Pixels.OffByOneHappens` | uvc/main.c:233-238 | a pixel for which both are one less |
| `Frame.InBoundsExactly` | uvc/main.c:225-238 | all reads and writes of the two loops stay in their buffers if and only if there are no pixels, or the width is even, the input has two bytes per pixel and the output size fits in 32 bits |
| `Frame.Yuyv2Rgb` | uvc/main.c:224-242 | for every such shape the result is the pointwise RGB stream, and its bytes are written exactly once, in ascending order |
| `Frame.FillRgb` | uvc/main.c:226-240 | the nested loops give that stream whatever the output held before |
| `Frame.FillRow` | uvc/main.c:227-239 | the inner loop extends the finished pixels by one row |
| `Frame.ConvertPair` | uvc/main.c:228-238 | one iteration writes the six bytes of a pair and nothing else |
| `Frame.StreamFromPairs` | uvc/main.c:228-238 | the pairs determine the stream: pixel p uses the luma at byte 2p and the chroma at bytes 4(p/2)+1 and 4(p/2)+3 |
| `Frame.StreamRowByte` | uvc/main.c:226-238 | the stream agrees with the row and column view: column j of a row uses its own luma and the chroma of its pair in that row |
| `Image.CopyRows` | uvc/main.c:186-194 | each row is a separate fresh array with its part of the flat image, and the rows concatenate back to the flat image |
| `Image.CopyRow` | uvc/main.c:189-193 | the inner loop copies exactly one row |
| `Image.RowsFlatten` | uvc/main.c:184-194 | cutting a flat image into rows loses nothing |
| `Image.PictureIsStream` | uvc/main.c:186-240 | cutting the stream into rows gives the picture by row and column, and flattening the picture gives the stream |
| `Image.EncodeFrame` | uvc/main.c:259-262 | row i, column j handed to the encoder is the conversion of pixel (i, j) of the YUYV input, for every size |
| `Image.ShapeIndependence` | uvc/main.c:226-240 | two even-width shapes with equal area give identical bytes |
| `Image.Stacking` | uvc/main.c:226-240 | converting two frames stacked vertically stacks their pictures |
| `Image.PictureMonotone` | uvc/main.c:220-238 | with equal chroma and pointwise larger luma no output byte is smaller |
| `Image.GreyPicture` | uvc/main.c:220-238 | with all chroma 128, all three bytes of every pixel are its luma |
| `Image.PictureAccuracy` | uvc/main.c:220-238 | the bounds, the off-by-one result and its exact condition for every pixel of every frame |
| `Camera.Xioctl` | uvc/main.c:28-34 | the retry loop computes the resolved answer |
| `Camera.ResolveExactly` | uvc/main.c:28-34 | it is v if and only if one of the first 100 answers is v and all before it are interruptions |
| `Camera.Camera.Init` | uvc/main.c:66-119 | it is ready if and only if every request succeeds, quits with the first failure in order otherwise, and when ready has mapped every buffer with its own length and made the head as large as the largest |
| `Camera.InitOutcomeExactly` | uvc/main.c:68-115 | each message stands for the failure of its own step after the success of all before it; for a buffer, of the first one that fails |
| `Camera.Camera.MapBuffers` | uvc/main.c:102-117 | the loop over the buffers with the running maximum |
| `Camera.Camera.Start` | uvc/main.c:122-135 | it is ready if and only if every buffer and the stream request are accepted, and then has queued each index once; at a refused buffer it has queued exactly those before it |
| `Camera.Camera.Capture` | uvc/main.c:161-171 | after a dequeue the head holds exactly the payload and the buffer is queued again if and only if the second request succeeds; after a failed dequeue nothing changes; the result is true if and only if both succeed |
| `Camera.ResolvedExactly` | uvc/main.c:28-34 | the frame and the success of the re-queue in terms of the raw answers of ioctl() |
| `Camera.Camera.Finish` | uvc/main.c:143-153 | every mapping is unmapped once, with its own start and length, and nothing is left |
| `Camera.CaptureAll` | uvc/main.c:254-257 | any number of captures in a row: every copy fits, the log is that of the answers, and the head holds the payload of the last frame dequeued, or what it held if there was none |
| `Camera.Session` | uvc/main.c:66-171 | init, start, any captures and finish: ready if and only if no step of init and start fails; then all mappings unmapped exactly once, none live, ownership kept |
| `Camera.CapturesKeepOwnership` | uvc/main.c:161-171 | over any captures with any answers no ownership rule is broken, no buffer stays out, and the driver loses exactly the buffers whose re-queue failed |
| `Camera.QueuedCount` | uvc/main.c:122-171 | between calls the queued count is `buffer_count` less the failed re-queues |
| `Snapshot.TakePicture` | uvc/main.c:254-262 | the rows given to the encoder are the picture of the head buffer as it stands, and if the last frame dequeued fills the picture, of its payload, whatever the other captures did |
| `Snapshot.PictureOfPrefix` | uvc/main.c:225-240 | the picture depends only on the first two bytes per pixel, so what the head holds beyond the payload does not matter |
| `Ownership.NeverQueuedTwice` | uvc/main.c:123-169 | between two queueings of an index it was dequeued |
| `Ownership.OneOutAtATime` | uvc/main.c:166-169 | between two dequeues the first buffer was given back or refused |
| `Ownership.BuffersConserved` | uvc/main.c:122-171 | idle, queued, held and lost buffers always add up to the granted count |
| `Ownership.QueuedIsBalance` | uvc/main.c:122-171 | the driver has what was queued less what was dequeued |
| `FileLock.MutualExclusion` | sync/file_lock.c:71-98 | in every reachable state of any number of processes a writer between lock and unlock excludes everyone else, after any failed requests and unlocks |
| `FileLock.GrantedExactly` | sync/file_lock.c:26-54 | a waiting reader is granted its lock if and only if no writer holds one, a waiting writer if and only if nobody else does |
| `FileLock.ReadersShare` | sync/file_lock.c:41-54 | from the start, a run that has all readers between lock and unlock at once |
| `FileLock.BlockerMoves` | sync/file_lock.c:26-69 | whoever blocks a request can move itself, so waiting never forms a chain |
| `FileLock.NeverStuck` | sync/file_lock.c:71-98 | while a process is left, some process has a step that is not a failure |
| `FileLock.AtMostOneMoreEntry` | sync/file_lock.c:71-103 | after `g_app_quit` is set a process enters at most once more, only if it already waits, and takes at most six more steps |
| `FileLock.InterruptedNeverEnters` | sync/file_lock.c:33-51 | after a request that returns EINTR the process never enters; it can always go on by itself and has exited after three steps |
| `FileLock.ShutdownEnds` | sync/file_lock.c:71-154 | once all processes are signalled at most six steps each remain, and at the end all have exited and the table is empty |
| `FileLock.QuitExactly` | sync/file_lock.c:100-103 | a process has its flag set if and only if a signal has arrived |
| `FileLock.CanShutDown` | sync/file_lock.c:71-154 | every run can be continued until all processes have exited and the table is empty |
| `FileLock.Machine.Lock` | sync/file_lock.c:26-54 | it returns what fcntl() returned: 0 with exclusion established, -1 with the lock table entry unchanged; it stays in the call only while another process holds a lock and one of the two is a writer |
| `FileLock.Machine.Hold` | sync/file_lock.c:77-79 | the entry is released if the unlock succeeds and kept if it fails |
| `FileLock.Machine.RunProcess` | sync/file_lock.c:71-98 | each iteration has one test and one entry if its request is granted; the loops are left only with the flag set and no lock, or stand in a blocked request |
| `Semaphore.Conservation` | ipc/semaphore.c:25-84 | in every reachable state the counter is 1 plus all posts of the run minus all its takes, and in range |
| `Semaphore.AfterQuit` | ipc/semaphore.c:25-107 | once `quit` is set each producer posts and each consumer takes at most once more |
| `Semaphore.AtMostOneMore` | ipc/semaphore.c:27-53 | and only if it is already past its test |
| `Semaphore.MeasureStep` | ipc/semaphore.c:25-118 | after `quit` every step of anyone lowers the measure over all threads |
| `Semaphore.NeverStuck` | ipc/semaphore.c:82-119 | until `main` has finished something can happen, unless it has joined a thread that was never created |
| `Semaphore.ShutdownEnds` | ipc/semaphore.c:107-118 | after `quit` at most four steps per thread and three more remain, and a run that cannot go on has destroyed the semaphore with every thread returned if every consumer was created, and otherwise stands in the join of a missing thread |
| `Semaphore.CanFinish` | ipc/semaphore.c:82-119 | every run can be continued until `main` stops: past sem_destroy(), or in the join of a missing thread if and only if a consumer could not be created |
| `Semaphore.AfterDestroy` | ipc/semaphore.c:118-118 | nothing is posted or taken once the semaphore is destroyed |
| `Semaphore.DestroyIsSafe` | ipc/semaphore.c:107-118 | with all creations successful the semaphore is destroyed after every thread has left its loop |
| `Semaphore.DestroySafeExactly` | ipc/semaphore.c:57-118 | it is destroyed with no thread running if and only if no creation of a producer failed or the first one did |
| `Semaphore.DestroyUnsafeHappens` | ipc/semaphore.c:57-118 | for two producers or more, a run in which a producer calls sem_post() on the destroyed semaphore |
| `Semaphore.StrayHappens` | ipc/semaphore.c:69-116 | for any producers and at least one consumer, a run in which `main` joins a thread that was never created, and nothing can follow |
| `Semaphore.Machine.ProducerThread` | ipc/semaphore.c:25-36 | each iteration has one test and one call, which posts unless it is made to fail or the counter is at its maximum; the loop is left only with `quit` set, or at a call of a semaphore destroyed after a failed creation |
| `Semaphore.Machine.ConsumerThread` | ipc/semaphore.c:38-55 | the same for the consumers, whose call takes unless it is made to fail or the counter is zero |
| `Semaphore.Machine.StartProducers` | ipc/semaphore.c:57-67 | it returns 0 with all producers created exactly if every creation succeeds, else -1 with exactly those before the first failure |
| `Semaphore.Machine.StartConsumers` | ipc/semaphore.c:69-79 | exactly the consumers whose creation succeeds exist afterwards |
| `Semaphore.Machine.ReadCommands` | ipc/semaphore.c:98-105 | it ends exactly when a 'q' is read |
| `Semaphore.Machine.Join` | ipc/semaphore.c:109-116 | it finishes only after every thread has been joined, and stops only at a thread that has not returned or was never created |
| `Semaphore.Machine.MainProgram` | ipc/semaphore.c:90-118 | `main` finishes unless no 'q' is read or a join does not return; then the semaphore is destroyed, with no thread running if and only if every producer was created or the first was not |
| `HexDump.LogData` | include/log.h:120-138 | nothing for no data; otherwise header, dump of the largest admissible number of bytes, reset; and reading the dump gives these bytes |
| `HexDump.Shown` | include/log.h:126-128 | the number of bytes shown is the largest one up to size that a positive max allows |
| `HexDump.RoundTrip` | include/log.h:130-136 | the dump is invertible for every byte sequence and every split |
| `HexDump.HexInAscii` | include/log.h:135-135 | the two characters are the capital hexadecimal digits of the byte, the higher half first |
| `HexDump.BodyIsLines` | include/log.h:130-136 | the text is its lines, each after a newline |
| `HexDump.LinesShape` | include/log.h:131-133 | ceil(n/split) lines, all but the last with exactly split bytes, together the n bytes |
| `HexDump.BodyLength` | include/log.h:130-136 | 3n characters and ceil(n/split) newlines |
| `HexDump.NegativeSplit` | include/log.h:131 | a negative split breaks lines like its absolute value |
| `TlsServer.ZeroNeverAccepted` | net/tls_server.c:151-164 | in no reachable state can accept() return descriptor 0, which the code takes for an error |
| `TlsServer.UniqueOwner` | net/tls_server.c:41-161 | in every reachable state every open descriptor but the inherited ones and the listening socket has exactly one owner: `main`, or one thread that has not closed it |
| `TlsServer.NothingLeaks` | net/tls_server.c:71-170 | inherited descriptors stay open, and once all connections have ended nothing else is open but the listening socket while `main` listens |
| `TlsServer.CloseIsOwn` | net/tls_server.c:71-158 | every close hits a descriptor that is open and belongs to that connection alone |
| `TlsServer.OpenIsAcceptedLessClosed` | net/tls_server.c:41-161 | open is inherited plus listening plus accepted minus closed, and nothing is closed twice |
| `TlsServer.EndedConnection` | net/tls_server.c:44-159 | an ended connection was closed once and its session freed once, last; if its thread ran, the SSL object was freed once just before, and shut down once unless SSL_accept() returned -1 |
| `TlsServer.ShutdownAfterHandshake` | net/tls_server.c:46-67 | at every moment of every run a connection was shut down only if its SSL_accept() did not return -1 |
| `TlsServer.ShutdownExactly` | net/tls_server.c:50-67 | at every moment of every run a failed read is followed by the shutdown, and a shutdown follows a failed read or comes after a signal |
| `TlsServer.SessionAfterQuit` | net/tls_server.c:50-73 | once the flag is set each session reads at most once more, only if it is past its test, and takes at most eight more steps |
| `TlsServer.MainAfterQuit` | net/tls_server.c:145-171 | once the flag is set `main` accepts at most once more, only if it is past its test; it can always go on and has returned after nine more steps, and then nothing happens any more |
| `TlsServer.QuitExactly` | net/tls_server.c:75-78 | the flag is set if and only if a signal has arrived |
| `TlsServer.CanShutDown` | net/tls_server.c:145-171 | every run can be continued until `main` has returned |
| `TlsServer.Machine.SessionThread` | net/tls_server.c:41-73 | a thread that returns has done exactly this sequence of calls; it stops early only when the process exits or SSL_read() does not return |
| `TlsServer.Machine.Talk` | net/tls_server.c:50-67 | the receive loop stops at the first failed read or when a test finds the flag set, and shuts down |
| `TlsServer.Machine.CleanUp` | net/tls_server.c:69-72 | the common clean-up, complete unless the process exits |
| `TlsServer.Machine.HandOff` | net/tls_server.c:150-164 | a successful accept() gives exactly one new connection, with the lowest free descriptor, handed to its thread, or closed and freed if the creation of the thread fails; a failed one changes nothing |
| `TlsServer.Machine.AcceptLoop` | net/tls_server.c:145-171 | each iteration has one test and, if accept() succeeds, a new connection, whose thread was started if pthread_create() succeeded and which was closed and freed otherwise; the loop ends only with the flag set |

## Left out

- Pixels.GreenRoundsDown: green is the formula of the source, which is not that of T.871, so no accuracy against T.871 is claimed for it.
- Frame.Yuyv2Rgb: calloc() always succeeds; a null result is not modelled.
- Image.EncodeFrame: the compression by libjpeg, its error manager and the frees after it.
- Image.EncodeFrame: that the captured frame has the size `main` assumes; the driver may adjust the format and the code does not read it back (uvc/main.c:84-91), so the input size is a precondition.
- Camera.Camera.Init: the crop request, whose result is ignored (uvc/main.c:72-82), and the failure of malloc() and calloc().
- Camera.Camera.Start: `camera_stop`, `camera_close` and the select() of `camera_frame`.
- Camera.Camera.Capture: what the driver writes into a buffer while it owns it; the payload is in place when the dequeue returns.
- FileLock.Machine.RunProcess: the loops are followed for finitely many iterations, with any interleaving and answers; shm_unlink() and unlink() are left out.
- Semaphore.Machine.Join: the join of a thread that was never created has no meaning, so the model stops `main` there.
- Semaphore.Machine.ProducerThread: a call of a destroyed semaphore has no meaning, so the model stops the thread there.
- HexDump.LogData: the text of the header and its colours; with split 0 the remainder is undefined in C, so it is excluded.
- TlsServer.Machine.AcceptLoop: the set-up before listen(), the shared SSL_CTX after the exit of `main`, and the store to `session->tid`; session threads are never joined.
- TlsServer.Machine.HandOff: the malloc() of the session, whose result the code does not check (net/tls_server.c:154), always succeeds.
- TlsServer.Machine.SessionThread: SSL_new() always succeeds; the text of the received data is not modelled.
- Flags are sequentially consistent; clocks, sleeps and the texts of log messages are left out.
- The programs under dbus, libuv, the message-queue and socket demos under ipc, and the other programs under net are I/O over libraries whose code is not in the repository.
