# Verification of sylar's buffer, codecs and wait/wake protocol

This project models three cores of the sylar C++ server framework in Dafny and proves what their
callers rely on.

**The chunked byte buffer.** `ByteArray.dfy` has `ByteArray` as a class over heap nodes and arrays:
a linked list of equal chunks, a cached cursor, a head, a size and a capacity. Its methods are proved
against a flat byte sequence with a head, `BufferRuns.dfy` does this over whole runs, `Codec.dfy` and
`TypedBuffer.dfy` add the fixed-width, varint, zigzag and string codecs and the round trip of scripts
of typed values, `Layout.dfy` the bytes they store, and `Stream.dfy` the stream reads that fill the
buffer through its write slices.

**The wait/wake protocol.** A blocking call of a fiber sets a timer, registers an event, yields, and is
woken by readiness or by the timer; workers take tasks from a shared queue. There are two layers.

- Classes: `Timer.dfy` (the ordered timer set), `Scheduler.dfy` (fibers, the run queue, a worker's
  turn) and `EventTable.dfy` (the table of descriptors with their event bits, slots, the pending
  counter and epoll's masks). The operations on the timer set, the run queue, a worker's turn and the
  event table are proved to do what functions of `TimerSpec.dfy`, `SchedulerSpec.dfy` and
  `EventSpec.dfy` say.
- The step system `Protocol.dfy`, whose steps use those functions for timers, queue and events. Its two
  steps of a worker carry fibers along as well; `Turns.dfy` proves that on what the worker works on they
  are the two halves of a turn of `SchedulerSpec.dfy`, which are the contracts of the class. The
  invariants are in `Workers.dfy`, `Tokens.dfy`, `Plain.dfy`, `Timing.dfy`, `Limits.dfy` and `Marks.dfy`,
  the proofs that every step keeps them there and in `Safety.dfy`, and the theorems over all reachable
  states and all runs in `Runs.dfy`, `Ledger.dfy`, `Limits.dfy` and `Marks.dfy`. `LostTimeout.dfy` and
  `Races.dfy` have runs that lead to states where something goes wrong. `Outcomes.dfy`, `Deadlines.dfy`,
  `Waits.dfy` and `Silence.dfy` add how calls end, whose timers and slots there are, and that a deleted
  registration is gone. `Durations.dfy` has the conversions of times.

The granularity of the step system: taking a task and swapping its fiber in is one step, so is swapping
out together with what the worker does about it; an expiry with the scheduling of its callbacks is one
step, as are one operation of the event table and one test for stopping. A blocking call, and the
callback of its timer, take one step for each thing they do to shared state, so that an event, a
timeout or another worker may come in between. The clock may advance at any time and does not go back.
Code outside the library may do the following at any time: create fibers, schedule callbacks, set,
cancel, refresh and reset its own timers, add callback events, delete and cancel events, registered or
not, stop. It schedules a fiber only when the fiber is new or was put on hold by user code, and is not
queued, and it deletes no event that holds a fiber. epoll_ctl may fail at any time; changing or
removing a descriptor without registered events does fail.

The steps stand for these parts of the source: `Taken` and `Left` for the two halves of a worker's turn
(sylar/scheduler.cpp:189-253 and 229-266), `Slept` for `sleep`, `usleep` and `nanosleep`
(sylar/hook.cpp:181-221), `Begun`, `Rearmed`, `Registered`, `Continued`, `Judged` and `Returned` for the
stages of `do_io` and `connect_with_timeout` (sylar/hook.cpp:111-173 and 253-303), `Checked` and the step
`RunCancel` for the timeout callback (sylar/hook.cpp:134-145), `Expired` and the step `Deliver` for `idle`
(sylar/iomanager.cpp:335-399), and `Stopping` for `stopping` (sylar/iomanager.cpp:283-293).

**The URL and form codec.** `UrlCodec.dfy` has the lazily building encoder and decoder, proved equal to
the plain per-character map and scan and inverse to each other; `Form.dfy` has the `PARSE_PARAM` scanner
and its three uses.

## Where the code does not do what it was meant to

Each of these is a lemma or a contract with the exact condition.

- The guards of `delEvent` and `cancelEvent` negate the mask before testing the event
  (`EventSpec.GuardLetsThrough`, `EventSpec.CancelFails`, `EventSpec.DeleteConserves`). The class
  has the guard as written; the step system covers it and the intended one (`intended`). After the
  delete of an unregistered event, and only then, the I/O manager may stop while events are registered
  and fibers wait for them (`Runs.SafeStop`, `Races.StopsTooSoon`).
- A time limit is lost when the callback has marked the call and then misses it: it does not find the
  fiber in the slot, because that is not registered yet (`LostTimeout.LimitLost`), or epoll_ctl fails
  (`Races.CancelStopped`). A fiber held by its slot has something to end its wait exactly if no callback
  has missed its call (`Marks.LimitExactly`).
- A timeout callback that has tested its call goes on to cancel the event, whoever waits for it by then:
  when its call has returned and the fiber is in another call (`Races.StaleCancel`), but also while its
  call has not returned, when the event has woken the fiber and another fiber waits for the same event
  (`Races.ForeignCancel`). It takes something other than the wait of its own call exactly if epoll_ctl
  succeeds and the slot holds anything else (`Marks.LateCancel`), and cancels nothing exactly if the
  guard or epoll_ctl stops it (`Marks.CancelStops`).
- A read of nothing at the very end of the last chunk follows a null cursor (`ByteArray.Read`), so a
  script of typed values that ends with an empty string there does not read back
  (`TypedBuffer.RoundTrip`).
- The const read takes its first chunk from the cursor, whatever position it is given
  (`Buffers.ReadAtSameChunk`); `getReadBuffers` with a position ignores that argument
  (`ByteArray.GetReadBuffersAt`).
- The 64-bit zigzag helpers are declared with 32-bit results (`Codec.Zigzag64`).
- String prefixes of 16 and 32 bits store a narrowed length (`TypedBuffer.FaithfulExactly`).
- `TrimRight` drops the last character it should keep (`UrlCodec.TrimRightShort`).
- The encoder leaves `=` as it is, unlike section 2.3 of RFC 3986 (`UrlCodec.EncodedIsIdentity`).
- `idle` narrows the time to the first deadline to `int` before comparing it with its cap of 3000 ms, so
  a time with bit 31 set makes `epoll_wait` wait without end (`Durations.IdleWaitIs`).
- `sleep` multiplies in 32 bits, `usleep` and `nanosleep` drop what is less than a millisecond, and
  `nanosleep` narrows to `int` (`Durations`).

## Model

| member | source | states |
|---|---|---|
| Buffers.ByteArray.AddCapacity | sylar/bytearray.cpp:504-533 | room for n bytes behind the head: the smallest number of chunks is appended, the content and the head stay, and a null cursor moves to the first new chunk |
| Buffers.GrownByCount | sylar/bytearray.cpp:513-514 | the rounded-up chunk count is the least that gives the room asked for |
| Buffers.ByteArray.Write | sylar/bytearray.cpp:347-380 | replaces exactly [pos, pos+n) of the flat content, extends it if needed, keeps the rest of the storage, moves the head by n, and keeps the cursor the chunk of the head |
| Buffers.OverwriteIs | sylar/bytearray.cpp:347-380 | the flat meaning of a write: the bytes written lie at [pos, pos+n) and every other byte is what it was |
| Buffers.ByteArray.Read | sylar/bytearray.cpp:382-410 | returns exactly the next n bytes and moves the head; throws iff fewer are left; follows a null cursor iff n is 0 at the very end of the capacity |
| Buffers.ByteArray.ReadAt | sylar/bytearray.cpp:412-440 | the const read: what it copies for any position, as the flat slice from where the cursor's chunk and the offset put it |
| Buffers.ReadAtSameChunk | sylar/bytearray.cpp:417-420 | the const read copies from the position asked for iff that position lies in the cursor's chunk |
| Buffers.ByteArray.SetPosition | sylar/bytearray.cpp:442-458 | moves the head anywhere up to the capacity, lets the size follow, finds the chunk again, and refuses anything beyond without a change |
| Buffers.ByteArray.CursorIsQuotient | sylar/bytearray.cpp:442-458 | the cursor is chunk position / base size, and null iff the position is the capacity |
| Buffers.ByteArray.ToString | sylar/bytearray.cpp:535-543 | the unread bytes, without moving the head |
| Buffers.ByteArray.GetReadBuffers | sylar/bytearray.cpp:560-589 | slices from the cursor for the next min(len, readSize) bytes |
| Buffers.ByteArray.GetReadBuffersAt | sylar/bytearray.cpp:591-625 | the walk from the root gives the same slices as the cursor; if there are any, they are those at the position asked for iff that is the head |
| Buffers.ByteArray.GatherHead | sylar/bytearray.cpp:535-589 | concatenating the slices at the head gives the next bytes of the content |
| Buffers.ByteArray.GetWriteBuffers | sylar/bytearray.cpp:627-654 | slices over the next len bytes of storage, after making room, with content and head unchanged |
| Buffers.ByteArray.Scatter | sylar/socket_stream.cpp:29-34 | filling the write slices stores the data at the head and nowhere else |
| Buffers.ByteArray.Clear | sylar/bytearray.cpp:334-345 | empty again, with the first chunk only, whose bytes stay |
| BufferRuns.Run | sylar/bytearray.cpp:334-458 | over any sequence of writes, reads, seeks and clears and any chunk size, the answers and the final state are those of a flat storage with a size and a head; a seek past the content exposes the storage as it is |
| BufferRuns.WriteOverwrites | sylar/bytearray.cpp:347-380 | on the content of the flat storage a write overwrites exactly the bytes at the head |
| BufferRuns.BytesStay | sylar/bytearray.cpp:334-458 | in a run a byte of the storage, content or not, stays until a write covers it or a clear drops its chunk |
| Codec.LoadedValue | sylar/bytearray.cpp:211-250 | swapping on load when the chosen byte order is not the machine's gives back the value stored, on either machine |
| Codec.ImageIs | sylar/bytearray.cpp:80-113 | byte k of an integer, v / 256^k mod 256, lies at place k in little-endian order and counted from the other end in big-endian order |
| Codec.VarLength | sylar/bytearray.cpp:143-167 | a varint takes at most n bytes iff the value has at most 7n bits |
| Codec.VarWidths | sylar/bytearray.cpp:143-167 | at most 5 bytes for 32 bits and 10 for 64 |
| Codec.VarIs | sylar/bytearray.cpp:143-167 | byte k of a varint has the seven-bit digit v / 128^k mod 128, and the high bit iff another byte follows |
| Codec.ParseIs | sylar/bytearray.cpp:256-286 | of any bytes the reading loop takes those up to the first without the high bit, n at most, and returns the integer of their digits truncated to its width; it runs out iff fewer are left and all have the high bit |
| Codec.ParseInverts | sylar/bytearray.cpp:256-286 | decoding takes exactly the encoded bytes, whatever follows, and returns the value |
| Codec.Zigzag32 | sylar/bytearray.cpp:115-121 | the 32-bit zigzag pair is inverse both ways on all values, and the code of v is 2v, or -2v - 1 for a negative one |
| Codec.Zigzag64 | sylar/bytearray.cpp:123-137 | the 64-bit pair as declared is inverse iff the value is in [-2^31, 2^31) |
| TypedBuffer.WriteFuint | sylar/bytearray.cpp:80-113 | stores the value's bytes in the chosen order, on a machine of either order |
| TypedBuffer.PackVar | sylar/bytearray.cpp:143-167 | the packing loop fills a prefix of its array with the varint and never leaves the array |
| TypedBuffer.ReadVar | sylar/bytearray.cpp:256-286 | the reading loop is the parser of varints: value, position, and both ways of failing; when it runs past the end it has consumed all that was left |
| TypedBuffer.WriteStr | sylar/bytearray.cpp:181-203 | the narrowed length in the prefix's format, then all the bytes |
| TypedBuffer.FaithfulExactly | sylar/bytearray.cpp:139-203 | a typed write followed by the matching read loses nothing iff the item fits its encoding |
| Layout.BytesAre | sylar/bytearray.cpp:80-203 | what each typed write stores, place by place: integers of their width in the chosen order, two's complement for signed ones, varints of the value or the zigzag code, and strings behind their length in 2, 4 or 8 bytes, cut down to that, or in a varint |
| TypedBuffer.WrittenTwice | sylar/bytearray.cpp:347-380 | two writes in a row are one write of the concatenation, in content, head and capacity |
| TypedBuffer.RoundTrip | sylar/bytearray.cpp:65-332 | the buffer holds the encodings of a script of typed writes; after a rewind the reads return every item and end at the end iff every item is representable and the script does not end with an empty string on a full last chunk; otherwise all before the first item that does not come back, and for that one a known answer |
| Streams.SocketStream.ReadInto | sylar/socket_stream.cpp:25-36 | receiving through the write slices and moving the head is writing the received bytes |
| Streams.SocketStream.ReadFixSize | sylar/stream.cpp:5-17 | over any partial transfers, returns the length iff that many bytes of the stream arrived, in order, in the buffer |
| Streams.SocketStream.ReadFixSizeInto | sylar/stream.cpp:19-29 | the same into the chunked buffer: its content is the old one with the received bytes written at the head |
| UrlCodec.UrlEncode | sylar/util.cpp:142-171 | the lazily built result is the per-character map |
| UrlCodec.EncodedByteIs | sylar/util.cpp:96-171 | the encoder leaves exactly the letters, the digits and -._~= alone, and writes every other byte as an escape with upper-case digits, a space as a plus sign if asked to |
| UrlCodec.UrlDecode | sylar/util.cpp:173-202 | the lazily built result is the plain left-to-right scan, malformed escapes copied |
| UrlCodec.DecodesEscape | sylar/util.cpp:119-195 | every escape, its two digits in either case, decodes to the byte whose digits it spells, whatever follows |
| UrlCodec.DecodedIsIdentity | sylar/util.cpp:173-202 | decoding returns its argument iff it has no escape and no plus sign that stands for a space |
| UrlCodec.DecodeInvertsEncode | sylar/util.cpp:142-202 | decoding undoes encoding for every byte string and every pair of modes, except a string with a space encoded as plus and decoded without |
| UrlCodec.EncodedAlphabet | sylar/util.cpp:96-117 | encoded text contains only unreserved characters, percent and plus |
| UrlCodec.EncodedIsIdentity | sylar/util.cpp:160-166 | a string comes back as it is iff it has nothing to escape |
| UrlCodec.TrimRecovers | sylar/util.cpp:204-211 | trimming removes exactly the blanks around a text |
| UrlCodec.TrimRightShort | sylar/util.cpp:221-227 | of a text followed by blanks TrimRight also drops the last character of the text, so it is right iff there is no text |
| Form.ParseParam | sylar/http/http.cpp:214-230 | the scanning loop terminates and inserts the pairs of the text in order, the first value of a key kept |
| Form.PairsOfJoin | sylar/http/http.cpp:214-230 | scanning joined pairs finds exactly those pairs: keys without '=', values in the encoder's alphabet, so values with '=' survive |
| Form.KeepIsFirst | sylar/http/http.cpp:224-225 | looking a key up, in any letter case, gives the first value inserted for it |
| Form.FoldIs | sylar/http/http.cpp:53-55 | two keys are the same entry iff they are the same C strings but for the case of letters |
| Form.ScanJoined | sylar/http/http.cpp:214-230 | the scanner inverts the form encoder for all lists of pairs |
| Form.HttpRequest.InitQueryParam | sylar/http/http.cpp:209-234 | parses the query once; a second call changes nothing |
| Form.HttpRequest.InitBodyParam | sylar/http/http.cpp:236-247 | parses the body once, if its content type is a form |
| Form.HttpRequest.InitCookies | sylar/http/http.cpp:249-260 | parses the cookie header once, with trimmed keys |
| Form.HttpRequest.InitParam | sylar/http/http.cpp:203-207 | stores the pairs of the query, then those of the body, and the cookies, each source once; running it again changes nothing |
| Form.HttpRequest.GetParams | sylar/http/http.cpp:80-86 | stores the pairs of the query and then those of a form in the body, each once, and gives the value of a key or the default |
| Form.QueryRoundTrip | sylar/http/http.cpp:80-86 | a query and a body made by the form encoder, asked for a key through getParams: the first value sent for it in the query, else the first in the body if the content type is a form, else the default |
| Form.CookieRoundTrip | sylar/http/http.cpp:88-93 | a cookie header made by the form encoder, asked for a name through getCookie: the first value sent for it, whatever blanks are around the names, else the default |
| Timers.LessIsTotal | sylar/timer.cpp:8-26 | the comparison by deadline and then by address is a strict total order on timers at different addresses |
| Timers.TimerManager.Find | sylar/timer.cpp:50-66 | the lookup in the ordered set succeeds exactly for its members |
| Timers.TimerManager.Cancel | sylar/timer.cpp:46-55 | true iff the timer has a callback; it alone then leaves the set and loses it |
| Timers.TimerManager.Refresh | sylar/timer.cpp:58-72 | true iff the timer has a callback; its deadline then is one period from now, and the set has the same timers and stays ordered |
| Timers.TimerManager.Reset | sylar/timer.cpp:75-104 | new period, and a deadline that far from now or from the old start; re-added as a new timer would be, with the hook called iff it is then the first and no other was announced since the last poll; nothing when the period is the same and not counted from now |
| Timers.TimerManager.AddTimer | sylar/timer.cpp:114-121 | a new timer at its place; the hook is called iff it is at the front and no other was since the last poll |
| Timers.TimerManager.AddLocked | sylar/timer.cpp:205-218 | inserts, and sets m_tickled and calls onTimerInsertedAtFront for the first new front timer since the last poll |
| Timers.TimerManager.GetNextTimer | sylar/timer.cpp:140-156 | clears the flag and answers none iff there is no timer, 0 iff one is due, and otherwise the time until which none is and at which one is |
| TimerSpec.NextTimeoutIs | sylar/timer.cpp:140-156 | the same of the ordered set as a value |
| TimerSpec.RolloverIs | sylar/timer.cpp:220-228 | a clock that went back counts as rolled over iff it went back more than an hour, or, as the unsigned subtraction wraps, was still in the first hour of its time |
| Timers.TimerManager.ListExpiredCb | sylar/timer.cpp:158-203 | the callbacks of the due timers in order, and the set that is left |
| TimerSpec.ExpirePartition | sylar/timer.cpp:158-203 | without a rollover exactly the timers with deadline <= now are taken, in order, with one all of them; the others are untouched, only recurring ones return one period from now, and for positive periods every deadline left is later than now |
| TimerSpec.StepKeeps | sylar/timer.cpp:46-228 | every operation keeps the set strictly ordered with distinct timers, m_next - m_ms at most the clock, and the flag set while the front is earlier than the last poll saw |
| TimerSpec.NoMissedWakeUp | sylar/timer.cpp:140-218 | over all runs under a clock that does not go back: when the first deadline is earlier than the last getNextTimer saw, m_tickled is set and onTimerInsertedAtFront has run exactly once since; unless it has, no timer is due before the time is over that getNextTimer answered |
| Fibers.Fiber.Reset | sylar/fiber.cpp:96-115 | succeeds iff the fiber has a stack and is TERM, INIT or EXCEPT; it is then INIT with the new function |
| Fibers.Fiber.SwapIn | sylar/fiber.cpp:141-152 | the assertion holds iff the fiber is not executing; it is EXEC afterwards |
| Workers.LeftKeeps | sylar/fiber.cpp:183-223 | however a fiber leaves the processor, it runs nowhere afterwards, every other fiber is EXEC iff exactly one worker runs it, the active count is right, and a fiber its worker keeps is INIT |
| Schedulers.Scheduler.Schedule | sylar/scheduler.h:79-91 | appends the work unless it is empty |
| Schedulers.Scheduler.ScheduleOut | sylar/scheduler.h:102-115 | the pointer form moves the work out of the caller's variable |
| Schedulers.Scheduler.ScheduleAll | sylar/scheduler.h:51-63 | a range is moved into the queue in order, empty elements dropped |
| Schedulers.Scheduler.Take | sylar/scheduler.cpp:189-218 | takes exactly the oldest task that is pinned to no other thread and is not an executing fiber, having passed over only tasks that are, keeps the order of the others, and counts it as active |
| Schedulers.Scheduler.Dispatch | sylar/scheduler.cpp:185-253 | a turn up to the switch: the fiber of the task, or the retained or a new fiber reset to the callback, executes; no other fiber changes; it fails only where reset's assertion does |
| Schedulers.Scheduler.Settle | sylar/scheduler.cpp:229-266 | after the switch back: a ready fiber is queued again, one not finished is on hold, a finished callback fiber is reset and retained and given away otherwise |
| Schedulers.Scheduler.WholeTurn | sylar/scheduler.cpp:189-266 | a turn whose fiber leaves at once, by any of the four exits: queue, active count, retained fiber and the state of the fiber are those of the two halves in a row |
| Turns.TakenIsStarted | sylar/scheduler.cpp:189-253 | taking a task in the protocol is the first half of a worker's turn, its fiber executes then, and no other worker is touched |
| Turns.LeftIsSettled | sylar/scheduler.cpp:229-266 | leaving the processor in the protocol is the second half of a worker's turn, and no other worker is touched |
| EventTables.FdContext.TriggerEvent | sylar/iomanager.cpp:28-44 | moves the slot's work into the queue and clears the bit and the slot; fails iff the event is not registered |
| EventTables.EventTable.ContextResize | sylar/iomanager.cpp:89-97 | old contexts stay, new ones are empty |
| EventTables.EventTable.AddEvent | sylar/iomanager.cpp:99-158 | registers the callback or the running fiber and counts it; fails iff the event is registered already; a failing epoll_ctl changes nothing; epoll's masks go on mirroring the events |
| EventTables.EventTable.DelEvent | sylar/iomanager.cpp:160-193 | a registered event is taken out, slot, bit and epoll mask, without its work being run, if epoll_ctl succeeds; the guard is as written |
| EventTables.EventTable.CancelEvent | sylar/iomanager.cpp:196-227 | a registered event is taken out and its work queued if epoll_ctl succeeds; the guard is as written |
| EventTables.EventTable.CancelAll | sylar/iomanager.cpp:230-267 | schedules every registration of the descriptor, reading first, and never fails |
| EventTables.EventTable.Deliver | sylar/iomanager.cpp:346-399 | one report of epoll: errors and hang-ups stand for all registered events, the others of the mask stay watched |
| EventSpec.AddConserves | sylar/iomanager.cpp:114-157 | an add fails its assertion iff the event is registered; otherwise it puts its work into the slot, and touches no other, iff epoll_ctl succeeds, and keeps the counter as far from the number of registered events as it was |
| EventSpec.CancelConsumes | sylar/iomanager.cpp:204-226 | exactly the cancelled registration is consumed, once, and the counter follows |
| EventSpec.CancelFails | sylar/iomanager.cpp:204-223 | with the guard as written an assertion fails iff the event is not registered but another one of the descriptor is, so that epoll_ctl can succeed, and does |
| EventSpec.DeleteConserves | sylar/iomanager.cpp:168-192 | with the guard as written the counter becomes one short iff the event is not registered and epoll_ctl succeeds; with the intended guard never |
| EventSpec.DeleteRemoves | sylar/iomanager.cpp:168-192 | a successful delete takes the registration out, hands it to nobody and leaves all others; it succeeds iff epoll_ctl does and, with the intended guard, the event is registered |
| Silence.DeletedNeverRuns | sylar/iomanager.cpp:168-192 | after a successful delete, over any run, the callback that was registered is never queued again, unless user code hands it over anew or had elsewhere |
| EventSpec.CancelAllConsumes | sylar/iomanager.cpp:238-266 | every registration of the descriptor is consumed once, reading first, none is left, and those of other descriptors stay |
| EventSpec.DeliverConsumes | sylar/iomanager.cpp:356-399 | exactly the registrations reported are consumed, each once; an assertion fails iff unregistered events are reported along with registered ones |
| EventSpec.DeliverHits | sylar/iomanager.cpp:356-399 | a report hands over the registered ones of its events, reading first, both on an error or a hang-up; these are taken out and all others stay; nothing happens iff there are none or epoll_ctl fails |
| EventSpec.GuardLetsThrough | sylar/iomanager.cpp:169-169 | with only reading registered, deleting writing makes the counter one short and cancelling it fails |
| Safety.TakeFiberKeeps | sylar/scheduler.cpp:189-231 | swapping in a queued fiber fails no assertion, uses up exactly its one queue entry and keeps all invariants |
| Safety.TakeCallKeeps | sylar/scheduler.cpp:241-253 | running a callback in the retained, reset or a new fiber fails no assertion; the callback of a sleep carries its fiber's token on |
| Safety.LeaveStatus | sylar/scheduler.cpp:229-266 | only the fiber that swaps out changes its status, and what it becomes depends on how it left alone: ready, blocked, free or finished |
| Safety.RegisterKeeps | sylar/hook.cpp:148-159 | registering gives the fiber its one token before it yields; a failure leaves it with none and back in user code |
| Safety.ResumeKeeps | sylar/hook.cpp:188-190 | sleep's callback turns the token it is into one run-queue entry |
| Tokens.TimerExpire | sylar/timer.cpp:192-202 | an expiry hands over the callback of each expired one-shot timer exactly once |
| Tokens.WokenPasses | sylar/iomanager.cpp:28-44 | work that leaves the event table enters the queue as often, so no fiber's tokens change in number |
| Limits.AgainWatch | sylar/hook.cpp:131-146 | a call with a time limit that would block has a timer with its own timeout callback; no other timer goes |
| Limits.UnsetWatch | sylar/hook.cpp:160-163 | a call that continues cancels no timer but its own |
| Runs.StepKeepsTokens | sylar/scheduler.cpp:189-266 | every step keeps the invariant of workers and wake-up tokens |
| Runs.WakeUpToken | sylar/hook.cpp:115-193 | in every reachable state a fiber blocked in sleep, do_io or connect is held by exactly one event slot, timer, wake callback or run-queue entry, even before it has yielded, and no other fiber is held by anything but at most one queue entry |
| Waits.SlotIsOwn | sylar/hook.cpp:147-159 | in every reachable state a fiber in a slot is blocked in a call for just that event, which has not returned, and is in no other slot |
| Runs.WorkersSound | sylar/scheduler.cpp:204-274 | in every reachable state a fiber is EXEC iff exactly one worker runs it, the active count is the number of workers holding a task, no TERM or EXCEPT fiber is queued, and a retained fiber not in use is INIT |
| Runs.EventsConserved | sylar/iomanager.cpp:114-193 | after any run the pending counter is the number of registered events less the number of unregistered ones deleted past the guard |
| Runs.SafeStop | sylar/iomanager.cpp:283-293 | whenever stopping() is true nothing is ready, running, queued or timed, and the fibers that wait are those event slots still hold; no event is registered, and no fiber waits, iff the run deleted no unregistered event past the guard |
| Outcomes.StopsExactly | sylar/iomanager.cpp:283-293 | over any run stopping() is true iff stop was called, no timer is set, no task is queued or running, and as many events are registered as unregistered ones were deleted past the guard |
| Runs.NeverEarly | sylar/hook.cpp:111-193 | in every reachable state a call reports ETIMEDOUT, or is marked, only when its limit has passed since it began, however often it retried, and a sleeper goes on only when its time is over |
| Outcomes.RecordExactly | sylar/hook.cpp:111-173 | in every reachable state a call keeps the terms it began with; only its own callback marks it, while it has not returned; it ends only by its system call, by a failed registration, or when its woken fiber finds the mark or does not retry; and it times out iff the woken fiber finds the mark |
| Outcomes.JudgeExactly | sylar/hook.cpp:160-303 | in every reachable state a woken fiber in a marked call, of do_io or connect_with_timeout, returns ETIMEDOUT, whether or not the call retries; in another one it tries again or returns without, as the call retries or not |
| Outcomes.MarkedTimesOut | sylar/hook.cpp:134-173 | over any run a call marked while its fiber waits in it ends with ETIMEDOUT if it ends, whatever wakes the fiber |
| Deadlines.TimersExactly | sylar/hook.cpp:131-193 | in every reachable state a timer of the library is set by a sleep or a blocking call alone, for exactly the time asked for; it keeps its deadline, and goes iff it is due or its call no longer waits |
| Deadlines.SleepBegins | sylar/hook.cpp:181-193 | a sleep parks the fiber until the time asked for is over and sets a timer for then |
| Deadlines.TimerInUse | sylar/hook.cpp:131-163 | in every reachable state a call's timer is its only one, and belongs to a call that has not returned, has a time limit and is between its attempt and its wake-up |
| Runs.ReturnedIsLeft | sylar/hook.cpp:134-140 | in every reachable state no step changes the record of a call that has returned, and its timeout callback, testing it only then, changes nothing but its own progress |
| Runs.FailsExactly | sylar/iomanager.cpp:30-30 | the scheduler's assertions never fail; one of the event table fails iff an event is registered twice, or an unregistered one is cancelled past the guard or reported with a registered one |
| Ledger.QueueStep | sylar/scheduler.cpp:192-216 | a worker takes the oldest task that is pinned to no other thread and is not an executing fiber, and every other step appends exactly what the code run in it hands to schedule: fibers and callbacks given, callbacks due, work of events cancelled or reported, fibers resumed or yielding ready |
| Ledger.EveryTaskOnce | sylar/scheduler.h:34-91 | over any run every task handed to schedule is queued, or run by one thread, or has ended its turn, each as often as it was handed over; and no thread is at a task pinned to another |
| Ledger.TurnEnds | sylar/scheduler.cpp:229-266 | a turn ends with the fiber ready and queued once, or blocked and held once, or on hold or finished and held by nothing; a worker keeps its fiber for callbacks, as INIT, iff that is finished |
| Limits.LimitWatched | sylar/hook.cpp:131-146 | in every reachable state, for a fiber blocked in a call with a time limit that is not marked, the timer is set, or its callback is queued or about to test the call |
| Marks.LimitExactly | sylar/hook.cpp:131-169 | in every reachable state, for a fiber that its event slot holds in a call with a time limit: something is still to end the wait iff no callback of the call has marked it and then missed it |
| Marks.LateCancel | sylar/hook.cpp:141-144 | in every reachable state a timeout callback about to cancel takes something other than the wait of its own call iff epoll_ctl succeeds and the slot holds anything but the fiber of that call while the call has not returned |
| Marks.CancelStops | sylar/hook.cpp:134-145 | a timeout callback that comes to cancel changes nothing but its own progress and the note of a miss iff the guard or epoll_ctl stops it |
| LostTimeout.LimitLost | sylar/hook.cpp:131-164 | a reachable state with a limit missed because the callback ran between the arming of the timer and the registration: only the event or user code can wake the fiber |
| Races.CancelStopped | sylar/iomanager.cpp:215-221 | a reachable state with a limit missed because epoll_ctl failed when the callback cancelled the event of a fiber that had yielded |
| Races.StaleCancel | sylar/hook.cpp:136-144 | a reachable state in which the callback of a call that has returned takes the event of another call, a connect without a limit, and wakes its fiber |
| Races.ForeignCancel | sylar/hook.cpp:136-144 | a reachable state in which the callback of a call that has not returned takes the event of another fiber, in a connect without a limit, and wakes it |
| Races.StopsTooSoon | sylar/iomanager.cpp:283-293 | a reachable state, after the delete of an unregistered event, in which stopping() is true while a fiber waits |
| Durations.SleepIsFull | sylar/hook.cpp:188-190 | sleep waits as long as asked iff at most 4294967 seconds are, and otherwise a multiple of 2^32 milliseconds less |
| Durations.UsleepIsFull | sylar/hook.cpp:201-203 | usleep waits as long as asked iff whole milliseconds are, otherwise the whole milliseconds in it |
| Durations.NanosleepIsFull | sylar/hook.cpp:213-218 | nanosleep waits as long as asked iff for whole milliseconds that fit in an int, or when the narrowed count is negative; the whole milliseconds in it if they fit in an int |
| Durations.IdleWaitIs | sylar/iomanager.cpp:314-326 | the timeout given to epoll_wait lies in [0, 3000] iff bit 31 of the time to the first deadline is clear, is negative iff it is set, and is that time, capped, iff the narrowing neither makes it negative nor hides that it is over the cap |

## Left out

- Sockets, SSL, epoll itself, pipes, threads, contexts and stacks: a receive returns any prefix, an end or an error; epoll_ctl is a map update that may also fail for reasons of its own; a fiber is its state.
- Memory-model effects below the steps named above, and interleavings inside one method of a class: two threads growing the descriptor table at once (sylar/iomanager.cpp:102-112), or listExpiredCb between its two locks (sylar/timer.cpp:163-170).
- Overflow of size_t, of deadlines (now + ms fits in 64 bits) and of the pending counter below zero, which is an integer here and not zero then either; descriptors are not negative.
- BufferRuns.Run: the bytes of a newly allocated chunk that no write has covered are arbitrary, as new char[] leaves them.
- Buffers.GrownByCount: the source computes the count with a floating-point ceiling, the model with exact integers.
- Streams.SocketStream.ReadFixSize: the length is returned as int, which narrows lengths of 2^31 and more; the model returns it whole.
- Buffers.ByteArray.Clear: dropping the other chunks deletes them in the source; deallocation is not modelled.
- EventTables.EventTable.Deliver: the loop over the reports of one epoll_wait, the tickle pipe, EPOLLET and the scheduler pointer of a slot are left out; one scheduler serves the table.
- Schedulers.Scheduler.Dispatch: a turn with nothing to do runs the idle fiber, which is not modelled; what it does is in the steps Expire and Deliver of the protocol.
- Protocol.Taken: the thread pin of a task that yields ready is lost, as in the source; starting and joining threads, the root fiber and use_caller are not modelled.
- Protocol.Registered: the branches of do_io that call the original function directly (hook disabled, not a socket, user non-blocking, closed) never wait and are left out; retrying on EINTR is part of one try.
- Clock rollover and recurring timers of the library's own: rollover is in TimerSpec, while the protocol's clock does not go back; user timers there may recur.
- SocketStream::write on a ByteArray, which sends through write slices; writeFixSize; file, hexadecimal and floating-point members of ByteArray.
- HTTP parsing and printing, connection pools, servlets, configuration, addresses, logging.
