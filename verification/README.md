# Verified models of the networking library's core

Machine-checked models of the parts of the library where a mistake would be hard to see: the lock-free queues and the
send path built on them, the close protocol of a channel, the byte ring with its framing and ingest loop, the wire
formats and the record layer of GM-TLS, the two-party GM handshake, and a few smaller pieces (double-buffer queue,
affine ids, connection admission, map with expiry times).

`dafny verify dfyconfig.toml` checks everything.

## How the models are built

**Protocols between goroutines** (`BoundedMpsc`, `LinkedMpsc`, `Spsc`, `SharedSend`, `ChannelClose`, `Admission`,
`Handshake`) are step machines. A step is one atomic load, store, swap or compare-and-swap, or one plain access to memory
that another goroutine may see. A schedule is any list of actions, and an action that is not possible changes nothing;
a theorem about all reachable states is therefore a theorem about all interleavings of any number of goroutines.
Fields called history in the comments (logs, roles, holders) are never read by a step. `BoundedMpscAlone`,
`LinkedMpscAlone`, `SpscAlone` and `SharedSendAlone` say what one call achieves from any reachable state while the others
rest; `HandshakeWire` puts the handshake on a network that may replace any message, and `RecordBinding` does so for records.

**Code that updates objects and arrays** (`RingBuffer`, `RingQueue`, `Ingest`, `ClientHello`, `ServerHello`,
`Certificates`, `RecordLayer`, `SwapQueue`, `ShardMap`, the loops of `RecordPadding`, `Framing` and `Affine`) keeps its
form: classes with the source's fields, loops with invariants, arrays changed in place. Each method is proved against a
function of the old state or of the input, and the lemmas of the module say what that function means: round trips,
refinement of a byte sequence, of a queue, or of one map.

`PowerOfTwo` proves the bit tricks (rounding up, masks, `x & (x - 1)`), `Bytes` the big-endian words, `Windows` the
rings kept in arrays, `Wire` the length-prefixed vectors that the handshake messages are made of, `Extensions` the lists of
extensions; `ClientExtensions` and `ServerExtensions` say exactly which byte strings the two hello parsers accept.

## What was found on the way

Where the code and its comments differ, the code is modelled.

- A bounded MPSC ring with a single slot is unsound: the second Enqueue overwrites the first item. The constructor makes
  such a ring exactly when asked for capacity 1 (`BoundedMpsc.ConstructorSoundIff`).
- `RingBuffer.Write` overruns its own contents when `Grow` clamps to a maximum that is still too small. That takes a
  write longer than the whole buffer (`RingBuffer.NoClampWithinCapacity`); the ingest path never makes one
  (`Ingest.ChunkNeverClamps`).
- `TryDequeueBatch` of the SPSC ring can report "closed and drained" while an item is in the ring
  (`Spsc.TryReportCanBeWrong`). Its report can be relied on exactly if, before the call, there is an item or nothing more
  can be published; between two calls of the producer this means closed (`Spsc.TryReportIff`). The blocking forms are right about
  what has been published; whether their report is final depends on calls still under way (`Spsc.BlockingReport`).
- The read buffer of a closed channel may never return to its pool (`ChannelClose.BufferMayStayOut`). It always returns
  when Close is called on the read goroutine (`ChannelClose.OwnCloseReturnsBuffer`); for other callers the load of the
  callback depth decides, and after it the order of request and last look (`ChannelClose.DepthDecides`,
  `ChannelClose.RequestDecides`).
- A connection may be refused although nothing is registered (`Admission.RejectionCanBeSpurious`).
- `Expire` brings back an entry that has expired but was not cleaned up (`ShardMap.ExpiredComesBack`).
- The comment on `Pop` calls a batch valid until the next Pop; the code keeps it until the next Pop that finds something
  (`SwapQueue.KeepBatch`, `SwapQueue.BatchIsReused`).
- `Decrypt` of an affine id never overflows for moduli up to 2^32. Beyond, it is right for all ids if and only if the
  parameters are coprime and either the modulus is a power of two or the product fits at both ends of the range
  (`Affine.RoundTripIff`); 2^33 + 1 is a modulus for which it is wrong (`Affine.LargeModulusFails`).
- A failed write leaves the sender of TLS records one record ahead of the receiver, because the record is encrypted
  before it is written (`RecordLayer.Conn.WriteRecord`, `RecordLayer.WriteThenRead`).
- A certificate list whose last certificate is empty is printed but not parsed, and so is a certificate request without
  certificate types (`Certificates.ChainRoundTrip`, `Certificates.RequestRoundTrip`).
- The GM server sends a CertificateStatus message when a hello asks for one, and the GM client has no place for that
  message. The client's own hello never asks, so the two never meet (`Handshake.OwnClientIff`); only the hello of another
  client could bring it about (`Handshake.OnlyRefusals`, `Handshake.OverMeans`).
- The comment on `maxPayloadSizeForWrite` speaks of small records for the first megabyte; the constant is 128 KiB.

## Model

| member | source | states |
|---|---|---|
| BoundedMpsc.DoInv | zqueue/mpsc.go:132-345 | every single step of every producer and of the consumer keeps the ring's invariant |
| BoundedMpsc.ExecInv | zqueue/mpsc.go:132-345 | so does every schedule |
| BoundedMpsc.DeliversInClaimOrder | zqueue/mpsc.go:264-345 | in every interleaving items come out in the order their positions were claimed, and head minus tail is never negative and never above the capacity |
| BoundedMpsc.AcceptedExactlyOnce | zqueue/mpsc.go:132-239 | each accepted item of a producer sits at one position of its own, in call order, the producer owns no other position, and the number returned by a call is the number of leading items accepted |
| BoundedMpsc.NothingLost | zqueue/mpsc.go:132-161 | an unread position whose producer is not in the middle of writing is in its slot with its item and the stamp that lets the consumer read it |
| BoundedMpsc.UntouchedUntilRead | zqueue/mpsc.go:132-161 | no action of anyone changes a slot between publication and the consumer's read |
| BoundedMpsc.BatchClaimsFreeSlots | zqueue/mpsc.go:170-208 | when the compare-and-swap of EnqueueBatch succeeds, every slot of the run is free although only two stamps were looked at |
| BoundedMpsc.RetryMeansProgress | zqueue/mpsc.go:132-208 | a call goes back to its beginning only when head has passed the value it had loaded, so somebody else claimed; the one exception is EnqueueBatch changing to single items when fewer slots are free than the batch needs |
| BoundedMpsc.RefusalJustified | zqueue/mpsc.go:132-239 | a call gives up only when the queue was closed as it looked, when every slot was taken at the moment it read the stamp and head had not moved since, or, for TryEnqueue, when somebody else claimed |
| BoundedMpsc.ThreeAttempts | zqueue/mpsc.go:179-206 | on no schedule does EnqueueBatch count more than three attempts |
| BoundedMpsc.ReturnsWhenAlone | zqueue/mpsc.go:132-216 | from any reachable state a call left alone returns within 7 of its own steps per item and 32 more |
| BoundedMpsc.DequeueReturnsWhenAlone | zqueue/mpsc.go:264-345 | a Dequeue or DequeueBatch left alone returns within four of its own steps for each item in the ring it has room for and two more; from any point of it ConsumerLeft bounds the steps left |
| BoundedMpsc.DequeueTakesNext | zqueue/mpsc.go:264-285 | with the oldest position published, an undisturbed Dequeue delivers exactly that item |
| BoundedMpsc.OneSlotOverwrites | zqueue/mpsc.go:140-147 | a schedule on which a ring with one slot loses an item |
| BoundedMpsc.SoundIffTwoSlots | zqueue/mpsc.go:132-345 | under all schedules every published unread item is readable, if and only if there are at least two slots |
| BoundedMpsc.ConstructorSoundIff | zqueue/mpsc.go:70-90 | the ring the constructor makes is sound if and only if the requested capacity is not 1 |
| BoundedMpscAlone.BatchTakesAll | zqueue/mpsc.go:289-345 | from any reachable state a DequeueBatch left alone takes all it has room for and can read: it returns with exactly the next n items delivered, in order, where n is the buffer's length or the first unpublished position |
| BoundedMpscAlone.StopsOnlyWhen | zqueue/mpsc.go:289-345 | under every schedule a dequeue ends only with its room used up, or at a position that was not published at that very moment |
| BoundedMpscAlone.AcceptsWhatFits | zqueue/mpsc.go:132-239 | an enqueue left alone on an open ring gets in exactly as many of its items as there are free slots, behind everything claimed before, and says so |
| BoundedMpscAlone.ClosedForever | zqueue/mpsc.go:132-239 | once the ring is closed and every call has seen it no schedule claims another position |
| BoundedMpscAlone.SlotsAreCleared | zqueue/mpsc.go:334-345 | a slot whose item was read holds nothing any more |
| LinkedMpsc.DoInv | zqueue/unboundedmpsc.go:75-237 | every step of every goroutine keeps the list's invariant |
| LinkedMpsc.ExecInv | zqueue/unboundedmpsc.go:75-237 | so does every schedule |
| LinkedMpsc.DeliversInSwapOrder | zqueue/unboundedmpsc.go:134-208 | what was delivered is a prefix of the items in head-swap order, all the consumed ones when no call is under way |
| LinkedMpsc.SentExactlyOnce | zqueue/unboundedmpsc.go:75-130 | the log holds a producer's items once each, in its own order, those of a call swapped in but not yet linked included |
| LinkedMpsc.NothingLost | zqueue/unboundedmpsc.go:100-130 | an unread item whose producer does not stall between swap and link hangs on its predecessor's next pointer with its value in place |
| LinkedMpsc.DequeueSeesHead | zqueue/unboundedmpsc.go:134-150 | Dequeue reports empty exactly when there is no next item or its link is missing; otherwise the node it found holds that item |
| LinkedMpsc.SpareNodesAreFree | zqueue/unboundedmpsc.go:134-208 | a node in the pool or in the part of the cache still waiting is not head, not tail, not on the live chain, not the node a stalled producer will write, not in a batch being built and not in the consumer's hand |
| LinkedMpsc.RollbackIsComplete | zqueue/unboundedmpsc.go:100-130 | a batch stopped at its second check gives back exactly the nodes it took, one by one, none of them already in the pool |
| LinkedMpsc.StoppedStaysStopped | zqueue/unboundedmpsc.go:70-91 | after StopEnqueue only a call already past its second check can add items, and no further call gets there |
| LinkedMpscAlone.BatchTakesAll | zqueue/unboundedmpsc.go:134-208 | from any reachable state a dequeue left alone takes all it has room for and can reach, exactly the next n linked items, in order |
| LinkedMpscAlone.RefusedOnlyWhen | zqueue/unboundedmpsc.go:75-130 | under every schedule a call returns without its items in the queue only when StopEnqueue had been called as it looked |
| LinkedMpscAlone.EnqueueOutcome | zqueue/unboundedmpsc.go:75-130 | an enqueue left alone puts all its items, linked, at the end of the log, or nothing after StopEnqueue |
| LinkedMpscAlone.SpareNodesAreBlank | zqueue/unboundedmpsc.go:134-208 | nodes in the pool and in the cache hold no value, and the cache stays within its capacity |
| LinkedMpscAlone.ShrinkEmpties | zqueue/unboundedmpsc.go:218-227 | Shrink left alone moves every node of the cache to the pool and touches nothing else |
| Spsc.DoInv | zqueue/spsc.go:79-373 | every step of the producer, the consumer and Close keeps the ring's invariant |
| Spsc.FirstInFirstOut | zqueue/spsc.go:79-198 | tailCache <= tail <= headCache <= head <= tail + capacity, and what was delivered is the first tail published items |
| Spsc.RingHoldsUnread | zqueue/spsc.go:339-373 | every unread item is in its slot whatever is being copied in meanwhile, and every slot that holds nothing unread is back at the zero value |
| Spsc.ReturnsTrueIffPublished | zqueue/spsc.go:79-198 | an enqueue changes the published items only by its last step, by all its items if it returns true and by nothing if it returns false |
| Spsc.OversizedNeverWritten | zqueue/spsc.go:79-160 | no item of a batch larger than the ring is ever written |
| Spsc.BlockingReport | zqueue/spsc.go:234-270 | a blocking dequeue reports closed only with everything published delivered, and no schedule brings another item exactly when no call that would fit is past its own look at the flag |
| Spsc.RunToPublish | zqueue/spsc.go:79-125 | a call past its look at the flag that fits publishes if it runs |
| Spsc.EndedForever | zqueue/spsc.go:79-125 | on a closed ring with no such call pending no schedule publishes anything |
| Spsc.TryReportIff | zqueue/spsc.go:275-300 | from any reachable state with the consumer between calls: under every schedule of that call its report of a drained queue is right, if and only if an item is there already or nothing more can be published |
| Spsc.TryReportCanBeWrong | zqueue/spsc.go:286-292 | a reachable state in which it has reported drained with one item published and none delivered |
| Spsc.CapacityIs | zqueue/spsc.go:45-60 | the capacity is the least power of two in [2, 2^30] not below the request, or 2^30 |
| SpscAlone.RefusedOnlyWhen | zqueue/spsc.go:79-230 | under every schedule a call is refused only by a look at a set flag, or, if it does not wait, by a load of tail that shows too little room |
| SpscAlone.EnqueueOutcome | zqueue/spsc.go:79-230 | an enqueue left alone: refused on a closed queue, otherwise accepted if and only if its items fit |
| SpscAlone.ReportMeans | zqueue/spsc.go:234-335 | under every schedule a dequeue says closed only with the flag set and empty only without |
| SpscAlone.DequeueOutcome | zqueue/spsc.go:234-373 | a dequeue left alone delivers as many of the oldest items as it has room for; with none it says closed or empty, or waits |
| SharedSend.DoInv | znet/shared_send_workers.go:44-155 | every step of every sender and worker keeps the invariant: for each message somebody is still going to look |
| SharedSend.NoLostWakeup | znet/shared_send_workers.go:44-155 | with no Send under way and all workers blocked, every mailbox is empty, everything is written and the flag is clear |
| SharedSend.OneConsumer | znet/shared_send_workers.go:44-155 | two workers busy with the same channel are one worker, that of the channel's shard |
| SharedSend.WrittenInOrder | znet/shared_send_workers.go:89-155 | what the connection has seen and what the channel's own worker holds are together exactly the dequeued prefix of the mailbox order |
| SharedSend.WorkDecreases | znet/shared_send_workers.go:58-155 | every step of an unblocked worker, with any quota, uses up some of a finite amount of work |
| SharedSend.EveryRunEnds | znet/shared_send_workers.go:58-155 | once senders pause, every schedule of the workers has at most that many steps of workers with something to do, and where it leaves them all blocked every channel is at rest, no message lost |
| SharedSend.WorkersFinish | znet/shared_send_workers.go:58-155 | there is always a schedule that ends so |
| SharedSendAlone.TurnTakes | znet/shared_send_workers.go:89-155 | one turn of a worker left alone: it writes exactly the messages that are there, up to the quota of full batches; the channel goes back to the queue exactly if the last batch of the quota was used, and is idle otherwise |
| ChannelClose.DoInv | znet/channel.go:416-717 | every step of every thread keeps the invariant of the close protocol |
| ChannelClose.NoCircularWait | znet/channel.go:629-688 | whenever the closer waits for the read goroutine, that goroutine is not waiting for closeOnce |
| ChannelClose.CloseCallOnce | znet/channel.go:693-710 | the close callback runs at most once, after the read loop is over and with the channel shut |
| ChannelClose.BufferReturnedAtMostOnce | znet/channel.go:416-444 | the read buffer returns to its pool at most once, and not while the read loop may use it |
| ChannelClose.RestMeansClosed | znet/channel.go:629-717 | where no thread can move, either no Close has come and the reader waits for data, or all calls have returned, all goroutines have ended and the callback has run exactly once |
| ChannelClose.InternalDecreases | znet/channel.go:629-717 | no part of the program runs on by itself for ever |
| ChannelClose.EveryRunEnds | znet/channel.go:629-717 | from every state, every schedule of the program's own steps has at most a computed number of steps that move |
| ChannelClose.ComesToRest | znet/channel.go:629-717 | there is always a schedule that leads to rest |
| ChannelClose.CloseCompletes | znet/channel.go:629-717 | a close that has begun can be completed by the program's own steps: everyone returns, the callback has run once |
| ChannelClose.OwnCloseReturnsBuffer | znet/channel.go:416-444 | a close whose body runs on the read goroutine, in a callback or at its end, has returned the buffer wherever any schedule comes to rest |
| ChannelClose.DepthDecides | znet/channel.go:679-685 | when the body loads the callback depth: every schedule returns the buffer, if and only if the depth is 0 or the read goroutine is itself inside a Close that waits for this one |
| ChannelClose.RequestDecides | znet/channel.go:679-717 | when the body asks for the buffer: on every schedule that comes to rest it is returned exactly if the read goroutine has not looked yet |
| ChannelClose.BufferMayStayOut | znet/channel.go:693-717 | a reachable end state in which nobody has returned the buffer |
| PowerOfTwo.NextPowerOfTwoLeast | zqueue/queue.go:34-46 | the shift-and-or rounding gives the least power of two not below n, for every n up to 2^63, and so does the 64-bit variant |
| PowerOfTwo.AndPredZero | zqueue/spsc.go:382-384 | `x & (x - 1) == 0` holds of a positive number exactly when it is a power of two |
| PowerOfTwo.MaskIsMod | znet/ringbuffer.go:164-213 | masking with a power of two minus one is the remainder |
| RingBuffer.WrapIndex | znet/ringbuffer.go:145-162 | reducing a counter modulo 2^64 does not change its index in the array |
| RingBuffer.Advanced | znet/ringbuffer.go:417-450 | a counter that advances, over the wrap of 64 bits or not, has the right index and the right distance |
| RingBuffer.NoClampWithinCapacity | znet/ringbuffer.go:287-293 | for power-of-two sizes a request not longer than the buffer never meets the clamp that is too short |
| RingBuffer.RingBuffer.constructor | znet/ringbuffer.go:178-198 | empty, with size and maximum rounded to powers of two |
| RingBuffer.RingBuffer.Reset | znet/ringbuffer.go:247-255 | empty, and every byte zero |
| RingBuffer.RingBuffer.Grow | znet/ringbuffer.go:274-326 | contents kept, power-of-two size, never beyond the maximum; the answer is yes exactly when there was room or growing is allowed, and then there are n free bytes exactly unless it clamped short |
| RingBuffer.RingBuffer.Write | znet/ringbuffer.go:410-450 | appends: everything, or what fits in a ring that may not grow, with the matching error; and exactly in the clamped case it leaves a ring that is not valid |
| RingBuffer.RingBuffer.TakeFrom | znet/ringbuffer.go:470-503 | appends what one or two reads around the end of the array give |
| RingBuffer.TakenFromStream | znet/ringbuffer.go:470-503 | from a stream that gives all it is asked for, one write takes as much as there is room for, in order, wherever the end of the array lies |
| RingBuffer.RingBuffer.WriteFromReader | znet/ringbuffer.go:456-505 | a full ring that may not grow refuses; otherwise appends what the reader answers, and holds EOF back when there was data |
| RingBuffer.RingBuffer.Read | znet/ringbuffer.go:509-539 | the oldest bytes move to the caller's buffer, whose rest is untouched |
| RingBuffer.RingBuffer.Discard | znet/ringbuffer.go:395-406 | drops the oldest n bytes, or nothing if there are fewer |
| RingBuffer.RingBuffer.Peek | znet/ringbuffer.go:330-353 | a prefix of the contents as long as asked for, unless contents or array end before |
| RingBuffer.RingBuffer.PeekAll | znet/ringbuffer.go:356-373 | two pieces that are together the contents |
| RingBuffer.RingBuffer.PeekTwoSlices | znet/ringbuffer.go:376-392 | any slice of the contents in two pieces, or an error exactly when it is not all there |
| RingBuffer.RingBuffer.PeekBytes | znet/ringbuffer.go:675-698 | any slice of the contents in one piece |
| RingBuffer.RingBuffer.PeekByte | znet/ringbuffer.go:608-614 | the byte at an offset of the contents |
| RingBuffer.RingBuffer.PeekUint32BE | znet/ringbuffer.go:617-638 | the big-endian word at an offset, also around the end of the array |
| RingBuffer.RingBuffer.PeekHeader12 | znet/ringbuffer.go:641-661 | three consecutive big-endian words |
| RingQueue.Queue.constructor | zqueue/queue.go:48-73 | empty, with rounded size, and a limit raised to the size if it was below |
| RingQueue.Queue.ResizeTo | zqueue/queue.go:239-257 | the contents survive the move to a larger array |
| RingQueue.Queue.Enqueue | zqueue/queue.go:118-158 | appends or changes nothing; it succeeds exactly when the queue is open and there is room, now or after growing within the limit |
| RingQueue.Queue.EnqueueBatch | zqueue/queue.go:161-208 | all of the batch or nothing, under the same exact condition; an empty batch always succeeds |
| RingQueue.Queue.Target | zqueue/queue.go:161-208 | the doubling loop finds a power of two that has room and is within the limit, exactly when there is one |
| RingQueue.Queue.Front | zqueue/queue.go:211-218 | the oldest element, if any |
| RingQueue.Queue.DequeueBatch | zqueue/queue.go:221-295 | takes the oldest elements in order, as many as asked for or there are, and says how many remain |
| Framing.ParseEncoded | znet/socket.go:53-119 | an encoded in-limit message is parsed back, whatever bytes follow it |
| Framing.ParseAny | znet/socket.go:53-119 | an encoded message outside the limits is refused, first for its id and then for its length, whatever bytes follow it |
| Framing.ParseOther | znet/socket.go:53-119 | a message of another version is refused for its version |
| Framing.BadIff | znet/socket.go:53-119 | bytes are refused exactly when the header is complete and no continuation of them could be parsed |
| Framing.ParsePrefix | znet/socket.go:53-119 | every proper prefix of it is waited for, neither rejected nor misread |
| Framing.EncodeParsed | znet/socket.go:234-249 | encoding what was parsed gives the very bytes it was parsed from |
| Framing.ParseMore | znet/socket.go:53-119 | more bytes never change a verdict |
| Framing.ParseFromRingBuffer | znet/socket.go:53-119 | parses the ring's contents; a complete message is taken out, anything else leaves the ring as it was |
| Framing.PreparePacket | znet/socket.go:229-249 | header and body returned are together the encoded message |
| Framing.DecodeMore | znet/socket.go:53-119 | decoding a stream piece by piece is decoding it at once |
| Framing.DecodeStream | znet/socket.go:53-119 | any beginning of a stream of in-limit messages decodes to a beginning of the list and a proper prefix of the next frame |
| Ingest.MaxForSocketIsRoomy | znet/ringbuffer.go:72-82 | the maximum derived from the socket configuration holds every frame the parser waits for |
| Ingest.WaitsForLess | znet/socket.go:53-119 | what the parser waits for is shorter than the largest frame |
| Ingest.ChunkNeverClamps | znet/ringbuffer.go:287-293 | no chunk that is no longer than the ring, or than half its maximum, ever meets the short clamp |
| Ingest.Channel.constructor | znet/ringbuffer.go:125-131 | an open channel with an empty ring of the configured sizes |
| Ingest.Channel.WriteToReadBuffer | znet/channel.go:298-328 | appends all bytes, or what fits in a ring that may not grow, with the matching error; EOF on a closed channel |
| Ingest.Channel.HandleParsedMessage | znet/channel.go:368-400 | the opened message goes to the handler; a body that cannot be opened is dropped or ends the connection, as configured |
| Ingest.Channel.ParseAndDispatch | znet/channel.go:331-364 | the handler sees exactly what decoding the ring's contents gives, what is left is undecoded and the ring is not full: the branch for a frame larger than the ring is not taken |
| Ingest.Channel.WriteConnBytes | zreactor/reactor_lifecycle.go:58-88 | all bytes get in, with at most the whole messages taken out on the way in order; the ingest-error branch is not taken |
| Ingest.Channel.Ingest | zreactor/reactor_lifecycle.go:41-56 | for any bytes: the handler sees what decoding old and new bytes together gives, the connection closes exactly if that says so, and the undecoded rest stays |
| Ingest.Channel.Receive | zreactor/reactor_lifecycle.go:41-88 | any number of chunks has the effect of their concatenation |
| Ingest.Channel.ReceiveStream | zreactor/reactor_lifecycle.go:41-88 | in-limit messages, encoded, concatenated and cut anywhere into chunks no longer than the ring (or half its maximum), at any position of the ring's counters: the handler gets exactly these messages in order, the unfinished frame stays, the connection stays open |
| Ingest.EffectPieces | znet/channel.go:331-364 | the effect of a stream is the effect of its beginning and then of the rest with what follows |
| Ingest.DispatchMeans | znet/channel.go:368-400 | a message that cannot be opened is left out and ends nothing, unless the policy is strict: then exactly the messages in front of the first such one are seen |
| Ingest.StopIff | znet/channel.go:331-400 | a byte string ends the connection exactly over bytes that no message begins with, or under a strict policy over a message that cannot be opened |
| Ingest.StreamEffect | znet/channel.go:331-364 | the effect of any beginning of a stream of messages that can be opened |
| Ingest.OpenedAreSent | znet/channel.go:368-400 | if opening undoes sealing, the handler gets the sender's own messages |
| Wire.WordsRoundTrip | zgmtls/handshake_messages.go:324-337 | lists of 16-bit numbers survive being printed and parsed |
| Wire.VecsRoundTrip | zgmtls/handshake_messages.go:890-925 | a list of vectors comes back exactly when the parsing loop accepts it |
| Wire.VecsIff | zgmtls/handshake_messages.go:890-925 | the reading loop accepts a byte string exactly when it is a printed list that the loop can read |
| Wire.WordsAll | zgmtls/handshake_messages.go:324-337 | every even number of bytes is a printed list of 16-bit numbers |
| Wire.GetVecs | zgmtls/handshake_messages.go:890-925 | the loops over vectors read what the recursive definition reads, and give up where it does |
| ClientHello.RoundTrip | zgmtls/handshake_messages.go:67-507 | parsing a printed ClientHello gives it back, for every combination of extensions |
| ClientHello.Lengths | zgmtls/handshake_messages.go:67-130 | the lengths computed before the buffer is made are those of what is then written; the panic on a bad protocol name comes exactly for such names |
| ClientHello.ClientHelloMsg.Marshal | zgmtls/handshake_messages.go:67-306 | the in-place printer fills its buffer exactly, with the bytes the round trip is proved for; kept bytes are returned again |
| ClientHello.ClientHelloMsg.Unmarshal | zgmtls/handshake_messages.go:308-507 | the in-place parser accepts exactly what the definition accepts and then sets all fields |
| ClientHello.GetExts | zgmtls/handshake_messages.go:380-507 | the loop over extensions does what the recursive definition does |
| ClientHello.PrintThenParse | zgmtls/handshake_messages.go:41-507 | after one object prints and another parses, the two are equal, bytes included |
| ClientExtensions.UnknownIgnored | zgmtls/handshake_messages.go:366-507 | extensions the code does not know, anywhere between those of a well-formed hello, make no difference to what is parsed |
| ClientExtensions.ApplyIff | zgmtls/handshake_messages.go:384-505 | the body of an extension is accepted exactly when it is the printed form of something, and then means that |
| ClientExtensions.BlockIff | zgmtls/handshake_messages.go:366-507 | an extension block is accepted exactly when it is a list of codes and bodies that are accepted one after the other |
| ClientExtensions.ParseIff | zgmtls/handshake_messages.go:308-507 | a new object accepts exactly the byte strings that are, behind the first four bytes, what the printer writes for the parsed message with the extensions that came in place of its own |
| ClientExtensions.TypeAndLength | zgmtls/handshake_messages.go:85-150 | a printed message begins with type 1 and its own length |
| ServerHello.RoundTrip | zgmtls/handshake_messages.go:556-838 | parsing a printed ServerHello gives it back, for every combination of extensions |
| ServerHello.Lengths | zgmtls/handshake_messages.go:556-620 | the computed lengths are those of what is written, apart from the bytes that cutting long protocol names saves |
| ServerHello.ServerHelloMsg.Marshal | zgmtls/handshake_messages.go:556-698 | the in-place printer gives the bytes the round trip is proved for, and panics exactly for a protocol name over 255 bytes |
| ServerHello.ServerHelloMsg.Unmarshal | zgmtls/handshake_messages.go:700-838 | the in-place parser accepts exactly what the definition accepts |
| ServerHello.PrintThenParse | zgmtls/handshake_messages.go:526-838 | after one object prints and another parses, the two are equal, bytes included |
| ServerExtensions.UnknownIgnored | zgmtls/handshake_messages.go:720-838 | extensions the code does not know make no difference to what is parsed |
| ServerExtensions.ApplyIff | zgmtls/handshake_messages.go:745-834 | the body of an extension is accepted exactly when it is the printed form of something, and then means that |
| ServerExtensions.ParseIff | zgmtls/handshake_messages.go:700-838 | a new object accepts exactly the byte strings that are, behind the first four bytes, what the printer writes for the parsed message with the extensions that came in place of its own |
| ServerExtensions.TypeAndLength | zgmtls/handshake_messages.go:556-620 | a printed message begins with type 2 and its own length |
| Certificates.ChainRoundTrip | zgmtls/handshake_messages.go:855-925 | a certificate list comes back exactly unless its last certificate is empty |
| Certificates.ChainIff | zgmtls/handshake_messages.go:890-925 | exactly the printed lists whose last certificate is not empty are accepted, whatever type and length stand in front |
| Certificates.ChainTypeAndLength | zgmtls/handshake_messages.go:855-888 | a printed message begins with type 11 and its own length |
| Certificates.CertificateMsg.Marshal | zgmtls/handshake_messages.go:855-888 | the in-place printer gives these bytes |
| Certificates.CertificateMsg.Unmarshal | zgmtls/handshake_messages.go:890-925 | the two-pass parser accepts exactly what one reading of the list accepts |
| Certificates.RequestRoundTrip | zgmtls/gm_handshake_messages.go:28-121 | a certificate request comes back exactly when it names a certificate type |
| Certificates.RequestIff | zgmtls/gm_handshake_messages.go:67-121 | exactly the printed requests with a certificate type and the right length in front are accepted |
| Certificates.RequestTypeAndLength | zgmtls/gm_handshake_messages.go:28-65 | a printed message begins with type 13 and its own length |
| Certificates.CertificateRequestMsg.Marshal | zgmtls/gm_handshake_messages.go:28-65 | the in-place printer gives these bytes |
| Certificates.CertificateRequestMsg.Unmarshal | zgmtls/gm_handshake_messages.go:67-121 | the in-place parser accepts exactly what the definition accepts |
| RecordPadding.ExtractPadding | zgmtls/conn.go:218-252 | the branch-free check gives 255 exactly when the last p + 1 bytes exist and all equal p, and 0 otherwise |
| RecordPadding.SpreadIs | zgmtls/conn.go:242-247 | folding the bits together gives 255 from 255 and 0 from everything else |
| RecordPadding.ExtractPaddingSSL30 | zgmtls/conn.go:257-268 | only the length counts |
| RecordPadding.PadToBlockSize | zgmtls/conn.go:387-397 | whole blocks of the payload in front, one block of its rest and padding behind |
| RecordPadding.PaddingAccepted | zgmtls/conn.go:387-397 | padded payloads are whole blocks and always pass the check, with their own pad length |
| RecordLayer.CbcRoundTrip | zgmtls/conn.go:283-456 | CBC decryption undoes CBC encryption for any invertible block function |
| RecordLayer.CbcTwoCalls | zgmtls/conn.go:400-456 | encrypting prefix and final block in two calls is encrypting them in one |
| RecordLayer.CbcLength | zgmtls/conn.go:320-335 | the length test of decrypt never rejects a record that encrypt made |
| RecordLayer.OpenSealed | zgmtls/conn.go:283-456 | with the same keys and position, decrypt returns the data encrypt was given, for every kind of cipher |
| RecordLayer.HalfConn.IncSeq | zgmtls/conn.go:201-213 | adds one to the 64-bit number, and refuses exactly when it would wrap |
| RecordLayer.HalfConn.ChangeCipherSpec | zgmtls/conn.go:186-198 | the prepared keys take over with sequence number zero, or nothing changes |
| RecordLayer.HalfConn.Encrypt | zgmtls/conn.go:400-456 | in place, the record becomes what the definition of sealing says, length field included, and the position moves on |
| RecordLayer.HalfConn.Decrypt | zgmtls/conn.go:283-384 | in place, succeeds exactly when the definition of opening does, with the same data, and the position moves on |
| RecordLayer.Conn.MaxPayload | zgmtls/conn.go:803-848 | never empty, never above 16384; during the first 128 KiB of application data the growing limit |
| RecordLayer.FitsSegment | zgmtls/conn.go:815-836 | a record fits one TCP segment exactly when its data is within the first limit, for every kind of cipher |
| RecordLayer.LimitsGrow | zgmtls/conn.go:838-848 | the limits begin with the first one and grow by it from record to record, up to 16384, which they have after a thousand records at the latest |
| RecordLayer.Conn.SendOne | zgmtls/conn.go:910-934 | one record: the position moves on before the write, whether that fails or not; the bytes that got out are a beginning of the record |
| RecordLayer.Conn.WriteRecord | zgmtls/conn.go:877-948 | what goes out is a sequence of whole records with non-empty fragments of at most 16384 bytes that join to the first n bytes of the data, all of them exactly when there was no error; each is as long as its limit or all that is left, with the sequence number as nonce or fresh random bytes as vector in front; after a failed write also the part of the next record that got out, and the position is behind that record |
| RecordLayer.ReceiveWire | zgmtls/conn.go:577-745 | a receiver in the sender's position reads back every fragment and is in the sender's position again |
| RecordLayer.ReadRecords | zgmtls/conn.go:577-745 | the reading loop does what the definition of receiving says, for records of application data |
| RecordLayer.CutOnWire | zgmtls/conn.go:577-745 | of whole records and a cut one the receiver reads the whole ones and keeps the rest waiting, or reads the last as well if nothing of it is missing |
| RecordLayer.WriteThenRead | zgmtls/conn.go:283-948 | both ends together: what is written is read, byte for byte; after a failed write the fragments that went out whole are read and the part of the cut one is left over; the ends are in lockstep again if and only if no record was cut |
| RecordBinding.AeadBinds | zgmtls/conn.go:299-319 | a record sealed by an AEAD that is bound to its additional data opens only under its own sequence number, type and version, and then gives its data |
| RecordBinding.MacBinds | zgmtls/conn.go:354-384 | so does a record with a MAC that is bound to number and header, read at the same place of the key stream or after the same block |
| RecordBinding.AeadOnlySealed | zgmtls/conn.go:299-319 | whatever such an AEAD opens is what this end would have sealed for that data at that place |
| RecordBinding.OnlyTagged | zgmtls/conn.go:354-384 | a record with a MAC is taken exactly if what the cipher leaves is the data, the tag over number, header, length and data, and good padding; for an empty record the padding may reach into the tag |
| RecordBinding.OneCipherStream | zgmtls/conn.go:400-456 | under a key stream, or CBC without explicit vectors, two records in a row are one stretch of ciphertext: the second goes on where the first ended |
| RecordBinding.NoReplay | zgmtls/conn.go:283-384 | when the network brings this sender's records in any order, any number of times and under any header, what the receiver accepts is the data of the first records, in order |
| RecordBinding.NonceOnce | zgmtls/conn.go:893-932 | no nonce is used twice in the records of a write |
| RecordBinding.OnlyLastIsShort | zgmtls/conn.go:906-909 | every record of a write but the last is as long as its limit |
| RecordBinding.HeadIs | zgmtls/conn.go:911-921 | the header names the type and the version, TLS 1.0 as long as none is agreed on |
| RecordBinding.AeadExists | zgmtls/conn.go:299-319 | there are AEADs that meet these conditions |
| RecordBinding.MacExists | zgmtls/conn.go:354-384 | there are MACs that do |
| Handshake.ClientInv | zgmtls/gm_handshake_client_double.go:75-587 | every step of the client keeps the relation between both sides and the messages on the way |
| Handshake.ServerInv | zgmtls/gm_handshake_server_double.go:39-626 | every step of the server keeps it |
| Handshake.SameTranscripts | zgmtls/gm_handshake_client_double.go:178-398 | at every moment of every run: what both have hashed at CertificateVerify, client Finished and server Finished is the same |
| Handshake.BothFinished | zgmtls/gm_handshake_client_double.go:502-587 | both finished means equal transcripts at all three places, equal master secrets and equal verify_data, and CertificateVerify was sent exactly if a certificate was |
| HandshakeWire.HistoryDecides | zgmtls/gm_handshake_client_double.go:75-587 | on a network that may replace anything on the way at any time: a side's transcript is its own history of messages sent and received without change-cipher-spec; its CertificateVerify and the two Finished messages are made or checked over exactly the history before them, the certificates of both sides included; and hellos, chains, master secret and signature in that history have passed the side's tests |
| HandshakeWire.ClientIsSure | zgmtls/gm_handshake_client_double.go:502-526 | on such a network, with a verify_data that binds secret and transcript: if both have finished and the last message the client took is the server's last, both have the same secret and transcript, the server negotiated with the client's own hello, and suite, reply and chains are the same on both sides |
| HandshakeWire.ServerIsSure | zgmtls/gm_handshake_server_double.go:537-575 | the same for a server that has taken the client's own Finished message |
| HandshakeWire.OneHistory | zgmtls/gm_handshake_server_double.go:324-510 | where messages arrive as sent, at every moment the history of one side is a beginning of the other's |
| HandshakeWire.WholeExchange | zgmtls/gm_handshake_client_double.go:178-398 | where both have finished then, both histories are one list, written out message by message, and the three transcripts are its beginnings, with every Certificate message in them |
| Handshake.NegotiateIff | zgmtls/gm_handshake_server_double.go:114-248 | the server accepts a hello if and only if its version is not too low, it offers the null compression, it has no renegotiation data, there are two certificates, there is a known suite on both lists, and it is not an inappropriate fallback |
| Handshake.ChosenSuite | zgmtls/gm_handshake_server_double.go:218-229 | the chosen suite is known and on both lists, and no such suite comes before it in the list that has precedence |
| HandshakeWire.TermsMean | zgmtls/gm_handshake_server_double.go:114-248 | what the server's hello says: the lower version, a known suite, the first of its own protocols that the client lists, its own list only for a client that asks and lists none, a ticket exactly if asked for and not disabled, a status exactly if asked for and at hand |
| Handshake.OnlyVersion | zgmtls/gm_handshake_client_double.go:429-475 | of the client's tests of a ServerHello only the one of the version can fail: those of suite, compression, renegotiation data, NPN and ALPN never fire with a server of this code |
| Handshake.SameSuite | zgmtls/gm_handshake_client_double.go:168-176 | both finished means the same suite, from both lists, and the GM version on both sides |
| Handshake.OnlyRefusals | zgmtls/gm_handshake_server_double.go:114-510 | with hellos, configurations and cryptography as modelled, the server gives up only over a hello it cannot negotiate with or a client chain it does not accept, the client only over the version, a certificate status, a server chain it does not accept or a request it cannot answer; never over a Finished, a signature, a key exchange, the chosen suite or the order of messages |
| Handshake.RestMeansOver | zgmtls/gm_handshake_server_double.go:39-110 | the two sides never wait for each other for ever |
| Handshake.OverMeans | zgmtls/gm_handshake_client_double.go:75-166 | a run that is over has succeeded exactly if hello and server configuration can be negotiated to the GM version, no status is sent, and both accept each other's certificates |
| HandshakeWire.EmptyChain | zgmtls/gm_handshake_server_double.go:424-442 | the server lets a client without a certificate pass exactly if it asks for none, or asks without insisting and its own test of the chain has no objection |
| Handshake.OwnClientIff | zgmtls/gm_handshake_client_double.go:33-71 | for the hello this client makes: exactly if the server's version range holds the GM version, a known suite is configured on both sides, and the certificates are accepted; it never asks for a certificate status or for NPN |
| Handshake.EveryRunEnds | zgmtls/gm_handshake_client_double.go:75-166 | every schedule has at most a computed number of steps that move, and where it has brought both sides to rest they have succeeded exactly if the configurations accept each other |
| Handshake.RunsToTheEnd | zgmtls/gm_handshake_client_double.go:75-166 | there is always a schedule that brings both to rest |
| SwapQueue.SmartDoubleQueue.constructor | zqueue/swap.go:34-50 | empty, with a capacity of at least 64 |
| SwapQueue.SmartDoubleQueue.Enqueue | zqueue/swap.go:54-83 | all or nothing, exactly within the limit; the batch that is out is not touched |
| SwapQueue.SmartDoubleQueue.Pop | zqueue/swap.go:96-125 | everything written since the last batch, in order and in the array it was written to; only a Pop that finds something recycles the batch before |
| SwapQueue.SmartDoubleQueue.ReleaseBatch | zqueue/swap.go:132-141 | the quota of all batches comes back, and the count is that of the unread items |
| SwapQueue.SmartDoubleQueue.Close | zqueue/swap.go:152-168 | closed, and the reader is woken once |
| SwapQueue.RunBalanced | zqueue/swap.go:54-140 | over every list of operations: the batches concatenate to a prefix of the accepted items, the rest is still there in order, and with a limit the items there and in unreleased batches stay within it |
| SwapQueue.Use | zqueue/swap.go:54-168 | the queue itself does on every list of operations what that run says, batch by batch; while no Pop finds anything the last batch is unchanged in its array |
| SwapQueue.OutCounts | zqueue/swap.go:96-141 | between two releases the quota in use grows by exactly the items handed out |
| SwapQueue.WholeRun | zqueue/swap.go:34-168 | from a new queue: the batches popped and what is left are together exactly what was accepted, and what is left and the unreleased batches are together within the limit |
| SwapQueue.KeepBatch | zqueue/swap.go:88-125 | after a Pop, any list of enqueues, releases, closes and Pops that find nothing leaves the batch's array as it was handed out |
| SwapQueue.BatchIsReused | zqueue/swap.go:96-125 | after one more Pop that finds something the first batch's array is written to |
| Affine.Bezout | zencrypt/linear.go:48-55 | the extended Euclidean algorithm returns factors with a * x + b * y = g |
| Affine.FactorsSmall | zencrypt/linear.go:48-55 | the factors stay within the arguments at every level of the recursion |
| Affine.FactorsHalf | zencrypt/linear.go:48-55 | the inverse is at most half the modulus |
| Affine.ParseIdExact | zencrypt/linear.go:48-55 | no int64 overflow in parseId, for any non-negative arguments |
| Affine.ExtGcdIsGcd | zencrypt/linear.go:48-55 | the first result is the greatest common divisor |
| Affine.Gcd | zencrypt/linear.go:74-79 | so is that of the loop |
| Affine.DecryptIs | zencrypt/linear.go:39-46 | for every modulus: only the product in Decrypt can overflow |
| Affine.DecryptExact | zencrypt/linear.go:39-46 | for moduli up to 2^32 not even that |
| Affine.RoundTrip | zencrypt/linear.go:26-55 | Decrypt undoes Encrypt for coprime parameters if the modulus is a power of two or the product fits at both ends |
| Affine.RoundTripIff | zencrypt/linear.go:26-55 | for every modulus of an int64: Decrypt undoes Encrypt for all ids, if and only if the parameters are coprime and the modulus is a power of two or the product fits at both ends |
| Affine.CoprimeIff | zencrypt/linear.go:26-55 | for moduli up to 2^32: if and only if the parameters are coprime |
| Affine.LargeModulusFails | zencrypt/linear.go:39-46 | an id that does not survive modulus 2^33 + 1, with coprime parameters |
| Admission.DoInv | znet/server.go:292-395 | every step of HandleAccept, AddChannel and RemoveChannel keeps the accounting |
| Admission.NeverTooMany | znet/server.go:292-323 | never more registered channels than the limit, and the counter exceeds it by no more than the goroutines about to undo |
| Admission.CountIsExact | znet/server.go:377-395 | with nobody in the middle of adding or removing the counter is the number of registered channels |
| Admission.RejectedIff | znet/server.go:336-353 | a channel is turned away exactly when registered channels and goroutines in the middle are together at the limit |
| Admission.RejectionCanBeSpurious | znet/server.go:292-313 | a reachable state with nothing registered from which the next two steps of a goroutine turn its channel away |
| ShardMap.ShardInRange | zcoll/shardmap.go:150-156 | the mixed and masked hash is a shard number |
| ShardMap.Map.constructor | zcoll/shardmap.go:64-76 | an empty map with a power of two of shards |
| ShardMap.Map.Store | zcoll/shardmap.go:202-210 | one map: the key now shows the value at all times, other keys are as before |
| ShardMap.Map.SetExpire | zcoll/shardmap.go:212-220 | the same up to the time of expiry, nothing after it |
| ShardMap.Map.Delete | zcoll/shardmap.go:233-238 | the key shows nothing, other keys are as before |
| ShardMap.Map.DelExpire | zcoll/shardmap.go:194-200 | removes an entry only if it has expired, whatever happened since the first look; nothing that is shown changes |
| ShardMap.Map.Load | zcoll/shardmap.go:158-174 | returns what is shown at the time of the look, and its lazy deletion changes nothing that is shown later |
| ShardMap.Map.LoadAndDelete | zcoll/shardmap.go:176-192 | returns what is shown and removes it |
| ShardMap.Map.Expire | zcoll/shardmap.go:222-231 | acts as on one map, except exactly when an expired entry is still stored and the new time has not passed |
| ShardMap.Sweep | zcoll/shardmap.go:288-300 | in any order of the entries: only expired ones go; there is one look per entry, at least as many looks as removals, and exactly as many as entries unless a limit was reached; every entry left was then looked at by this call and had not expired, and with a clock that does not go back none had expired when the call began |
| ShardMap.Map.ClearShard | zcoll/shardmap.go:280-301 | the same for one shard of the map; the other shards and everything shown from then on are as before |
| ShardMap.Map.ClearTimer | zcoll/shardmap.go:280-301 | at most 100 removals and 1000 looks, one for each entry unless a limit was reached; what was removed had expired and nothing that is shown from then on changes; with fewer than 100 entries and a clock that does not go back nothing is left that had expired when it began |
| ShardMap.Use | zcoll/shardmap.go:158-301 | every run of calls whose clock does not go back, with Expire on shown keys only, gives the answers that one map of unexpired entries gives, and shows from then on what that map shows |
| ShardMap.ExpiredComesBack | zcoll/shardmap.go:222-231 | a run in which Expire revives an expired entry |

## Left out

- Positions of the lock-free rings are unbounded; wrap-around after 2^64 items is not modelled (in `RingBuffer`, where counters start anywhere, it is).
- The concurrent components are step machines on values, not classes: their methods interleave in the middle, which a method contract cannot say. Memory is sequentially consistent, as Go's atomics are; plain slot accesses are single steps.
- Back-off, spinning time, cache-line padding, unsafe pointers, the inside of sync.Pool (a set of free nodes here) and statistics counters.
- TryEnqueueBatch of the bounded ring, which is TryEnqueue in a loop; Len, Cap and other observers of the queues.
- The unbounded SPSC queue, the priority queue, batches, byte pools, sets, the LRU session cache and PKCS#7 padding: easier relatives of what is here.
- SharedSend.NoLostWakeup: for open channels and running workers; the panic recovery of a worker, cancellation and the drain at close are not part of it. Overflow hooks and queue-length limits are left out.
- ChannelClose.CloseCompletes: for the read goroutine of Start; the close path of channels with the shared-send hook and that of reactor channels, and timeouts of their acknowledgements, are left out. 
- RingBuffer.RingBuffer.constructor: negative sizes, which become huge unsigned ones, are left out, and so are negative arguments of Peek and Discard; sizes are at most 2^62 so that no int overflows.
- ReadByte, ReadUint32BE and ReadFull of the ring, which are Peek or Read with a check, and that the slices Peek returns share the array.
- ParseFromBufio and ReadOneFromBufio, which do the parsing of ParseFromRingBuffer over another reader.
- Ingest.Channel.Ingest: a handler that closes the channel in the middle of a dispatch, and the recovery of its panic, are left out; the handler is the list of messages it has seen.
- RingQueue.Queue.Enqueue: policy values other than the two named ones (single Enqueue would then overwrite) are left out.
- RingQueue.Queue.DequeueBatch: that the slots set free are cleared for the garbage collector is not modelled.
- ShardMap.Map.constructor: more than 2^32 shards, where this file's copy of the rounding lacks its last shift; Range and Count.
- The server's certificate-status, key-exchange, finished, next-protocol, certificate-verify and session-ticket messages and the TLS certificate request: vectors as in Wire, without the difficulty of the hello messages. The `equal` methods compare field by field.
- ClientHello.RoundTrip: for 32 bytes of random, lengths that fit their length fields (renegotiation data up to 254 bytes, as the printer writes it), ticket and renegotiation bytes only with their flags, and the renegotiation flag set when suite 0x00ff is offered; what else the printer does with other values is in Marshal's contract only.
- ServerHello.RoundTrip: likewise, with protocol names and certificate timestamps that are not empty.
- RecordLayer.Conn.WriteRecord: the switch of keys after a ChangeCipherSpec record is HalfConn.ChangeCipherSpec alone; buffering of writes, the error that Conn.Write remembers after a failed one, and the overflow of the sequence number in the middle of a Write (a panic, see HalfConn.IncSeq), are left out.
- RecordLayer.HalfConn.Encrypt, RecordLayer.HalfConn.Decrypt: for sequence numbers below the last one; beyond it both panic in IncSeq.
- RecordLayer.ReadRecords: the payload of application data only; alerts, version checks, renegotiation and reassembly of handshake messages from records are left out.
- Ciphers, MACs, hashes, signatures, key exchange, certificates and ASN.1 are arbitrary functions with the inverse laws their users need; what `RecordBinding` and `HandshakeWire` say of a hostile network is for functions that bind their arguments, which real ones do only up to negligible probability.
- Handshake.EveryRunEnds: messages arrive unchanged and in order (HandshakeWire does without); session resumption, renegotiation on a connection in use, the single-certificate build, alerts and connection errors are left out, and so are a configuration chosen per client (GetConfigForClient) and the fields of a hello that decide nothing here (server name, curves, points, signature algorithms, certificate timestamps).
- Handshake.OnlyRefusals: errors of a side with itself are left out: no random bytes, no server name configured, no usable signing key, no key log. The tests of certificates and of ServerKeyExchange parameters are arbitrary functions; a sound key exchange accepts its own messages.
- Affine.ParseIdExact: negative parameters, which NewLinear accepts, are left out.
- Affine.RoundTripIff: findCoprime, which draws random numbers until two are coprime, is left out.
- Admission.NeverTooMany: metrics and the map of authenticated channels are left out.
- Sockets, timers, logging and configuration.
