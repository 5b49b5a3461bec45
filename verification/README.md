# A verified model of gossipper's call, media and event machinery

gossipper generates SIP and RTP load. This project models the parts of it that
keep state under pressure and proves what they promise, for every run:

- **Receiving SIP** (`SipStartLine`, `SipReceive`, `SipOwnership`, `SipFinals`,
  `SipTrace`, `SipSettled`, `SipCall`, `SipAnswers`, `SipVerdicts`, `SipMachine`):
  the queue of pending messages, the matcher with its retransmission timer, the
  callback that decides what happens to an unwanted message, the answered BYE and
  the replayed ACK, and who owns each pooled message.
- **Scale RTP scheduler** (`MinHeap`, `ScaleSlots`, `ScaleEngine`, `ScaleSend`,
  `ScaleScheduler`):
  a heap of stream objects with stored positions, two indexes, the catch-up tick,
  and packets patched in place and copied to pooled buffers.
- **Pacing calls** (`Rate`): the rate controller with its burst limit.
- **Shared state of many goroutines**, as steps under a lock in any order:
  sharded dispatch to mailboxes (`SipHeaders`, `CallIdShard`, `Dispatch`,
  `Mailboxes`), the coordinator of several server listeners
  (`Coordinator`), clients added at run time (`LoadCoordinator`), commands
  between calls (`CommandBroker`).
- **Buffers and codecs**: the event ring and logger (`EventRing`), the reorder
  buffer of recordings (`Reorder`, `ReorderFlush`), receiver statistics (`ReceiverReport`), HEP3
  packets (`Hep3`, `Hep3Wire`), Digest authentication (`DigestAuth`, `DigestResponse`).

Objects that the program changes in place are classes here. Their methods are
proved equal to functions on values, and the theorems over whole runs are about
those functions. The network, the clock and random values are inputs. `Common`,
`Arith`, `Wire` and `Text` hold shared definitions.

Where a promise does not hold as it is usually read, the model keeps what the
code does, gives a failing input, and proves exactly when the promise holds:

- A retransmission can follow a final response. It cannot if and only if every
  recv is plain: there is no `_unexp.main` label, or the recv's regexp takes the
  status line of every final response; and a regexp that takes such a line
  belongs to a recv that names a response. A regexp for requests is plain, and so
  is one that takes every status line, in a recv that names a response
  (`SipCall.FinalStopsRetransmission`, `SipSettled.RequestPatternIsPlain`,
  `SipSettled.StatusPatternIsPlain`).
- W/period + 10 calls in a window of length W needs timers at most nine periods
  late; otherwise eleven calls can come within one period (`Rate.RateBound`,
  `Rate.LateTimerBurst`). The schedule is free of drift if and only if no pass
  begins more than ten periods late (`Rate.NoDrift`,
  `Rate.SteadyRunsDoNotDrift`). The period is cut to whole nanoseconds, so at r
  calls a second a second counts as up to r nanoseconds less
  (`Rate.CallsPerSecond`, `Rate.SteadyRate`).
- The comment on dispatch promises order per call. Two packets for one mailbox
  can stand in it in the wrong order if and only if their shards differ and at
  most 4096 packets of the earlier one's shard arrive between them: a worker
  holds one packet, its queue takes 4096, and the splitter waits when it is full.
  Every Call-ID has two spellings of different shards: with and without a prefix
  that ends in `///`, or with and without a tab before it
  (`Mailboxes.PacketsSwapIff`, `Mailboxes.SpellingsSwap`,
  `Mailboxes.SpacesSwap`).
- Removing a dynamic client by its id may miss the running one: it stops that
  client if and only if the list shows the id once
  (`LoadCoordinator.RemoveStopsTheEngine`, `LoadCoordinator.RemoveMayMiss`).
- A search for a command over all calls cuts too much off a key if and only if a
  wanted command waits under names shorter than the channel; for the empty
  channel, the only one the program uses, it never does
  (`CommandBroker.SearchStops`, `CommandBroker.ShortNameCrashes`,
  `CommandBroker.EmptyChannelNeverCrashes`).
- A Digest header verifies if user name, realm, nonce and URI have no backslash
  and, unless the hash collides on the texts of that very exchange, only then
  (`DigestAuth.BuildThenVerify`, `DigestAuth.ExchangeVerifies`).
- A full reorder buffer is recorded in stream order if and only if the waiting
  numbers do not straddle the wrap from 65535 to 0 (`ReorderFlush.FlushOrder`,
  `ReorderFlush.GapFlushed`).
- A HEP3 time survives if and only if its seconds fit 32 bits. The destination
  survives, in its own form or mapped into IPv6, if and only if it is not an IPv6
  one next to an IPv4 source (`Hep3.RoundTrip`, `Hep3.DestinationSurvives`).
- The fraction lost fits its byte if and only if less was lost than expected,
  which a stream of 2^32 packets can break (`ReceiverReport.FractionInRange`,
  `ReceiverReport.LongStreamLeavesRange`).
- Only the call of a logger's `Close` that wins the flag waits for the events to
  be written. Another returns at once. What was accepted and not overwritten has
  then been given to every sink if and only if the ring is empty and so are the
  consumer's hands: a batch can have left the ring and not yet reached a sink
  (`EventRing.Logger.FinishClose`, `EventRing.Logger.GivenIff`,
  `EventRing.SecondCloseReturnsEarly`).
- A stream whose packet is larger than a pool buffer stops the tick
  (`ScaleSend.SendQueue.HandOut`).

`dafny verify dfyconfig.toml` checks the whole project.

## Model

| member | source | states |
|---|---|---|
| `SipCall.EveryMessageReleasedOnce` | internal/engine/engine.go:2144-2486 | in every run of a call each message taken from the mailbox is in exactly one of queue, deferred list and pool, and when the call ends, wherever it ends, everything taken has been released exactly once |
| `SipCall.RunOwns` | internal/engine/engine.go:2325-2486 | ownership stays linear over any list of sends and recvs, and no BYE ever waits in the queue |
| `SipAnswers.EveryAnswerIsGiven` | internal/engine/engine.go:2252-2467 | in every run the answers sent are exactly those owed, in order: a 200 for each unwanted BYE, and the stored ACK for each unwanted 200 with the INVITE's branch that belongs to another transaction; transaction, INVITE branch and ACK are the last ones that the trace shows sent (sections 13.2.2.4 and 15.1.2 of RFC 3261) |
| `SipAnswers.EveryByeIsAnswered` | internal/engine/engine.go:2370-2386 | in every run each BYE taken from the mailbox was matched by a recv or answered, and that once; nothing but a BYE was answered so |
| `SipAnswers.NothingDroppedUnseen` | internal/engine/engine.go:2325-2467 | every message taken was matched, or a recv looked at it and did not want it |
| `SipAnswers.FateAnswers` | internal/engine/engine.go:2369-2441 | the callback sends what is owed for a message, whatever the recv waits for and wherever the message comes from |
| `SipVerdicts.EveryVerdictIsRight` | internal/engine/engine.go:2325-2467 | in every run a recv takes exactly what it waits for (its regexp, its method, or its status code within the last CSeq sent), and the queue is the messages put off in the order they came, without those taken or dropped since |
| `SipVerdicts.OnlyThese` | internal/engine/engine.go:2369-2467 | no provisional response and no BYE ever waits in the queue |
| `SipVerdicts.FateKeeps` | internal/engine/engine.go:2369-2467 | a new unwanted message waits unless it is a BYE, of another transaction, provisional, sent to the label, or a final one that ends the call |
| `SipVerdicts.CallGoesOn` | internal/engine/engine.go:2259-2493 | a call goes on after a send that worked, a match, a failed optional recv and a message sent to the label, and ends after anything else |
| `SipOwnership.LoopOwns` | internal/engine/engine.go:2791-2870 | one recv, of any number of passes, ends with every message in one place, a matched one in the caller's hands |
| `SipOwnership.PassOwns` | internal/engine/engine.go:2791-2870 | the same for one pass of the matcher's loop |
| `SipOwnership.JudgeOwns` | internal/engine/engine.go:2811-2851 | matcher and callback together hand a message on exactly once, on the error paths too |
| `SipOwnership.FateOwns` | internal/engine/engine.go:2369-2467 | the callback never both queues and releases; without an error a message fresh from the network changes hands, and one it refuses with an error stays with the matcher |
| `SipOwnership.TakeOwns` | internal/engine/engine.go:2325-2363 | taking a message moves it from the queue or the network into the matcher's hands and nothing else |
| `SipReceive.FirstMatch` | internal/engine/engine.go:2334-2344 | the first pending message that the recv wants, all before it unwanted |
| `SipFinals.OptionalDecided` | internal/engine/engine.go:2327-2354 | with a final response in the queue an optional recv ends in its first pass without the network: it takes the first wanted message, or leaves the queue as it is |
| `SipFinals.MandatoryDecided` | internal/engine/engine.go:2355-2417 | with a final response of the transaction in the queue a mandatory recv consumes the queue in order, without the network and without a retransmission, up to the first wanted message or to that response, on which it aborts |
| `SipFinals.MandatoryPass` | internal/engine/engine.go:2355-2417 | one pass of such a recv looks at the head of the queue only: match, abort or drop |
| `SipCall.FinalIsNeverIgnored` | internal/engine/engine.go:2325-2466 | once a final response of the transaction waits, any run of recvs without a send and without `_unexp.main` leaves it waiting, reads nothing and retransmits nothing, until a recv takes such a response or a mandatory recv aborts on it |
| `SipCall.OptionalKeepsFinal` | internal/engine/engine.go:2327-2354 | an optional recv that does not take a final response leaves one waiting |
| `SipCall.MandatoryKeepsFinal` | internal/engine/engine.go:2355-2417 | a mandatory recv that neither takes a final response nor aborts leaves one waiting |
| `SipTrace.RetransmissionBound` | internal/engine/engine.go:2782-2858 | k retransmissions within one recv imply k * interval < timeout |
| `SipTrace.LoopResends` | internal/engine/engine.go:2791-2858 | k retransmissions from any point of a recv take k whole intervals, all before the deadline |
| `SipTrace.PassResends` | internal/engine/engine.go:2854-2859 | a pass retransmits at most once, only after its interval ran out, before the deadline and with a live context |
| `SipCall.EveryRunKeepsItsPromises` | internal/engine/engine.go:2252-2493 | in every run a retransmission repeats the last sent bytes, is over UDP, comes after no final response seen in its recv and after no matched response recv since the last send; an ACK replay repeats the last stored ACK; replies answer BYEs; a mandatory recv reads the network exactly when its queue is empty and its queue shrinks on every other pass; an optional recv looks at one message at most and does not read the network with a final response in the queue |
| `SipTrace.LoopWatched` | internal/engine/engine.go:2791-2870 | the same promises over one recv, from any state that agrees with the trace so far |
| `SipTrace.MandatoryProgress` | internal/engine/engine.go:2355-2358 | a mandatory recv makes at most as many passes as messages queued plus two per network read |
| `SipTrace.FateSends` | internal/engine/engine.go:2380-2434 | the callback sends at most one message: a reply to a BYE or the stored ACK |
| `SipCall.FinalStopsRetransmission` | internal/engine/engine.go:2325-2493 | over whole calls made of given kinds of recv and of messages the parser gives, nothing is retransmitted between a final response and the next send, if and only if all kinds are plain (section 17.1.1.2 of RFC 3261) |
| `SipCall.RetransmitsAfterFinal` | internal/engine/engine.go:2449-2475 | a recv that lets a final response with a given status line through sends the INVITE again after it, for every retransmission interval |
| `SipSettled.RequestPatternIsPlain` | internal/engine/engine.go:2335-2344 | without the label, a regexp that takes no status line keeps the promise |
| `SipSettled.StatusPatternIsPlain` | internal/engine/engine.go:2335-2344 | with the label too, a regexp that takes every status line keeps the promise in a recv that names a response |
| `SipStartLine.StatusLineParses` | internal/sip/message.go:134-151 | a status line with a code of three digits from 200 on parses to a final response with that code |
| `SipStartLine.RequestLineParses` | internal/sip/message.go:152-164 | three words with a space between each are a request with the first as its method |
| `SipStartLine.StatusLineReads` | internal/sip/message.go:134-151 | the version, a number and a reason are a response with that number; without a number the line is refused |
| `SipStartLine.AtoiReads` | internal/sip/message.go:134-151 | a number is digits with at most one sign, within 64 bits |
| `SipSettled.LoopSettles` | internal/engine/engine.go:2325-2493 | a plain recv keeps it so that, after a final response, nothing is left to retransmit or that response still waits |
| `SipSettled.FinalFate` | internal/engine/engine.go:2387-2466 | an unmatched final response is queued by an optional recv and aborts a mandatory one |
| `SipMachine.Call.ReceiveWithPending` | internal/engine/engine.go:2325-2363 | takes from the queue or the network exactly as the value model |
| `SipMachine.Call.Stash` | internal/engine/engine.go:2369-2467 | the callback's result, queue, releases and sends are those of the value model |
| `SipMachine.Call.OnePass` | internal/engine/engine.go:2791-2870 | one pass of the loop has the effect of the value model |
| `SipMachine.Call.WaitForMatch` | internal/engine/engine.go:2769-2871 | the matcher's loop has the outcome, ownership and events of the value model |
| `SipMachine.Call.ExecuteSend` | internal/engine/engine.go:2252-2288 | a send caches branch, CSeq, INVITE branch and ACK as the value model |
| `SipMachine.Call.ExecuteRecv` | internal/engine/engine.go:2305-2493 | a recv command has the effect of the value model, with the timer cleared by a matched response |
| `SipMachine.Call.Finish` | internal/engine/engine.go:2144-2149 | the deferred releases empty the queue and the deferred list into the pool |
| `MinHeap.PushRestores` | internal/media/scale_engine.go:399-403 | pushing onto a heap gives a heap |
| `MinHeap.RemoveRestores` | internal/media/scale_engine.go:405-413 | taking any slot out of a heap gives a heap with exactly the other elements |
| `MinHeap.SettleRestores` | internal/media/scale_engine.go:234-247 | a changed key is put right by sifting down and, if it did not move, up |
| `MinHeap.UpRestores` | internal/media/scale_engine.go:391-397 | sifting up restores the order when only that slot is too small |
| `MinHeap.DownRestores` | internal/media/scale_engine.go:391-397 | sifting down restores the order when only that slot is too large |
| `MinHeap.RootIsLeast` | internal/media/scale_engine.go:279-283 | the root is due first |
| `ScaleEngine.Engine.SwapSlots` | internal/media/scale_engine.go:393-397 | a swap keeps every stream's stored position true |
| `ScaleEngine.Engine.HeapPush` | internal/media/scale_engine.go:399-403 | the library push on the stream heap is the value-level push, with true positions |
| `ScaleEngine.Engine.HeapRemove` | internal/media/scale_engine.go:405-413 | the library remove on the stream heap is the value-level remove, and the stream's position becomes -1 |
| `ScaleEngine.Engine.HeapFix` | internal/media/scale_engine.go:234-247 | the library fix on the stream heap is the value-level one |
| `ScaleEngine.Engine.RegisterStream` | internal/media/scale_engine.go:128-196 | a new stream joins heap, index and call list, due at once; refused when not running or too short a packet; all representation invariants kept |
| `ScaleEngine.Engine.UnregisterCall` | internal/media/scale_engine.go:199-220 | exactly the streams of the call leave heap, index and call list |
| `ScaleEngine.Engine.PauseCall` | internal/media/scale_engine.go:223-231 | exactly the streams of the call become paused |
| `ScaleEngine.Engine.ResumeCall` | internal/media/scale_engine.go:234-247 | exactly the streams of the call run again, due now, and the heap order is restored |
| `ScaleEngine.Engine.CollectDue` | internal/media/scale_engine.go:277-292 | the locked half of a tick ends, and for every stream: its due time is past now and a whole number of intervals on, it fired at exactly its due slots if not paused and never if paused; all firings in order of due time |
| `ScaleEngine.Engine.Fire` | internal/media/scale_engine.go:279-291 | one pass fires the earliest stream and lowers the total of remaining slots |
| `ScaleEngine.TickStep` | internal/media/scale_engine.go:279-291 | a step keeps the account of every stream and uses up one slot |
| `ScaleEngine.TickEnd` | internal/media/scale_engine.go:277-292 | when nothing is due any more, every due slot was used once |
| `ScaleEngine.SumLeftStep` | internal/media/scale_engine.go:279-291 | the sum of remaining due slots over all streams falls by exactly one |
| `ScaleSlots.SlotsAreExact` | internal/media/scale_engine.go:279-291 | the slots of a tick are exactly the instants of the stream's schedule up to now |
| `ScaleEngine.ListedAdd` | internal/media/scale_engine.go:192-194 | a registered stream is listed once, under its own call |
| `ScaleEngine.ListedRemove` | internal/media/scale_engine.go:201-213 | dropping a call's list drops exactly its streams |
| `ScaleSend.PacketCarries` | internal/media/scale_engine.go:297-309 | the k-th packet carries start + k modulo 2^16 and start + k * samples modulo 2^32, and is the template in every other byte (section 5.1 of RFC 3550) |
| `ScaleSend.PatchedFields` | internal/media/scale_engine.go:381-387 | a patch sets the two fields and no other byte |
| `ScaleSend.PatchedTwice` | internal/media/scale_engine.go:381-387 | a patch leaves nothing of an earlier patch |
| `ScaleSend.PatchPacket` | internal/media/scale_engine.go:381-387 | the in-place patch is the patch on values; packets under 8 bytes stay as they are |
| `ScaleSend.SendQueue.HandOut` | internal/media/scale_engine.go:297-309 | the next numbered packet of the stream is queued in a buffer of its own and no queued packet changes, unless the packet is larger than a pool buffer |
| `ScaleSend.SendQueue.HandOutAll` | internal/media/scale_engine.go:297-309 | the packets queued for the collected streams are their next packets, in order, without a gap |
| `ScaleSend.SendQueue.Alloc` | internal/media/scale_engine.go:350-355 | the pool gives a buffer that no stream and no queued packet uses |
| `ScaleSend.SendQueue.Release` | internal/media/scale_engine.go:357-365 | returning a sent packet's buffer keeps all queued packets intact |
| `ScaleSend.Tick` | internal/media/scale_engine.go:277-309 | a whole tick queues exactly one packet per due slot of each running stream, in order of due time, numbered without a gap |
| `ScaleScheduler.Scheduler.RegisterStream` | internal/media/scale_engine.go:128-196 | a registered stream joins schedule and numbering, with nothing sent |
| `ScaleScheduler.Scheduler.Tick` | internal/media/scale_engine.go:277-309 | a tick adds its packets to everything handed out so far, each stream's numbered on without a gap |
| `ScaleScheduler.Scheduler.UnregisterCall` | internal/media/scale_engine.go:199-220 | queued packets and numbering survive the end of a call's streams |
| `ScaleScheduler.Scheduler.PauseCall` | internal/media/scale_engine.go:223-231 | queued packets and numbering survive a pause |
| `ScaleScheduler.Scheduler.ResumeCall` | internal/media/scale_engine.go:234-247 | queued packets and numbering survive a resume |
| `ScaleScheduler.Scheduler.Release` | internal/media/scale_engine.go:357-365 | a returned buffer leaves the numbering as it is |
| `ScaleScheduler.Scheduler.NumberedOn` | internal/media/scale_engine.go:297-309 | after any operations the packets handed out for a stream are its packets 0, 1, 2 and so on, and what waits in the queue under such a number is that packet |
| `ScaleScheduler.SequenceGrows` | internal/media/scale_engine.go:297-309 | a numbered list of packets continues the numbering of every stream |
| `Rate.RateBound` | internal/scheduler/rate.go:32-93 | n returns span at least n - 11 periods, and n - 10 when the first is at most nine periods after its target |
| `Rate.LateTimerBurst` | internal/scheduler/rate.go:56-93 | after any return more than nine periods late a run reaches eleven returns within one period |
| `Rate.NoDrift` | internal/scheduler/rate.go:54-68 | all targets are exactly a period apart from the start if and only if no pass begins more than ten periods after the target before it |
| `Rate.SteadyRunsDoNotDrift` | internal/scheduler/rate.go:32-93 | in a run without restarts the targets of the returns are exactly the instants of the schedule if and only if no pass began more than ten periods after the instant before it |
| `Rate.CallsPerSecond` | internal/scheduler/rate.go:32-93 | at r calls a second, n returns within w nanoseconds satisfy (n - 11) * (10^9 - r) <= w * r, and with 10 for 11 when the first is at most nine periods late |
| `Rate.SteadyRate` | internal/scheduler/rate.go:32-93 | in a run without restarts and late passes the k-th call is due at most (k + 1) / r seconds after the start and less than k + 1 nanoseconds before that |
| `Rate.TargetsApart` | internal/scheduler/rate.go:54-68 | targets of returns i and j are at least j - i periods apart |
| `Rate.RunKeeps` | internal/scheduler/rate.go:32-93 | in every run targets are at least a period apart, no return is before its target, and a target is at most nine periods behind the return before it |
| `Rate.RateToPeriod` | internal/scheduler/rate.go:159-165 | the period is the largest whole number of nanoseconds p with p * rate at most a second, one nanosecond for faster rates, and a second for rates that are not positive |
| `Rate.SanitizeRate` | internal/scheduler/rate.go:152-157 | a positive rate is kept, any other becomes one call a second |
| `Rate.RateController.constructor` | internal/scheduler/rate.go:24-30 | a controller starts unpaused with the first target at its creation |
| `Rate.RateController.Pass` | internal/scheduler/rate.go:32-69 | a pass of Wait stops, holds, or moves the target as the value model |
| `Rate.RateController.SetRate` | internal/scheduler/rate.go:101-108 | a new rate starts a new schedule now |
| `Rate.RateController.AdjustRate` | internal/scheduler/rate.go:110-117 | a changed rate starts a new schedule now |
| `Rate.RateController.Resume` | internal/scheduler/rate.go:126-132 | resuming starts a new schedule now, so a pause earns no burst |
| `Dispatch.SameShardInOrder` | internal/engine/engine.go:3055-3074 | for every interleaving of splitter and workers, packets of one shard are handled in the order they arrived |
| `Dispatch.EachInOnePlace` | internal/engine/engine.go:3055-3074 | at any moment a packet is unsplit, with the worker of its shard (in the queue or in its hands), or handled, and that once |
| `Dispatch.RunInOrder` | internal/engine/engine.go:3055-3074 | handled packets followed by those at the worker are the arrivals of each shard, in every run of splitter and workers with bounded queues |
| `Dispatch.HeldBack` | internal/engine/engine.go:3061-3069 | while a worker holds a packet, its queue is exactly the later packets of its shard that were split, so the splitter gets at most a full queue past it |
| `Dispatch.Overtaken` | internal/engine/engine.go:3055-3074 | a packet still in a worker's hands was overtaken only by packets of other shards with at most 4096 packets of its own shard between |
| `Dispatch.BothHeld` | internal/engine/engine.go:3055-3074 | for any such two packets a run leaves both in the hands of their workers, which may finish in either order |
| `Mailboxes.SwapsIffMayOvertake` | internal/engine/engine.go:3055-3153 | over all interleavings of splitter, workers and calls, two packets for one mailbox can stand in it in the wrong order if and only if their shards differ and at most 4096 packets of the earlier one's shard arrive between them |
| `Mailboxes.PacketsSwapIff` | internal/engine/engine.go:3055-3153 | the same for packets, by the shards of their bytes and the mailbox of their Call-ID |
| `Mailboxes.OvertakerSwaps` | internal/engine/engine.go:3055-3153 | for any two such packets, a run that leaves the mailbox with the later one first |
| `Mailboxes.SameLineKeepsOrder` | internal/engine/engine.go:3055-3153 | packets whose first header of that name is a Call-ID line with the same text never swap, in any mailbox of any run |
| `Mailboxes.SpellingsSwap` | internal/sip/message.go:224-233 | every clean Call-ID, written plainly and with a prefix, gives two packets of one mailbox that a run with two workers swaps |
| `Mailboxes.SpacesSwap` | internal/engine/engine.go:3078-3153 | any Call-ID, written with and without a tab before it, gives two packets with the same parsed Call-ID that a run with two workers swaps |
| `Mailboxes.MailboxHoldsItsCall` | internal/engine/engine.go:3027-3153 | in every run the mailbox of a plain Call-ID holds only packets whose Call-ID is that text, or that text after a prefix that ends in the last `///` |
| `Mailboxes.RunKeeps` | internal/engine/engine.go:3027-3153 | in every run handled packets were delivered or dropped, no mailbox is over its capacity, and packets enter and wait in order but where one may overtake the other |
| `Mailboxes.Registry.SplitNext` | internal/engine/engine.go:3065-3069 | the splitter's step: the next packet joins the queue of its shard, or waits while that is full, with all invariants kept |
| `Mailboxes.Registry.TakeNext` | internal/engine/engine.go:3117-3118 | a worker takes the oldest packet of its queue, with all invariants kept |
| `Mailboxes.Registry.HandleTaken` | internal/engine/engine.go:3117-3153 | the packet in a worker's hands enters the mailbox that its Call-ID spells if there is one with fewer than 512 packets, and is dropped otherwise, with all invariants kept |
| `Mailboxes.Registry.RegisterCall` | internal/engine/engine.go:3027-3031 | a call gets an empty mailbox under its normalized name, which for a plain Call-ID is itself; no other mailbox changes |
| `Mailboxes.Registry.UnregisterCall` | internal/engine/engine.go:3033-3049 | a call's mailbox goes, and no other |
| `CallIdShard.ShardOf` | internal/engine/engine.go:3078-3115 | the shard is below the number of workers |
| `CallIdShard.LineShard` | internal/engine/engine.go:3078-3115 | with a Call-ID line as the first such header, the shard is the hash of the rest of that line |
| `CallIdShard.SameLineSameShard` | internal/engine/engine.go:3078-3115 | two messages whose first such headers are Call-ID lines with the same text have one shard, for any number of workers |
| `CallIdShard.HeaderLineShard` | internal/engine/engine.go:3078-3115 | the first line with the name in any case, or in its compact form, decides the shard by the rest of it |
| `CallIdShard.NoNameFirstShard` | internal/engine/engine.go:3078-3115 | without such a line the shard is the first one |
| `CallIdShard.XorBits` | internal/engine/engine.go:3104-3115 | the exclusive or works bit by bit |
| `CallIdShard.FnvVectors` | internal/engine/engine.go:3104-3115 | the hash of no text and of the letter a are the published FNV-1a values |
| `CallIdShard.CallIDLine` | internal/engine/engine.go:3078-3103 | the scan for a header name stops at the first Call-ID line |
| `CallIdShard.CallIDShard` | internal/engine/engine.go:3078-3115 | the scanning and hashing loops compute the shard |
| `CallIdShard.FnvParity` | internal/engine/engine.go:3104-3115 | the lowest bit of the hash is the parity of the text |
| `CallIdShard.SpellingsSplit` | internal/sip/message.go:224-233 | plain and prefixed, every clean Call-ID names one mailbox and hashes to two shards of two |
| `CallIdShard.SpacesSplit` | internal/engine/engine.go:3078-3115 | a tab before a Call-ID leaves its parsed value and changes its shard of two |
| `CallIdShard.NameIs` | internal/sip/message.go:224-233 | a mailbox name is the Call-ID without the spaces around it, from after its last `///` on, and nothing else is |
| `CallIdShard.PlainNameIsItself` | internal/sip/message.go:224-233 | a Call-ID without spaces around it and without `///` names its own mailbox |
| `CallIdShard.PrefixDropped` | internal/sip/message.go:224-233 | a prefix that ends in three slashes does not change the mailbox name |
| `CallIdShard.LastSlashes` | internal/sip/message.go:224-233 | the last place where `///` starts, which ends the dropped prefix of a Call-ID |
| `SipHeaders.OneHeader` | internal/sip/message.go:117-213 | a request whose only header is a Call-ID line parses to the trimmed text of that line, and to nothing else |
| `SipHeaders.MessageReads` | internal/sip/message.go:117-213 | a message parses if and only if its start line is a request or status line and every header line up to the empty line has a colon; its headers are those lines in order, names and values trimmed |
| `SipHeaders.FieldsStep` | internal/sip/message.go:166-177 | a header line gives its trimmed name and value in front of the headers after it |
| `Coordinator.EveryRunIsSafe` | internal/engine/engine.go:1177-1219 | for every interleaving of listeners and call ends: call numbers are exactly 1..accepted, finished <= accepted, accepted <= the limit, no reservation is refunded, and the done channel closes once, exactly when the last call of the limit finishes |
| `Coordinator.EveryRunCanFinish` | internal/engine/engine.go:1177-1219 | for every limit above zero any run can go on until exactly that many calls were accepted and have finished, with the done channel closed once |
| `Coordinator.AcceptsBelowLimit` | internal/engine/engine.go:1086-1211 | below the limit a UDP call without a session, a new connection, and a new call on an idle shared connection are accepted, the last with the next number and a session |
| `Coordinator.NumbersAreDistinct` | internal/engine/engine.go:1359-1440 | no two calls in progress share a number, on one listener or on several |
| `Coordinator.RunKeeps` | internal/engine/engine.go:1359-1440 | every run keeps counters, numbers and session maps in step |
| `Coordinator.SessionKeeps` | internal/engine/tls_transport.go:355-376 | a reader loop that reserved a number finds its session still absent, so the refund branch is dead |
| `Coordinator.UdpAcceptKeeps` | internal/engine/engine.go:1549-1588 | accepting a UDP call keeps the invariants |
| `Coordinator.UdpEndKeeps` | internal/engine/engine.go:1593-1598 | the end of a UDP call keeps the invariants |
| `Coordinator.ConnAcceptKeeps` | internal/engine/engine.go:1455-1479 | a connection of its own that gets a number keeps the invariants |
| `Coordinator.EndKeeps` | internal/engine/tls_transport.go:434-448 | the end of a TCP or TLS call keeps the invariants |
| `Coordinator.MultiCoordinator.FinishCall` | internal/engine/engine.go:1194-1199 | one more call finished, and the channel closed exactly when as many finished as the limit says, at most once |
| `Coordinator.MultiCoordinator.ReserveCallSlot` | internal/engine/engine.go:1203-1211 | the next number if and only if there is no limit or fewer calls than that were accepted |
| `Coordinator.MultiCoordinator.RefundReservedSlot` | internal/engine/engine.go:1213-1219 | a number is given back, never below zero |
| `Coordinator.MultiCoordinator.AcceptUdp` | internal/engine/engine.go:1549-1588 | a UDP call gets the next number and a session if and only if it has none and the limit is not reached |
| `Coordinator.MultiCoordinator.EndUdp` | internal/engine/engine.go:1593-1598 | the session goes and the call counts as finished |
| `LoadCoordinator.EveryRunNamesApart` | internal/launcher/load_coordinator.go:96-160 | at any moment of any run the used ids are the reserved ones and those of engines not ended; engines have pairwise different, unreserved ids; at most 32 entries |
| `LoadCoordinator.RemoveStopsTheEngine` | internal/launcher/load_coordinator.go:136-160 | removing a running engine's id stops that engine if and only if the list shows the id once |
| `LoadCoordinator.RemoveMayMiss` | internal/launcher/load_coordinator.go:136-160 | an id used again after its engine ended: the removal leaves the running engine on |
| `LoadCoordinator.AheadShrinks` | internal/launcher/load_coordinator.go:74-79 | each used automatic id the search meets leaves fewer ahead, so the search ends |
| `LoadCoordinator.NextFree` | internal/launcher/load_coordinator.go:74-79 | the search finds the first free automatic id after the counter |
| `LoadCoordinator.AutomaticInjective` | internal/launcher/load_coordinator.go:75 | different counter values print as different ids |
| `LoadCoordinator.PickIsFree` | internal/launcher/load_coordinator.go:66-80 | a picked id is unused, not empty and trimmed |
| `LoadCoordinator.AddKeeps` | internal/launcher/load_coordinator.go:96-118 | adding a client keeps all invariants, when it is refused too |
| `LoadCoordinator.RemoveKeeps` | internal/launcher/load_coordinator.go:136-160 | removing a client keeps all invariants |
| `LoadCoordinator.EndedKeeps` | internal/launcher/load_coordinator.go:122-126 | the end of an engine frees its own id and no other |
| `LoadCoordinator.Coordinator.constructor` | internal/launcher/load_coordinator.go:41-64 | the reserved ids are `primary` and the trimmed, non-empty ids given |
| `LoadCoordinator.Coordinator.PickID` | internal/launcher/load_coordinator.go:66-80 | the id search loop ends with the id of the value model |
| `LoadCoordinator.Coordinator.AddClient` | internal/launcher/load_coordinator.go:96-132 | too many at 32 entries, in use for a name that is used, no log, or started under the given or the next automatic name, with the state of the value model |
| `LoadCoordinator.Coordinator.RemoveClient` | internal/launcher/load_coordinator.go:136-160 | the first entry with the id goes and its engine is cancelled if and only if one has it; otherwise an error and no change |
| `LoadCoordinator.Coordinator.RunEnded` | internal/launcher/load_coordinator.go:122-126 | an ended engine gives its id back |
| `CommandBroker.EveryRunInOrder` | internal/engine/command_bus.go:21-65 | in every run, per call and channel: commands put in are those handed out and those waiting, as multisets and, for each sender, in order |
| `CommandBroker.EveryQueueDrains` | internal/engine/command_bus.go:25-45 | after any run, taking from any sender hands out what waits for a call and channel, the oldest first, until as many commands were handed out as put in |
| `CommandBroker.SearchStops` | internal/engine/command_bus.go:47-65 | a search over all calls names a call that a command was put for on this channel; it can cut too much off a key if and only if a wanted command waits under names shorter than the channel |
| `CommandBroker.EmptyChannelNeverCrashes` | internal/engine/engine.go:2746-2756 | a search for the empty channel never cuts too much off a key |
| `CommandBroker.ShortNameCrashes` | internal/engine/command_bus.go:47-65 | one command for any call whose name is shorter than a channel makes a search for that channel cut too much off |
| `CommandBroker.KeyTells` | internal/engine/command_bus.go:50-54 | with channels free of NUL, a key ends in a channel's suffix exactly when it was made for that channel |
| `CommandBroker.KeyInjective` | internal/engine/command_bus.go:21-23 | with channels free of NUL, different calls or channels have different keys |
| `CommandBroker.KeyMayClash` | internal/engine/command_bus.go:21-23 | with NUL in a channel two calls can share a key |
| `CommandBroker.FromTaken` | internal/engine/command_bus.go:37-43 | taking the first wanted command takes the first of its sender and leaves the rest in order |
| `CommandBroker.Broker.Enqueue` | internal/engine/command_bus.go:25-30 | the command joins the end of its queue and no other queue changes |
| `CommandBroker.Broker.Dequeue` | internal/engine/command_bus.go:32-45 | the first wanted command leaves, the others stay in order; none if none is wanted |
| `CommandBroker.Broker.DequeueAny` | internal/engine/command_bus.go:47-65 | in whatever order the queues are visited, nothing is answered only if no queue has a wanted command; else the first of some such queue leaves it |
| `EventRing.Ring.Push` | internal/eventlog/ring.go:42-59 | the newest event is appended, a full ring gives up its oldest one, a closed ring takes nothing; the ring stays the latest accepted events |
| `EventRing.Ring.Drain` | internal/eventlog/ring.go:65-92 | the oldest events are handed out in order, up to the batch size; the end comes only closed and empty |
| `EventRing.Ring.Close` | internal/eventlog/ring.go:97-102 | closing keeps what is buffered |
| `EventRing.Ring.constructor` | internal/eventlog/ring.go:28-38 | a ring has at least one slot and starts empty |
| `EventRing.Ring.Conservation` | internal/eventlog/ring.go:42-92 | accepted = delivered + buffered + dropped |
| `EventRing.PickedCount` | internal/eventlog/ring.go:48-53 | events that left are those delivered and those overwritten |
| `EventRing.AtIsMod` | internal/eventlog/ring.go:50-55 | the index that wraps once is the remainder by the capacity |
| `EventRing.Logger.constructor` | internal/eventlog/logger.go:35-57 | sizes that are not positive become 16384 and 256, and a batch is at most the buffer |
| `EventRing.Logger.Admit` | internal/eventlog/logger.go:68-74 | an event below the level or after the flag goes no further |
| `EventRing.Logger.PushAdmitted` | internal/eventlog/logger.go:75-79 | an admitted event is stamped and accepted unless the ring was closed meanwhile, even after the flag |
| `EventRing.Logger.TakeBatch` | internal/eventlog/logger.go:110-114 | the consumer takes the oldest events, up to a batch, and learns the end only from a ring that is closed and empty |
| `EventRing.Logger.WriteNext` | internal/eventlog/logger.go:115-118 | the next sink is given the batch in the consumer's hands, and no other sink changes |
| `EventRing.Logger.EndPass` | internal/eventlog/logger.go:125-136 | the sinks are flushed after a short batch and at the end, where the consumer stops |
| `EventRing.Logger.WinFlag` | internal/eventlog/logger.go:88-91 | one call of Close wins the flag; any other returns and changes nothing |
| `EventRing.Logger.CloseRing` | internal/eventlog/logger.go:92 | the winner closes the ring, whatever came in between |
| `EventRing.Logger.FinishClose` | internal/eventlog/logger.go:93-104 | the winner returns, after any interleaving, with every sink given and flushed of all accepted events in order but the overwritten ones |
| `EventRing.Logger.DrainToEnd` | internal/eventlog/logger.go:110-139 | after the ring is closed the drain loop ends and Close returns |
| `EventRing.Logger.GivenIff` | internal/eventlog/logger.go:88-139 | at any moment every sink was given all accepted events but the overwritten ones, if the ring and the consumer's hands are empty and, with a sink at all, only then |
| `EventRing.Ring.SurvivorsAre` | internal/eventlog/ring.go:42-92 | the accepted events that were not overwritten are those handed out and those buffered, in order |
| `EventRing.SecondCloseReturnsEarly` | internal/eventlog/logger.go:88-91 | for any events that fit the buffer, runs in which a second Close returns with all of them accepted and none written, with the ring full of them or already empty |
| `Reorder.PermutationRecorded` | internal/media/record_reorder.go:71-132 | arrivals that permute consecutive numbers from the first one, never 65536 ahead and never more than 48 waiting, are recorded whole and in order, from any first number |
| `Reorder.RecordsInOrder` | internal/media/record_reorder.go:71-132 | after such arrivals, complete or not, the recording is the in-order concatenation up to the first missing frame |
| `Reorder.EveryRunValid` | internal/media/record_reorder.go:71-132 | after any frames at most 48 wait, with different numbers, none of them the next one |
| `Reorder.ReceiveFollows` | internal/media/record_reorder.go:86-132 | a frame in range moves recording and buffer on as the true indexes say |
| `Reorder.NumInjective` | internal/media/record_reorder.go:86-104 | indexes less than 65536 apart have different numbers |
| `Reorder.SortRises` | internal/media/record_reorder.go:101-103 | a flush goes by rising numbers |
| `ReorderFlush.FlushOrder` | internal/media/record_reorder.go:100-108 | a flush records the frames as the stream sent them if and only if the waiting numbers do not straddle the wrap |
| `ReorderFlush.FlushNext` | internal/media/record_reorder.go:109-113 | the number waited for after a flush follows the frame furthest ahead, on the same condition |
| `ReorderFlush.GapFlushed` | internal/media/record_reorder.go:86-114 | after one lost frame and 49 in order the recorder flushes, in stream order if and only if the first number is not between 65486 and 65533 |
| `Reorder.Recorder.AppendInbound` | internal/media/record_reorder.go:71-84 | an inbound frame has the effect of the value model; nothing while not recording |
| `Reorder.Recorder.PushPcm` | internal/media/record_reorder.go:86-114 | record, replace, buffer or flush as the value model |
| `Reorder.Recorder.DrainBufHead` | internal/media/record_reorder.go:116-132 | the loop moves every frame that is next into the recording |
| `ReceiverReport.HighestIsTrue` | internal/media/media.go:1146-1166 | with packets at most 32767 ahead of and 32768 behind the highest, the extended highest number is the true one through any number of wraps |
| `ReceiverReport.OthersIgnored` | internal/media/media.go:1146-1166 | the first packet decides whose stream is counted; packets of other sources change nothing |
| `ReceiverReport.LossFormula` | internal/media/media.go:1167-1174 | the loss is the span less the packets received, cut at zero |
| `ReceiverReport.LossIsMissing` | internal/media/media.go:1167-1174 | with no packet repeated or before the first, the loss is the number of missing packets |
| `ReceiverReport.FractionFits` | internal/media/media.go:1208-1220 | for a span below 2^32 the fraction is the floor of 256 * lost / expected and at most 255, without the clamp |
| `ReceiverReport.FractionInRange` | internal/media/media.go:1212-1220 | the fraction is at most 255 if and only if nothing was lost or expected, or less was lost than expected |
| `ReceiverReport.LongStreamLeavesRange` | internal/media/media.go:1161-1220 | a stream of about 2^32 packets and any gap below 32767 gives 256 |
| `ReceiverReport.Receiver.ResetAll` | internal/media/media.go:1129-1142 | a reset forgets everything |
| `ReceiverReport.Receiver.ObservePacket` | internal/media/media.go:1146-1174 | a packet changes the statistics as the value model; one of another source changes nothing |
| `ReceiverReport.Receiver.BuildReport` | internal/media/media.go:1208-1220 | a block only after the first packet, with fraction, loss and highest number |
| `Hep3.RoundTrip` | hepcodec/codec.go:75-205 | what encodes decodes to every field of the message, for addresses of one family; the time, cut to microseconds, if and only if its seconds fit 32 bits |
| `Hep3.EncodeDecodes` | hepcodec/codec.go:75-205 | the same for any addresses, with the bytes each family gives |
| `Hep3.DestinationSurvives` | hepcodec/codec.go:97-103 | the source always comes back; the destination does, in its own or its mapped form, if and only if it is not an IPv6 address next to an IPv4 source, which comes back empty |
| `Hep3Wire.Layout` | hepcodec/codec.go:75-128 | a packet byte by byte: the four letters, its size, and the chunks in their order with their type numbers, sizes and big-endian fields |
| `Hep3Wire.EncodesIff` | hepcodec/codec.go:75-121 | a message is encoded if and only if its addresses resolve, its ports fit 16 bits and the packet 65535 bytes; the first that fails is the error |
| `Hep3Wire.DecodesIff` | hepcodec/codec.go:131-205 | a packet decodes if and only if it is the four letters, its own size and whole chunks; the message is what the chunks set one after the other |
| `Hep3Wire.WrongSizeIgnored` | hepcodec/codec.go:157-201 | a chunk of the wrong size is passed over |
| `Hep3.TimeSurvives` | hepcodec/codec.go:106-203 | seconds and microseconds give the instant back, cut to microseconds, if and only if the seconds fit 32 bits |
| `Hep3.PacketDecodes` | hepcodec/codec.go:131-205 | any chunks that fit a packet decode to the fold of their effects |
| `Hep3.FramesFit` | hepcodec/codec.go:118-121 | a packet that fits has no cut length field |
| `Hep3.FrameReads` | hepcodec/codec.go:147-156 | a chunk's type, length and payload read back |
| `Hep3.UnknownChunksIgnored` | hepcodec/codec.go:157-201 | chunks of unknown type anywhere change nothing |
| `Hep3.EncodePacket` | hepcodec/codec.go:75-128 | the encoder appends chunks to a buffer and gives the packet, or the error, of the value model |
| `Hep3.DecodePacket` | hepcodec/codec.go:131-205 | the offset loop gives the message, or the error, of the value model, for any bytes |
| `Hep3.WriteChunk` | hepcodec/codec.go:254-259 | a chunk is appended: vendor, type, length, payload |
| `DigestAuth.BuildThenVerify` | internal/engine/auth.go:179-471 | a header built for any challenge verifies with the same credentials if user name, realm, nonce and URI have no backslash and, unless the hash collides on the texts of this exchange, only then; it never verifies for a user name other than the one it carries |
| `DigestAuth.ExchangeVerifies` | internal/engine/auth.go:179-471 | a challenge with realm, nonce, a supported algorithm and no qop or one that offers `auth` is always answered, and the answer verifies on the same condition |
| `DigestResponse.BuiltResponse` | internal/engine/auth.go:179-245 | the response of a built header, written out in MD5 or SHA-256 as the challenge names it in any case, with and without qop (section 3.4.1 of RFC 7616) |
| `DigestResponse.BuildsIff` | internal/engine/auth.go:179-224 | a challenge is answered if and only if it has a realm, a nonce and a known hash, and offers `auth` or no qop |
| `DigestResponse.VerifiesIff` | internal/engine/auth.go:433-471 | any header verifies if and only if it is for Digest, has its five fields, is for this user, asks for no qop or for `auth`, and carries the response of RFC 7616 to its fields |
| `DigestResponse.PasswordDecides` | internal/engine/auth.go:433-471 | a built header verifies for its own method and password and for no other, unless the hash collides on the texts of this exchange |
| `DigestResponse.HashNamed` | internal/engine/auth.go:346-355 | no name and MD5 select MD5, SHA-256 selects SHA-256, in any case, and no other name is known |
| `DigestResponse.OffersAuthIff` | internal/engine/auth.go:193-204 | a qop list offers `auth` if and only if that is one of its elements, in any case and with spaces around it |
| `DigestResponse.SchemeFolds` | internal/engine/auth.go:473-480 | the word Digest may stand in any case, and no other word of that length will do |
| `DigestResponse.KeysFold` | internal/engine/auth.go:473-514 | so may the name of a parameter |
| `DigestAuth.ChallengeReads` | internal/engine/auth.go:268-298 | a challenge parses back to the values it was written from, escaped where quoted and trimmed where not |
| `DigestAuth.BuiltParses` | internal/engine/auth.go:473-514 | a built header parses back to the fields it was built from, with every backslash doubled |
| `DigestAuth.VerifyCompares` | internal/engine/auth.go:433-471 | for a user name without a backslash, the server compares the response to the doubled texts with the response sent |
| `DigestAuth.ResponseSeparates` | internal/engine/auth.go:204-224 | equal responses come from equal realms, nonces and URIs, if the hash tells the three pairs of texts apart that the two responses hash |
| `DigestAuth.SeparatesEverywhere` | internal/engine/auth.go:346-355 | a hash that separates all texts has no collision in any exchange |
| `DigestAuth.SeparatingHash` | internal/engine/auth.go:332-355 | hashes with hexadecimal values that separate texts exist |
| `DigestAuth.BuildShape` | internal/engine/auth.go:179-245 | a build succeeds only with realm, nonce and a supported hash, and is the joined list of its parameters |
| `DigestAuth.SplitJoin` | internal/engine/auth.go:300-326 | parameters without an open quote, joined by commas, split back into themselves |
| `DigestAuth.SplitWhole` | internal/engine/auth.go:300-326 | text with its commas inside quotes passes the splitter in one piece |
| `DigestAuth.QuotedParam` | internal/engine/auth.go:225-240 | a quoted parameter, commas and equals signs included, stays whole and gives key and value back |
| `DigestAuth.TokenParam` | internal/engine/auth.go:225-240 | a token parameter gives key and trimmed value back |
| `DigestAuth.DigestReads` | internal/engine/auth.go:473-514 | a header made of whole parameters parses to the fields they set |
| `DigestAuth.SameHash` | internal/engine/auth.go:346-355 | the algorithm as the server reads it selects the same hash |
| `DigestAuth.SplitAuthParams` | internal/engine/auth.go:300-326 | the splitter's loop gives the pieces of the value model |
| `DigestAuth.ParseAuthorizationLoop` | internal/engine/auth.go:473-514 | the loop over parameters gives the authorization, or the error, of the value model |
| `DigestAuth.ParseChallengeLoop` | internal/engine/auth.go:268-298 | the loop over parameters gives the challenge, or the error, of the value model |

## Left out

- Sockets, TLS, DTLS, SRTP, TURN, ICE and WebRTC sessions, PCAP and WAV files, exec actions: input, output and foreign libraries.
- SIP parsing in the recv machine: messages come with status and method as their start line gives them, and with branch and CSeq as inputs; matching is modelled, on ASCII case folding.
- Mailboxes.Registry.HandleTaken: a worker finds the mailbox and sends to it in one step; the Call-ID it finds is an input that the packet may parse to. A single worker reads the incoming packets itself; here it has a queue, which changes no order.
- SipHeaders.OneHeader: trimming drops ASCII spaces only; bytes above 127 are plain text, so a Unicode space at the edge of a Call-ID, which the program trims, stays.
- Media hooks, logging, statistics and latency of the recv command, and the choice of its timeout (Timer B): the timeout is an input.
- Scenario control flow: a call is any list of sends and recvs, which covers every order its jumps can give.
- Clocks: readings and network results are inputs; the recv passes of a run are given as a list.
- SipTrace.RetransmissionBound: takes that clock readings never go back and that a network read that ended by its interval took that long.
- The direct-send mode of the scale engine: its batched messages share the stream's buffer.
- Batches per connection, sender goroutines, byte totals and the statistics that `UnregisterCall` returns.
- ScaleEngine.Engine.Run: only the flag; stopping the engine, which closes every socket and drops every stream, is left out.
- ScaleEngine.Engine.RegisterStream: the endpoint checks, the socket and the synthetic payload are left out; the packet template is an input.
- The packet pool hands out any free buffer or a new one; the order of the library's pool is not modelled.
- Instants and durations are integers of nanoseconds without overflow.
- Rate.RateToPeriod: rates are reals, so rounding and overflow of the floating-point division are not modelled.
- Rate.RateBound: one caller, one clock reading for a whole pass, and a rate of unchanged value; a caller asleep when the schedule restarts is taken to wake up then.
- Rate.RateController.Pause: only the flag; that a waiting caller wakes up is liveness and not modelled, here and for the ring's condition variable and the update channel.
- Single-listener servers and WebSocket listeners: they do not use the shared coordinator.
- Coordinator.EveryRunIsSafe: a packet that does not match the first recv, or whose listener refuses new calls, changes nothing and is not a step.
- LoadCoordinator.NextFree: the 64-bit counter does not wrap.
- LoadCoordinator.Coordinator.AddClient: the JSON snippet and the scenario are prepared before the lock and are left out; opening the event log is an input.
- CommandBroker.EveryRunInOrder: stated for channels free of NUL; a search that would cut too much off a key ends the run.
- EventRing.Logger.FinishClose: errors and the closing of sinks are left out, and `With` binds attributes only.
- Reorder.Recorder.AppendInbound: decoding a packet to samples is an input, with the empty result included.
- ReceiverReport.FractionFits: jitter, clock rate and the delay since the last report are left out; the fraction is the number before it becomes a byte.
- ReceiverReport.LossIsMissing: fewer than 2^31 packets are missing, as the words of the program are read as signed.
- Hep3.EncodePacket: name resolution is an input: an address is IPv4, IPv6 or an error.
- DigestAuth.BuiltParses: values are printable ASCII without a quote, so quoting escapes backslashes only; the hash is any function with lower-case hexadecimal values, and the client nonce is an input without quotes and backslashes.
- Finding the authorization header in a message and keyword options in scenario text.
- HTTP API, user interfaces, command-line flags, settings, tokens, G.711 tables, semaphores and trace writers: easier members.
