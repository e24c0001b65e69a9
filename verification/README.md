# Fairwave: verified models

Dafny models, and proofs about them, of the three parts of Fairwave in which most can go wrong.

- **Hydra weave** (`core/hydra`): a flow is striped over many links and put back in order. Modules
  `Reorder*`, `Shim`, `Sched`, `Bearer`, `LoadBound`, `Fabric*`, `Weave`, `Bench*`, `Node*`, `Probe*`,
  `Transport`, `Pacing`.
- **Usage metering** (`core/fairwave-control/internal`): charging files, the tunnel accountant and the fold
  of cumulative readings into stored usage. Modules `Ber`, `Cdr*`, `Merge`, `Gtp`, `Accountant*`,
  `Directions`, `Usage*`, `QuotaRuns`, `Metering`.
- **eSIM download** (`core/esim`): CMAC, CBC and check digits, the profile server with its code registry,
  and the software eUICC. Modules `Cmac`, `Cbc`, `Luhn`, `Esim`, `Smdp*`, `Euicc`, `Honest*`.

`Bytes`, `Strings` and `Wrappers` hold what they share. `dafny verify dfyconfig.toml` checks everything.

## How the models are built

A class with in-place state has a `Model()` value; its methods are proved equal to step functions on such
values, and the lemmas about runs are about those functions. Modules named `...Runs` quantify over
every sequence of steps.

- Sections under a mutex, and each ES9+ request, are one atomic step. Clock readings, random values and
  replies from the network are inputs.
- Rates, delays, tokens and loss are exact reals; a link without capacity has an infinite projected time.
  A sleep lasts as long as it was asked to. Counters and sequence numbers do not wrap; the number in a
  frame's header is taken modulo 2^64, and volumes in charging files wrap as the source's do.
- The subscriber hash, the FNV hash, the block cipher and its inverse, key agreement, activation-code
  normalization and the JSON, DER, base64 and hexadecimal codecs are parameters. `Esim.Lawful` is what
  is assumed of them: agreement commutes and yields 32 octets, the inverse undoes the cipher, decoders
  undo encoders. `Usage.Injective` is assumed of the subscriber hash where SIMs are looked up.
- In the node, a queued frame is kept with the number and link it was striped with.

## Where the code and its comments differ

- `core/fairwave-control/internal/collector/cdr.go:14-16` says deltas catch up once a reading grows past the last one.
  `AccumulateUsage` always replaces the baseline, so growth after a reset is counted again:
  stored usage is the last reading plus everything lost at resets (`UsageRuns.StoredAgainstReadings`).
- `core/fairwave-control/internal/collector/cdr.go:115-117` says records of one subscriber are summed. `parseCDRFile` returns one usage per
  record and `Poll` sums them, over all files; the two agree exactly when no two records of the file share
  a subscriber (`CdrPoll.SameAsRecordsIff`).
- `core/fairwave-control/internal/collector/upf.go:208-226` reads the high nibble of each octet first, and `walk` reads a length from the
  third and fourth octet of an element. 3GPP TS 29.274 puts the low digit first (section 8.3) and the
  length in the second and third octet (section 8.2.1). `Gtp.TelephonyReadsBackIff` and
  `Gtp.StandardLengthReadIff` say for which digits and for which elements that makes no difference.
- `core/fairwave-control/internal/collector/upf.go:83-86` takes a first digit of 2 for GTPv2-C. The version is in the top three bits
  (section 5.1 of 3GPP TS 29.274), so version 2 begins with a digit of 4 or 5, which is refused
  (`Gtp.VersionFieldReadIff`).
- `core/esim/smdp/smdp.go:396-397` says cancelling releases the profile for another attempt. For a single-use code it does so
  exactly when no package was delivered (`SmdpRuns.CancelReleasesIff`).
- `core/esim/euicc/euicc.go:56-60` says any protocol failure cancels the session. A bad server key, a lost reply, and a failed
  confirmation or notification do not (`Euicc.CancelsIff`, `Euicc.LeavesOpenIff`).
- `core/hydra/node/node.go:458-460` says that a link that misses enough probes in a row is marked down and that the first echo
  marks it up again. An echo between a pass's reaping and its verdict is overruled when enough misses had
  been reaped, and otherwise not; and a data frame whose sending fails takes the link down with no miss at
  all (`core/hydra/node/node.go:398-402`). `Probes.DownDeservedIff` says that these two are the only exceptions. A probe whose
  sending fails is never missed, so on a link that cannot send at all it is the data, not the probes, that
  takes it down (`Probes.SilentLinkIsUpIff`, `Probes.UnsentProbesAreNotMissed`).
- `core/hydra/reorder/reorder.go:17-22` says the gap timeout keeps a lost packet from stalling the stream forever. When the timer
  fires on a packet a window or more above the lowest buffered one, that packet is dropped, the timer is not
  set again, and an ascending stream never resumes (`ReorderLiveness.AscendingStreamResumesIff`,
  `ReorderLiveness.OneLossStallsForever`).
- The same comment has a gap skipped when the missing packet has not come within the timeout while later ones
  wait. A release stops the clock even if later packets still wait; it starts again with the next early one
  (`ReorderClock.ReleaseStopsClock`, and in general `ReorderClock.ClockIsHistory`).
- `core/hydra/reorder/reorder.go:71-75` says that resynchronizing recovers a weave after the far end restarted. It does so exactly
  when nothing is buffered; with one packet buffered the restarted sender is never heard below the expected
  number (`ReorderLiveness.RestartRecoversIff`).
- `core/hydra/fabric/fabric.go:374-379` says a zero round-trip time or loss is ignored when a link is marked down. Both are always
  overwritten, and only a rate that is not positive is ignored (`Bearer.Registry.SetHealth`).
- `core/esim/smdp/smdp.go:120-121` says a failed proof covers an EID that does not match the session. Authentication does not look
  at the EID, only at the proof (`Smdp.Server.AuthenticateClient`).
- A bench longer than the window can still deliver everything: the exact bound is on its last even index
  (`Bench.BenchDeliversAllIff`). A send of more than one second's worth is never granted
  (`Transport.NeverGrantedAboveRate`).

## Model

| member | source | states |
|---|---|---|
| Reorder.Buffer.NewAt | core/hydra/reorder/reorder.go:83-93 | A new window is empty, expects `start`, and replaces a zero width by the default. |
| Reorder.Buffer.SetGapTimeout | core/hydra/reorder/reorder.go:97-101 | Only the timeout changes. |
| Reorder.Buffer.Push | core/hydra/reorder/reorder.go:105-179 | The method's new state and output are those of the step function that every window lemma is about, over the duplicate, stale, too-far, resync and gap-skip branches. |
| Reorder.Buffer.MinBuffered | core/hydra/reorder/reorder.go:182-192 | The loop over a non-empty buffer finds its least number. |
| Reorder.RunEndUnique | core/hydra/reorder/reorder.go:165-177 | The drain stops at the one position whose predecessors are all buffered and which is not. |
| ReorderSteps.StepFacts | core/hydra/reorder/reorder.go:105-179 | One push: where the output starts and what it carries, which keys are left, how each counter moves, that the window's invariant (keys in [next, next+window), stale run below 64, gap clock set only on a real gap) is kept. |
| ReorderSteps.DepthBounded | core/hydra/reorder/reorder.go:15-34 | A window within its invariant never buffers more than `window` payloads. |
| ReorderSteps.GapSkipLandsOnBuffered | core/hydra/reorder/reorder.go:111-124 | When the gap timer fires the skip is strictly positive, lands on the lowest buffered packet and is counted exactly. |
| ReorderRuns.EveryRunBalances | core/hydra/reorder/reorder.go:105-192 | In every run, with skips and resyncs: depth and its recorded maximum stay within the window, Received = Delivered + Duplicates + TooFar + depth, and next + rewound = start + Delivered + Skipped. |
| ReorderRuns.DescentsAreResyncs | core/hydra/reorder/reorder.go:126-137 | Delivered numbers go down exactly once per resync, save a resync before anything was delivered, which is the case exactly when the first delivery lies below the starting position; without a resync they strictly ascend. |
| ReorderRuns.EpochAscends | core/hydra/reorder/reorder.go:105-179 | Between resyncs every delivery is numbered from where the stretch began, in strictly ascending order: exactly-once per epoch. |
| ReorderRuns.NothingInvented | core/hydra/reorder/reorder.go:105-179 | Every payload delivered or buffered under a number arrived under that number. |
| ReorderRefinement.RefinesFrom | core/hydra/reorder/reorder.go:105-179 | From any empty window, in every run without skip, resync or too-far: `next` is the least number not received, the buffer is exactly the first-arrived payloads above it, the output is the payloads in between in order. |
| ReorderRefinement.RefinesLeastMissing | core/hydra/reorder/reorder.go:105-179 | The same refinement for whole runs of a new window. |
| ReorderRefinement.ArrivalOrderIrrelevant | core/hydra/reorder/reorder.go:10-14 | Two such runs that received the same numbers, in whatever order, multiplicity and window width, delivered the same and stand at the same position. |
| ReorderRefinement.GapSkipReadiesHead | core/hydra/reorder/reorder.go:111-147 | After the timer fires, the lowest buffered packet is either released at once or stands ready at `next`; a rejected push leaves it there. |
| ReorderLiveness.FiringPushIff | core/hydra/reorder/reorder.go:111-147 | The push on which the timer fires delivers exactly if its packet is new and within a window of the lowest buffered one. |
| ReorderLiveness.AscendingStreamResumesIff | core/hydra/reorder/reorder.go:17-22 | A stream in ascending order resumes after a loss if and only if the packet on which the timer fires is within a window of the lowest buffered one; otherwise nothing is ever delivered again. |
| ReorderLiveness.OneLossStallsForever | core/hydra/reorder/reorder.go:17-22 | A window of two, packet 1 lost, then 2, 3, 4 and anything above: nothing is ever delivered. |
| ReorderLiveness.RestartRecoversIff | core/hydra/reorder/reorder.go:71-75 | From any window, a sender that starts over below the expected number is heard again if and only if nothing is buffered and its packets fill the stale run up to 64, whatever the timer does. |
| ReorderLiveness.RestartDelivers | core/hydra/reorder/reorder.go:125-137 | The packet that fills the stale run is itself the first one delivered. |
| ReorderRefinement.HeadIsReleasedFirst | core/hydra/reorder/reorder.go:111-179 | A packet standing ready is released first by the next admitted push, and until then nothing at all changes. |
| ReorderClock.ClockIsHistory | core/hydra/reorder/reorder.go:111-153 | In every run the gap clock shows when the first packet was kept since the last release, the last gap given up, or the start; and the timeout is the one set last. |
| ReorderClock.GivesUpIff | core/hydra/reorder/reorder.go:111-124 | In every run a push gives up the open gap if and only if a timeout is set, something is buffered, and more than the timeout has passed since the gap began. |
| ReorderClock.ClockKeepsFirst | core/hydra/reorder/reorder.go:151-153 | Packets 2, 3 and 4 at times 0, 8 and 16 with 1 lost and a timeout of 10: the third releases all three. |
| ReorderClock.ReleaseStopsClock | core/hydra/reorder/reorder.go:174-177 | A release stops the clock although another packet is still missing; the next early one starts it anew. |
| ReorderClock.PushCounts | core/hydra/reorder/reorder.go:105-179 | Every push counts once: kept if new and in the window, or the 64th stale one in a row with nothing buffered; else too far or duplicate; the depth is taken before anything is released. |
| Shim.Encode | core/hydra/shim/shim.go:66-75 | The in-place writes produce the 24-octet header whose fields lie where the format says. |
| Shim.DecodeFrame | core/hydra/shim/shim.go:79-105 | Decoding a frame gives back its header and payload, for every header and payload; only a wrong version is refused. |
| Shim.FrameDecode | core/hydra/shim/shim.go:79-105 | Whatever decodes is the frame of what it decodes to. |
| Shim.DecodeErrors | core/hydra/shim/shim.go:79-97 | Which octet strings are refused, and with which error, both ways. |
| Shim.FrameLayout | core/hydra/shim/shim.go:66-105 | Where everything is in a frame, octet by octet. |
| Sched.Pick | core/hydra/sched/sched.go:59-74 | The loop returns the specified best candidate, or none. |
| Sched.PickFinishesFirst | core/hydra/sched/sched.go:40-74 | A pick exists exactly when some candidate has capacity, and it finishes no later than any other. |
| Sched.PickIgnoresOrder | core/hydra/sched/sched.go:59-74 | With distinct ids the pick depends on the set of candidates, not their order. |
| Sched.RankHeadIsPick | core/hydra/sched/sched.go:79-90 | The head of any stable ranking is the pick. |
| Sched.ProjectedCarries | core/hydra/sched/sched.go:40-55 | The projected time is when the link's megabits a second, less its loss in per cent (never less than a hundredth), have carried the bits that wait and the packet's, plus half a round trip. |
| Sched.RankingIsUnique | core/hydra/sched/sched.go:79-90 | With distinct ids there is one ranking only, in whatever order the candidates were given. |
| Bearer.Registry.Upsert | core/hydra/bearer/bearer.go:57-78 | A well-formed thread replaces its record, another changes nothing. |
| Bearer.Registry.Candidates | core/hydra/bearer/bearer.go:128-140 | The live registered links among the ids, in order, as candidates. |
| Bearer.CandidatesAre | core/hydra/bearer/bearer.go:128-140 | Exactly those links are offered to the scheduler. |
| Bearer.Registry.AddQueue | core/hydra/bearer/bearer.go:171-177 | Charges one link and touches no other. |
| Bearer.Registry.SubQueue | core/hydra/bearer/bearer.go:180-192 | Discharges one link down to a floor of zero. |
| Bearer.Registry.SetHealth | core/hydra/fabric/fabric.go:380-390 | A known link gets the given round-trip time, loss and state always, and the rate when it is positive. |
| Bearer.Registry.AggregateMbps | core/hydra/bearer/bearer.go:144-154 | The loop over the map sums the capacity of the links that are up. |
| Bearer.CapacitySplit | core/hydra/bearer/bearer.go:144-154 | That sum does not depend on the order of the iteration: any link can be split off. |
| Bearer.HealthIs | core/hydra/bearer/bearer.go:159-168 | Measured health replaces round trip, loss and state of one link, and its rate if positive, and nothing else. |
| LoadBound.UsedLinksStayLevel | core/hydra/fabric/fabric.go:278-291 | After any number of payloads, no used link finishes later than any live link would with one more largest payload, up to one header on the used link. |
| LoadBound.FinishWithinAggregate | core/hydra/sched/sched.go:40-74 | The last used link finishes within what the summed rate of the links needs for all queues, one payload per link and the links' delays, up to one header. |
| LoadBound.NearlyAsFastAsAny | core/hydra/sched/sched.go:40-74 | No assignment of the same octets to the same links, however clever, beats the scheduler by more than one payload per link, the delays and one header. |
| LoadBound.QueuesHoldEveryFrame | core/hydra/fabric/fabric.go:284-291 | Striping conserves octets: the queues grow by exactly the frames, 24 octets above each payload. |
| Fabric.Engine.CreateWeave | core/hydra/fabric/fabric.go:186-231 | A weave is added only under a new name over known threads, with fresh counters; otherwise nothing changes. |
| Fabric.Engine.Strip | core/hydra/fabric/fabric.go:271-299 | Engine state and result are those of the step function, including the number consumed when no link can be picked. |
| Fabric.Engine.Reassemble | core/hydra/fabric/fabric.go:303-318 | A frame that does not decode or names another weave changes nothing; otherwise its payload is pushed. |
| Fabric.Engine.Ingest | core/hydra/fabric/fabric.go:326-349 | As Reassemble, with every released payload leaving through the egress in order. |
| Fabric.StripChargesChosenLink | core/hydra/fabric/fabric.go:271-299 | To the links, Strip is exactly the scheduler's assignment: it succeeds when a link is chosen, charges that one the frame's length, and touches nothing else. |
| FabricFacts.StripSucceedsIff | core/hydra/fabric/fabric.go:271-299 | Striping succeeds exactly if the weave exists and one of its links is up and has capacity; a number is used up exactly if one is up; the counters grow by one frame of 24 octets and the payload on success only. |
| FabricFacts.StripFrames | core/hydra/fabric/fabric.go:285-297 | The frame carries the weave's hash, the next number modulo 2^64 and the payload. |
| FabricFacts.CreatedIff | core/hydra/fabric/fabric.go:186-231 | A weave is created exactly under a new name over registered links, and starts at number one with an empty window of 4096 and a gap timeout of one second. |
| FabricFacts.CreatedIsFresh | core/hydra/fabric/fabric.go:186-218 | Two engines that have just created a weave are where the end-to-end results begin. |
| FabricFacts.RefusedIff | core/hydra/fabric/fabric.go:303-349 | A frame is taken exactly if it decodes, is of this weave, and the weave exists; any other changes nothing. |
| FabricFacts.IngestTouchesOneWeave | core/hydra/fabric/fabric.go:326-349 | A frame leaves every other weave and every link alone, and the egress grows by what is reported. |
| Weave.EveryRunIsGood | core/hydra/fabric/fabric.go:271-349 | In every run over a channel that loses, repeats and reorders: sent numbers strictly ascend below the counter, every frame reads back as sent, and the anchor's window and egress are those of the frames delivered. |
| Weave.EgressIsSubsequence | core/hydra/fabric/fabric.go:271-349 | End-to-end safety: without a resync the egress is an in-order, repeat-free selection of the payloads given to successful Strip calls. |
| Weave.EgressIsArrivedFront | core/hydra/fabric/fabric.go:271-349 | Completeness: with no number burned and no skip, resync or too-far, the egress is exactly the payloads before the first frame not delivered, hence all of them if and only if every frame was delivered. |
| BenchFeed.FeedDeliversAllIff | core/hydra/fabric/fabric.go:480-507 | Feeding evens then odds delivers every packet if and only if the last even index fits the window, which every count up to window + 1 does; it then ends empty and positioned after the last. |
| Bench.StripAll | core/hydra/fabric/fabric.go:466-479 | The striping loop stops at the first failure with the state reached there. |
| Bench.RunBench | core/hydra/fabric/fabric.go:448-536 | The loops produce the state and report of the bench specification. |
| Bench.BenchDeliversAllIff | core/hydra/fabric/fabric.go:448-536 | A bench in lockstep whose strips succeed and whose timer does not fire reports all packets delivered if and only if the last even index fits the window, and is then in lockstep again. |
| NodeLoops.DataPlane.IngressOnce | core/hydra/node/node.go:346-369 | One payload is striped, or its number burned, as the step says. |
| NodeLoops.DataPlane.EnqueuePending | core/hydra/node/node.go:374-387 | A frame joins its link's queue, or is dropped and completed when the queue is full or unknown. |
| NodeLoops.DataPlane.TakeFrame | core/hydra/node/node.go:391-396 | A writer takes the oldest frame of its queue. |
| NodeLoops.DataPlane.FinishFrame | core/hydra/node/node.go:396-407 | After the send, successful or not, the frame is completed once. |
| Node.EveryInterleavingIsGood | core/hydra/node/node.go:346-407 | The invariant behind the two results below holds in every interleaving of ingress, drops and writers. |
| Node.QueueAccountsAreExact | core/hydra/bearer/bearer.go:171-192 | In every interleaving a link's queue account equals the octets of its frames not yet completed, so the floor in SubQueue never bites. |
| Node.EveryFrameOnceInOrder | core/hydra/node/node.go:346-407 | Every striped frame is written once, dropped once or still outstanding, never two of these, and each link handles its frames in ascending order of number. |
| NodeDrops.QueuedUnlessNoRoom | core/hydra/node/node.go:374-387 | A striped frame is dropped at the tail exactly when its link is unknown or its queue is full, and otherwise becomes the last of its queue. |
| NodeDrops.DropsAreAccounted | core/hydra/node/node.go:346-407 | In every interleaving the frames dropped at the tail are exactly those that found no room, and the drop counter counts them, the payloads not striped and the frames not sent. |
| NodeDrops.NothingLostWithRoom | core/hydra/node/node.go:346-407 | With room throughout nothing is dropped at a tail, and every striped frame is written or on its way. |
| NodeDrops.QueueDrains | core/hydra/node/node.go:391-407 | A writer that is let run sends its whole queue, oldest first. |
| NodeDrops.WriterMarksDownIff | core/hydra/node/node.go:397-405 | A writer marks its link down exactly when a send fails. |
| Probes.Prober.Reap | core/hydra/node/node.go:461-471 | The loop over outstanding probes drops exactly the overdue ones, each counted as one miss. |
| Probes.Prober.TakeProbe | core/hydra/node/node.go:500-508 | Only the echo of a probe still waited for is taken up. |
| Probes.Prober.RecordEcho | core/hydra/node/node.go:509-519 | The round-trip average is updated and the misses are cleared. |
| Probes.Prober.ReportUp | core/hydra/node/node.go:520 | And then the registry marks the link up. |
| Probes.OneProbeInFlight | core/hydra/node/node.go:476-487 | In every interleaving of probing passes and echoes at most one probe is in flight, and launched = echoed + expired + unsent + in flight. |
| Probes.DownDeservedIff | core/hydra/node/node.go:389-534 | In every interleaving of passes, echoes and failing data frames, a link is at all times down only while it has missed `ProbeFailures` in a row or is just being marked up, if and only if no verdict on that many misses came after an answer in its own pass and no data frame failed before there were that many. |
| Probes.StaleVerdict | core/hydra/node/node.go:469-475 | Such a verdict can happen: for every threshold, a run without failing frames that ends with the link down and no miss recorded. |
| Probes.EarlyWriteOff | core/hydra/node/node.go:398-402 | One failed data frame takes down a link that has missed nothing. |
| Probes.DownOnlyAfterMisses | core/hydra/node/node.go:458-475 | In particular, without failing frames and without misses cleared between a pass's reaping and its verdict, a link is down only while it has missed `ProbeFailures` in a row. |
| Probes.SilentLinkIsUpIff | core/hydra/node/node.go:389-534 | Without answers, whichever sends fail, a link is up after every verdict exactly while fewer than `ProbeFailures` probes expired and no data frame failed; if fewer than that many probes were sent, only a failed frame takes it down. |
| Probes.SilentLinkGoesDown | core/hydra/node/node.go:458-495 | Without answers, whichever sends fail, a link is down once its passes have gone on for a timeout, ProbeFailures - 1 periods of timeout and gap, and one gap for each failed send. |
| Probes.SentButUnansweredGoesDown | core/hydra/node/node.go:458-495 | When every send succeeds that bound depends on the clock alone. |
| Probes.UnsentProbesAreNotMissed | core/hydra/node/node.go:490-494 | Without answers and without a probe sent nothing is ever missed, and the link is down exactly if a data frame failed. |
| Probes.UnsentPassesLeaveUp | core/hydra/node/node.go:490-494 | In particular passes that never get a probe out leave the link up. |
| ProbeHistory.MissIff | core/hydra/node/node.go:461-471 | A pass counts a miss exactly if a probe is in flight that was launched longer ago than the timeout. |
| ProbeHistory.TakenIff | core/hydra/node/node.go:498-508 | An echo is taken exactly if it has the number of the latest probe and that one is still in flight. |
| ProbeHistory.EchoIsMeasured | core/hydra/node/node.go:509-519 | A taken echo clears the misses and moves the average a fifth of the way to its round trip in milliseconds. |
| ProbeHistory.MarkedUpAfter | core/hydra/node/node.go:520 | And then the link is up. |
| Transport.Endpoint.Dial | core/hydra/transport/transport.go:74-105 | A link starts with an empty bucket. |
| Transport.Endpoint.TryTake | core/hydra/transport/transport.go:183-218 | One pass of the loop refills, caps, and grants, sleeps or gives up as specified. |
| Transport.Endpoint.Wait | core/hydra/transport/transport.go:183-218 | The loop's verdict and bucket are those of the passes its wake-ups cause. |
| Transport.RateBound | core/hydra/transport/transport.go:88-103 | At a fixed rate, for any interleaving of waiters: tokens stay in [0, rate], grants since dialling never exceed rate x time, and between any two passes never exceed rate x time + rate. |
| Transport.GrantedAfterOneSleep | core/hydra/transport/transport.go:183-218 | An undisturbed waiter for at most one second's worth is granted on its first or second pass. |
| Transport.NeverGrantedAboveRate | core/hydra/transport/transport.go:183-218 | A waiter for more than one second's worth is never granted. |
| Transport.WaitEndsIff | core/hydra/transport/transport.go:183-218 | Hence an undisturbed wait can end exactly when the request is at most the rate. |
| Pacing.RateIsMegabits | core/hydra/transport/transport.go:114-122 | Dialling and setting a rate pace the link at that many megabits a second; a rate that is not positive does not pace it. |
| Pacing.NeverFasterThanDeclared | core/hydra/transport/transport.go:183-218 | In bits: since it was dialled a link has carried no more than its megabits a second for that long. |
| Pacing.GrantedIff | core/hydra/transport/transport.go:183-218 | A pass is granted exactly if its bits are in the bucket by then, which holds what was there and what was earned, up to one second's worth. |
| Pacing.DialledGrantsIff | core/hydra/transport/transport.go:88-103 | On a dialled link, within the first second, exactly if the link could have carried the bits since. |
| Pacing.DialledCanGrantIff | core/hydra/transport/transport.go:183-218 | Some pass is granted exactly if one second carries the bits. |
| Pacing.ResetGrantsIff | core/hydra/transport/transport.go:114-122 | Setting a rate keeps what is in the bucket and paces at the new rate from then on. |
| Pacing.UnpacedGrantsAll | core/hydra/transport/transport.go:188-195 | Without a positive rate every pass on an open link is granted at once. |
| Pacing.SleepIsNeeded | core/hydra/transport/transport.go:205-214 | A waiter is told to sleep until its bits are there and no longer, but at least a millisecond. |
| Pacing.EightMegabits | core/hydra/transport/transport.go:114-122 | At 8 megabits a second 1500 octets are there after 1.5 ms and not after 0.5 ms. |
| Ber.ParseTlv | core/fairwave-control/internal/collector/cdr.go:188-233 | The in-place parser computes the element function: tag, length and content, and each error. |
| Ber.ParseChildren | core/fairwave-control/internal/collector/cdr.go:236-248 | The loop terminates and computes the list of elements, or the first error. |
| Ber.ElementSplits | core/fairwave-control/internal/collector/cdr.go:188-233 | Every element read takes at least two octets and ends its input with content and rest. |
| Ber.ElementOfEncoded | core/fairwave-control/internal/collector/cdr.go:188-233 | Reading an element in any definite form (low or high tag, short or long length; sections 8.1.2 and 8.1.3 of ITU-T X.690) gives it back. |
| Ber.ChildrenOfEncoded | core/fairwave-control/internal/collector/cdr.go:236-248 | Reading the concatenated encodings of any list of elements gives exactly that list. |
| Ber.EncodedIsElement | core/fairwave-control/internal/collector/cdr.go:188-233 | Conversely, what is read is an encoding of what it was read as, with any number of leading zero groups, exactly when its tag number does not wrap. |
| Cdr.FindTagLoop | core/fairwave-control/internal/collector/cdr.go:251-258 | The first context-class element with the tag, or none. |
| Cdr.UintValueLoop | core/fairwave-control/internal/collector/cdr.go:270-279 | The big-endian value modulo 2^64. |
| Cdr.ParseChargingRecord | core/fairwave-control/internal/collector/cdr.go:288-344 | Subscriber, access point and summed volumes of a record, or the error. |
| Cdr.ParseCDRFile | core/fairwave-control/internal/collector/cdr.go:118-170 | The loop over the container computes the usages of its records in order, or the first error. |
| Cdr.FileBodiesAreDisjoint | core/fairwave-control/internal/collector/cdr.go:118-170 | On arbitrary bytes the record bodies read lie in the file after its header, consecutive and disjoint, and each usage is that of its body. |
| CdrRoundTrip.RecordReadsBack | core/fairwave-control/internal/collector/cdr.go:288-344 | A built record reads back its names and, modulo 2^64, the sums over every used-unit container. |
| CdrRoundTrip.FileReadsBack | core/fairwave-control/internal/collector/cdr.go:118-170 | A file of 1 to 65536 records, each body under 65536 octets, with any header (section 6.1 of 3GPP TS 32.297), reads back one usage per record, in order. |
| CdrPoll.Poll | core/fairwave-control/internal/collector/cdr.go:60-103 | An unnamed or unreadable directory is an error; otherwise one session per subscriber of the readable files, in no particular order. |
| CdrPoll.SessionsAreSums | core/fairwave-control/internal/collector/cdr.go:73-98 | A subscriber has a session exactly when it has a record in some readable file, and the session holds the sums over all its records in all files, modulo 2^64, and the first access point named. |
| CdrPoll.SameAsRecordsIff | core/fairwave-control/internal/collector/cdr.go:115-117 | For one file the sessions are the usages of `parseCDRFile`, one for one, exactly when no two of its records share a subscriber. |
| CdrPoll.SharedSubscriberInFile | core/fairwave-control/internal/collector/cdr.go:115-117 | Any built file in which two records share a subscriber has sessions that differ from its records. |
| CdrPoll.SharedSubscriberIsSummed | core/fairwave-control/internal/collector/cdr.go:91-97 | Two records of one subscriber: one session, with the sums. |
| Merge.MergeSessions | core/fairwave-control/internal/collector/cdr.go:367-398 | The result lists the merged table, one record per subscriber hash. |
| Merge.BytesAreMaxima | core/fairwave-control/internal/collector/cdr.go:367-390 | A merged record exists exactly for the hashes present, and its counts are the maxima over the sources, not sums. |
| Merge.MergingInStages | core/fairwave-control/internal/collector/cdr.go:354-398 | Merging already merged tables, listed in any order, equals merging everything at once. |
| Merge.NamesAreFirst | core/fairwave-control/internal/collector/cdr.go:382-390 | A merged record has the first access point and address known, the first phase that tells of a live session or else the last, and the time of its first record. |
| Gtp.DecodeIMSI | core/fairwave-control/internal/collector/upf.go:208-226 | The loop yields the digit nibbles, high first, up to fifteen. |
| Gtp.Walk | core/fairwave-control/internal/collector/upf.go:168-193 | The walk over elements, into grouped ones, learns the specified subscriber and endpoints and stays inside its input. |
| Gtp.PacketReadsBack | core/fairwave-control/internal/collector/upf.go:87-145 | A frame built into UDP over IPv4 (with any options) or IPv6, whatever octets trail, reads back its type, tunnel and payload. |
| Gtp.VersionFieldReadIff | core/fairwave-control/internal/collector/upf.go:83-103 | The reported version is the one in the header's top three bits exactly for a first digit of 3; frames whose top three bits say 2 are never accepted. |
| Gtp.ImsiReadsBack | core/fairwave-control/internal/collector/upf.go:208-226 | Digits packed high nibble first come back. |
| Gtp.MessageTeaches | core/fairwave-control/internal/collector/upf.go:168-205 | A message built of elements, some in bearer contexts, teaches the first subscriber in it and every endpoint, in order. |
| Gtp.TelephonyReadsBackIff | core/fairwave-control/internal/collector/upf.go:208-226 | Digits in the standard's order (low nibble first) come back exactly when the digits of each octet are equal. |
| Gtp.StandardLengthReadIff | core/fairwave-control/internal/collector/upf.go:168-180 | The length of an element, written where section 8.2.1 of 3GPP TS 29.274 puts it, is read exactly when its two octets and the instance octet agree. |
| Gtp.PacketIsBuilt | core/fairwave-control/internal/collector/upf.go:87-145 | Nothing else is accepted: a packet that gives a frame is one built of IP, UDP and GTP headers around it. |
| Gtp.InnerContextIsSkipped | core/fairwave-control/internal/collector/upf.go:183-190 | A context inside a context is skipped, whatever it holds. |
| Gtp.OverlongEndsWalk | core/fairwave-control/internal/collector/upf.go:171-176 | An element longer than the rest of the message ends the walk. |
| Gtp.ShortEndpointTeachesNothing | core/fairwave-control/internal/collector/upf.go:197-200 | An endpoint of fewer than five octets teaches nothing. |
| Gtp.LongNumbersAreCut | core/fairwave-control/internal/collector/upf.go:208-226 | A subscriber's number is cut after fifteen digits. |
| Accountant.UpfAccountant.Observe | core/fairwave-control/internal/collector/upf.go:271-282 | A packet has the effect of the event it means. |
| Accountant.UserPacketCounts | core/fairwave-control/internal/collector/upf.go:271-282 | A built user-plane packet counts exactly its payload on its tunnel. |
| Accountant.UpfAccountant.CountBytes | core/fairwave-control/internal/collector/upf.go:284-305 | Octets go to the tunnel's owner in its direction, or to unknown. |
| Accountant.UpfAccountant.LearnFrom | core/fairwave-control/internal/collector/upf.go:308-337 | A response binds the endpoints of its message to its subscriber; a deletion unbinds all of a subscriber's. |
| Accountant.UpfAccountant.TakeSnapshot | core/fairwave-control/internal/collector/upf.go:342-366 | The sessions listed, and the idle subscribers forgotten. |
| AccountantRuns.TableIsLatestBindings | core/fairwave-control/internal/collector/upf.go:308-337 | Over every history, a tunnel is owned exactly by its most recent binding not deleted since. |
| AccountantRuns.CountersAreCredits | core/fairwave-control/internal/collector/upf.go:284-305 | Every counter is the sum of the octets its subscriber owned when they passed, whatever snapshots were taken. |
| AccountantRuns.BytesAreConserved | core/fairwave-control/internal/collector/upf.go:271-366 | Over every sequence of packets and snapshots, all payload octets equal unknown plus the sum of all counters. |
| AccountantRuns.BytesStayListed | core/fairwave-control/internal/collector/upf.go:342-366 | No counter decreases, and a subscriber with octets is in every later snapshot with what it is owed. |
| AccountantRuns.ListedIff | core/fairwave-control/internal/collector/upf.go:342-366 | A snapshot lists a subscriber, with what it is owed, exactly when that is something or it owns a tunnel. |
| Directions.SessionDecidesDirection | core/fairwave-control/internal/collector/upf.go:229-238 | On built packets: after a session message of type 32 to 35 with a subscriber, a user packet on an endpoint of type 0 or 5 adds its length to the subscriber's uplink, and on one of type 1 or 6 to its downlink. |
| Directions.OtherTypesTeachNothing | core/fairwave-control/internal/collector/upf.go:229-238 | A tunnel with endpoints of other types only stays whose it was. |
| Directions.DeletionMakesUnknown | core/fairwave-control/internal/collector/upf.go:326-336 | After a message of type 36 or 37 octets on the subscriber's tunnels are unknown, and other tunnels stay. |
| Directions.OtherMessagesTeachNothing | core/fairwave-control/internal/collector/upf.go:308-337 | Any other message, or one without a subscriber, changes nothing. |
| Directions.ThreeOctets | core/fairwave-control/internal/collector/upf.go:271-305 | Two packets written out octet by octet count three octets up for types 0 and 5 and three down for 1 and 6. |
| Usage.Server.CurrentReadings | core/fairwave-control/internal/api/server.go:393-402 | A hash's reading is the sum over its sessions. |
| Usage.Server.FoldOne | core/fairwave-control/internal/api/server.go:405-446 | One reading moves the baseline, books its positive growth on the owning SIM and enforces its quota. |
| Usage.Server.EnforceQuota | core/fairwave-control/internal/api/server.go:453-472 | A usable SIM at or above a nonzero quota is suspended; nothing else changes. |
| Usage.Server.AccumulateUsage | core/fairwave-control/internal/api/server.go:389-449 | The loop over the table, in whatever order, gives every SIM its growth at once: the whole new state. |
| Usage.Server.CollectOnce | core/fairwave-control/internal/api/server.go:261-296 | The table is replaced, and issued SIMs seen in it become active; a failed poll changes nothing. |
| UsageRuns.StoredIsIncrements | core/fairwave-control/internal/api/server.go:389-449 | The fold telescopes: for a SIM in the store throughout, stored usage is the sum of the positive increments of its readings from zero. |
| UsageRuns.StoredAgainstReadings | core/fairwave-control/internal/api/server.go:409-417 | Stored usage is at least every reading and exceeds the last by exactly what was lost at resets; it equals the last if and only if the readings never went down. |
| UsageRuns.ResetIsCountedAgain | core/fairwave-control/internal/api/server.go:409-417 | One reset: readings of 10, 3 and 8 are stored as 15. |
| UsageRuns.GrownPastQuotaIsUnusable | core/fairwave-control/internal/api/server.go:436-472 | With fair use on, a SIM whose usage grew to a nonzero quota or beyond leaves the fold neither active nor issued. |
| UsageRuns.NoUsableSimPastQuota | core/fairwave-control/internal/api/server.go:261-472 | From a store in which no usable SIM has met its quota, no series of polls and folds leads to one, and a suspended SIM stays suspended. |
| UsageRuns.ReadingIsSum | core/fairwave-control/internal/api/server.go:396-402 | A hash is read exactly if some session reports it, and its reading is the sum over those that do. |
| QuotaRuns.FoldStatusIff | core/fairwave-control/internal/api/server.go:389-472 | A fold changes a SIM's status exactly if fair use is on, the SIM was active or issued, and its usage grew to a quota that is not zero; it is then suspended. Its quota never changes. |
| QuotaRuns.PollStatusIs | core/fairwave-control/internal/api/server.go:271-294 | A poll makes an issued SIM that its table names active, and changes no other status, quota or usage. |
| QuotaRuns.StatusIsHistory | core/fairwave-control/internal/api/server.go:261-472 | Over every run of polls and folds a SIM that started usable is suspended exactly if some fold grew it to its quota, and else an issued one is active exactly if some poll named it. |
| QuotaRuns.BelowQuotaStaysActive | core/fairwave-control/internal/api/server.go:462-464 | An active SIM with a quota of 1000 and a first reading of 10 octets stays active. |
| Metering.PollReadsCredit | core/fairwave-control/internal/collector/upf.go:342-366 | A poll reads, for every subscriber, exactly what the packets seen so far owe it. |
| Metering.StoredIsOwed | core/fairwave-control/internal/api/server.go:389-449 | End to end: over every sequence of packets, polls and folds, the stored usage of a SIM in the store throughout is exactly what the packets seen up to the last folded poll owe it. |
| Metering.PollAndFoldCatchUp | core/fairwave-control/internal/api/server.go:261-449 | A poll and a fold bring stored usage up to everything seen. |
| Cmac.ShiftLeft | core/esim/crypto/crypto.go:54-61 | The octet-wise shift is multiplication by x without the coefficient of x^128. |
| Cmac.ShiftAndAddIsDoubling | core/esim/crypto/crypto.go:36-51 | Shifting and, when the top bit was set, adding 0x87 is multiplication by x in the field of section 6.1 of NIST SP 800-38B. |
| Cmac.DoubledIsTheResidue | core/esim/crypto/crypto.go:26-28 | That product is the only polynomial below degree 128 congruent to x times the block modulo x^128+x^7+x^2+x+1. |
| Cmac.DoublingIsInjective | core/esim/crypto/crypto.go:36-51 | Different cipher outputs give different subkeys. |
| Cmac.PolyOfBlockOf | core/esim/crypto/crypto.go:30-61 | Blocks and polynomials below degree 128 correspond (with BlockOfPolyOf). |
| Cmac.BlockOfPolyOf | core/esim/crypto/crypto.go:30-61 | The other direction of that correspondence. |
| Cmac.CmacSubkeys | core/esim/crypto/crypto.go:30-52 | The subkeys are L.x and L.x.x, where L is the cipher of the zero block. |
| Cmac.CMAC | core/esim/crypto/crypto.go:64-115 | For every message length, empty and partial included, the loop computes the MAC; a key that is not 16 octets is refused. |
| Cmac.MacIsChain | core/esim/crypto/crypto.go:64-115 | That MAC is steps 2 to 7 of section 6.2: the cipher chain over the blocks with the last one masked by the subkey for complete or padded messages. |
| Cmac.FormatDeterminesMessage | core/esim/crypto/crypto.go:78-92 | The blocks and the choice of subkey determine the message. |
| Cmac.KDF | core/esim/crypto/crypto.go:128-150 | Counter-mode key material of the requested length from a 16- or folded 32-octet key, or an error. |
| Cmac.DerivedBlock | core/esim/crypto/crypto.go:136-149 | Block i of the material is the MAC of the context and the counter, whatever length was asked for. |
| Cmac.DeriveSessionKeys | core/esim/crypto/crypto.go:172-210 | The four session keys are the MACs of their labelled contexts under the folded secret. |
| Cbc.Pkcs7Pad | core/esim/crypto/crypto.go:256-264 | The loop appends the padding of section 6.3 of RFC 5652. |
| Cbc.Pkcs7Unpad | core/esim/crypto/crypto.go:266-280 | The loop checks every padding octet. |
| Cbc.UnpadIff | core/esim/crypto/crypto.go:256-280 | Unpadding gives p exactly on the padding of p: inverse both ways. |
| Cbc.Encrypt | core/esim/crypto/crypto.go:214-231 | The vector followed by the chained encryption of the padded payload. |
| Cbc.Decrypt | core/esim/crypto/crypto.go:234-254 | Refuses short or ragged input, else unchains and unpads. |
| Cbc.DecryptUndoesEncrypt | core/esim/crypto/crypto.go:214-254 | Decrypt undoes Encrypt for every payload, key and vector. |
| Cbc.DecryptIff | core/esim/crypto/crypto.go:214-254 | Decrypt gives a payload exactly when its input is an encryption of that payload. |
| Cmac.PaddedOctets | core/esim/crypto/crypto.go:84-92 | An incomplete last block is followed by one set bit and zeros. |
| Cmac.KeysOfSecret | core/esim/crypto/crypto.go:154-210 | The four session keys of a 32-octet secret are the MACs of the labels 1 to 4, padded, with counter one, under the exclusive or of its halves. |
| Cbc.CbcChains | core/esim/crypto/crypto.go:226-230 | Every ciphertext block is the cipher of its plaintext block and the ciphertext block before it, the first one of the vector. |
| Cbc.PaddingOctets | core/esim/crypto/crypto.go:256-264 | The padding is between one and sixteen octets, each of them their number. |
| Luhn.ComputeLuhn | core/esim/profile/profile.go:130-148 | The loop from the right computes the check digit, or -1 when a character is not a digit. |
| Luhn.ValidLuhn | core/esim/profile/profile.go:152-162 | The comparison of check digits decides the defining property: the alternately doubled sum is divisible by ten. |
| Luhn.NewICCID | core/esim/profile/profile.go:165-171 | A minted ICCID has its prefix, and is valid and 20 digits long exactly when the operator code is digits; a code over 14 characters is refused. |
| Luhn.NewEID | core/esim/profile/profile.go:176-179 | Every minted EID has 32 digits and is valid, and so is its prefix up to the first check digit. |
| Luhn.SingleDigitErrorsAreDetected | core/esim/profile/profile.go:130-162 | A valid identifier of any length with one digit set to c stays valid exactly when that digit was c. |
| Luhn.NeighbourSwapsDetectedIff | core/esim/profile/profile.go:130-162 | Swapping two neighbours goes unnoticed exactly when they are equal or are 0 and 9. |
| Luhn.ValidByPlace | core/esim/profile/profile.go:130-162 | An identifier is valid exactly when it is two or more digits whose sum, doubling every second one from the right, is a multiple of ten. |
| Esim.Registry.AddWithExpiry | core/esim/registry/registry.go:200-220 | A new code is added undownloaded; a registered one is refused and untouched. |
| Esim.Registry.ResolvePolicy | core/esim/registry/registry.go:249-263 | Unknown, expired and used codes are refused in that order, else the profile. |
| Esim.Registry.MarkDownloaded | core/esim/registry/registry.go:267-277 | Only that code's download mark changes. |
| Esim.Registry.Revoke | core/esim/registry/registry.go:291-299 | Exactly that code disappears. |
| Smdp.Server.InitiateAuthentication | core/esim/smdp/smdp.go:172-221 | Each refusal, and otherwise the new session and the reply. |
| Smdp.Server.AuthenticateClient | core/esim/smdp/smdp.go:240-286 | Only a right proof in a pending session authenticates it and stores its keys, even if the reply is then an error; the reply is metadata without credentials. |
| Smdp.Server.GetBoundProfilePackage | core/esim/smdp/smdp.go:295-346 | A package for an authenticated or confirmed session whose code still resolves; counter, seal and download mark. |
| Smdp.Server.ConfirmOrder | core/esim/smdp/smdp.go:355-372 | Confirms authenticated or confirmed sessions only. |
| Smdp.Server.HandleNotification | core/esim/smdp/smdp.go:381-394 | Refused exactly for malformed requests and for unknown or cancelled sessions. |
| Smdp.Server.CancelSession | core/esim/smdp/smdp.go:398-409 | Cancels any session that is not cancelled yet. |
| SmdpRuns.OnePackagePerAddition | core/esim/smdp/smdp.go:295-346 | Over any interleaving of sessions, additions and revocations: a code's download mark says exactly whether a package was delivered since it was added, and single-use codes yield at most one package per addition. |
| SmdpRuns.CancelReleasesIff | core/esim/smdp/smdp.go:396-409 | Cancelling releases a single-use code exactly when no package was delivered for it since it was added and it has not expired. |
| SmdpRuns.SessionsAreExact | core/esim/smdp/smdp.go:240-372 | A session's counter is the number of packages delivered since it was opened; a session that may deliver, or ever did, has had a proof accepted since then and holds the keys both ends derive. |
| SmdpRuns.NoPackageBeforeProof | core/esim/smdp/smdp.go:295-346 | No package precedes a valid proof, and packages are numbered from one without gaps. |
| SmdpRuns.StatusNeverGoesBack | core/esim/smdp/smdp.go:43-48 | Whatever the other sessions do, a session only moves forward in pending < authenticated < confirmed < cancelled, keeps its identity, and once cancelled never changes. |
| SmdpHistory.StatusIsHistory | core/esim/smdp/smdp.go:172-409 | Over every interleaving a session is cancelled if that was asked for since it was opened, else confirmed if a result was reported after its proof, else authenticated if a proof was accepted, and else pending. |
| SmdpHistory.PackageIff | core/esim/smdp/smdp.go:295-303 | A package is delivered exactly if the proof was accepted, nothing was cancelled, and the code resolves. |
| SmdpHistory.ConfirmIff | core/esim/smdp/smdp.go:355-372 | A result is taken exactly if it is one of the two, the proof was accepted and nothing was cancelled. |
| SmdpHistory.NotifyAndCancelIff | core/esim/smdp/smdp.go:381-409 | Notifications and cancellations are taken exactly by sessions that were opened and not cancelled. |
| SmdpHistory.ProofIff | core/esim/smdp/smdp.go:240-268 | A proof is accepted exactly if the session is pending and it is the MAC, under the first key of the shared secret, of the server's challenge followed by the client's. |
| SmdpHistory.OpenedIff | core/esim/smdp/smdp.go:172-190 | A session is opened exactly if nothing is missing, the identifier is 32 digits with a right check digit, the code resolves, and its profile is bound to no eUICC or to this one. |
| SmdpHistory.OpenedSession | core/esim/smdp/smdp.go:199-220 | The opened session is for this eUICC, code and profile, with nothing proven and nothing delivered. |
| SmdpHistory.ResolvesIff | core/esim/registry/registry.go:249-263 | A code resolves exactly if it is registered, has not expired, and is not a used one of single use. |
| SmdpHistory.PackageIs | core/esim/smdp/smdp.go:304-345 | A package carries the next number, the profile under the fourth key, and a MAC under the second. |
| Euicc.EUICC.Download | core/esim/euicc/euicc.go:61-212 | For arbitrary server replies: the requests sent, the outcome, and all-or-nothing; a failed run leaves profiles and history exactly as before. |
| Euicc.EUICC.Remove | core/esim/euicc/euicc.go:220-228 | Deletes the profile and the first occurrence of its identifier. |
| Euicc.RemoveUndoesInstall | core/esim/euicc/euicc.go:185-209 | Installing and rolling back is the identity. |
| Euicc.DownloadKeepsListing | core/esim/euicc/euicc.go:185-193 | The history stays a duplicate-free listing of the installed identifiers when a download succeeds. |
| Euicc.RemoveKeepsListing | core/esim/euicc/euicc.go:220-228 | And when a profile is removed. |
| Euicc.InstalledWasSealed | core/esim/euicc/euicc.go:128-170 | Whatever the server replied, an installed profile came in a package with the MAC of the agreed keys and is what the decrypted payload decodes to. |
| Euicc.CancelsIff | core/esim/euicc/euicc.go:107-176 | On the replies: a cancel is sent exactly when the first reply leads to an agreement and the server then refuses the proof or the package, or answers with a package that does not fit. |
| Euicc.LeavesOpenIff | core/esim/euicc/euicc.go:56-212 | On the replies: a failed download leaves its session uncancelled exactly when the server's key or challenge cannot be used, a later reply is lost, or confirmation or notification fails. |
| Euicc.LostReplyLeavesOpen | core/esim/euicc/euicc.go:119-122 | When the reply to the proof is lost the download fails and its session stays uncancelled. |
| Euicc.InstalledIsInstallable | core/esim/euicc/euicc.go:164-182 | An installed profile is well formed, meant for this chip, and was not there before. |
| Euicc.ListingAlways | core/esim/euicc/euicc.go:61-228 | Over any series of downloads, failed or not, and removals the history lists exactly the installed profiles, each once. |
| Euicc.RequestsAre | core/esim/euicc/euicc.go:61-212 | The requests a download makes are the first of the five, as far as the replies take it, and perhaps a cancellation; it succeeds exactly if all five are made and the last is answered. |
| Euicc.ProofSent | core/esim/euicc/euicc.go:86-110 | The proof sent is the MAC, under the first key of the shared secret, of the server's challenge and the client's. |
| Euicc.InstallableIff | core/esim/profile/profile.go:110-127 | What may be installed, spelt out. |
| Euicc.EUICC.ListProfiles | core/esim/euicc/euicc.go:231-243 | Every installed profile, once, by strictly ascending identifier. |
| Euicc.SortedListingIsUnique | core/esim/euicc/euicc.go:236-242 | That listing does not depend on the order of map iteration. |
| Euicc.SortById | core/esim/euicc/euicc.go:237-241 | The insertion sort permutes its array into ascending order. |
| HonestDownload.OthersDoNotDisturb | core/esim/smdp/smdp.go:84-102 | Requests of other transactions and registry changes leave a session as it is. |
| HonestDownload.KeysAgree | core/esim/crypto/crypto.go:172-210 | Client and server derive the same four keys. |
| HonestDownload.ProofIsAccepted | core/esim/smdp/smdp.go:240-268 | The server accepts the honest client's proof. |
| HonestDownload.PackageOpens | core/esim/euicc/euicc.go:128-163 | Unsealing the server's package gives back the payload it sealed. |
| HonestDownload.HonestDownloadIff | core/esim/euicc/euicc.go:56-212 | With other sessions served in between, an honest download succeeds exactly when the code resolves at its three requests and the profile is installable, and installs exactly the profile the code resolved to. |
| HonestRuns.RunsLeaveAlone | core/esim/smdp/smdp.go:84-102 | In a run of the server in which no other request uses the transaction, nothing disturbs the download's session between its requests. |
| HonestRuns.HonestRunIff | core/esim/euicc/euicc.go:56-212 | In every such run an honest download succeeds exactly when the code resolves at its three requests and the profile is installable; it installs the profile the code resolved to and leaves the session confirmed. |
| HonestRuns.OwnAreMade | core/esim/euicc/euicc.go:61-212 | The requests of such a run are the ones the client makes. |
| HonestRuns.LossyDownloadIff | core/esim/euicc/euicc.go:61-212 | With replies lost from some point on it succeeds exactly if all five are heard as well. |
| HonestRuns.CodeSurvivesIff | core/esim/smdp/smdp.go:336-342 | Whatever fails, the chip is as before; but a single-use code resolves again only if the server had not delivered the package yet. |
| HonestRuns.CancelledAfterDelivery | core/esim/smdp/smdp.go:396-409 | A run from an empty server: a code is added, delivered and cancelled; the cancellation is accepted and the code stays used up. |
| HonestRuns.MarkedIff | core/esim/registry/registry.go:267-277 | A code that is not revoked is marked exactly by the packages delivered for it. |
| HonestDownload.HonestEnding | core/esim/smdp/smdp.go:355-394 | The server then ends with the session confirmed and one more package counted. |

## Left out

- Sockets, HTTP handlers, packet capture, Docker, mDNS, metrics, the CLI and the dashboard: input and output only.
- Persistence (file-backed stores, registry encryption at rest, backup and restore): the maps in memory are modelled and saves succeed.
- AES, P-256, SHA-256, AES-GCM, FNV and random number generation: library code, parameters here.
- The bytes of JSON and DER: the codecs are parameters that are undone by their decoders. A DER encoding that fails is therefore not modelled.
- Activation-code strings, lifecycle phases, spectrum policy, RBAC, configuration and HSS documents: each is settled by reading one function.
- `Engine.Restore`, `DeleteWeave` and `Status`, and the speed-up and aggregate figures in a bench report: no state the results depend on.
- Synthetic loss, egress send errors, `WeaveStats` and the echo a node sends for a foreign probe.
- SIM import, re-issue and expiry, which overwrite status freely: the quota runs consist of polls and folds.
- Audit entries, alerts and webhooks around the fold.
- `EnableProfile`, `DisableProfile`, the EF files in BCD, and the profile's expiry, which no download checks.
- A crash of a node or server between two steps.
- Weave.EgressIsSubsequence: runs of fewer than 2^64 actions, because the number in the header would wrap.
- Smdp.Server.GetBoundProfilePackage: the two registry locks it takes in turn are one step, so two concurrent requests for one code cannot pass between them.
- Sched.RankHeadIsPick: the ranking is any sorted listing, because the sort is a library call; Sched.RankingIsUnique says there is only one.
- HonestRuns.HonestRunIff: nobody else uses the transaction meanwhile, which another client that knows its name could do.
- HonestDownload.HonestDownloadIff: the server's states between requests are given; HonestRuns.HonestRunIff has them from a run.
- Bearer.Registry.Upsert: without the last-seen time and the box and SIM a thread belongs to, which no scheduling reads.
- Fabric.Engine.CreateWeave: without a weave's anchor name, mode and creation time, which nothing modelled reads.
- Fabric.Engine.Ingest: without an egress that refuses a payload, because the egress is taken to accept everything.
- Bench.RunBench: without the aggregate, single-link, speed-up and elapsed figures of the report.
- Health set by an operator (`core/fairwave-control/internal/api/hydra.go:78`): the runs of Probes consist of a node's own steps.
- Probes.SilentLinkGoesDown: passes follow one another, as the one probing loop of a node makes them.
- Accountant.UpfAccountant.TakeSnapshot: without the constant access point and phase and the time of a session; its hash is added in Metering.
- Gtp.StandardLengthReadIff: one element, not the walk over a whole message in the standard's layout.
