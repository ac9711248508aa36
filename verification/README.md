# Verification of the Selective Connection transport

Selective Connection sends application messages over several wireless adapters at once (Bluetooth and Wi-Fi Direct) and
switches between them. This project models its logic in Dafny and proves what the parts promise together.

* **Segment transport** (`Segments`, `LinuxQueue`, `AndroidQueue`, `SentList`, `SegmentManager`, `Transport`,
  `TransportSteps`, `TransportRuns`, `TransportRecovery`, `TransportLiveness`, `TransportDelivery`, `TransportTail`,
  `TransportCopies`, `TransportLaws`, `TransportWitnesses`, `AndroidDraining`). Linux cuts messages into numbered
  segments, several producers and several sender threads share its queues, and every popped segment is re-filed as
  failed or sent. Android rebuilds the order, asks for missing ranges and acknowledges progress. Queues and lists are
  classes proved against functions on values; `Transport` puts these functions into a step system with one event per
  critical section, and a channel that loses, repeats and reorders. The theorems speak about every run.
* **Packets and messages** (`Segmentation`, `PacketStream`, `WireFormat`, `ProtocolManager`): headers, fragments, the
  540-byte form of a segment, and reassembly on both sides. They lift the transport theorem from segments to messages.
* **Control messages** (`ControlMessages`): decimal text printed and parsed by both sides.
* **Adapter switch** (`AdapterSwitch`, `AdapterSwitchLaws`): the transaction connect, sleep, disconnect beside the
  sender thread of the previous adapter, one step per state access of either thread.
* **Energy prediction** (`Energy`): the two simulations of one switch timeline, over exact reals.
* **Switch filter** (`Hysteresis`): the serial counters and the cool-down window over whole histories.
* **CSV** (`LineReader`, `CsvColumns`): the block-rotating line reader and the in-place column parser.

Operations that update state are methods over class fields or arrays; each is proved equal to a function, and the
results below are about these functions, or about runs built from them.

Where the code does less than its documentation or its names suggest, the exact condition is proved, for all inputs or
runs, and a run or an input shows that it is missed:

* The Linux receiver's 16-bit offset limits messages to 66042 bytes (`Segmentation.LinuxExactReach`); later messages are
  read back all the same (`PacketStream.PrefixGivesMessages`).
* The Android pending list is not sorted. It drains by itself exactly if every arrival is the least number missing or
  larger than all before it (`AndroidDraining.DrainsExactly`); after one gap check it always does
  (`AndroidQueue.Recovery`).
* A retransmission only joins the failed list and wakes nobody. It is sent without a new message or a command exactly if
  some sender is in its loop with an active adapter and not caught in dequeue (`TransportLiveness.SentAgainExactly`,
  `TransportTail.RetransmissionExactly`). Losing one segment is enough to get stuck (`TransportWitnesses.StuckHappens`).
* The loss of the last segments of a class goes unnoticed until its next message (`TransportTail.TailLossExactly`,
  `TransportWitnesses.TailLossHappens`). That message repairs it without any command exactly if some sender is in its
  loop with an active adapter (`TransportDelivery.NextMessageDeliversAll`).
* A loop that breaks off on a failed send is never entered again: its adapter stays active or going to sleep, rejects a
  connection, and is never seen asleep. With one more message all messages can still be delivered exactly if some sender
  has not broken off (`TransportDelivery.AlwaysDeliverable`); the first send can break off the only one
  (`TransportWitnesses.BreakingOffHappens`).
* An acknowledgement frees a segment that is still to be sent again exactly if the segment was asked for again at least
  as often as it was filed as sent (`TransportCopies.FreesInUseExactly`, `TransportWitnesses.FreesInUseHappens`).
* A sender that leaves its loop before it parks makes the switch transaction wait forever
  (`AdapterSwitch.FinishesUnlessDoomed`). Left to itself, it also waits forever when the sender is caught in dequeue
  (`AdapterSwitch.FinishesUnlessStarved`). An idle switch can succeed, as its own Disconnect request brings the sender
  out of its loop (`AdapterSwitch.IdleSwitchSucceeds`); it fails to end when the next adapter's sender takes that
  request first (`AdapterSwitch.HungerHappens`).
* A switch from an adapter that already sleeps calls done twice (`AdapterSwitchLaws.AsleepEndsTwice`).
* The Android parser rejects sequence numbers from 2^31 on that Linux prints (`ControlMessages.AndroidReadsLinux`).
* Energy prediction fails exactly if too much served at WFD speed is charged as BT (`Energy.PredictEnergy`), which takes
  a window of fewer than twelve traffic slots.
* The 15 s window is lost when a part of the recorded time is zero (`Hysteresis.CoolDownExactly`).
* The line reader runs over behind a last line without a newline exactly if a newline happens to stand behind the data,
  at a place that the length of the file and the block length determine (`LineReader.ReadAll`).
* A text from Android has no NUL. Linux reads its last number together with the digits that stand behind it in memory
  (`ControlMessages.BuffersRoundTrip`, `ControlMessages.DigitBehindIsRead`).

## Model

| member | source | states |
|---|---|---|
| `TransportRuns.PrefixSafety` | android/app/src/main/java/com/redcarrottt/sc/internal/SegmentManager.java:216-377 | In every run, with any number of producers and senders, failures, commands to the adapters, retransmissions and a channel that loses, repeats and reorders: what Android delivered of a class is a prefix of the numbered stream Linux reserved, and the messages read from what the application took are exactly the whole messages inside that prefix, in reservation order, once each, unchanged |
| `TransportRuns.CompleteDelivery` | android/app/src/main/java/com/redcarrottt/sc/internal/SegmentManager.java:216-269 | Once as many segments were taken as Linux reserved, the received messages are all messages sent |
| `TransportRuns.NoLoss` | linux/core/src/SenderThread.cpp:102-220 | At every step each reserved number is still with its producer, in the send queue, held by a sender, failed, sent, or acknowledged |
| `TransportRuns.FreedIsNeverRequested` | android/app/src/main/java/com/redcarrottt/sc/internal/SegmentManager.java:506-571 | However long a queue-status notice is under way, every gap request made when it was sent or later lies entirely above every number the notice frees |
| `TransportRuns.ExpectedNeverDecreases` | android/app/src/main/java/com/redcarrottt/sc/internal/SegmentManager.java:272-377 | Along every run the wanted number of a class never goes down |
| `TransportRuns.RequestsAreServable` | linux/core/src/SegmentManager.cpp:472-504 | Every number Android can ask for was reserved and is still kept somewhere on Linux |
| `TransportRuns.ReleasedInOrder` | linux/core/src/SegmentManager.cpp:318-347 | For every interleaving of producers and senders the segments a run takes from a send queue are exactly the next stretch of the numbered stream, in order |
| `TransportRuns.PacketsLeaveWhole` | linux/core/src/SegmentManager.cpp:63-128 | Concurrent producers do not interleave packets: the segments of message k leave one directly behind the other at the place its reservation fixed, with MF on exactly the non-final ones |
| `TransportRuns.StepReleases` | linux/core/src/SegmentManager.cpp:279-347 | One step releases nothing, or exactly the next segment of the stream of the class it dequeues from |
| `TransportSteps.StepKeepsInv` | linux/core/src/SenderThread.cpp:79-222 | Every one of the nineteen steps keeps the invariant that ties both sides, the lists, the channel and the notices to the numbered streams |
| `TransportSteps.SendQueueAccepts` | linux/core/inc/SegmentQueue.h:54-68 | In every reachable interleaving the asserts of the sorted send queue hold: a number is enqueued once and never below the wanted one |
| `TransportSteps.ReserveLane` | linux/core/src/SegmentManager.cpp:40-48 | A reservation extends the stream by one packet and gives the new numbers to exactly one producer |
| `TransportSteps.EnqueueOneInv` | linux/core/src/SegmentManager.cpp:80-125 | Enqueueing one reserved segment moves its number from the producer into the queue and keeps the invariant |
| `TransportSteps.SenderInv` | linux/core/src/SenderThread.cpp:84-144 | Taking a failed segment, the pause check and the recheck drop no segment: what was held is held on or in the failed list |
| `TransportSteps.SendFailsInv` | linux/core/src/SenderThread.cpp:156-206 | A failed send gives its segment back to the failed list, whether the sender goes on or leaves its loop |
| `TransportSteps.FileSentInv` | linux/core/src/SenderThread.cpp:208-220 | A transmitted segment is filed in the sent list of its own class and nothing of the other class is lost |
| `TransportSteps.OnNoticeInv` | linux/core/src/SegmentManager.cpp:416-504 | Acknowledgements and retransmission requests handled at any later time keep the invariant |
| `TransportLiveness.BecomesQuiet` | linux/core/src/SenderThread.cpp:79-222 | From every state of the invariant in which some sender is in its loop with an active adapter and not caught in dequeue, the threads alone, without a message or a command, enqueue, transmit and file all Linux has |
| `TransportLiveness.QuietOrCloser` | linux/core/src/SenderThread.cpp:84-220 | As long as such a sender is there and Linux has work, some step of the threads reduces a measure of it and leaves that sender able to go on |
| `TransportLiveness.NoEnqueueIsMissed` | linux/core/src/SegmentManager.cpp:211-276 | In every reachable state a sender waiting in dequeue sees two empty send queues: the notification of an enqueue is never lost |
| `TransportLiveness.SentAgainExactly` | linux/core/src/SegmentManager.cpp:396-402 | In every reachable state with something in the failed list: left alone, without a message or a command, Linux finishes its work exactly if some sender is in its loop with an active adapter and not waiting (or about to wait) in dequeue with empty queues and nobody to notify it |
| `TransportLiveness.StuckForever` | linux/core/src/SegmentManager.cpp:266-276 | Otherwise something stays to be sent again, and nobody able to, in every run without a message or a command |
| `TransportLiveness.BringUpExactly` | linux/core/src/ServerAdapter.cpp:62-112 | In every reachable state: without a message, commands to the adapters and the steps of the threads can bring a sender back to fetching exactly if some sender has not broken off and, where its adapter is going to sleep or disconnecting, is not waiting or about to wait in dequeue with nobody left to notify it |
| `TransportLiveness.LastOneFiles` | linux/core/src/SenderThread.cpp:145-206 | The step in which the last sender breaks off leaves a segment in the failed list |
| `TransportLiveness.AllBrokenStays` | linux/core/src/ServerAdapter.cpp:62-112 | Senders that have all broken off stay so in every step, whatever is commanded, and nothing new gets on the wire |
| `TransportLiveness.SideRunForwards` | linux/core/src/SenderThread.cpp:102-220 | Whatever the sending side does, a segment that is on the wire or still to get there stays so, and the receive queues, the history and the notices are untouched |
| `TransportDelivery.NextMessageDeliversAll` | android/app/src/main/java/com/redcarrottt/sc/internal/SegmentManager.java:506-544 | In every reachable state in which a producer can reserve for a message: that message alone, without any command, can bring every message of the class across, once, in order and unchanged, exactly if some sender is in its loop with an active adapter, be it waiting in dequeue |
| `TransportDelivery.AlwaysDeliverable` | android/app/src/main/java/com/redcarrottt/sc/internal/SegmentManager.java:501-586 | In every reachable state, whatever was lost, repeated, failed or commanded: some continuation with one more message of the class ends with every message of the class received, once, in order and unchanged, exactly if some sender has not broken off |
| `TransportDelivery.RecoveryRun` | android/app/src/main/java/com/redcarrottt/sc/internal/SegmentManager.java:506-544 | From every reachable state in which some sender can go on, without a message or a command: a gap check, its answers and the work of the threads form a run after which nothing is pending and the wanted number passed everything that was pending, wherever Linux had the missing segments |
| `TransportDelivery.GetsOnWire` | linux/core/src/SenderThread.cpp:102-220 | A segment that is failed, held or not yet filed as sent gets onto the wire by the threads alone, and the sender that could go on still can |
| `TransportDelivery.ArrivalSees` | android/app/src/main/java/com/redcarrottt/sc/internal/SegmentManager.java:299-369 | A number is taken or pending after an arrival exactly if it was before or is the one that came: nothing received is forgotten, nothing else appears |
| `TransportTail.TailLossExactly` | android/app/src/main/java/com/redcarrottt/sc/internal/SegmentManager.java:520-544 | With Linux quiet and the channel empty, wherever the senders stand in their loops and whatever their adapters do, Android can get further without a new message of the class exactly if something is pending: the loss of the last segments is not noticed, as a gap is only seen when something behind it arrived |
| `TransportTail.RetransmissionExactly` | linux/core/src/SegmentManager.cpp:472-504 | From there, left alone without a message or a command, Android gets further exactly if something is pending and some sender is in its loop with an active adapter and not caught in dequeue |
| `TransportWitnesses.TailLossHappens` | android/app/src/main/java/com/redcarrottt/sc/internal/SegmentManager.java:520-544 | A reachable state with Linux quiet, the channel empty, nothing pending, and a reserved segment that Android has not got |
| `TransportWitnesses.MayGetStuck` | linux/core/src/SegmentManager.cpp:266-276 | From every reachable state in which Linux is quiet and something is pending, leaving the system alone can end with the answered retransmission in the failed list and nobody to send it |
| `TransportWitnesses.StuckHappens` | linux/core/src/SegmentManager.cpp:396-402 | Such a state is reachable with every sender in its loop and its adapter active, by two messages of which the first is lost |
| `TransportWitnesses.BreakingOffHappens` | linux/core/src/SenderThread.cpp:145-206 | A reachable state with a producer and a sender from which no continuation delivers one more message: the first send breaks off |
| `TransportCopies.FreesInUseExactly` | linux/core/src/SegmentManager.cpp:416-504 | After every run: a notice frees a segment that waits to be sent again, or that a sender holds, exactly if it covers a segment in the sent list that the run repeated on request at least as often as it filed it as sent |
| `TransportCopies.SentBalance` | linux/core/src/SegmentManager.cpp:396-536 | In every run a segment in the sent list has been filed, and its copies in the failed list and with senders number its repetitions less its filings after the first |
| `TransportCopies.RunBalanced` | linux/core/src/SenderThread.cpp:102-220 | Over any run copies in use arise by dequeueing and by answering a request, and end by filing, one each |
| `TransportCopies.UnaskedIsNotInUse` | linux/core/src/SegmentManager.cpp:472-504 | A segment in the sent list that nobody asked for again is neither in the failed list nor held by a sender |
| `TransportCopies.FreesInUseIs` | linux/core/src/SegmentManager.cpp:416-465 | What such a notice frees, Android has received by then |
| `TransportWitnesses.FreesInUseHappens` | linux/core/src/SegmentManager.cpp:416-465 | Such an acknowledgement is reachable: a segment is asked for again, arrives late, and is acknowledged before it is sent again |
| `TransportLaws.StatusFreesReceived` | android/app/src/main/java/com/redcarrottt/sc/internal/SegmentManager.java:558-571 | In every reachable state in which Android can acknowledge: the step adds a notice and drops none, and handled at once this frees, of both classes, exactly the sent segments Android has received; everything received is acknowledged then |
| `TransportLaws.FailedIsFifo` | linux/core/src/SegmentManager.cpp:396-414 | Over any run, with any number of senders, segments are taken off the failed list in the order in which they were given back or asked for again |
| `TransportLaws.ControlGoesFirst` | linux/core/src/SegmentManager.cpp:279-347 | A sender in dequeue gets a segment exactly if a send queue has one: the next of the control stream if there is one, else the next of the data stream |
| `TransportLaws.WokenExactly` | linux/core/src/SegmentManager.cpp:211-276 | In every reachable state a sender that waits in dequeue is woken exactly by an owed notification or when a send queue gets something to send |
| `TransportLaws.PausedGivesBack` | linux/core/src/SenderThread.cpp:136-144 | A sender told to sleep before it looks once more gives its segment back unsent and parks, in its next two steps |
| `TransportLaws.DisconnectedGivesBack` | linux/core/src/SenderThread.cpp:156-170 | A parked sender whose adapter is disconnected takes the first segment to be sent again, fails, gives it back behind the others and leaves its loop, in its next three steps |
| `TransportLaws.ConnectedParks` | linux/core/src/SenderThread.cpp:84-100 | A sender just connected and told to sleep parks before it takes anything |
| `TransportLaws.OwedExactly` | linux/core/src/ServerAdapter.cpp:515-521 | A pause owes the waiting senders one notification, and each one owed is given once |
| `TransportLaws.WireGrowsExactly` | linux/core/src/ServerAdapter.cpp:427-461 | A segment gets on the wire exactly when the sender that holds it sends it, and then its adapter is active |
| `TransportLaws.WireShrinksExactly` | android/app/src/main/java/com/redcarrottt/sc/internal/SegmentManager.java:272-299 | It leaves the wire exactly when it is lost or delivered for the last time |
| `TransportLaws.ChannelRepeats` | android/app/src/main/java/com/redcarrottt/sc/internal/SegmentManager.java:316-324 | A segment on the wire can be delivered any number of times and be lost after all |
| `TransportLaws.NoticesStay` | linux/core/src/SegmentManager.cpp:416-504 | A notice under way can be handled any number of times, and leaves only when it is lost |
| `TransportLaws.AsksForGaps` | android/app/src/main/java/com/redcarrottt/sc/internal/SegmentManager.java:520-544 | A gap check adds exactly the requests for what the receive queue of its class lacks |
| `TransportLaws.TakesOne` | android/app/src/main/java/com/redcarrottt/sc/internal/SegmentManager.java:437-448 | The application takes one segment at a time, the first there is |
| `TransportTail.SilentForever` | android/app/src/main/java/com/redcarrottt/sc/internal/SegmentManager.java:520-544 | When nothing of a class is under way or pending, no run without a new message of the class moves its wanted number |
| `TransportRecovery.AnswersRun` | linux/core/src/SegmentManager.cpp:472-504 | Answering the requests of a gap check appends exactly what the sent list holds of them to the failed list, range by range, and changes nothing else |
| `TransportRecovery.RefiledIsRequested` | linux/core/src/SegmentManager.cpp:472-504 | With none missing, that is exactly the requested segments of the stream, ascending |
| `LinuxQueue.EnqueueViews` | linux/core/inc/SegmentQueue.h:38-94 | Enqueueing a new number keeps the queue a view of what arrived: released and main are 0..expected-1 in order, pending is the strictly sorted rest, the wanted number is missing; the wanted number grows exactly if it was the one that came |
| `LinuxQueue.DequeueViews` | linux/core/inc/SegmentQueue.h:96-107 | A dequeue releases the lowest number not yet released and keeps the view |
| `LinuxQueue.ExpectedIsLeastMissing` | linux/core/inc/SegmentQueue.h:111 | The wanted number is the least number that has not arrived |
| `LinuxQueue.OrderOfArrivalLeavesNoTrace` | linux/core/inc/SegmentQueue.h:38-94 | Two queues with the same arrivals and releases are equal, whatever the order of arrival was |
| `LinuxQueue.PermutationDrains` | linux/core/inc/SegmentQueue.h:76-91 | Any permutation of the segments 0..n-1 ends with all of them in main, in order, and pending empty |
| `LinuxQueue.FindPosition` | linux/core/inc/SegmentQueue.h:60-73 | The iterator stops exactly where sorted insertion puts the segment |
| `LinuxQueue.SegmentQueue.Enqueue` | linux/core/inc/SegmentQueue.h:38-94 | The two loops over the lists compute the specified queue and report whether the consecutive run grew |
| `LinuxQueue.SegmentQueue.Dequeue` | linux/core/inc/SegmentQueue.h:96-107 | Takes the first segment of main and leaves the rest alone; nothing on an empty list |
| `AndroidQueue.ReceivedSafe` | android/app/src/main/java/com/redcarrottt/sc/internal/SegmentManager.java:299-369 | Any genuine segment, late, early or repeated, keeps taken plus main a prefix of the stream, although pending is not sorted |
| `AndroidQueue.ArrivalExactly` | android/app/src/main/java/com/redcarrottt/sc/internal/SegmentManager.java:299-369 | One arrival: a late one changes nothing; an early one joins the pending, repeated or not, and nothing else happens; the wanted one is followed by what was pending behind it |
| `AndroidQueue.LandsBehindFirstLarger` | android/app/src/main/java/com/redcarrottt/sc/internal/SegmentManager.java:326-331 | A new segment lands directly behind the first larger one, or at the end where there is none |
| `AndroidQueue.GapsExactly` | android/app/src/main/java/com/redcarrottt/sc/internal/SegmentManager.java:525-542 | For any pending list a number is requested exactly if it lies from the wanted number to the largest pending one and does not stand in pending as a new maximum |
| `AndroidQueue.GapsComplete` | android/app/src/main/java/com/redcarrottt/sc/internal/SegmentManager.java:525-542 | No missing number is left out of the requests, in whatever order pending is |
| `AndroidQueue.GapsExactWhenSorted` | android/app/src/main/java/com/redcarrottt/sc/internal/SegmentManager.java:525-542 | On a sorted pending list exactly the missing numbers are requested |
| `AndroidQueue.GapsSpaced` | android/app/src/main/java/com/redcarrottt/sc/internal/SegmentManager.java:525-542 | The requested ranges are non-empty, ascending, disjoint and separated by a held number |
| `AndroidQueue.Recovery` | android/app/src/main/java/com/redcarrottt/sc/internal/SegmentManager.java:299-369 | From any settled queue, sorted or not, with or without duplicates: when the ranges of one gap check arrive ascending, each segment is the wanted one on arrival, pending ends empty and the wanted number passes everything that was pending |
| `AndroidQueue.RecoveredUpToMaximum` | android/app/src/main/java/com/redcarrottt/sc/internal/SegmentManager.java:525-542 | That final number is one past the largest pending number |
| `AndroidQueue.PurgeKeepsGaps` | android/app/src/main/java/com/redcarrottt/sc/internal/SegmentManager.java:348-368 | Dropping obsolete and taking consecutive pending segments changes no gap request |
| `AndroidQueue.PurgeEmptiesExactly` | android/app/src/main/java/com/redcarrottt/sc/internal/SegmentManager.java:348-368 | Draining leaves nothing pending exactly if there is nothing to ask for |
| `AndroidDraining.DrainsExactly` | android/app/src/main/java/com/redcarrottt/sc/internal/SegmentManager.java:299-369 | When a whole stream has arrived, each segment once and in any order, pending is empty without a gap check exactly if every arrival was the least number missing or larger than all before it |
| `AndroidDraining.SortsExactly` | android/app/src/main/java/com/redcarrottt/sc/internal/SegmentManager.java:326-331 | For any arrivals without repetition the unsorted queue equals the sorted Linux queue exactly under the same condition |
| `AndroidDraining.WedgedForever` | android/app/src/main/java/com/redcarrottt/sc/internal/SegmentManager.java:326-346 | A number that landed behind a larger one stays pending, whatever else arrives, until it is sent again |
| `AndroidQueue.FindCursor` | android/app/src/main/java/com/redcarrottt/sc/internal/SegmentManager.java:326-331 | The list iterator's cursor ends behind the first larger number, or at the end where there is none, and the specified insertion puts the segment there |
| `AndroidQueue.ReceiveQueue.Enqueue` | android/app/src/main/java/com/redcarrottt/sc/internal/SegmentManager.java:299-374 | The branch on the number and the loop over pending compute the specified queue and report whether a reader has to be woken |
| `AndroidQueue.ReceiveQueue.Dequeue` | android/app/src/main/java/com/redcarrottt/sc/internal/SegmentManager.java:437-448 | Takes the first segment of the queue, or none |
| `AndroidQueue.ReceiveQueue.CheckMissing` | android/app/src/main/java/com/redcarrottt/sc/internal/SegmentManager.java:506-544 | The scan sends exactly the specified gap requests, in order |
| `SentList.RunExactly` | linux/core/src/SegmentManager.cpp:416-536 | After any history of insertions, acknowledgements and retransmissions the list is strictly ascending and holds exactly the inserted numbers no later acknowledgement reached |
| `SentList.InsertedIs` | linux/core/src/SegmentManager.cpp:506-536 | Inserting keeps the list strictly ascending, adds only a new number, and drops nothing |
| `SentList.FreedIs` | linux/core/src/SegmentManager.cpp:424-435 | Freeing keeps exactly the numbers above the acknowledgement, in order |
| `SentList.InRangeIs` | linux/core/src/SegmentManager.cpp:484-492 | Exactly the held numbers of the requested range are retransmitted, in ascending order |
| `SentList.RetransmitCount` | linux/core/src/SegmentManager.cpp:484-503 | The number of retransmitted segments never exceeds the number requested and equals it exactly if none of the range is missing |
| `SentList.RetransmitIsSlice` | linux/core/src/SegmentManager.cpp:484-492 | With none missing, the retransmitted segments are the requested stretch of the stream |
| `SegmentManager.SegmentManager.GetNextSeqNo` | linux/core/src/SegmentManager.cpp:40-48 | Returns the next number of the class and moves it on by the size of the block, leaving the other class alone |
| `SegmentManager.SegmentManager.SendToSegmentManager` | linux/core/src/SegmentManager.cpp:63-128 | The loop feeds the queue of the right class exactly the fragments of the data, numbered from the reserved block; no assert of the queue fails |
| `SegmentManager.SegmentManager.Dequeue` | linux/core/src/SegmentManager.cpp:279-347 | Control before data; takes one segment from one queue and leaves the other alone |
| `SegmentManager.SegmentManager.PopFailedSegment` | linux/core/src/SegmentManager.cpp:404-414 | The failed list is first in, first out |
| `SegmentManager.SegmentManager.FreeList` | linux/core/src/SegmentManager.cpp:424-435 | The erasing iterator loop keeps exactly what freeing is specified to keep |
| `SegmentManager.SegmentManager.DeallocateSentSegmentsByPeer` | linux/core/src/SegmentManager.cpp:416-465 | Each class is freed by its own number |
| `SegmentManager.SegmentManager.RetransmitMissingSegmentsByPeer` | linux/core/src/SegmentManager.cpp:472-504 | The held segments of the range join the failed list in ascending order and stay in the sent list |
| `SegmentManager.SegmentManager.AddSentSegment` | linux/core/src/SegmentManager.cpp:506-536 | The backward walk inserts where the specified insertion does and ignores a number already there |
| `Segmentation.FragmentShape` | linux/core/src/SegmentManager.cpp:67-107 | Cutting gives one packet: consecutive numbers, one class, MF on exactly the non-final segments, 512 bytes in all but the last, and the payloads joined are the data |
| `Segmentation.HeaderInverse` | linux/core/src/ProtocolManager.cpp:49-115 | The header read from any cut of a serialized packet that contains it is the one that was written |
| `Segmentation.PacketBytes` | linux/core/src/ProtocolManager.cpp:49-98 | A packet byte by byte: two bytes of id and four of length, the most significant first, then the payload |
| `Segmentation.HeaderBytes` | linux/core/src/ProtocolManager.cpp:100-115 | The id and length read from any six bytes |
| `Segmentation.AndroidRoundTrip` | android/app/src/main/java/com/redcarrottt/sc/internal/SegmentManager.java:216-269 | On Android cutting and putting together are inverse for every message; an empty one gives null |
| `Segmentation.AssembledExactly` | android/app/src/main/java/com/redcarrottt/sc/internal/SegmentManager.java:216-269 | Whatever segments a packet is made of: nothing for length 0, no result if they carry more than announced, else what they carry behind the header, filled up with zeros |
| `Segmentation.LinuxExactReach` | linux/core/src/SegmentManager.cpp:130-183 | With the 16-bit offset of the Linux receiver all messages of a length come back unchanged exactly if the length is between 1 and 66042 |
| `Segmentation.LinuxWithinReach` | linux/core/src/SegmentManager.cpp:130-183 | Every message of 1 to 66042 bytes comes back unchanged on Linux |
| `Segmentation.LinuxBeyondReach` | linux/core/src/SegmentManager.cpp:136-177 | Every longer message comes back with byte 66042 still zero |
| `PacketStream.PrefixGivesMessages` | linux/core/src/SegmentManager.cpp:130-183 | For both offset types: from the first k segments of any stream of packets one result is read for each message that lies within them, in order; it is the message wherever it fits the offset (always on Android, up to 66042 bytes on Linux), also behind messages that do not |
| `PacketStream.PacketIsStretch` | linux/core/src/SegmentManager.cpp:40-128 | The packet of message k is one stretch of the stream, where the reservations before it end |
| `PacketStream.Receive` | linux/core/src/SegmentManager.cpp:130-183 | The receive loop dequeues exactly one packet and returns the specified buffer, for both offset types |
| `WireFormat.DecodeInverse` | linux/core/src/ReceiverThread.cpp:119-142 | Whatever buffer describes a segment is received as exactly this segment with its own class and MF flag, whatever the timestamps and the bytes behind the payload are |
| `WireFormat.DescribesExactly` | linux/core/src/SegmentManager.cpp:50-61 | A buffer describes a segment exactly if it has 540 bytes with its number, payload length and flags at bytes 0, 4 and 8, the most significant first, and its payload at byte 28 |
| `WireFormat.DecodeExactly` | linux/core/src/ReceiverThread.cpp:119-142 | What any 540 bytes are taken for: bit 4 of the flag word makes them an acknowledgement, bit 2 control, bit 1 says that more follows; a length above 512 is noticed |
| `WireFormat.SerializeSegment` | linux/core/src/SegmentManager.cpp:50-107 | Filling a reused buffer gives a buffer that describes the segment, with the enqueue time at bytes 12 and 16, and touches nothing else |
| `WireFormat.StampMediaTime` | linux/core/src/ServerAdapter.cpp:427-461 | Stamping the media time writes bytes 20 to 27 and nothing else, and leaves the described segment unharmed |
| `ProtocolManager.Packets.SerializePacket` | linux/core/src/ProtocolManager.cpp:66-98 | The buffer is the packet of the next 16-bit id with exactly the requested part of the data |
| `ProtocolManager.SerializeHeader` | linux/core/src/ProtocolManager.cpp:49-59 | Writes the six header bytes and nothing else |
| `ProtocolManager.ParsePacketHeader` | linux/core/src/ProtocolManager.cpp:100-115 | Reading a serialized packet gives back its id and length |
| `ProtocolManager.AndroidReceiver.OnBuffer` | android/app/src/main/java/com/redcarrottt/sc/internal/adapter/ReceiverThread.java:98-137 | For every buffer: one with the ACK bit set changes nothing; any other joins the queue of its class by its number, even if its length field exceeds the buffer, and leaves the other class alone |
| `ProtocolManager.AndroidReceiver.OnSegment` | android/app/src/main/java/com/redcarrottt/sc/internal/adapter/ReceiverThread.java:98-137 | A buffer that describes a segment feeds exactly this segment to its queue |
| `AdapterSwitch.MakeBeforeBreak` | linux/core/src/NetworkSwitcher.cpp:124-351 | In every run of a switch from an active adapter to one that does not sleep, with the previous sender running beside it: one of the two is active in every state, done is called once exactly when the transaction is over, the index moves exactly on success, and success leaves the next active and the previous disconnected |
| `AdapterSwitch.StepKeepsInv` | linux/core/src/ServerAdapter.cpp:265-296 | Every step of the transaction and of the sender keeps the states both adapters have at each point of the transaction |
| `AdapterSwitch.SndKeepsPhase` | linux/core/src/SenderThread.cpp:84-100 | What the sender may do to its adapter in each phase: it turns GoingSleeping into Sleeping only when it parks, and never touches a disconnecting adapter |
| `AdapterSwitch.FinishesUnlessDoomed` | linux/core/src/NetworkSwitcher.cpp:317-323 | Given messages, a run can still reach the end of the transaction exactly if the sender has not left its loop before parking while the transaction waits for it to sleep |
| `AdapterSwitch.CanFinish` | linux/core/src/NetworkSwitcher.cpp:193-351 | From every state that is not doomed some continuation finishes the transaction; a sender that waits in dequeue is brought on by a message |
| `AdapterSwitch.DoomedNeverFinishes` | linux/core/src/SenderThread.cpp:191-198 | Once the sender left its loop too early no continuation ever calls done |
| `AdapterSwitch.DoomHappens` | linux/core/src/SenderThread.cpp:145-198 | From every start with the sender in its loop a run dooms the transaction: a send that breaks off after the adapter was marked and before the sender parks |
| `AdapterSwitch.FinishesUnlessStarved` | linux/core/src/SenderThread.cpp:102-119 | Left to itself (no message from the application, no request for a repetition; the Connect and Disconnect requests of the transaction and the next adapter's sender are part of it), the transaction can still end exactly if it is not doomed and the sender is not caught in dequeue: it missed the pause's notification, or it was resumed by the disconnection when nothing was left to fetch |
| `AdapterSwitch.StarvedNeverFinishes` | linux/core/src/SegmentManager.cpp:266-276 | A sender caught in dequeue makes the transaction wait as long as no message and no request for a repetition comes |
| `AdapterSwitch.SucceedsExactly` | linux/core/src/NetworkSwitcher.cpp:193-351 | Left to itself, the transaction can still succeed exactly if: before the Disconnect request, the sender has neither left its loop nor been caught in dequeue; behind it, there is something left for the sender to fetch |
| `AdapterSwitch.IdleSwitchSucceeds` | linux/core/src/ServerAdapter.cpp:97-104 | From every start, a switch that is left to itself can succeed exactly if the previous sender is in its loop and the next adapter is disconnected or active |
| `AdapterSwitch.NotificationIsMissed` | linux/core/src/ServerAdapter.cpp:515-521 | From every start with the sender in its loop, a run that is left to itself leads to a pause whose notification comes before the sender waits, after the Connect request was taken by the next adapter's sender |
| `AdapterSwitch.HungerHappens` | linux/core/src/ServerAdapter.cpp:298-309 | From every start with the sender in its loop, a run that is left to itself leads to a transaction that waits for the end of a loop that does not end: the next adapter's sender took the Disconnect request and all else |
| `AdapterSwitchLaws.NothingIsLost` | linux/core/src/SenderThread.cpp:136-206 | Over any run, whatever the transaction and both senders do: the segments in the lists and with the senders, and those sent, are those at the start and what was brought in |
| `AdapterSwitchLaws.SegmentsAreKept` | linux/core/src/SenderThread.cpp:156-206 | One step adds a segment exactly for a message, a request for a repetition, a Connect request whose socket opened, or a Disconnect request, and takes one away exactly for a send that succeeds on an active adapter |
| `AdapterSwitchLaws.QueueTakesNewOnly` | linux/core/src/SegmentManager.cpp:396-402 | What a sender gives back, and what is to be repeated, joins the failed list, not the send queues |
| `AdapterSwitchLaws.LeavesExactly` | linux/core/src/SenderThread.cpp:84-206 | The sender starts to leave its loop exactly when it finds it disabled at the top, or when a send fails and breaks off or happens while disconnecting on purpose |
| `AdapterSwitchLaws.LoopIsLeft` | linux/core/src/SenderThread.cpp:54-61 | Three steps later the loop is disabled, not paused, and said to have ended, and nothing else has changed |
| `AdapterSwitchLaws.PausedGivesBack` | linux/core/src/SenderThread.cpp:136-144 | A sender that is paused before it looks once more gives its segment back unsent, and its third step brings it to say that it sleeps |
| `AdapterSwitchLaws.ResumedIsActive` | linux/core/src/SenderThread.cpp:88-100 | A resumed sender makes its adapter active again, unless that is being disconnected or is already |
| `AdapterSwitchLaws.PausesExactly` | linux/core/src/ServerAdapter.cpp:298-309 | The transaction pauses the sender when it puts the adapter to sleep, and resumes it exactly when it disconnects a sleeping one |
| `AdapterSwitchLaws.WokenExactly` | linux/core/src/SegmentManager.cpp:211-276 | A sender that waits in dequeue is woken exactly when something is enqueued or by the notification of a pause; a repetition wakes nobody |
| `AdapterSwitchLaws.StandsStillExactly` | linux/core/src/ServerAdapter.cpp:427-436 | The sender stands still exactly if it has ended, waits for a notification, is paused, or waits for its adapter to be connected |
| `AdapterSwitchLaws.EndsInThreeWays` | linux/core/src/ServerAdapter.cpp:265-296 | The step that ends a switch from an active adapter leaves: on success, the previous adapter disconnected and the next active; on failure behind the Disconnect request, the previous asleep again and the next active; on failure before it, the previous active and the next as it was |
| `AdapterSwitchLaws.DoneExactly` | linux/core/src/NetworkSwitcher.cpp:193-351 | From any state of either adapter, done is called at exactly the points listed, and moves the active index exactly if the previous adapter is disconnected |
| `AdapterSwitchLaws.CallReports` | linux/core/src/NetworkSwitcher.cpp:152-193 | Whenever done is called, it reports success exactly if the previous adapter is disconnected, and the switcher is ready again |
| `AdapterSwitchLaws.SleepNeedsActive` | linux/core/src/ServerAdapter.cpp:492-499 | A call of sleep for an adapter that is not active fails the switch |
| `AdapterSwitchLaws.SucceedsIfDisconnected` | linux/core/src/NetworkSwitcher.cpp:255-278 | A switch whose previous adapter has no sender in its loop and is disconnected, or on its way between states, calls done once, leaves that adapter alone, and succeeds exactly if it is disconnected and the next adapter is active in the end |
| `AdapterSwitchLaws.AsleepEndsTwice` | linux/core/src/NetworkSwitcher.cpp:263-292 | A switch from an adapter that sleeps, or is going to, once it has connected the next one: if it ends it has called done twice |
| `Energy.PredictBandwidthSeq` | linux/policy/src/EnergyPredictor.cpp:62-123 | Fails exactly for a non-empty result vector or an unknown scenario; otherwise the loops produce the specified slots |
| `Energy.SlotsFacts` | linux/policy/src/EnergyPredictor.cpp:102-121 | Conservation: the slots add up to queue plus traffic; each lies within its adapter's cap; the extra slots are as many as the remainder fills |
| `Energy.DrainedFacts` | linux/policy/src/EnergyPredictor.cpp:113-121 | The drain loop serves the whole remainder in ceil(remainder / cap) slots, all full but the last |
| `Energy.SlotsGreedy` | linux/policy/src/EnergyPredictor.cpp:102-121 | Each slot serves all that is there or the full cap; a slot below its cap leaves nothing over |
| `Energy.SwitchingDominates` | linux/policy/src/EnergyPredictor.cpp:84-98 | Switching from BT to WFD never has more queued in any slot than staying on BT, nor takes longer |
| `Energy.PredictSwitch` | linux/policy/src/EnergyPredictor.cpp:84-98 | The switch timeline in closed form: WFD bandwidth starts one slot after the latency has passed, BT bandwidth at once |
| `Energy.PredictEnergyOf` | linux/policy/src/EnergyPredictor.cpp:125-202 | Fails exactly if the scenario is unknown or some slot's power is negative on the adapter the second timeline charges; otherwise the total, or the maximum for more than 60 slots |
| `Energy.PowerPositive` | linux/policy/src/EnergyPredictor.cpp:224-253 | Within an adapter's cap its concave power polynomial is positive |
| `Energy.BtPowerNegative` | linux/policy/src/EnergyPredictor.cpp:224-253 | The BT polynomial is negative exactly above 1081662 B/s |
| `Energy.SlotPowerPositive` | linux/policy/src/EnergyPredictor.cpp:125-202 | With at least twelve traffic slots, or on a slot where both timelines agree, the charged power is positive although the two simulations move the adapter at different points |
| `Energy.SlotPowerNegative` | linux/policy/src/EnergyPredictor.cpp:125-202 | A slot's charged power is negative exactly if it lies where WFD serves and BT is charged, and backlog plus traffic there exceed 1081662 B |
| `Energy.PredictEnergy` | linux/policy/src/EnergyPredictor.cpp:28-60 | Returns -1 exactly for an unknown scenario, or when some slot has more than 1081662 B of backlog and traffic to serve and is slot 6 or later of a switch to WFD with seven or more traffic slots and fewer than twelve slots in all, or slot 7 or later of a switch to BT with at most six traffic slots, in at most sixty slots; otherwise what the phases of the scenario cost |
| `Energy.TotalIsSpent` | linux/policy/src/EnergyPredictor.cpp:125-202 | The loop over the slots adds up exactly the phases of the scenario, each by its own polynomial of the slots' number, sum and sum of squares: six slots up, six down at the end, seven down to BT, and what a window too short for both comes to |
| `Energy.CapIs` | linux/policy/src/EnergyPredictor.cpp:204-222 | Which rate limits which slot: 75 kB/s on BT and up to six slots into a switch to WFD, 3.5 MB/s on WFD and up to six slots into a switch to BT |
| `Energy.SteadyTraffic` | linux/policy/src/EnergyPredictor.cpp:224-253 | Constant traffic within the cap, for up to sixty slots: the polynomial of BT or WFD for every slot |
| `Energy.SteadySwitch` | linux/policy/src/EnergyPredictor.cpp:125-202 | The same for both switches, from twelve to sixty slots: six slots up, the rest on WFD and six down; or seven down and the rest on BT |
| `Energy.IdleWindow` | linux/policy/src/EnergyPredictor.cpp:125-202 | Thirty idle slots cost 616.8 on BT, 4314 on WFD, 5114.4 with a switch to WFD and 1895.98 with one to BT |
| `Energy.TwoSlots` | linux/policy/src/EnergyPredictor.cpp:224-253 | Concrete input: 10 and 75 kB on BT, each squared on its own |
| `Energy.MaximumExactly` | linux/policy/src/EnergyPredictor.cpp:134-136 | The greatest float is predicted exactly if serving everything takes more than sixty slots |
| `Energy.LongWindowsNeverFail` | linux/policy/src/EnergyPredictor.cpp:28-60 | From twelve traffic slots on a valid prediction never fails |
| `Energy.BacklogAloneFails` | linux/policy/src/EnergyPredictor.cpp:102-121 | Concrete input without traffic: 26.5 MB queued make a switch to BT fail in its eighth slot |
| `Energy.ShortWindowFails` | linux/policy/src/EnergyPredictor.cpp:174-183 | Concrete input with seven slots where the prediction fails |
| `Hysteresis.EmitsOnFourthAgreement` | linux/policy/src/NMPolicyHistoryBased.cpp:115-143 | In every run a call emits a switch exactly if it is evaluated, wishes it, and the three evaluated wishes before were the same |
| `Hysteresis.SwitchesApart` | linux/policy/src/NMPolicyHistoryBased.cpp:99-113 | Any two switches without a custom event between them are at least 15 s apart, if the recorded times have non-zero seconds and microseconds |
| `Hysteresis.CoolDownExactly` | linux/policy/src/NMPolicyHistoryBased.cpp:100-113 | The next call after a switch is evaluated exactly if 15 s have passed or a part of the recorded time is zero |
| `Hysteresis.CountersAreTrailing` | linux/policy/src/NMPolicyHistoryBased.cpp:118-137 | The two counters always count how many of the latest evaluated wishes agree |
| `Hysteresis.NoCoolDownBeforeSwitch` | linux/policy/src/NMPolicyHistoryBased.cpp:89-113 | Before the first switch, and from a custom event to the next switch, every call is evaluated |
| `Hysteresis.WfdIsOnExactly` | linux/policy/src/NMPolicyHistoryBased.cpp:118-137 | WFD is taken to be on exactly if the latest switch was the one to it |
| `Hysteresis.WindowIsLost` | linux/policy/src/NMPolicyHistoryBased.cpp:100 | Concrete run: with zero microseconds recorded, two switches are emitted at the same instant |
| `Hysteresis.HistoryPolicy.Decide` | linux/policy/src/NMPolicyHistoryBased.cpp:96-144 | The method computes the specified decision and new counters |
| `Hysteresis.HistoryPolicy.OnCustomEvent` | linux/policy/src/NMPolicyHistoryBased.cpp:89-92 | Resets the recorded time and nothing else of the filter |
| `LineReader.ReadAll` | linux/common/inc/csv.h:436-485 | For every file, every block length from 2 on and any contents of the memory the buffer is made of: the results of next_line are exactly the file's lines, BOM skipped and carriage return removed, until the first line that does not fit a block. The reader runs over exactly if all lines fit, the file has no newline at its end, and the byte behind the data at the end is one: untouched memory if the file is shorter than three blocks, else the byte of the file one block before its end |
| `LineReader.Reader.NextLine` | linux/common/inc/csv.h:436-485 | End of file exactly if nothing is left; an error exactly if the next line does not fit; else that line as a C string, and what is left is what follows it, with the same byte behind it. Behind a last line without a newline the reader ends properly exactly if that byte is no newline |
| `LineReader.Reader.constructor` | linux/common/inc/csv.h:343-358 | After reading two blocks, what is left to read is the file without its BOM, and the byte that will stand behind it is determined |
| `LineReader.Reader.Rotate` | linux/common/inc/csv.h:445-455 | Shifting the blocks and reading the next one loses and repeats no byte, and keeps the byte that will stand behind the data |
| `LineReader.Reader.FindLineEnd` | linux/common/inc/csv.h:457-460 | Stops at the first newline or at the end of the data |
| `LineReader.ScanIsLineEnd` | linux/common/inc/csv.h:457-467 | The scan inside the two blocks finds the end of the first line of the whole rest of the file, or shows it to be too long |
| `LineReader.SplitThenJoin` | linux/common/inc/csv.h:436-485 | Splitting a file that ends in a newline loses nothing |
| `LineReader.JoinThenSplit` | linux/common/inc/csv.h:436-485 | Newline-free lines joined come back as they are |
| `LineReader.LastLineNeedsNoEnd` | linux/common/inc/csv.h:436-485 | A last line without a newline is split off like the others |
| `LineReader.LineEndsGo` | linux/common/inc/csv.h:470-485 | Lines without NUL and newline written with the bytes 13, 10 behind each come out as they are; written with 10 alone, each loses one trailing byte exactly if it is 13; a BOM in front is skipped |
| `LineReader.BomIsSkipped` | linux/common/inc/csv.h:343-358 | The bytes EF BB BF at the start, and nothing else, are skipped |
| `LineReader.CStringExactly` | linux/common/inc/csv.h:470-485 | A client sees of a line what stands before the first NUL |
| `CsvColumns.ColumnEndIsFirstBoundary` | linux/common/inc/csv.h:755-771 | A column ends at the first separator, or the end of the line, with an even number of quotes before it; if there is none the quoting is not closed |
| `CsvColumns.FindNextColumnEnd` | linux/common/inc/csv.h:755-771 | The nested loops find exactly this end, or report the unclosed quote |
| `CsvColumns.UnescapeInPlace` | linux/common/inc/csv.h:773-791 | The in-place loop leaves exactly the unescaped column and touches no byte outside it |
| `CsvColumns.UnescapeQuoted` | linux/common/inc/csv.h:773-791 | Unescaping a field written in double quotes with inner quotes doubled gives the field back |
| `CsvColumns.UndoubleIs` | linux/common/inc/csv.h:773-791 | Between the outer quotes: two quotes that meet become one, a quote on its own stays, and nothing else changes |
| `CsvColumns.ChopNextColumn` | linux/common/inc/csv.h:828-844 | Cuts the first column off and points behind it, or ends the line |
| `CsvColumns.ParseLine` | linux/common/inc/csv.h:846-867 | Exactly the expected number of columns, each unescaped and stored as a C string at its ordered place, or the error of the first thing that is wrong |
| `CsvColumns.RowRoundTrip` | linux/common/inc/csv.h:846-867 | Any fields, each written in quotes or as it stands, joined by commas, parse to the same fields; any other expected count is reported as too few or too many columns |
| `CsvColumns.UnclosedIsReported` | linux/common/inc/csv.h:755-771 | Behind any fields, a quote that is not closed is reported, unless fewer columns are expected |
| `CsvColumns.CutsLine` | linux/common/inc/csv.h:828-867 | However a line is written: if it parses, it is cut into columns that joined by commas are the line again, and a column that does not both begin and end with a quote, or has fewer than two bytes, is stored as it stands |
| `CsvColumns.TableRoundTrip` | linux/common/inc/csv.h:1219-1248 | A whole written table, behind a BOM or not, fields in quotes or as they stand: its lines are the rows, and each row parses to the fields it was written from |
| `ControlMessages.LinuxReadsBoth` | linux/core/src/ControlMessageReceiver.cpp:67-141 | The Linux parser reads back every message either side prints, for all 32-bit sequence numbers, also those Android prints as negative ints, with anything behind the text that does not start with a digit |
| `ControlMessages.AndroidReadsLinux` | android/app/src/main/java/com/redcarrottt/sc/internal/ControlMessageReceiver.java:62-129 | The Android parser reads back a Linux message exactly if its sequence numbers are below 2^31, and fails otherwise |
| `ControlMessages.BuffersRoundTrip` | linux/core/src/ControlMessageReceiver.cpp:60-74 | From buffer to buffer, for every message and whatever stands behind its text: Linux reads it back exactly if its last number is read back with the digits that follow (for a sequence number: if the longer number fits an `unsigned long` and is the same modulo 2^32), so whenever no digit follows; on Android the zero padding is trimmed, and the message comes back exactly if its sequence numbers are below 2^31 |
| `ControlMessages.DigitBehindIsRead` | linux/core/src/ControlMessageReceiver.cpp:60-76 | A Connect, Sleep, WakeUp or DisconnectAck message is read back exactly if no digit follows, or its adapter id is zero and only zeros follow |
| `ControlMessages.ScanPrinted` | linux/core/src/ControlMessageReceiver.cpp:76 | The C conversions read a printed integer together with the digits that stand behind it, and stop at anything else |
| `ControlMessages.DigitsChangeNumber` | linux/core/src/ControlMessageReceiver.cpp:76-84 | Digits behind a printed integer change it, but for zeros behind a zero |
| `ControlMessages.ParseIntPrinted` | android/app/src/main/java/com/redcarrottt/sc/internal/ControlMessageReceiver.java:72 | Java accepts a printed integer exactly if it is a 32-bit int |
| `ControlMessages.StoiExactly` | linux/core/src/ControlMessageReceiver.cpp:76 | stoi takes a printed integer exactly if it is a 32-bit int |
| `ControlMessages.StoulExactly` | linux/core/src/ControlMessageReceiver.cpp:97-98 | stoul takes a printed integer exactly if its magnitude fits an `unsigned long`, and the cast keeps it modulo 2^32 |
| `ControlMessages.ScanFromFront` | linux/core/src/ControlMessageReceiver.cpp:76 | The C conversions skip blanks and take a plus sign in front, and fail on a letter |
| `ControlMessages.ParseIntIsStrict` | android/app/src/main/java/com/redcarrottt/sc/internal/ControlMessageReceiver.java:72 | Java fails on anything but an optional sign and digits |
| `ControlMessages.ParseIntTakesPlus` | android/app/src/main/java/com/redcarrottt/sc/internal/ControlMessageReceiver.java:72 | Java takes a plus sign in front of a non-negative int |
| `ControlMessages.TrimsBothEnds` | android/app/src/main/java/com/redcarrottt/sc/internal/ControlMessageReceiver.java:62-72 | Trimming drops everything up to the blank, in code order, at both ends, and nothing else |
| `ControlMessages.OtherCodes` | linux/core/src/ControlMessageReceiver.cpp:78-141 | On both sides a private text comes through whatever it is, and every code that means nothing is reported as such |
| `ControlMessages.MissingLine` | linux/core/src/ControlMessageReceiver.cpp:129-138 | A QueueStatus text without its last line: Linux takes the number before for both, as npos + 1 is 0; Android fails |
| `ControlMessages.NormalTexts` | linux/core/src/ControlMessageSender.cpp:44-56 | Concrete texts of Connect, Sleep, WakeUp and DisconnectAck |
| `ControlMessages.RangedTexts` | linux/core/src/ControlMessageSender.cpp:65-116 | Concrete texts of Disconnect and Retransmit |
| `ControlMessages.StatusTexts` | linux/core/src/ControlMessageSender.cpp:118-135 | Concrete texts of QueueStatus, also with numbers that Android prints as negative ints |
| `ControlMessages.SendControlMessage` | linux/core/src/ControlMessageSender.cpp:32-42 | The buffer is the text and a NUL |
| `ControlMessages.SendRequest` | linux/core/src/ControlMessageSender.cpp:44-56 | Appending piece by piece gives the specified text of a Connect, Sleep, WakeUp or DisconnectAck message |
| `ControlMessages.SendRequestConnect` | linux/core/src/ControlMessageSender.cpp:58-63 | A Connect request is the code 1, a newline, the adapter id and a NUL |
| `ControlMessages.SendRequestSleep` | linux/core/src/ControlMessageSender.cpp:144-149 | A Sleep request has the code 2 |
| `ControlMessages.SendRequestWakeUp` | linux/core/src/ControlMessageSender.cpp:151-156 | A WakeUp request has the code 3 |
| `ControlMessages.SendRequestDisconnectAck` | linux/core/src/ControlMessageSender.cpp:137-142 | A DisconnectAck request has the code 24 |
| `ControlMessages.SendRanged` | linux/core/src/ControlMessageSender.cpp:65-116 | The same for Disconnect and Retransmit |
| `ControlMessages.SendRequestQueueStatus` | linux/core/src/ControlMessageSender.cpp:118-135 | The same for QueueStatus |

## Left out

- Sockets, Bluetooth and Wi-Fi commands, discovery, child processes, the Android user interface: a send, a receive or a
  device operation succeeds or fails, and the channel may lose, repeat or reorder what was sent.
- Mutexes and sleeps: each critical section is one step. The wait in dequeue is modelled with its notifications, among
  them the one of a pause that comes too early; wake-ups without a notification are not modelled, nor is the wait of a
  reader of the receive queues. A dequeue from an empty list returns nothing, also where the original reads the front of
  an empty list.
- SegmentManager.SegmentManager.Dequeue: does not model the wait on empty queues, which belongs to the steps of
  `Transport` and `AdapterSwitch`.
- Segments are immutable values. The original reuses segment objects through a free list, and a retransmitted object is
  in the sent and the failed list at once; `TransportCopies.FreesInUseExactly` says when such an object is freed, but
  what its later reuse writes into it is not modelled.
- Sequence numbers are unbounded: runs stay below 2^32 segments on Linux and 2^31 on Android. Buffers and control
  messages model the width.
- When queue status is sent: `isAdaptersSwitching`, the one-second watcher and its thresholds. Notices and gap requests
  may happen at any time once both wanted numbers are positive, or at any time at all.
- `wait_receiving` and `check_receiving_done`, the ACK segments and their round-trip times, statistics and logging.
- The Linux receive queue with repeated segments: its asserts forbid them.
- Messages from Android to Linux over the step system; cutting, reassembly and codecs are proved for both directions.
- Private control messages (Linux keeps a newline in front, Android trims), and numbers wider than an `unsigned long`.
- In `Transport` each command to an adapter is one step: its device operations succeed, and the Connect and Disconnect
  requests it sends are messages like any other, not tied to it. A connection or disconnection that fails, and the order
  of a command's steps, are in `AdapterSwitch`.
- In `AdapterSwitch` there are two adapters with one sender each, and a segment is enqueued at once: an enqueue behind
  an open reservation of another thread is left to `Transport`.
- Peer-initiated disconnection, reconnection, stopping the core, and a switch to a sleeping adapter, which is woken up
  instead of connected. From a previous adapter that sleeps only the calls of done are counted; the original's second
  call finds its transaction object gone, and what that does is not modelled.
- Partial transmissions count as failed sends.
- Energy: rounding of `float`, the 32-bit range of the `int` sums, and negative queue lengths or traffic.
- `decide_internal` of the history policy is an input of the filter.
- LineReader: sources other than the synchronous one; the reading thread of the original fills the third block in the
  same order.
- CSV headers, comment and trim policies other than the ones in use, and the conversion of columns to numbers.
- What happens when a segment is read whose length field exceeds the buffer. It is enqueued like any other
  (`ProtocolManager.AndroidReceiver.OnBuffer`); the original fails when it copies the payload.
- Throughput statistics, trace runners and the simple switch policies, which keep hardly any state.
