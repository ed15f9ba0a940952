# CXL memory controller: latency accounting layer

`CXLMemCtrl` (gem5/src/cxl_mem/cxl_mem_ctrl.cc) is a gem5 memory controller that
inherits everything from the base `MemCtrl`. It adds one thing: it measures how
long each packet stays in the controller. This project models that layer in
Dafny and proves what it promises.

- **Entry-time table.** `recvTimingReq` asks the base controller whether it
  accepts a packet. If it does, the current tick goes into `packetEntryTime`
  under the packet id.
- **Latency accounting.** `accessAndRespond` looks the packet up. If it is
  there, the layer charges the ticks since entry: it adds them to
  `totalLatency`, bumps `numPackets`, drops the entry and writes the latency
  into `packetLatency`. Then the base controller responds.
- **Response-queue step.** `processNextReqEvent` services the front burst of
  the response queue and pops it. A burst of a split system packet advances
  the burst helper that all its bursts share. The system packet is answered
  only when its last burst is serviced, and that frees the helper. Then the
  step either schedules the response event for the next burst or, with the
  queue empty, reports the average and signals a completed drain, or checks
  the refresh state. Last, it clears a pending read-retry flag and sends
  exactly one retry.
- **Average.** `calculateAvgLatency` reports `totalLatency / numPackets`
  (integer division), only when `numPackets > 0`.

Files:

- `latency_accounting.dfy` (module `LatencyAccounting`): the accounting state
  as a value and its two transitions, `RecordEntry` and `Account`. A run of
  the controller is a trace of calls. `Run` replays a trace, and `Charges`
  lists the latencies it charged. The lemmas about every sequence of calls
  are here, along with the integer mean.
- `respond_queue.dfy` (module `RespondQueue`): queued bursts, the shared burst
  helpers and one service step (`ServiceFront`). `Drain` repeats that step
  until the queue is empty, and the lemmas say what draining answers.
- `cxl_mem_ctrl.dfy` (module `CxlMemCtrl`): the class `CxlMemCtrl`, whose
  methods update the fields in place. Each method is proved against the
  functions above. The invariant `Valid()` says the latency fields equal
  `Run(Initial, calls)`, where `calls` is a ghost log of every call so far.
  Calls out to the base controller, the memory interface, the port and the
  event queue go into a ghost log `actions`. So "responds exactly once" and
  "sends exactly one retry" are statements about that log.

Decisions the base controller makes are method inputs. These are the
admission decision, the current tick, the drain state and whether the
response event is already scheduled. `Tick` is an unsigned 64-bit value, so
`endTime - entryTime` is modelled as subtraction modulo 2^64 (`Elapsed`).
`RespondChargesResidence` proves that it never wraps while time runs forward.

Where the model departs from the code:

- Line 55 of cxl_mem_ctrl.cc reads `it->first` after `erase(it)` on line 54.
  That iterator is no longer valid. The model keys the latency by the
  packet's id, which is what the line evidently means.
- The constructor (cxl_mem_ctrl.cc:21-25) never initialises `totalLatency`
  or `numPackets`. The model's constructor sets both to 0. The row under
  "Findings" shows what the code as written reports.
- The body of `processNextReqEvent` uses the names `queue` and
  `retry_rd_req`. Its parameters are named `resp_queue` and `retry_wr_req`.
  The model reads `queue` as the controller's response queue (field
  `respQueue`) and `retry_rd_req` as the read-retry flag (field
  `retryRdReq`). The parameters `resp_queue`, `next_req_event` and
  `retry_wr_req` are not used.
- gem5/src/cxl_mem/CXLMemCtrl.py:19-38 declares read, write and response
  buffer sizes, `write_pkt_threshold` (the number of write packets to be
  compressed), a decompression `delay` and `compressed_size`. None of the
  controller code shown uses them, so the model has no buffer limits, no
  compression and no decompression delay. Only the two static latencies
  (lines 31-32) enter the model, as `frontendLatency` and `backendLatency`.

## Model

| member | source | states |
|---|---|---|
| `LatencyAccounting.Elapsed` | gem5/src/cxl_mem/cxl_mem_ctrl.cc:50-51 | the unsigned 64-bit `endTime - entryTime`: the plain difference when entry is not later, otherwise the wrapped value 2^64 - (entry - end) |
| `LatencyAccounting.RecordEntry` | gem5/src/cxl_mem/cxl_mem_ctrl.cc:30-39 | if accepted, the id's entry becomes the current tick, no other key is added and every other entry keeps its value; if rejected, nothing changes; the latency table and both counters are untouched |
| `LatencyAccounting.Account` | gem5/src/cxl_mem/cxl_mem_ctrl.cc:46-57 | for a tracked id: `totalLatency` grows by exactly the elapsed ticks, `numPackets` by exactly 1, the id leaves the entry table (others keep their values), and `packetLatency[id]` becomes that latency (other latencies kept); for an untracked id nothing changes |
| `LatencyAccounting.RunTotals` | gem5/src/cxl_mem/cxl_mem_ctrl.cc:52-53 | after any sequence of calls, `totalLatency` equals its start plus the sum of every latency charged, and `numPackets` its start plus how many were charged |
| `LatencyAccounting.EntryIsPending` | gem5/src/cxl_mem/cxl_mem_ctrl.cc:32-35 | from an empty table, a packet is in `packetEntryTime` exactly when its latest event other than a rejected receive is an accepted receive, and its entry is that receive's tick |
| `LatencyAccounting.RespondChargesResidence` | gem5/src/cxl_mem/cxl_mem_ctrl.cc:46-55 | while time runs forward, a respond charges exactly `now` minus the tick of the packet's latest admission (no wrap) and records it in `packetLatency`; a respond for a packet not pending charges nothing and changes nothing |
| `LatencyAccounting.NoDoubleCount` | gem5/src/cxl_mem/cxl_mem_ctrl.cc:52-54 | for every id, the number of times it was charged plus one if it is still pending never exceeds the number of times it was admitted, so no admission is counted twice |
| `LatencyAccounting.MeanLatency` | gem5/src/cxl_mem/cxl_mem_ctrl.cc:135-136 | a mean exists exactly when `numPackets > 0`, and it is the integer quotient: `mean * n <= total < (mean + 1) * n` |
| `LatencyAccounting.MeanOfBoundedCharges` | gem5/src/cxl_mem/cxl_mem_ctrl.cc:135-136 | the integer mean of latencies that all lie in `[lo, hi]` also lies in `[lo, hi]` |
| `LatencyAccounting.MeanWithinCharges` | gem5/src/cxl_mem/cxl_mem_ctrl.cc:132-141 | from a zeroed controller, the reported average lies between the smallest and the largest latency ever charged |
| `LatencyAccounting.MeanFromInitial` | gem5/src/cxl_mem/cxl_mem_ctrl.cc:132-141 | from a zeroed controller, the reported average is the integer mean of exactly the latencies charged so far, and is absent when none was |
| `LatencyAccounting.UninitialisedStart` | gem5/src/cxl_mem/cxl_mem_ctrl.cc:21-25 | the state as the constructor leaves it: empty maps, counters holding arbitrary non-negative leftover values |
| `LatencyAccounting.UninitialisedCountersSkewMean` | gem5/src/cxl_mem/cxl_mem_ctrl.cc:21-25 | with a leftover total of 7, one packet charged 3 ticks is reported with average 10 |
| `RespondQueue.ServiceFront` | gem5/src/cxl_mem/cxl_mem_ctrl.cc:78-96 | an unsplit packet is answered and the helpers are unchanged; a split packet's helper counts one more serviced burst, the packet is answered iff that makes `burstsServiced == burstCount`, and then the helper is removed; other helpers are unchanged |
| `RespondQueue.ServiceKeepsConsistent` | gem5/src/cxl_mem/cxl_mem_ctrl.cc:78-98 | servicing and popping the front burst keeps the queue and the helpers consistent: every referenced helper exists, and serviced plus still-queued bursts equal the burst count |
| `RespondQueue.Drain` | gem5/src/cxl_mem/cxl_mem_ctrl.cc:78-98 | servicing a consistent queue until it is empty frees every burst helper |
| `RespondQueue.DrainRespondsOncePerPacket` | gem5/src/cxl_mem/cxl_mem_ctrl.cc:78-98 | the number of answers a drain gives: one per unsplit packet plus one per split system packet in flight (which packets, and when, is `DrainAnswersLastBursts`) |
| `RespondQueue.DrainAnswersLastBursts` | gem5/src/cxl_mem/cxl_mem_ctrl.cc:78-98 | draining a consistent queue answers, in queue order, exactly the unsplit bursts and, for each split system packet, its last queued burst: a split packet is answered when its last burst is serviced and at no other burst |
| `RespondQueue.DrainUnsplitInOrder` | gem5/src/cxl_mem/cxl_mem_ctrl.cc:92-98 | with no split packets, draining answers every packet in queue order |
| `RespondQueue.SplitPacketAnsweredOnce` | gem5/src/cxl_mem/cxl_mem_ctrl.cc:78-91 | the bursts of one split system packet, all queued, answer it exactly once |
| `RespondQueue.AnsweredOneSplit` | gem5/src/cxl_mem/cxl_mem_ctrl.cc:78-91 | of the queued bursts of one split system packet, exactly one, the last, is answered |
| `CxlMemCtrl.CxlMemCtrl.constructor` | gem5/src/cxl_mem/cxl_mem_ctrl.hh:52-58 | both tables are empty, both counters are 0, the queue is empty and no retry is owed |
| `CxlMemCtrl.CxlMemCtrl.TotalsInvariant` | gem5/src/cxl_mem/cxl_mem_ctrl.cc:52-53 | on every valid controller, `totalLatency` is the sum and `numPackets` the count of every latency charged since construction |
| `CxlMemCtrl.CxlMemCtrl.RecvTimingReq` | gem5/src/cxl_mem/cxl_mem_ctrl.cc:27-40 | returns exactly the base controller's decision, asks the base controller once, and changes the latency state exactly as `RecordEntry`; queue, helpers and retry flag unchanged |
| `CxlMemCtrl.CxlMemCtrl.AccessAndRespond` | gem5/src/cxl_mem/cxl_mem_ctrl.cc:42-60 | changes the latency state exactly as `Account`, and the base controller responds exactly once with the given static latency, whether the id was tracked or not |
| `CxlMemCtrl.CxlMemCtrl.ServiceBurst` | gem5/src/cxl_mem/cxl_mem_ctrl.cc:78-96 | updates the helpers as `ServiceFront`; when it answers, it responds through `AccessAndRespond` with the given static latency, and otherwise the latency state is unchanged |
| `CxlMemCtrl.CxlMemCtrl.ProcessNextReqEvent` | gem5/src/cxl_mem/cxl_mem_ctrl.cc:62-130 | the queue becomes exactly its tail; helpers and latency state change as `ServiceFront`/`Account`, with static latency `frontendLatency + backendLatency`; the log gains, in order, the interface's respond event, at most one base respond, then the response event at the new front's ready time, or (queue empty) the average report and drain-done signal, or the refresh check (the three cases of lines 100-120, stated by the functions `AfterPop` and `DrainComplete`); it ends with one retry iff the read-retry flag was set, and the flag is cleared; queue/helper consistency is kept |
| `CxlMemCtrl.CxlMemCtrl.PopServiced` | gem5/src/cxl_mem/cxl_mem_ctrl.cc:98-129 | the queue becomes exactly its tail; the log gains the response event at the new front's ready time, or (queue empty) the average report then the drain-done signal when draining is complete, or the refresh check for the popped burst's rank; then one retry iff the read-retry flag was set, and the flag is cleared; the latency state, the helpers and the call log cannot change |
| `CxlMemCtrl.CxlMemCtrl.CalculateAvgLatency` | gem5/src/cxl_mem/cxl_mem_ctrl.cc:132-141 | the average is the integer mean of every latency charged since construction, and is absent when none was |

## Findings

| source | as written | input that shows it | evidently intended | confidence | as-written member | corrected member |
|---|---|---|---|---|---|---|
| gem5/src/cxl_mem/cxl_mem_ctrl.cc:21-25 | the constructor never assigns `totalLatency` and `numPackets`, so they start with whatever memory held | leftover `totalLatency` 7 and `numPackets` 0; packet 1 accepted at tick 0, answered at tick 3: charged 3 ticks, average reported as 10 | both counters start at 0, so the average is the mean of the measured latencies | high; not executed | `LatencyAccounting.UninitialisedCountersSkewMean` | `LatencyAccounting.MeanFromInitial` |

## Left out

- The base `MemCtrl` is not part of this model. Its admission decision in `MemCtrl::recvTimingReq` is an input. `MemCtrl::accessAndRespond` is a logged action. How bursts get into the response queue, and how split packets get their helpers, is also left to it: the model's fields are filled from outside.
- `mem_intr->respondEvent`, `checkRefreshState`, `allIntfDrained`, `drainState()` and `signalDrainDone` belong to the memory interface and the drain framework. They are inputs or logged actions.
- Event scheduling (`schedule`, `resp_event.scheduled()`) is a logged action. The assertions on lines 101-102 become a precondition.
- DPRINTF tracing is output only. The average that `calculateAvgLatency` prints is the logged `ReportAvgLatency` action.
- `delete mem_pkt` and the release of the helper's memory are memory management. A freed helper simply leaves the helper table.
- The parameters in gem5/src/cxl_mem/CXLMemCtrl.py (buffer sizes, `write_pkt_threshold`, latencies, `delay`, `compressed_size`) have no implementing code, so they are not modelled.
- The configuration scripts, cache classes, the forward-declaration header under configs/cc_dram and the test workload only wire or drive the simulator. They contain no controller logic.
- LatencyAccounting.UninitialisedStart: the leftover counters are `nat`s. The source's uninitialised `int numPackets` (cxl_mem_ctrl.hh:58) can also hold a negative value, and that case is not modelled. With a leftover of -1, one charged packet brings the count to 0, so `calculateAvgLatency` reports no packets although one latency was charged.
- LatencyAccounting.Account: `totalLatency` is unbounded. The source's 64-bit `Tick` sum and the `int` counter `numPackets` can overflow, and the model does not capture that.
- CxlMemCtrl.CxlMemCtrl.AccessAndRespond: same as `Account`. The two counters do not wrap.
- CxlMemCtrl.CxlMemCtrl.ProcessNextReqEvent: `frontendLatency + backendLatency` is passed unbounded, without the 64-bit wrap.
- CxlMemCtrl.CxlMemCtrl.ServiceBurst: the same sum `frontendLatency + backendLatency` is computed unbounded, without the 64-bit wrap.
