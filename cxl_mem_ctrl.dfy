/**
 * The CXL memory controller's own layer over gem5's base memory controller.
 * Its methods change the controller's fields in place and are proved against
 * the functions of LatencyAccounting and RespondQueue.
 *
 * Whatever the base controller, the memory interface, the port and the
 * event queue decide is an input here (the admission decision, the current
 * tick, the drain state); whatever the layer asks of them is appended to the
 * ghost log `actions`, so that "called exactly once" and "called only when"
 * are statements about that log.
 */
module CxlMemCtrl {
  import opened LatencyAccounting
  import opened RespondQueue

  /** A call the controller makes into the code around it. */
  datatype Action =
    | BaseRecvTimingReq(id: PacketId)
    | BaseAccessAndRespond(id: PacketId, staticLatency: nat)
    | IntfRespondEvent(rank: Rank)
    | ScheduleRespEvent(when: Tick)
    | ReportAvgLatency(avg: Option<nat>)
    | SignalDrainDone
    | IntfCheckRefreshState(rank: Rank)
    | SendRetryReq

  /** What the base controller reports when the response queue runs empty. */
  datatype DrainView = DrainView(draining: bool, totalWriteQueueSize: nat, totalReadQueueSize: nat, allIntfDrained: bool)

  /** The controller has drained: draining was requested and nothing is left anywhere. */
  predicate DrainComplete(d: DrainView) {
    d.draining && d.totalWriteQueueSize == 0 && d.totalReadQueueSize == 0 && d.allIntfDrained
  }

  /**
   * What processNextReqEvent asks for once the front burst is popped:
   * schedule the response event for the new front; or, with the queue empty,
   * report the average and signal that draining is done; or else kick the
   * refresh state machine for the popped burst's rank.
   */
  function AfterPop(rest: seq<MemPacket>, drain: DrainView, avg: Option<nat>, rank: Rank): (tail: seq<Action>) {
    if rest != [] then [ScheduleRespEvent(rest[0].readyTime)]
    else if DrainComplete(drain) then [ReportAvgLatency(avg), SignalDrainDone]
    else [IntfCheckRefreshState(rank)]
  }

  class CxlMemCtrl {
    var packetEntryTime: map<PacketId, Tick>
    var packetLatency: map<PacketId, Tick>
    var totalLatency: nat
    var numPackets: nat

    /** The base controller's response queue and the burst helpers of its split packets. */
    var respQueue: seq<MemPacket>
    var burstHelpers: map<HelperId, BurstHelper>
    /** A read was refused and its sender is owed a retry. */
    var retryRdReq: bool

    const frontendLatency: Tick
    const backendLatency: Tick

    /** Every recvTimingReq and accessAndRespond so far, with its tick. */
    ghost var calls: seq<Call>
    /** Every call into the base controller, the interface, the port and the event queue so far. */
    ghost var actions: seq<Action>

    ghost function Stats(): Accounting
      reads this`packetEntryTime, this`packetLatency, this`totalLatency, this`numPackets
    {
      Accounting(packetEntryTime, packetLatency, totalLatency, numPackets)
    }

    /** The latency fields are what replaying every call so far from construction gives. */
    ghost predicate Valid()
      reads this`packetEntryTime, this`packetLatency, this`totalLatency, this`numPackets, this`calls
    {
      Stats() == Run(Initial, calls)
    }

    /** Both counters start at zero and both tables empty. */
    constructor (frontendLatency: Tick, backendLatency: Tick)
      ensures Valid()
      ensures Stats() == Initial
      ensures respQueue == [] && burstHelpers == map[] && !retryRdReq
      ensures this.frontendLatency == frontendLatency && this.backendLatency == backendLatency
      ensures calls == [] && actions == []
    {
      packetEntryTime := map[];
      packetLatency := map[];
      totalLatency := 0;
      numPackets := 0;
      respQueue := [];
      burstHelpers := map[];
      retryRdReq := false;
      this.frontendLatency := frontendLatency;
      this.backendLatency := backendLatency;
      calls := [];
      actions := [];
    }

    /** The counters are the sum and the number of all latencies charged since construction. */
    lemma TotalsInvariant()
      requires Valid()
      ensures totalLatency == SumLatency(Charges(Initial, calls))
      ensures numPackets == |Charges(Initial, calls)|
    {
      RunTotals(Initial, calls);
    }

    /**
     * recvTimingReq: answers what the base controller decided and, when the
     * packet was accepted, stamps it with the current tick.
     */
    method RecvTimingReq(pkt: PacketId, now: Tick, baseAccepts: bool) returns (accepted: bool)
      requires Valid()
      modifies this`packetEntryTime, this`calls, this`actions
      ensures Valid()
      ensures accepted == baseAccepts
      ensures Stats() == RecordEntry(old(Stats()), pkt, now, baseAccepts)
      ensures calls == old(calls) + [Recv(pkt, now, baseAccepts)]
      ensures actions == old(actions) + [BaseRecvTimingReq(pkt)]
      ensures respQueue == old(respQueue) && burstHelpers == old(burstHelpers) && retryRdReq == old(retryRdReq)
    {
      ghost var c := Recv(pkt, now, baseAccepts);
      RunStep(Initial, calls, c);
      ghost var next := RecordEntry(Stats(), pkt, now, baseAccepts);
      actions := actions + [BaseRecvTimingReq(pkt)];
      accepted := baseAccepts;
      if accepted {
        var entryTime := now;
        packetEntryTime := packetEntryTime[pkt := entryTime];
      }
      assert Stats() == next;
      calls := calls + [c];
    }

    /**
     * accessAndRespond: a tracked packet is charged the ticks since its
     * entry, counted and dropped from the entry table; then the base
     * controller responds, once, tracked or not.
     */
    method AccessAndRespond(pkt: PacketId, staticLatency: nat, now: Tick)
      requires Valid()
      modifies this`packetEntryTime, this`packetLatency, this`totalLatency, this`numPackets, this`calls, this`actions
      ensures Valid()
      ensures Stats() == Account(old(Stats()), pkt, now)
      ensures calls == old(calls) + [Respond(pkt, now)]
      ensures actions == old(actions) + [BaseAccessAndRespond(pkt, staticLatency)]
      ensures respQueue == old(respQueue) && burstHelpers == old(burstHelpers) && retryRdReq == old(retryRdReq)
    {
      ghost var before := Stats();
      RespondStep(calls, before, pkt, now);
      var endTime := now;
      if pkt in packetEntryTime {
        var entryTime := packetEntryTime[pkt];
        var latency := Elapsed(entryTime, endTime);
        AccountTracked(before, pkt, now);
        totalLatency := totalLatency + latency;
        numPackets := numPackets + 1;
        packetEntryTime := packetEntryTime - {pkt};
        packetLatency := packetLatency[pkt := latency];
      }
      assert Stats() == Account(before, pkt, now);
      calls := calls + [Respond(pkt, now)];
      actions := actions + [BaseAccessAndRespond(pkt, staticLatency)];
    }

    /**
     * The split-packet part of processNextReqEvent: a burst of a split packet
     * advances its helper, and the last one answers the system packet and
     * frees the helper; an unsplit packet is answered at once.
     */
    method ServiceBurst(memPkt: MemPacket, now: Tick)
      requires Valid()
      requires memPkt.burstHelper.Some? ==> memPkt.burstHelper.value in burstHelpers
      modifies this`packetEntryTime, this`packetLatency, this`totalLatency, this`numPackets, this`burstHelpers, this`calls, this`actions
      ensures Valid()
      ensures var s := ServiceFront(memPkt, old(burstHelpers));
        && burstHelpers == s.helpers
        && (s.respond ==> Stats() == Account(old(Stats()), memPkt.pktId, now)
                          && calls == old(calls) + [Respond(memPkt.pktId, now)])
        && (!s.respond ==> Stats() == old(Stats()) && calls == old(calls))
        && actions == old(actions)
             + (if s.respond then [BaseAccessAndRespond(memPkt.pktId, frontendLatency + backendLatency)] else [])
      ensures respQueue == old(respQueue) && retryRdReq == old(retryRdReq)
    {
      if memPkt.burstHelper.Some? {
        // a split packet
        var h := memPkt.burstHelper.value;
        var serviced := burstHelpers[h].burstsServiced + 1;
        burstHelpers := burstHelpers[h := burstHelpers[h].(burstsServiced := serviced)];
        if serviced == burstHelpers[h].burstCount {
          // every burst of the system packet is done
          AccessAndRespond(memPkt.pktId, frontendLatency + backendLatency, now);
          burstHelpers := burstHelpers - {h};
        }
      } else {
        AccessAndRespond(memPkt.pktId, frontendLatency + backendLatency, now);
      }
    }

    /**
     * processNextReqEvent on the front of the response queue: service the
     * front burst, pop it, schedule the next response or, with the queue
     * empty, report the average and signal a completed drain or check the
     * refresh state, and finally send the one retry a refused read is owed.
     */
    method ProcessNextReqEvent(now: Tick, drain: DrainView, respEventScheduled: bool)
      requires Valid()
      requires respQueue != []
      requires respQueue[0].burstHelper.Some? ==> respQueue[0].burstHelper.value in burstHelpers
      requires |respQueue| > 1 ==> respQueue[1].readyTime >= now && !respEventScheduled
      modifies this
      ensures Valid()
      ensures respQueue == old(respQueue)[1..]
      ensures var s := ServiceFront(old(respQueue)[0], old(burstHelpers));
        && burstHelpers == s.helpers
        && (s.respond ==> Stats() == Account(old(Stats()), old(respQueue)[0].pktId, now)
                          && calls == old(calls) + [Respond(old(respQueue)[0].pktId, now)])
        && (!s.respond ==> Stats() == old(Stats()) && calls == old(calls))
        && actions == old(actions)
             + [IntfRespondEvent(old(respQueue)[0].rank)]
             + (if s.respond then [BaseAccessAndRespond(old(respQueue)[0].pktId, frontendLatency + backendLatency)] else [])
             + AfterPop(respQueue, drain, MeanLatency(totalLatency, numPackets), old(respQueue)[0].rank)
             + (if old(retryRdReq) then [SendRetryReq] else [])
      ensures !retryRdReq
      ensures BurstsConsistent(old(respQueue), old(burstHelpers)) ==> BurstsConsistent(respQueue, burstHelpers)
    {
      if BurstsConsistent(respQueue, burstHelpers) {
        ServiceKeepsConsistent(respQueue, burstHelpers);
      }
      var memPkt := respQueue[0];
      actions := actions + [IntfRespondEvent(memPkt.rank)];
      ServiceBurst(memPkt, now);
      PopServiced(memPkt.rank, drain);
    }

    /**
     * The end of processNextReqEvent, once the front burst is serviced: pop
     * it, then schedule the response event for the new front or, with the
     * queue empty, report the average and signal a completed drain or check
     * the refresh state; finally send the one retry a refused read is owed.
     * The latency state and the burst helpers are left alone.
     */
    method PopServiced(rank: Rank, drain: DrainView)
      requires Valid()
      requires respQueue != []
      modifies this`respQueue, this`actions, this`retryRdReq
      ensures respQueue == old(respQueue)[1..]
      ensures actions == old(actions)
        + AfterPop(respQueue, drain, MeanLatency(totalLatency, numPackets), rank)
        + (if old(retryRdReq) then [SendRetryReq] else [])
      ensures !retryRdReq
    {
      respQueue := respQueue[1..];
      if respQueue != [] {
        actions := actions + [ScheduleRespEvent(respQueue[0].readyTime)];
      } else if DrainComplete(drain) {
        actions := actions + [ReportAvgLatency(CalculateAvgLatency()), SignalDrainDone];
      } else {
        actions := actions + [IntfCheckRefreshState(rank)];
      }
      if retryRdReq {
        retryRdReq := false;
        actions := actions + [SendRetryReq];
      }
    }

    /**
     * calculateAvgLatency: the integer mean of every latency charged since
     * construction, or nothing when no packet has been counted.
     */
    function CalculateAvgLatency(): (avg: Option<nat>)
      reads this
      requires Valid()
      ensures avg == MeanLatency(SumLatency(Charges(Initial, calls)), |Charges(Initial, calls)|)
    {
      RunTotals(Initial, calls);
      MeanLatency(totalLatency, numPackets)
    }
  }
}
