/**
 * The latency bookkeeping that the CXL memory controller adds on top of the
 * base memory controller: a table of entry ticks keyed by packet id, a table
 * of measured latencies, and the running total and count behind the average.
 *
 * The state changes are given as functions on an `Accounting` value; the
 * controller class in cxl_mem_ctrl.dfy performs them in place and is proved
 * to agree with them. A run of the controller is a trace of `Call`s, and
 * `Run` and `Charges` replay a trace, so that facts about every sequence of
 * calls are lemmas here.
 */
module LatencyAccounting {

  /** gem5's packet id; the source's `PacketId` is an unsigned 64-bit integer, used only as a key here. */
  type PacketId = nat

  /** One more than the largest unsigned 64-bit value. */
  const TICK_RANGE: int := 0x1_0000_0000_0000_0000

  /** gem5's simulator tick, an unsigned 64-bit integer. */
  type Tick = t: int | 0 <= t < TICK_RANGE

  /**
   * `endTime - entryTime` on unsigned 64-bit ticks: the difference modulo
   * 2^64, which is the plain difference whenever the entry is not later.
   */
  function Elapsed(entryTime: Tick, endTime: Tick): (r: Tick)
    ensures entryTime <= endTime ==> r == endTime - entryTime
    ensures endTime < entryTime ==> r == TICK_RANGE - (entryTime - endTime)
  {
    (endTime - entryTime) % TICK_RANGE
  }

  datatype Option<T> = None | Some(value: T)

  /** The fields `packetEntryTime`, `packetLatency`, `totalLatency` and `numPackets`. */
  datatype Accounting = Accounting(
    packetEntryTime: map<PacketId, Tick>,
    packetLatency: map<PacketId, Tick>,
    totalLatency: nat,
    numPackets: nat)

  /** The state of a freshly constructed controller, with both counters zeroed. */
  const Initial: Accounting := Accounting(map[], map[], 0, 0)

  /**
   * recvTimingReq after the base controller decided `accepted`: an accepted
   * packet is stamped with the current tick, overwriting a stale stamp for
   * the same id; a rejected one leaves everything as it was.
   */
  function RecordEntry(a: Accounting, id: PacketId, now: Tick, accepted: bool): (r: Accounting)
    ensures !accepted ==> r == a
    ensures accepted ==> id in r.packetEntryTime && r.packetEntryTime[id] == now
    ensures r.packetEntryTime.Keys == a.packetEntryTime.Keys + (if accepted then {id} else {})
    ensures forall k :: k in a.packetEntryTime && k != id ==> r.packetEntryTime[k] == a.packetEntryTime[k]
    ensures r.packetLatency == a.packetLatency
    ensures r.totalLatency == a.totalLatency && r.numPackets == a.numPackets
  {
    if accepted then a.(packetEntryTime := a.packetEntryTime[id := now]) else a
  }

  /**
   * The latency bookkeeping of accessAndRespond at tick `now`: a tracked
   * packet is charged the ticks it spent in the controller, counted once and
   * dropped from the entry table; an untracked one changes nothing.
   */
  function Account(a: Accounting, id: PacketId, now: Tick): (r: Accounting)
    ensures id !in a.packetEntryTime ==> r == a
    ensures id in a.packetEntryTime ==>
      && r.totalLatency == a.totalLatency + Elapsed(a.packetEntryTime[id], now)
      && r.numPackets == a.numPackets + 1
      && r.packetEntryTime.Keys == a.packetEntryTime.Keys - {id}
      && (forall k :: k in r.packetEntryTime ==> r.packetEntryTime[k] == a.packetEntryTime[k])
      && r.packetLatency.Keys == a.packetLatency.Keys + {id}
      && r.packetLatency[id] == Elapsed(a.packetEntryTime[id], now)
      && (forall k :: k in a.packetLatency && k != id ==> r.packetLatency[k] == a.packetLatency[k])
  {
    if id in a.packetEntryTime then
      var latency := Elapsed(a.packetEntryTime[id], now);
      Accounting(a.packetEntryTime - {id}, a.packetLatency[id := latency],
                 a.totalLatency + latency, a.numPackets + 1)
    else
      a
  }

  /** One call into the controller's latency layer, with the tick it happened at. */
  datatype Call =
    | Recv(id: PacketId, now: Tick, accepted: bool)
    | Respond(id: PacketId, now: Tick)

  /** One latency that accessAndRespond added to `totalLatency`. */
  datatype Charge = Charge(id: PacketId, latency: Tick)

  /** Simulated time never goes backwards along a trace. */
  ghost predicate TimeOrdered(trace: seq<Call>) {
    forall i, j :: 0 <= i < j < |trace| ==> trace[i].now <= trace[j].now
  }

  function Apply(a: Accounting, c: Call): (after: Accounting) {
    match c
    case Recv(id, now, accepted) => RecordEntry(a, id, now, accepted)
    case Respond(id, now) => Account(a, id, now)
  }

  /** The latency `c` adds to the total, if any. */
  function Charged(a: Accounting, c: Call): (charged: seq<Charge>) {
    if c.Respond? && c.id in a.packetEntryTime then [Charge(c.id, Elapsed(a.packetEntryTime[c.id], c.now))] else []
  }

  /** The state after replaying `trace` from `start`. */
  function Run(start: Accounting, trace: seq<Call>): (state: Accounting)
    decreases |trace|
  {
    if trace == [] then start
    else
      var prefix := trace[..|trace| - 1];
      Apply(Run(start, prefix), trace[|trace| - 1])
  }

  /** The latencies charged while replaying `trace`, in order. */
  function Charges(start: Accounting, trace: seq<Call>): (charges: seq<Charge>)
    decreases |trace|
  {
    if trace == [] then []
    else
      var prefix := trace[..|trace| - 1];
      Charges(start, prefix) + Charged(Run(start, prefix), trace[|trace| - 1])
  }

  function SumLatency(cs: seq<Charge>): (sum: nat) {
    if cs == [] then 0 else SumLatency(cs[..|cs| - 1]) + cs[|cs| - 1].latency
  }

  /** How many charges were made for packet `id`. */
  function TimesCharged(cs: seq<Charge>, id: PacketId): (n: nat) {
    if cs == [] then 0 else TimesCharged(cs[..|cs| - 1], id) + (if cs[|cs| - 1].id == id then 1 else 0)
  }

  /** How many times the base controller accepted packet `id`. */
  function Admissions(trace: seq<Call>, id: PacketId): (n: nat) {
    if trace == [] then 0
    else
      var c := trace[|trace| - 1];
      Admissions(trace[..|trace| - 1], id) + (if c.Recv? && c.id == id && c.accepted then 1 else 0)
  }

  /**
   * The tick at which `id` was last admitted, unless a respond for it came
   * after that admission.
   */
  function Pending(trace: seq<Call>, id: PacketId): (entry: Option<Tick>) {
    if trace == [] then None
    else
      var c := trace[|trace| - 1];
      if c.id != id then Pending(trace[..|trace| - 1], id)
      else match c
        case Recv(_, now, accepted) => if accepted then Some(now) else Pending(trace[..|trace| - 1], id)
        case Respond(_, _) => None
  }

  function Lookup(m: map<PacketId, Tick>, id: PacketId): (entry: Option<Tick>) {
    if id in m then Some(m[id]) else None
  }

  /** Appending a call to a trace replays as one more step. */
  lemma RunStep(start: Accounting, trace: seq<Call>, c: Call)
    ensures Run(start, trace + [c]) == Apply(Run(start, trace), c)
  {
    var t := trace + [c];
    assert t[..|t| - 1] == trace;
  }

  /** Appending a call to a trace adds what that call charges. */
  lemma ChargesStep(start: Accounting, trace: seq<Call>, c: Call)
    ensures Charges(start, trace + [c]) == Charges(start, trace) + Charged(Run(start, trace), c)
  {
    var t := trace + [c];
    assert t[..|t| - 1] == trace;
  }

  /** A respond appended to a trace replays as `Account` on the state before it. */
  lemma RespondStep(trace: seq<Call>, a: Accounting, id: PacketId, now: Tick)
    requires a == Run(Initial, trace)
    ensures Run(Initial, trace + [Respond(id, now)]) == Account(a, id, now)
  {
    RunStep(Initial, trace, Respond(id, now));
  }

  /** The state `Account` leaves for a tracked packet, field by field. */
  lemma AccountTracked(a: Accounting, id: PacketId, now: Tick)
    requires id in a.packetEntryTime
    ensures var latency := Elapsed(a.packetEntryTime[id], now);
      Account(a, id, now)
      == Accounting(a.packetEntryTime - {id}, a.packetLatency[id := latency], a.totalLatency + latency, a.numPackets + 1)
  {
  }

  /**
   * The counters always hold the sum and the number of the latencies charged
   * so far, on top of whatever they started from.
   */
  lemma {:induction false} RunTotals(start: Accounting, trace: seq<Call>)
    ensures Run(start, trace).totalLatency == start.totalLatency + SumLatency(Charges(start, trace))
    ensures Run(start, trace).numPackets == start.numPackets + |Charges(start, trace)|
    decreases |trace|
  {
    if trace != [] {
      var prefix := trace[..|trace| - 1];
      RunTotals(start, prefix);
      var cs := Charges(start, prefix);
      var extra := Charged(Run(start, prefix), trace[|trace| - 1]);
      if extra != [] {
        assert (cs + extra)[..|cs + extra| - 1] == cs;
      } else {
        assert cs + extra == cs;
      }
    }
  }

  /**
   * From an empty entry table, the table holds exactly the packets admitted
   * and not yet responded to, each with the tick of its latest admission.
   */
  lemma {:induction false} EntryIsPending(start: Accounting, trace: seq<Call>, id: PacketId)
    requires start.packetEntryTime == map[]
    ensures Lookup(Run(start, trace).packetEntryTime, id) == Pending(trace, id)
    decreases |trace|
  {
    if trace != [] {
      EntryIsPending(start, trace[..|trace| - 1], id);
    }
  }

  /** A pending admission happened no later than the last call of a time-ordered trace. */
  lemma {:induction false} PendingNotLater(trace: seq<Call>, id: PacketId)
    requires TimeOrdered(trace)
    requires Pending(trace, id).Some?
    ensures Pending(trace, id).value <= trace[|trace| - 1].now
    decreases |trace|
  {
    var prefix := trace[..|trace| - 1];
    var c := trace[|trace| - 1];
    if c.id != id || (c.Recv? && !c.accepted) {
      PendingNotLater(prefix, id);
      assert prefix[|prefix| - 1] == trace[|trace| - 2];
    }
  }

  /**
   * While time runs forward, a respond charges exactly the ticks since the
   * packet's latest admission, with no unsigned wrap-around, and records
   * that latency; a respond for a packet that is not pending charges
   * nothing and changes nothing.
   */
  lemma RespondChargesResidence(start: Accounting, trace: seq<Call>, id: PacketId, now: Tick)
    requires start.packetEntryTime == map[]
    requires TimeOrdered(trace)
    requires |trace| > 0 ==> trace[|trace| - 1].now <= now
    ensures Pending(trace, id).None? ==>
      && Run(start, trace + [Respond(id, now)]) == Run(start, trace)
      && Charges(start, trace + [Respond(id, now)]) == Charges(start, trace)
    ensures Pending(trace, id).Some? ==>
      && Pending(trace, id).value <= now
      && Charges(start, trace + [Respond(id, now)])
         == Charges(start, trace) + [Charge(id, now - Pending(trace, id).value)]
      && Run(start, trace + [Respond(id, now)]).packetLatency[id] == now - Pending(trace, id).value
  {
    RunStep(start, trace, Respond(id, now));
    ChargesStep(start, trace, Respond(id, now));
    EntryIsPending(start, trace, id);
    if Pending(trace, id).None? {
      assert Charges(start, trace) + [] == Charges(start, trace);
    } else {
      PendingNotLater(trace, id);
    }
  }

  /**
   * No admission is charged twice: the charges for a packet plus its pending
   * entry never exceed the number of times it was admitted.
   */
  lemma {:induction false} NoDoubleCount(start: Accounting, trace: seq<Call>, id: PacketId)
    requires start.packetEntryTime == map[]
    ensures TimesCharged(Charges(start, trace), id)
            + (if id in Run(start, trace).packetEntryTime then 1 else 0)
            <= Admissions(trace, id)
    decreases |trace|
  {
    if trace != [] {
      var prefix := trace[..|trace| - 1];
      var c := trace[|trace| - 1];
      NoDoubleCount(start, prefix, id);
      var before := Run(start, prefix);
      assert Run(start, trace) == Apply(before, c);
      var cs := Charges(start, prefix);
      var extra := Charged(before, c);
      assert Charges(start, trace) == cs + extra;
      TimesChargedAppend(cs, extra, id);
    }
  }

  lemma TimesChargedAppend(cs: seq<Charge>, extra: seq<Charge>, id: PacketId)
    requires |extra| <= 1
    ensures TimesCharged(cs + extra, id) == TimesCharged(cs, id) + (if extra != [] && extra[0].id == id then 1 else 0)
  {
    if extra != [] {
      assert (cs + extra)[..|cs + extra| - 1] == cs;
    } else {
      assert cs + extra == cs;
    }
  }

  /**
   * calculateAvgLatency: the integer mean, defined only when some packet
   * was counted. The result is the largest value whose multiple by the
   * count does not exceed the total.
   */
  function MeanLatency(totalLatency: nat, numPackets: nat): (r: Option<nat>)
    ensures r.Some? <==> numPackets > 0
    ensures r.Some? ==> r.value * numPackets <= totalLatency < (r.value + 1) * numPackets
  {
    if numPackets > 0 then Some(totalLatency / numPackets) else None
  }

  lemma {:induction false} SumBounded(cs: seq<Charge>, lo: Tick, hi: Tick)
    requires forall i :: 0 <= i < |cs| ==> lo <= cs[i].latency <= hi
    ensures |cs| * lo <= SumLatency(cs) <= |cs| * hi
    decreases |cs|
  {
    if cs != [] {
      var prefix := cs[..|cs| - 1];
      SumBounded(prefix, lo, hi);
      assert |cs| * lo == |prefix| * lo + lo;
      assert |cs| * hi == |prefix| * hi + hi;
    }
  }

  lemma MulMonotone(x: nat, y: nat, n: nat)
    requires x <= y
    ensures x * n <= y * n
  {
  }

  /** An integer quotient lies between any two bounds that its dividend respects per unit. */
  lemma QuotientBetween(q: nat, n: nat, total: nat, lo: nat, hi: nat)
    requires n > 0
    requires q * n <= total < (q + 1) * n
    requires n * lo <= total <= n * hi
    ensures lo <= q <= hi
  {
    if q < lo {
      MulMonotone(q + 1, lo, n);
    }
    if q > hi {
      MulMonotone(hi + 1, q, n);
    }
  }

  lemma MeanOfBoundedCharges(cs: seq<Charge>, lo: Tick, hi: Tick)
    requires forall i :: 0 <= i < |cs| ==> lo <= cs[i].latency <= hi
    ensures MeanLatency(SumLatency(cs), |cs|).Some? ==> lo <= MeanLatency(SumLatency(cs), |cs|).value <= hi
  {
    SumBounded(cs, lo, hi);
    var m := MeanLatency(SumLatency(cs), |cs|);
    if m.Some? {
      QuotientBetween(m.value, |cs|, SumLatency(cs), lo, hi);
    }
  }

  /**
   * From a properly constructed controller, the reported average lies
   * between the smallest and the largest latency ever charged.
   */
  lemma MeanWithinCharges(trace: seq<Call>, lo: Tick, hi: Tick)
    requires forall i :: 0 <= i < |Charges(Initial, trace)| ==> lo <= Charges(Initial, trace)[i].latency <= hi
    ensures var a := Run(Initial, trace);
            MeanLatency(a.totalLatency, a.numPackets).Some? ==>
              lo <= MeanLatency(a.totalLatency, a.numPackets).value <= hi
  {
    RunTotals(Initial, trace);
    MeanOfBoundedCharges(Charges(Initial, trace), lo, hi);
  }

  /**
   * From a properly constructed controller the average is the integer mean
   * of exactly the latencies charged so far.
   */
  lemma MeanFromInitial(trace: seq<Call>)
    ensures var a := Run(Initial, trace);
            var cs := Charges(Initial, trace);
            MeanLatency(a.totalLatency, a.numPackets)
              == if cs == [] then None else Some(SumLatency(cs) / |cs|)
  {
    RunTotals(Initial, trace);
    var a := Run(Initial, trace);
    var cs := Charges(Initial, trace);
    assert a.totalLatency == SumLatency(cs) && a.numPackets == |cs|;
  }

  /**
   * The accounting state as the source constructs it: the maps start empty
   * but the two counters are never assigned, so they hold whatever values
   * the memory had (here only non-negative ones).
   */
  function UninitialisedStart(garbageTotal: nat, garbageCount: nat): (r: Accounting)
    ensures r.packetEntryTime == map[] && r.packetLatency == map[]
    ensures r.totalLatency == garbageTotal && r.numPackets == garbageCount
  {
    Accounting(map[], map[], garbageTotal, garbageCount)
  }

  /**
   * With a leftover total of 7, one packet admitted at tick 0 and answered
   * at tick 3 is charged 3 ticks, yet the reported average is 10.
   */
  lemma UninitialisedCountersSkewMean()
    ensures var trace := [Recv(1, 0, true), Respond(1, 3)];
            && Charges(UninitialisedStart(7, 0), trace) == [Charge(1, 3)]
            && var a := Run(UninitialisedStart(7, 0), trace);
               MeanLatency(a.totalLatency, a.numPackets) == Some(10)
  {
    var start := UninitialisedStart(7, 0);
    var admitted := Run(start, [Recv(1, 0, true)]);
    RunStep(start, [], Recv(1, 0, true));
    ChargesStep(start, [], Recv(1, 0, true));
    assert admitted.packetEntryTime == map[1 := 0];
    RunStep(start, [Recv(1, 0, true)], Respond(1, 3));
    ChargesStep(start, [Recv(1, 0, true)], Respond(1, 3));
    assert [Recv(1, 0, true)] + [Respond(1, 3)] == [Recv(1, 0, true), Respond(1, 3)];
  }
}
