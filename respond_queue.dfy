/**
 * The response queue that processNextReqEvent works through, one packet per
 * event. A system packet larger than one burst is split into several queued
 * bursts that share one burst helper; the helper counts serviced bursts and
 * the system packet is answered when the last of them is serviced. The
 * helper is a heap object shared by the bursts, so it is modelled as an
 * entry of a table keyed by a helper handle, which the controller owns.
 */
module RespondQueue {
  import opened LatencyAccounting

  type HelperId = nat
  type Rank = nat

  /** How many bursts of a split system packet have been serviced, out of how many. */
  datatype BurstHelper = BurstHelper(burstsServiced: nat, burstCount: nat)

  /** One queued burst: the system packet it belongs to, its rank, when it is ready, and its helper if split. */
  datatype MemPacket = MemPacket(pktId: PacketId, rank: Rank, readyTime: Tick, burstHelper: Option<HelperId>)

  /** Whether servicing a burst answers its system packet, and the helper table afterwards. */
  datatype Serviced = Serviced(respond: bool, helpers: map<HelperId, BurstHelper>)

  /**
   * Servicing the front burst: a burst of a split packet advances its helper
   * and answers the system packet only when that was the last burst, which
   * also frees the helper; an unsplit packet is answered at once.
   */
  function ServiceFront(p: MemPacket, helpers: map<HelperId, BurstHelper>): (r: Serviced)
    requires p.burstHelper.Some? ==> p.burstHelper.value in helpers
    ensures p.burstHelper.None? ==> r.respond && r.helpers == helpers
    ensures p.burstHelper.Some? ==>
      var h := p.burstHelper.value;
      && (r.respond <==> helpers[h].burstsServiced + 1 == helpers[h].burstCount)
      && (r.respond ==> r.helpers.Keys == helpers.Keys - {h})
      && (!r.respond ==> r.helpers.Keys == helpers.Keys && r.helpers[h].burstsServiced == helpers[h].burstsServiced + 1
                         && r.helpers[h].burstCount == helpers[h].burstCount)
      && (forall g :: g in r.helpers && g != h ==> r.helpers[g] == helpers[g])
  {
    match p.burstHelper
    case None => Serviced(true, helpers)
    case Some(h) =>
      var serviced := helpers[h].burstsServiced + 1;
      if serviced == helpers[h].burstCount then Serviced(true, helpers - {h})
      else Serviced(false, helpers[h := helpers[h].(burstsServiced := serviced)])
  }

  /** How many queued bursts share helper `h`. */
  function Pieces(q: seq<MemPacket>, h: HelperId): (n: nat) {
    if q == [] then 0 else (if q[0].burstHelper == Some(h) then 1 else 0) + Pieces(q[1..], h)
  }

  /** How many queued packets are not split. */
  function Unsplit(q: seq<MemPacket>): (n: nat) {
    if q == [] then 0 else (if q[0].burstHelper.None? then 1 else 0) + Unsplit(q[1..])
  }

  function Ids(q: seq<MemPacket>): (ids: seq<PacketId>) {
    if q == [] then [] else [q[0].pktId] + Ids(q[1..])
  }

  /**
   * The queue and the helper table agree: every queued burst's helper
   * exists, and each helper's serviced bursts plus its bursts still queued
   * make up its burst count, with at least one burst still queued.
   */
  ghost predicate BurstsConsistent(q: seq<MemPacket>, helpers: map<HelperId, BurstHelper>) {
    && (forall i :: 0 <= i < |q| && q[i].burstHelper.Some? ==> q[i].burstHelper.value in helpers)
    && (forall h :: h in helpers ==> 0 < Pieces(q, h) && helpers[h].burstsServiced + Pieces(q, h) == helpers[h].burstCount)
  }

  lemma {:induction false} NoPiecesNoReference(q: seq<MemPacket>, h: HelperId)
    requires Pieces(q, h) == 0
    ensures forall i :: 0 <= i < |q| ==> q[i].burstHelper != Some(h)
    decreases |q|
  {
    if q != [] {
      NoPiecesNoReference(q[1..], h);
      forall i | 0 <= i < |q| ensures q[i].burstHelper != Some(h) {
        if i > 0 {
          assert q[i] == q[1..][i - 1];
        }
      }
    }
  }

  /** Servicing the front burst and popping it keeps the queue and the helpers consistent. */
  lemma ServiceKeepsConsistent(q: seq<MemPacket>, helpers: map<HelperId, BurstHelper>)
    requires q != [] && BurstsConsistent(q, helpers)
    ensures q[0].burstHelper.Some? ==> q[0].burstHelper.value in helpers
    ensures BurstsConsistent(q[1..], ServiceFront(q[0], helpers).helpers)
  {
    var tail := q[1..];
    var s := ServiceFront(q[0], helpers);
    forall i | 0 <= i < |tail| && tail[i].burstHelper.Some?
      ensures tail[i].burstHelper.value in s.helpers
    {
      assert tail[i] == q[i + 1];
      var g := tail[i].burstHelper.value;
      if q[0].burstHelper == Some(g) && s.respond {
        NoPiecesNoReference(tail, g);
      }
    }
  }

  /** What servicing a whole queue answers, in order, and the helper table left at the end. */
  datatype Drained = Drained(responded: seq<PacketId>, helpers: map<HelperId, BurstHelper>)

  /**
   * Repeating processNextReqEvent until the queue is empty. Once every
   * queued burst has been serviced, every helper has been freed.
   */
  function Drain(q: seq<MemPacket>, helpers: map<HelperId, BurstHelper>): (r: Drained)
    requires BurstsConsistent(q, helpers)
    ensures r.helpers == map[]
    decreases |q|
  {
    if q == [] then
      assert forall h :: h !in helpers;
      Drained([], helpers)
    else
      var s := ServiceFront(q[0], helpers);
      ServiceKeepsConsistent(q, helpers);
      var rest := Drain(q[1..], s.helpers);
      Drained((if s.respond then [q[0].pktId] else []) + rest.responded, rest.helpers)
  }

  /**
   * The packets draining `q` answers, in queue order: each unsplit burst,
   * and each burst that is the last one queued for its helper.
   */
  function Answered(q: seq<MemPacket>): (ids: seq<PacketId>) {
    if q == [] then []
    else
      var last := q[0].burstHelper.None? || Pieces(q[1..], q[0].burstHelper.value) == 0;
      (if last then [q[0].pktId] else []) + Answered(q[1..])
  }

  /**
   * Draining a consistent queue answers, in queue order, exactly the
   * unsplit bursts and the last queued burst of every split system packet:
   * a split packet is answered when its last burst is serviced and at no
   * other burst.
   */
  lemma {:induction false} DrainAnswersLastBursts(q: seq<MemPacket>, helpers: map<HelperId, BurstHelper>)
    requires BurstsConsistent(q, helpers)
    ensures Drain(q, helpers).responded == Answered(q)
    decreases |q|
  {
    if q != [] {
      var s := ServiceFront(q[0], helpers);
      ServiceKeepsConsistent(q, helpers);
      DrainAnswersLastBursts(q[1..], s.helpers);
      if q[0].burstHelper.Some? {
        var h := q[0].burstHelper.value;
        assert Pieces(q, h) == 1 + Pieces(q[1..], h);
      }
    }
  }

  /**
   * The number of answers a drain gives: one per unsplit packet and one per
   * split system packet in flight (one per live helper).
   */
  lemma {:induction false} DrainRespondsOncePerPacket(q: seq<MemPacket>, helpers: map<HelperId, BurstHelper>)
    requires BurstsConsistent(q, helpers)
    ensures |Drain(q, helpers).responded| == Unsplit(q) + |helpers|
    decreases |q|
  {
    if q == [] {
      assert forall h :: h !in helpers;
      assert helpers == map[];
    } else {
      var s := ServiceFront(q[0], helpers);
      ServiceKeepsConsistent(q, helpers);
      DrainRespondsOncePerPacket(q[1..], s.helpers);
      if q[0].burstHelper.Some? {
        var h := q[0].burstHelper.value;
        if s.respond {
          assert |s.helpers.Keys| == |helpers.Keys| - 1;
        } else {
          assert |s.helpers.Keys| == |helpers.Keys|;
        }
      }
    }
  }

  /** With no split packet, draining answers every packet in queue order. */
  lemma {:induction false} DrainUnsplitInOrder(q: seq<MemPacket>)
    requires forall i :: 0 <= i < |q| ==> q[i].burstHelper.None?
    ensures BurstsConsistent(q, map[])
    ensures Drain(q, map[]).responded == Ids(q)
    decreases |q|
  {
    if q != [] {
      DrainUnsplitInOrder(q[1..]);
    }
  }

  /**
   * A system packet split into bursts that are all queued is answered
   * exactly once by draining them (DrainAnswersLastBursts says at which
   * burst).
   */
  lemma {:induction false} SplitPacketAnsweredOnce(q: seq<MemPacket>, h: HelperId, id: PacketId, serviced: nat)
    requires q != []
    requires forall i :: 0 <= i < |q| ==> q[i].burstHelper == Some(h) && q[i].pktId == id
    ensures BurstsConsistent(q, map[h := BurstHelper(serviced, serviced + |q|)])
    ensures Drain(q, map[h := BurstHelper(serviced, serviced + |q|)]).responded == [id]
    decreases |q|
  {
    SplitPieces(q, h);
    DrainAnswersLastBursts(q, map[h := BurstHelper(serviced, serviced + |q|)]);
    AnsweredOneSplit(q, h, id);
  }

  /** Of the bursts of one split packet, only the last is answered. */
  lemma {:induction false} AnsweredOneSplit(q: seq<MemPacket>, h: HelperId, id: PacketId)
    requires q != []
    requires forall i :: 0 <= i < |q| ==> q[i].burstHelper == Some(h) && q[i].pktId == id
    ensures Answered(q) == [id]
    decreases |q|
  {
    SplitPieces(q[1..], h);
    if |q| > 1 {
      AnsweredOneSplit(q[1..], h, id);
    } else {
      assert q[1..] == [];
    }
  }

  lemma {:induction false} SplitPieces(q: seq<MemPacket>, h: HelperId)
    requires forall i :: 0 <= i < |q| ==> q[i].burstHelper == Some(h)
    ensures Pieces(q, h) == |q|
    decreases |q|
  {
    if q != [] {
      SplitPieces(q[1..], h);
    }
  }
}
