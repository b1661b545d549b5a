/**
 * The congestion state of one TcpScalable connection as a value, and the
 * effect of each event on it. The class in tcp_scalable.dfy is proved to
 * follow these functions; the laws of the window are proved here.
 */
module ScalableCongestion {
  import opened UInt32

  /** The retransmit threshold a fresh controller starts with. */
  const DefaultRetxThresh: u32 := 3

  /**
   * The four `uint32_t` fields the controller works on:
   * m_cWnd, m_ssThresh, m_segmentSize and m_retxThresh.
   */
  datatype CongState = CongState(cwnd: u32, ssThresh: u32, segmentSize: u32, retxThresh: u32)

  /** The three events that reach the controller. */
  datatype Event =
    | NewAck(ackSeq: u32)   // an ACK that advances the send window up to ackSeq
    | DupAck(count: u32)    // a duplicate ACK, the count-th in a row
    | Retransmit            // the retransmission timer fired

  /** The controller is in slow start while the window is below the threshold. */
  predicate InSlowStart(s: CongState) {
    s.cwnd < s.ssThresh
  }

  /** Growing by one segment never wraps while the window is below ssthresh. */
  predicate NoWrap(s: CongState) {
    s.ssThresh + s.segmentSize <= MOD
  }

  /** The unbounded minimum, used to state results without machine arithmetic. */
  function MinInt(a: int, b: int): int {
    if a <= b then a else b
  }

  /**
   * Effect of a new ACK. In slow start the window grows by one segment,
   * with `uint32_t` addition, and is capped at ssthresh. In congestion
   * avoidance nothing changes. Only the window is ever assigned.
   */
  function OnNewAck(s: CongState): (r: CongState)
    ensures r.ssThresh == s.ssThresh && r.segmentSize == s.segmentSize && r.retxThresh == s.retxThresh
    ensures !InSlowStart(s) ==> r == s
    ensures InSlowStart(s) ==> r.cwnd <= r.ssThresh
    ensures InSlowStart(s) && s.cwnd + s.segmentSize < MOD ==>
              r.cwnd == MinInt(s.cwnd + s.segmentSize, s.ssThresh)
    ensures InSlowStart(s) && MOD <= s.cwnd + s.segmentSize ==>
              r.cwnd == MinInt(s.cwnd + s.segmentSize - MOD, s.ssThresh)
  {
    if s.cwnd < s.ssThresh then s.(cwnd := Min(Add(s.cwnd, s.segmentSize), s.ssThresh))
    else s
  }

  /** Effect of any event: only a new ACK can change the state. */
  function Step(s: CongState, e: Event): (r: CongState)
    ensures r.ssThresh == s.ssThresh && r.segmentSize == s.segmentSize && r.retxThresh == s.retxThresh
    ensures !e.NewAck? ==> r == s
    ensures e.NewAck? ==> r == OnNewAck(s)
  {
    match e
    case NewAck(_) => OnNewAck(s)
    case DupAck(_) => s     // the fast-retransmit response is disabled
    case Retransmit => s    // the timeout response is disabled
  }

  /** The state after the events of `es`, in order. */
  function Run(s: CongState, es: seq<Event>): (r: CongState)
    ensures r.ssThresh == s.ssThresh && r.segmentSize == s.segmentSize && r.retxThresh == s.retxThresh
    decreases |es|
  {
    if es == [] then s else Run(Step(s, es[0]), es[1..])
  }

  /** The state after `n` new ACKs. */
  function AfterAcks(s: CongState, n: nat): (r: CongState)
    ensures r.ssThresh == s.ssThresh && r.segmentSize == s.segmentSize && r.retxThresh == s.retxThresh
  {
    if n == 0 then s else OnNewAck(AfterAcks(s, n - 1))
  }

  /** `ceil(a / b)`, characterised by its bounds. */
  function CeilDiv(a: nat, b: nat): (q: nat)
    requires b > 0
    ensures a <= q * b
    ensures q == 0 || (q - 1) * b < a
  {
    var q := (a + b - 1) / b;
    assert (a + b - 1) == q * b + (a + b - 1) % b;
    q
  }

  // ---------------------------------------------------------------------
  // One ACK
  // ---------------------------------------------------------------------

  /**
   * In slow start, one ACK leaves the window no smaller exactly when the
   * `uint32_t` sum does not wrap; with a non-empty segment and no wrap it
   * grows strictly. When the sum wraps, the window shrinks.
   */
  lemma SlowStartGrowsIffNoWrap(s: CongState)
    requires InSlowStart(s)
    ensures s.cwnd <= OnNewAck(s).cwnd <==> s.cwnd + s.segmentSize < MOD
    ensures s.cwnd + s.segmentSize < MOD && s.segmentSize > 0 ==> s.cwnd < OnNewAck(s).cwnd
  {
  }

  // ---------------------------------------------------------------------
  // Runs of events
  // ---------------------------------------------------------------------

  /** Congestion avoidance is absorbing: from there no event changes anything. */
  lemma {:induction false} CongestionAvoidanceAbsorbing(s: CongState, es: seq<Event>)
    requires !InSlowStart(s)
    ensures Run(s, es) == s
    decreases |es|
  {
    if es != [] {
      CongestionAvoidanceAbsorbing(Step(s, es[0]), es[1..]);
    }
  }

  /** A run can only leave slow start, never re-enter it. */
  lemma StillSlowStartOnlyIfStarted(s: CongState, es: seq<Event>)
    requires InSlowStart(Run(s, es))
    ensures InSlowStart(s)
  {
    if !InSlowStart(s) {
      CongestionAvoidanceAbsorbing(s, es);
    }
  }

  /** `cwnd <= ssthresh` holds forever once it holds, whether or not the sum wraps. */
  lemma {:induction false} CapPreserved(s: CongState, es: seq<Event>)
    requires s.cwnd <= s.ssThresh
    ensures Run(s, es).cwnd <= Run(s, es).ssThresh
    decreases |es|
  {
    if es != [] {
      CapPreserved(Step(s, es[0]), es[1..]);
    }
  }

  /** Without wrap-around the window never decreases, whatever the events. */
  lemma {:induction false} WindowMonotone(s: CongState, es: seq<Event>)
    requires NoWrap(s)
    ensures s.cwnd <= Run(s, es).cwnd
    decreases |es|
  {
    if es != [] {
      var t := Step(s, es[0]);
      assert s.cwnd <= t.cwnd by {
        if InSlowStart(s) { SlowStartGrowsIffNoWrap(s); }
      }
      WindowMonotone(t, es[1..]);
    }
  }

  // ---------------------------------------------------------------------
  // Repeated ACKs
  // ---------------------------------------------------------------------

  /**
   * After `n` ACKs the window is one segment per ACK more, capped at
   * ssthresh (or unchanged when it started at or above ssthresh), as long
   * as no step wraps: either the window stays below 2^32 for all `n`
   * steps, or growing from just below ssthresh cannot wrap.
   */
  lemma {:induction false} AfterAcksWindow(s: CongState, n: nat)
    requires s.cwnd + n * s.segmentSize < MOD || NoWrap(s)
    ensures AfterAcks(s, n).cwnd ==
              if InSlowStart(s) then MinInt(s.cwnd + n * s.segmentSize, s.ssThresh) else s.cwnd
  {
    if n > 0 {
      assert s.cwnd + (n - 1) * s.segmentSize + s.segmentSize == s.cwnd + n * s.segmentSize;
      AfterAcksWindow(s, n - 1);
      var p := AfterAcks(s, n - 1);
      if InSlowStart(s) && InSlowStart(p) {
        assert p.cwnd == s.cwnd + (n - 1) * s.segmentSize;
        assert p.cwnd + p.segmentSize < MOD;
      }
    }
  }

  /** `a * c <= b * c` for `a <= b`. */
  lemma MulMonotone(a: nat, b: nat, c: nat)
    requires a <= b
    ensures a * c <= b * c
  {
    assert b * c == a * c + (b - a) * c;
  }

  /** The number of ACKs slow start needs to reach ssthresh. */
  function AcksToThreshold(s: CongState): (k: nat)
    requires InSlowStart(s) && s.segmentSize > 0
    ensures k > 0
  {
    CeilDiv(s.ssThresh - s.cwnd, s.segmentSize)
  }

  /**
   * From slow start with a non-empty segment, the window reaches ssthresh
   * after exactly ceil((ssthresh - cwnd) / segmentSize) ACKs and is below
   * it before.
   */
  lemma ReachesThreshold(s: CongState)
    requires InSlowStart(s) && s.segmentSize > 0 && NoWrap(s)
    ensures AfterAcks(s, AcksToThreshold(s)).cwnd == s.ssThresh
    ensures forall j :: 0 <= j < AcksToThreshold(s) ==> InSlowStart(AfterAcks(s, j))
  {
    var k := AcksToThreshold(s);
    AfterAcksWindow(s, k);
    forall j | 0 <= j < k
      ensures InSlowStart(AfterAcks(s, j))
    {
      AfterAcksWindow(s, j);
      MulMonotone(j, k - 1, s.segmentSize);
    }
  }

  /** Once slow start has reached ssthresh, every further ACK leaves the state as it is. */
  lemma FixedAfterThreshold(s: CongState, m: nat)
    requires InSlowStart(s) && s.segmentSize > 0 && NoWrap(s)
    requires AcksToThreshold(s) <= m
    ensures AfterAcks(s, m) == AfterAcks(s, AcksToThreshold(s))
  {
    var k := AcksToThreshold(s);
    AfterAcksWindow(s, k);
    AfterAcksWindow(s, m);
    MulMonotone(k, m, s.segmentSize);
  }

  /**
   * The slow-start trajectory with cwnd 1000, ssthresh 4000 and segment
   * size 1000: 2000, 3000, 4000, and then 4000 forever; the controller
   * leaves slow start exactly at the third ACK.
   */
  lemma SlowStartScenario()
    ensures var s := CongState(1000, 4000, 1000, DefaultRetxThresh);
      && AfterAcks(s, 1).cwnd == 2000
      && AfterAcks(s, 2).cwnd == 3000
      && AfterAcks(s, 3).cwnd == 4000
      && InSlowStart(AfterAcks(s, 2)) && !InSlowStart(AfterAcks(s, 3))
      && forall n :: 3 <= n ==> AfterAcks(s, n).cwnd == 4000
  {
    var s := CongState(1000, 4000, 1000, DefaultRetxThresh);
    forall n | 3 <= n
      ensures AfterAcks(s, n).cwnd == 4000
    {
      AfterAcksWindow(s, n);
    }
  }

  /**
   * The wrap-around is reachable: with segment size 536 and ssthresh
   * 0xFFFFFFFF, slow start from one segment reaches 4294966928 after
   * 8012997 ACKs, and the next ACK wraps the window down to 168.
   */
  lemma WrapReachable()
    ensures var s := CongState(536, MAX, 536, DefaultRetxThresh);
      && AfterAcks(s, 8012997).cwnd == 4294966928
      && AfterAcks(s, 8012998).cwnd == 168
  {
    var s := CongState(536, MAX, 536, DefaultRetxThresh);
    AfterAcksWindow(s, 8012997);
  }
}
