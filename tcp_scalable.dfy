/**
 * The TcpScalable socket's congestion controller as an object whose event
 * handlers update its fields in place. Each handler is proved to move the
 * object's state exactly as the matching function of ScalableCongestion says.
 */
module TcpScalableSocket {
  import opened UInt32
  import opened ScalableCongestion

  class TcpScalable {
    var cWnd: u32         // congestion window, in bytes
    var ssThresh: u32     // slow-start threshold, in bytes
    var segmentSize: u32  // segment size, in bytes
    var retxThresh: u32   // duplicate ACKs that would trigger fast retransmit

    /** The object's fields as a value. */
    function State(): CongState
      reads this
    {
      CongState(cWnd, ssThresh, segmentSize, retxThresh)
    }

    /**
     * A new controller. Only the retransmit threshold is set here (to 3);
     * window, threshold and segment size are the values the socket base
     * class supplies.
     */
    constructor (initialCWnd: u32, initialSsThresh: u32, segSize: u32)
      ensures State() == CongState(initialCWnd, initialSsThresh, segSize, DefaultRetxThresh)
    {
      cWnd := initialCWnd;
      ssThresh := initialSsThresh;
      segmentSize := segSize;
      retxThresh := DefaultRetxThresh;
    }

    /** The copy constructor: a new object holding the same field values as `sock`. */
    constructor Copy(sock: TcpScalable)
      ensures State() == sock.State()
      ensures retxThresh == sock.retxThresh
    {
      cWnd := sock.cWnd;
      ssThresh := sock.ssThresh;
      segmentSize := sock.segmentSize;
      retxThresh := sock.retxThresh;
    }

    /** A separate controller for a forked connection, with this one's state. */
    method Fork() returns (child: TcpScalable)
      ensures fresh(child)
      ensures child.State() == State()
      ensures child.retxThresh == retxThresh
    {
      child := new TcpScalable.Copy(this);
    }

    /**
     * A new ACK up to `ackSeq`. In slow start the window grows by one
     * segment (`uint32_t` addition) capped at ssthresh; in congestion
     * avoidance it is left alone. The remaining ACK processing belongs to
     * the socket base class and is not part of this model.
     */
    method NewAck(ackSeq: u32)
      modifies this
      ensures State() == Step(old(State()), Event.NewAck(ackSeq))
      ensures ssThresh == old(ssThresh) && segmentSize == old(segmentSize) && retxThresh == old(retxThresh)
      ensures old(cWnd) < old(ssThresh) ==> cWnd <= ssThresh
      ensures old(cWnd) >= old(ssThresh) ==> cWnd == old(cWnd)
    {
      if cWnd < ssThresh {
        cWnd := Min(Add(cWnd, segmentSize), ssThresh);
      }
    }

    /** A duplicate ACK, the `count`-th in a row: as compiled, nothing changes. */
    method DupAck(count: u32)
      modifies this
      ensures unchanged(this)
      ensures State() == Step(old(State()), Event.DupAck(count))
    {
    }

    /** The retransmission timer fired: as compiled, nothing changes. */
    method Retransmit()
      modifies this
      ensures unchanged(this)
      ensures State() == Step(old(State()), Event.Retransmit)
    {
    }
  }

  /**
   * A forked controller and its parent do not share state: after the
   * fork, two ACKs to the child and one duplicate ACK to the parent move
   * each along its own events only.
   */
  method ForkedControllersAreIndependent(parent: TcpScalable, ack1: u32, ack2: u32, dup: u32)
    returns (child: TcpScalable)
    modifies parent
    ensures fresh(child)
    ensures child.retxThresh == old(parent.retxThresh)
    ensures child.State() == AfterAcks(old(parent.State()), 2)
    ensures parent.State() == old(parent.State())
  {
    ghost var s0 := parent.State();
    child := parent.Fork();
    child.NewAck(ack1);
    assert child.State() == AfterAcks(s0, 1);
    parent.DupAck(dup);
    child.NewAck(ack2);
  }
}
