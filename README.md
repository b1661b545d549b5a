# TcpScalable congestion window, modelled in Dafny

This project models the congestion controller of the ns-3 socket class
`TcpScalable` (model/tcp-scalable.cc). The model follows the code as it is
compiled. The controller's state is four `uint32_t` fields:

- `m_cWnd`: the congestion window.
- `m_ssThresh`: the slow-start threshold.
- `m_segmentSize`: the segment size.
- `m_retxThresh`: the fast-retransmit threshold, 3 by default.

Only one handler has live logic. `NewAck` in slow start (`cwnd < ssthresh`)
sets the window to `std::min(cwnd + segmentSize, ssthresh)`. That is per-ACK
slow-start growth in the sense of section 3.1 of RFC 5681. In congestion
avoidance the increment is commented out, so the window stays as it is. The
bodies of `DupAck` and `Retransmit` are entirely commented out, so both
change nothing.

Layout:

- `uint32.dfy` (module `UInt32`): `uint32_t` values, the wrapping `+`, and `std::min`.
- `congestion.dfy` (module `ScalableCongestion`): the state as a value (`CongState`), the events, the effect of each event (`OnNewAck`, `Step`), runs of events (`Run`, `AfterAcks`), and the laws proved about them.
- `tcp_scalable.dfy` (module `TcpScalableSocket`): class `TcpScalable` with the four fields. Its handlers update the fields in place and are proved to follow `Step`. It also holds the constructors, `Fork`, and a client that shows forked controllers are independent.

The addition `m_cWnd + m_segmentSize` is `uint32_t` arithmetic. The model
wraps it modulo 2^32, as the code does. Two laws hold with or without wrap:

- In slow start the window never exceeds ssthresh.
- Congestion avoidance is absorbing.

Monotonicity holds only when the sum does not wrap. `SlowStartGrowsIffNoWrap`
shows that in slow start the window is non-decreasing exactly when the sum
does not wrap. `WrapReachable` exhibits the wrap from realistic values:
segment size 536 and ssthresh 0xFFFFFFFF.

Scalable TCP as usually described has more behaviour than this source
compiles:

- a congestion-avoidance increment of `max(1, cwnd / 50)`;
- fast retransmit with a backed-off ssthresh;
- a retransmission-timeout reset;
- a duplicate-ACK counter;
- invariants `cwnd >= segmentSize` and `ssthresh >= 2 * segmentSize`.

In this source all of that is commented out or absent. Where such a
description and the code disagree, the model follows the code. Those
invariants are not claimed, because the compiled code does not establish
them.

## Model

| member | source | states |
|---|---|---|
| `UInt32.Add` | model/tcp-scalable.cc:90 | `uint32_t` addition: the exact sum when it is below 2^32; otherwise the sum minus 2^32, which is smaller than both operands |
| `UInt32.Min` | model/tcp-scalable.cc:90 | `std::min`: the result is at most both arguments and is one of them |
| `ScalableCongestion.OnNewAck` | model/tcp-scalable.cc:88-100 | only cwnd changes; in congestion avoidance the state is unchanged; in slow start cwnd ends at most ssthresh; it is exactly `min(cwnd + segmentSize, ssthresh)` without wrap, and `min(cwnd + segmentSize - 2^32, ssthresh)` with wrap |
| `ScalableCongestion.Step` | model/tcp-scalable.cc:82-145 | a duplicate ACK or a timeout leaves the whole state unchanged; a new ACK acts as `OnNewAck`; no event changes ssthresh, segment size or retransmit threshold |
| `ScalableCongestion.Run` | model/tcp-scalable.cc:82-145 | no sequence of events changes ssthresh, segment size or retransmit threshold |
| `ScalableCongestion.AfterAcks` | model/tcp-scalable.cc:88-100 | repeated new ACKs change only cwnd |
| `ScalableCongestion.SlowStartGrowsIffNoWrap` | model/tcp-scalable.cc:88-90 | in slow start one ACK leaves cwnd no smaller if and only if `cwnd + segmentSize` does not wrap; with no wrap and a non-zero segment size it grows strictly |
| `ScalableCongestion.CongestionAvoidanceAbsorbing` | model/tcp-scalable.cc:88-145 | from `cwnd >= ssthresh`, every sequence of events leaves the state exactly as it was |
| `ScalableCongestion.StillSlowStartOnlyIfStarted` | model/tcp-scalable.cc:88-145 | a run that ends in slow start began in slow start: the controller never goes back to slow start |
| `ScalableCongestion.CapPreserved` | model/tcp-scalable.cc:88-145 | once `cwnd <= ssthresh`, it holds after every sequence of events, wrap or not |
| `ScalableCongestion.WindowMonotone` | model/tcp-scalable.cc:88-145 | if `ssthresh + segmentSize <= 2^32`, cwnd never decreases over any sequence of new ACKs, duplicate ACKs and timeouts |
| `ScalableCongestion.AfterAcksWindow` | model/tcp-scalable.cc:88-100 | while no step wraps, after n ACKs cwnd is `min(cwnd + n * segmentSize, ssthresh)` from slow start, and unchanged otherwise |
| `ScalableCongestion.ReachesThreshold` | model/tcp-scalable.cc:88-100 | from slow start with a non-zero segment and no wrap, cwnd equals ssthresh after exactly ceil((ssthresh - cwnd) / segmentSize) ACKs, and is below ssthresh after every smaller number of ACKs |
| `ScalableCongestion.FixedAfterThreshold` | model/tcp-scalable.cc:88-100 | after that many ACKs, every further ACK leaves the whole state unchanged |
| `ScalableCongestion.SlowStartScenario` | model/tcp-scalable.cc:88-100 | from cwnd 1000, ssthresh 4000 and segment size 1000, cwnd goes 2000, 3000, 4000 and then stays 4000 forever; slow start ends at the third ACK |
| `ScalableCongestion.WrapReachable` | model/tcp-scalable.cc:90 | from cwnd 536, ssthresh 0xFFFFFFFF and segment size 536, cwnd is 4294966928 after 8012997 ACKs and wraps down to 168 at the next one |
| `TcpScalableSocket.TcpScalable.constructor` | model/tcp-scalable.cc:57-60 | a new controller has retransmit threshold 3 and the window, threshold and segment size it is given |
| `TcpScalableSocket.TcpScalable.Copy` | model/tcp-scalable.cc:62-68 | the copy has the source's retransmit threshold and the same other fields |
| `TcpScalableSocket.TcpScalable.Fork` | model/tcp-scalable.cc:74-78 | the result is a newly allocated object with the same state and retransmit threshold as the forking one |
| `TcpScalableSocket.TcpScalable.NewAck` | model/tcp-scalable.cc:82-102 | the new fields are `Step` of the old ones for this ACK; only `m_cWnd` is assigned; in slow start cwnd ends at most ssthresh; in congestion avoidance it is unchanged |
| `TcpScalableSocket.TcpScalable.DupAck` | model/tcp-scalable.cc:106-122 | for every count, no field of the object changes |
| `TcpScalableSocket.TcpScalable.Retransmit` | model/tcp-scalable.cc:125-145 | no field of the object changes |
| `TcpScalableSocket.ForkedControllersAreIndependent` | model/tcp-scalable.cc:62-78 | after a fork, ACKs to the child do not change the parent, and a duplicate ACK to the parent does not change the child; the child ends two ACKs ahead of the parent's old state |

## Left out

- The call `TcpSocketBase::NewAck(seq)` at the end of `NewAck` is omitted. Its body belongs to a base class that is not part of this model; it handles buffer advance, RTT sampling and timers. The model assumes it does not touch the four fields. The `ackSeq` argument is therefore unused.
- The `TcpHeader` argument of `DupAck` is unused by the compiled body and is not modelled. The duplicate count is kept.
- The commented-out congestion-avoidance increment, fast retransmit and RTO reset (model/tcp-scalable.cc:95-98, 109-121, 128-144) are not compiled. They are not modelled as behaviour.
- `TCP_SCALABLE_AI_CNT` and `TCP_SCALABLE_MD_SCALE` (model/tcp-scalable.cc:32-33) are defined but never used.
- TypeId and attribute registration, `NS_OBJECT_ENSURE_REGISTERED` and the internals of `CopyObject` are ns-3 runtime machinery with no behaviour to model. The attribute's default (3) appears as `DefaultRetxThresh`.
- All logging (`NS_LOG_*`, the `NS_LOG_APPEND_CONTEXT` prefix with the simulator clock and node id) is output only and is left out.
- The initial window, initial threshold and segment size come from the socket base class, which is not part of this model. The constructor takes them as parameters.
- TcpScalableSocket.TcpScalable.Copy: the copy constructor at model/tcp-scalable.cc:62-64 copies `m_retxThresh` itself. It leaves the other fields to the base class's copy constructor, which is not part of this model. The model assumes that constructor copies those fields unchanged.
- Receive-window clamping, sequence numbers, the transmit buffer and retransmission requests all live in the base class and are not modelled.
