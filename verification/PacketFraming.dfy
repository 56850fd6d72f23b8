/** How a packet is cut into 64-byte frames, and what each frame carries. */
module PacketFraming {

  const HEADER: nat := 114  // Ethernet, IPv6 and Homa DATA headers
  const FRAME: nat := 64

  function PacketBytes(segLen: nat): nat {
    HEADER + segLen
  }

  // Frames are named by their offset in the packet.
  predicate IsFrame(off: nat, segLen: nat) {
    off % FRAME == 0 && off < PacketBytes(segLen)
  }

  predicate Last(off: nat, segLen: nat) {
    off + FRAME >= HEADER + segLen
  }

  // The first frame has no payload, the second the part behind the header.
  function PayloadOffset(off: nat): nat
    requires off % FRAME == 0
  {
    if off <= FRAME then 0 else off - HEADER
  }

  function PayloadBytes(off: nat, segLen: nat): nat
    requires IsFrame(off, segLen)
  {
    var bytes := if off == 0 then 0 else if off == FRAME then 2 * FRAME - HEADER else FRAME;
    if PayloadOffset(off) + bytes > segLen then segLen - PayloadOffset(off) else bytes
  }

  // Byte lanes on the wire, the first byte in the highest: all ones shifted left, by a 6-bit
  // amount, past the end of the packet.
  function Keep(off: nat, segLen: nat): (lanes: seq<bool>)
    requires IsFrame(off, segLen)
    ensures |lanes| == FRAME
  {
    if off + FRAME > HEADER + segLen then
      var shift := (off + FRAME - (HEADER + segLen)) % 64;
      seq(FRAME, k => k >= shift)
    else seq(FRAME, _ => true)
  }

  // The frames from one on.
  function FramesFrom(off: nat, segLen: nat): (f: seq<nat>)
    requires IsFrame(off, segLen)
    decreases PacketBytes(segLen) - off
  {
    if Last(off, segLen) then [off] else [off] + FramesFrom(off + FRAME, segLen)
  }

  // The bytes of the packet a frame carries are enabled, from its first byte on.
  lemma KeepIsExact(off: nat, segLen: nat, k: nat)
    requires IsFrame(off, segLen) && k < FRAME
    ensures Keep(off, segLen)[FRAME - 1 - k] <==> off + k < PacketBytes(segLen)
  {
  }

  // Every frame but the last leaves off where the next begins; the last one reaches the end of
  // the payload, and only the last does so.
  lemma PayloadFollows(off: nat, segLen: nat)
    requires IsFrame(off, segLen)
    ensures PayloadOffset(off) + PayloadBytes(off, segLen) <= segLen
    ensures Last(off, segLen) ==> PayloadOffset(off) + PayloadBytes(off, segLen) == segLen
    ensures !Last(off, segLen) ==>
      IsFrame(off + FRAME, segLen) && PayloadOffset(off + FRAME) == PayloadOffset(off) + PayloadBytes(off, segLen)
  {
  }

  // The frames of a packet are consecutive and end with the only one marked last.
  lemma {:induction false} OneLast(off: nat, segLen: nat, k: nat)
    requires IsFrame(off, segLen) && k < |FramesFrom(off, segLen)|
    ensures var f := FramesFrom(off, segLen);
      f[k] == off + FRAME * k && IsFrame(f[k], segLen) && (Last(f[k], segLen) <==> k == |f| - 1)
    decreases k
  {
    if k > 0 {
      OneLast(off + FRAME, segLen, k - 1);
    }
  }

  // A frame carries the payload bytes that lie behind the header in its 64 bytes of the packet.
  lemma PayloadPlace(off: nat, segLen: nat, k: nat)
    requires IsFrame(off, segLen)
    ensures PayloadOffset(off) <= k < PayloadOffset(off) + PayloadBytes(off, segLen)
       <==> k < segLen && off <= HEADER + k < off + FRAME
  {
  }

  /* Where the sender reads a frame's payload. */

  const LINE: nat := 16384  // bytes of a message's circular buffer in the card's RAM

  // Byte `x` of a message.
  function PlaceInLine(buffer: nat, x: nat): nat {
    LINE * buffer + x % LINE
  }

  // The 64 bytes read for a frame are the ones from here on. `at` is the packet's place in the
  // message.
  function ReadsFrom(buffer: nat, at: nat, off: nat): nat
    requires off % FRAME == 0
  {
    PlaceInLine(buffer, at + PayloadOffset(off))
  }

  // Byte `lane` of the word read is the frame's byte `lane` exactly if the buffer does not end
  // before it.
  lemma WordInLine(buffer: nat, at: nat, off: nat, lane: nat)
    requires off % FRAME == 0 && lane < FRAME
    ensures var x := at + PayloadOffset(off);
      ReadsFrom(buffer, at, off) + lane == PlaceInLine(buffer, x + lane) <==> x % LINE + lane < LINE
  {
    var x := at + PayloadOffset(off);
    var q, r := x / LINE, x % LINE;
    assert x + lane == LINE * q + (r + lane);
    if r + lane < LINE {
      assert (x + lane) % LINE == r + lane;
    } else {
      assert x + lane == LINE * (q + 1) + (r + lane - LINE);
      assert (x + lane) % LINE == r + lane - LINE;
    }
  }

  // The twelfth packet of a message in full packets, in its frame at 960: byte 50 of the word is
  // the first of the next buffer.
  lemma LineEnds()
    ensures ReadsFrom(0, 11 * 1408, 960) + 50 == LINE && PlaceInLine(0, 11 * 1408 + PayloadOffset(960) + 50) == 0
  {
  }

  /* Headers. What a byte is does not matter here; `zero` is the one fields are filled up with. */

  // The packet as bytes, the header first, and the frame at an offset.
  function Wire<T>(header: seq<T>, payload: seq<T>, off: nat): (w: seq<T>)
    requires |header| == HEADER && |payload| == FRAME && off % FRAME == 0
    ensures |w| == FRAME
  {
    if off == 0 then (header + payload)[..FRAME]
    else if off == FRAME then (header + payload)[FRAME..2 * FRAME]
    else payload
  }

  // The receiver's registers: bytes received so far, and the first frames put together.
  datatype Receiver<T> = Receiver(buffered: nat, header: seq<T>, start: seq<T>)

  // What a frame becomes: nothing for the first; then the header, the payload at the top of
  // its field, and the offset.
  datatype Parsed<T> = Parsed(header: seq<T>, payload: seq<T>, off: nat)

  function Fill<T>(zero: T, n: nat): seq<T> {
    seq(n, _ => zero)
  }

  function Receive<T>(r: Receiver<T>, data: seq<T>, last: bool, zero: T): (t: (Receiver<T>, seq<Parsed<T>>))
    requires |data| == FRAME && |r.header| == HEADER && |r.start| == FRAME
    ensures |t.0.header| == HEADER && |t.0.start| == FRAME
  {
    var next := if last then 0 else r.buffered + FRAME;
    if r.buffered == 0 then
      (Receiver(next, (data + Fill(zero, HEADER))[..HEADER], (data + Fill(zero, 2 * FRAME))[HEADER..HEADER + FRAME]),
       [])
    else if r.buffered == FRAME then
      var field := r.header[..FRAME] + data + Fill(zero, FRAME);
      var payload := field[HEADER..HEADER + FRAME];
      (Receiver(next, field[..HEADER], payload), [Parsed(field[..HEADER], payload, FRAME)])
    else (r.(buffered := next), [Parsed(r.header, data, r.buffered)])
  }

  // Frames sent in order are received with the header they were sent with and their own
  // offset; the receiver is at the start again after the last.
  ghost predicate Following<T>(r: Receiver<T>, header: seq<T>, off: nat) {
    && r.buffered == off && |r.header| == |header| == HEADER && |r.start| == FRAME
    && (off == FRAME ==> r.header[..FRAME] == header[..FRAME])
    && (off > FRAME ==> r.header == header)
  }

  // A frame's payload field as it arrives: of the second frame's, the part behind the header.
  function Arriving<T>(payload: seq<T>, off: nat, zero: T): (p: seq<T>)
    requires |payload| == FRAME
    ensures |p| == FRAME
  {
    if off == FRAME then payload[..2 * FRAME - HEADER] + Fill(zero, HEADER - FRAME) else payload
  }

  lemma SecondFrame<T>(start: seq<T>, header: seq<T>, data: seq<T>, payload: seq<T>, zero: T)
    requires |header| == HEADER && |payload| == FRAME && start == header[..FRAME]
    requires data == (header + payload)[FRAME..2 * FRAME]
    ensures var field := start + data + Fill(zero, FRAME);
      && field[..HEADER] == header
      && field[HEADER..HEADER + FRAME] == payload[..2 * FRAME - HEADER] + Fill(zero, HEADER - FRAME)
  {
    var field := start + data + Fill(zero, FRAME);
    assert data == header[FRAME..] + payload[..2 * FRAME - HEADER];
    assert field[..HEADER] == header;
  }

  lemma HeaderReturns<T>(r: Receiver<T>, header: seq<T>, payload: seq<T>, off: nat, segLen: nat, zero: T)
    requires |header| == HEADER && |payload| == FRAME && IsFrame(off, segLen) && Following(r, header, off)
    ensures var (t, out) := Receive(r, Wire(header, payload, off), Last(off, segLen), zero);
      && Following(t, header, if Last(off, segLen) then 0 else off + FRAME)
      && out == if off == 0 then [] else [Parsed(header, Arriving(payload, off, zero), off)]
  {
    if off == 0 {
      var data := Wire(header, payload, off);
      assert (data + Fill(zero, HEADER))[..HEADER][..FRAME] == data == header[..FRAME];
    } else if off == FRAME {
      var data := Wire(header, payload, off);
      SecondFrame(r.header[..FRAME], header, data, payload, zero);
    }
  }

  /* Whole packets and streams of packets. */

  // A packet as it is sent: its header, and the payload field of each frame, by offset.
  datatype Sent<T> = Sent(header: seq<T>, fields: nat -> seq<T>, segLen: nat) {
    ghost predicate Valid() {
      |header| == HEADER && forall off :: |fields(off)| == FRAME
    }
  }

  // The frames of a packet from one on, sent and received.
  function Transfer<T>(r: Receiver<T>, p: Sent<T>, off: nat, zero: T): (t: (Receiver<T>, seq<Parsed<T>>))
    requires p.Valid() && |r.header| == HEADER && |r.start| == FRAME && IsFrame(off, p.segLen)
    ensures |t.0.header| == HEADER && |t.0.start| == FRAME
    decreases PacketBytes(p.segLen) - off
  {
    var (t, out) := Receive(r, Wire(p.header, p.fields(off), off), Last(off, p.segLen), zero);
    if Last(off, p.segLen) then (t, out)
    else
      var (u, more) := Transfer(t, p, off + FRAME, zero);
      (u, out + more)
  }

  function PieceOf<T>(p: Sent<T>, off: nat, zero: T): Parsed<T>
    requires p.Valid()
  {
    Parsed(p.header, Arriving(p.fields(off), off, zero), off)
  }

  // One piece for each frame of the packet but the first.
  ghost predicate Returned<T>(out: seq<Parsed<T>>, p: Sent<T>, off: nat, zero: T)
    requires p.Valid() && IsFrame(off, p.segLen)
  {
    var f := FramesFrom(off, p.segLen);
    var skip := if off == 0 then 1 else 0;
    && |out| == |f| - skip
    && forall k :: 0 <= k < |out| ==> out[k] == PieceOf(p, f[k + skip], zero)
  }

  lemma {:induction false} FramesReturn<T>(r: Receiver<T>, p: Sent<T>, off: nat, zero: T)
    requires p.Valid() && IsFrame(off, p.segLen) && Following(r, p.header, off)
    ensures var (t, out) := Transfer(r, p, off, zero);
      Following(t, p.header, 0) && Returned(out, p, off, zero)
    decreases PacketBytes(p.segLen) - off
  {
    hide Receive, Wire, Arriving;
    var t := Receive(r, Wire(p.header, p.fields(off), off), Last(off, p.segLen), zero).0;
    HeaderReturns(r, p.header, p.fields(off), off, p.segLen, zero);
    if !Last(off, p.segLen) {
      FramesReturn(t, p, off + FRAME, zero);
    }
  }

  function TransferAll<T>(r: Receiver<T>, ps: seq<Sent<T>>, zero: T): (t: (Receiver<T>, seq<seq<Parsed<T>>>))
    requires |r.header| == HEADER && |r.start| == FRAME && forall p :: p in ps ==> p.Valid()
    ensures |t.0.header| == HEADER && |t.0.start| == FRAME && |t.1| == |ps|
    decreases |ps|
  {
    if ps == [] then (r, [])
    else
      var (t, out) := Transfer(r, ps[0], 0, zero);
      var (u, more) := TransferAll(t, ps[1..], zero);
      (u, [out] + more)
  }

  // Of every packet of a stream sent back to back, each frame but the first is received with the
  // packet's header, its own offset and its payload field as far as the frame carries it.
  lemma {:induction false} PacketsReturn<T>(r: Receiver<T>, ps: seq<Sent<T>>, zero: T)
    requires r.buffered == 0 && |r.header| == HEADER && |r.start| == FRAME
    requires forall p :: p in ps ==> p.Valid()
    ensures var (t, outs) := TransferAll(r, ps, zero);
      t.buffered == 0 && forall k :: 0 <= k < |ps| ==> Returned(outs[k], ps[k], 0, zero)
    decreases |ps|
  {
    if ps != [] {
      hide Returned, Transfer;
      var t := Transfer(r, ps[0], 0, zero).0;
      FramesReturn(r, ps[0], 0, zero);
      PacketsReturn(t, ps[1..], zero);
    }
  }
}
