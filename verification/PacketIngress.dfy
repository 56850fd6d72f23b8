/** Received payload collected in a RAM and passed on to the host in DMA writes. */
module PacketIngress {
  import opened Options
  import opened Arith
  import opened PacketFraming

  const RAM_SPACE: nat := 0x4_0000  // 18-bit RAM addresses
  const TURN: nat := 131072         // past which a new chunk starts at the front
  const LEN_SPACE: nat := 0x1_0000  // 16-bit DMA lengths
  const HOST_SPACE: nat := 0x1_0000_0000  // the 32-bit arithmetic of message offsets

  // Where the next payload byte goes, and how many bytes wait for a DMA request.
  datatype State = State(head: nat, waiting: nat)

  datatype Packet = Packet(offset: nat, segLen: nat)

  // A RAM write, by which payload byte each RAM byte comes to hold; bytes are counted from the
  // packet's first and go on behind its last.
  datatype Write = Write(addr: nat, holds: seq<Option<nat>>)

  datatype Dma = Dma(host: nat, ramAddr: nat, len: nat)

  predicate Fits(s: State) {
    s.head < RAM_SPACE && s.waiting < RAM_SPACE
  }

  // A frame asks for a DMA write if enough bytes wait or it is the packet's last. `limit` is
  // the configured size of the writes.
  predicate Flushes(s: State, p: Packet, off: nat, limit: nat)
    requires IsFrame(off, p.segLen)
  {
    (s.waiting + PayloadBytes(off, p.segLen)) % RAM_SPACE >= limit || Last(off, p.segLen)
  }

  // The registers hold 18 bits.
  function Step(s: State, p: Packet, off: nat, limit: nat): (t: State)
    requires Fits(s) && IsFrame(off, p.segLen)
    ensures Fits(t)
  {
    var bytes := PayloadBytes(off, p.segLen);
    if Flushes(s, p, off, limit) then State(if TURN < s.head then 0 else (s.head + bytes) % RAM_SPACE, 0)
    else State((s.head + bytes) % RAM_SPACE, (s.waiting + bytes) % RAM_SPACE)
  }

  // How the sender fills a frame's payload field. This card's egress takes 64 bytes as they come
  // out of the RAM, the first in the lowest lane, bytes behind the packet's end among them. A
  // sender that fills the highest lanes first is in line with the headers and the keep bits.
  datatype Order = LowestFirst | HighestFirst

  function SentByte(order: Order, off: nat, segLen: nat, lane: nat): Option<nat>
    requires off % FRAME == 0 && lane < FRAME
  {
    var po := PayloadOffset(off);
    if order == LowestFirst then Some(po + lane)
    else if po + (FRAME - 1 - lane) < segLen then Some(po + (FRAME - 1 - lane))
    else None
  }

  // The field as it goes onto the wire, the highest lane first.
  function SentField(order: Order, off: nat, segLen: nat): (f: seq<Option<nat>>)
    requires off % FRAME == 0
    ensures |f| == FRAME
  {
    seq(FRAME, k requires 0 <= k < FRAME => SentByte(order, off, segLen, FRAME - 1 - k))
  }

  // The field as it arrives, the lowest lane first. Of the second frame's, only the lanes behind
  // the header do.
  function Field(order: Order, off: nat, segLen: nat): (f: seq<Option<nat>>)
    requires off % FRAME == 0
    ensures |f| == FRAME
  {
    seq(FRAME, lane requires 0 <= lane < FRAME =>
      if off == FRAME && lane < HEADER - FRAME then None else SentByte(order, off, segLen, lane))
  }

  function Reversed<T>(s: seq<T>): (r: seq<T>) {
    seq(|s|, k requires 0 <= k < |s| => s[|s| - 1 - k])
  }

  // What the receiver makes of the field sent.
  lemma FieldArrives(order: Order, off: nat, segLen: nat)
    requires off % FRAME == 0
    ensures Reversed(Arriving(SentField(order, off, segLen), off, None)) == Field(order, off, segLen)
  {
  }

  // The `n` bytes written of a field: only the second frame's field is shifted down first.
  function RamBytes<T>(field: seq<T>, off: nat, n: nat): (bytes: seq<T>)
    requires |field| == FRAME && n <= FRAME
    ensures |bytes| == n
  {
    if off == FRAME then field[FRAME - n..] else field[..n]
  }

  function Held(order: Order, off: nat, segLen: nat): (h: seq<Option<nat>>)
    requires IsFrame(off, segLen)
    ensures |h| == PayloadBytes(off, segLen)
  {
    RamBytes(Field(order, off, segLen), off, PayloadBytes(off, segLen))
  }

  function Writes(order: Order, s: State, p: Packet, off: nat): seq<Write>
    requires IsFrame(off, p.segLen)
  {
    if off == 0 then [] else [Write(s.head, Held(order, off, p.segLen))]
  }

  function Request(s: State, p: Packet, off: nat): Dma
    requires Fits(s) && IsFrame(off, p.segLen)
  {
    Dma((p.offset + PayloadOffset(off) + HOST_SPACE - s.waiting) % HOST_SPACE,
        (s.head + RAM_SPACE - s.waiting) % RAM_SPACE,
        (s.waiting + PayloadBytes(off, p.segLen)) % RAM_SPACE % LEN_SPACE)
  }

  // A DMA request with the RAM writes made since the one before.
  datatype Chunk = Chunk(writes: seq<Write>, dma: Dma)

  // The frames of a packet from one on.
  function Receive(order: Order, s: State, p: Packet, off: nat, limit: nat, made: seq<Write>)
    : (r: (State, seq<Chunk>))
    requires Fits(s) && IsFrame(off, p.segLen)
    ensures Fits(r.0)
    decreases PacketBytes(p.segLen) - off
  {
    var t, writes := Step(s, p, off, limit), made + Writes(order, s, p, off);
    var chunks := if Flushes(s, p, off, limit) then [Chunk(writes, Request(s, p, off))] else [];
    if Last(off, p.segLen) then (t, chunks)
    else
      var (u, more) := Receive(order, t, p, off + FRAME, limit, if Flushes(s, p, off, limit) then [] else writes);
      (u, chunks + more)
  }

  /* What the requests cover. */

  // Writes that fill the RAM from `addr` on, `len` bytes in all.
  ghost predicate Contiguous(ws: seq<Write>, addr: nat, len: nat) {
    if ws == [] then len == 0
    else
      var n := |ws[0].holds|;
      ws[0].addr == addr && n <= len && Contiguous(ws[1..], addr + n, len - n)
  }

  lemma {:induction false} ContiguousAppend(ws: seq<Write>, addr: nat, len: nat, w: Write)
    requires Contiguous(ws, addr, len) && w.addr == addr + len
    ensures Contiguous(ws + [w], addr, len + |w.holds|)
  {
    if ws == [] {
      assert (ws + [w])[1..] == [];
    } else {
      var n := |ws[0].holds|;
      ContiguousAppend(ws[1..], addr + n, len - n, w);
      assert (ws + [w])[1..] == ws[1..] + [w];
    }
  }

  // A request takes the RAM range written for the payload from `from` on, which does not wrap,
  // to the payload's place in the message.
  ghost predicate Covers(c: Chunk, p: Packet, from: nat) {
    && c.dma.host == p.offset + from && from + c.dma.len <= p.segLen
    && c.dma.ramAddr + c.dma.len <= RAM_SPACE
    && Contiguous(c.writes, c.dma.ramAddr, c.dma.len)
    && (c.dma.len == 0 ==> p.segLen == 0)
  }

  // Requests that take the payload from `from` to its end, one after the other.
  ghost predicate Tiles(chunks: seq<Chunk>, p: Packet, from: nat) {
    if chunks == [] then from == p.segLen
    else Covers(chunks[0], p, from) && Tiles(chunks[1..], p, from + chunks[0].dma.len)
  }

  // Packets whose lengths and offsets fit the registers.
  predicate Sound(p: Packet) {
    p.segLen < LEN_SPACE && p.offset + p.segLen < HOST_SPACE
  }

  // Between packets.
  predicate Settled(s: State) {
    s.waiting == 0 && s.head <= TURN + FRAME
  }

  // Inside a packet: the waiting bytes are the last ones written.
  ghost predicate Collecting(s: State, p: Packet, off: nat, made: seq<Write>)
    requires IsFrame(off, p.segLen)
  {
    && s.waiting <= PayloadOffset(off) && s.waiting <= s.head && s.head - s.waiting <= TURN + FRAME
    && Contiguous(made, s.head - s.waiting, s.waiting)
  }

  lemma WritesFollow(order: Order, s: State, p: Packet, off: nat, made: seq<Write>)
    requires IsFrame(off, p.segLen) && Collecting(s, p, off, made)
    ensures Contiguous(made + Writes(order, s, p, off), s.head - s.waiting, s.waiting + PayloadBytes(off, p.segLen))
  {
    if off == 0 {
      assert made + [] == made;
    } else {
      ContiguousAppend(made, s.head - s.waiting, s.waiting, Writes(order, s, p, off)[0]);
    }
  }

  // None of the registers wraps inside a packet.
  lemma NoWrap(s: State, p: Packet, off: nat, limit: nat, made: seq<Write>)
    requires Fits(s) && IsFrame(off, p.segLen) && Sound(p) && Collecting(s, p, off, made)
    ensures var bytes := PayloadBytes(off, p.segLen);
      && s.head + bytes < RAM_SPACE && s.waiting + bytes < LEN_SPACE
      && Request(s, p, off) == Dma(p.offset + PayloadOffset(off) - s.waiting, s.head - s.waiting, s.waiting + bytes)
      && Step(s, p, off, limit) ==
         if Flushes(s, p, off, limit) then State(if TURN < s.head then 0 else s.head + bytes, 0)
         else State(s.head + bytes, s.waiting + bytes)
  {
    var bytes, po := PayloadBytes(off, p.segLen), PayloadOffset(off);
    PayloadFollows(off, p.segLen);
    DivSmall(s.head + bytes, RAM_SPACE);
    DivSmall(s.waiting + bytes, RAM_SPACE);
    DivSmall(s.waiting + bytes, LEN_SPACE);
    DivMod(s.head + RAM_SPACE - s.waiting, RAM_SPACE, 1, s.head - s.waiting);
    DivMod(p.offset + po + HOST_SPACE - s.waiting, HOST_SPACE, 1, p.offset + po - s.waiting);
  }

  // A request covers the bytes that wait, with those of its frame.
  lemma RequestCovers(order: Order, s: State, p: Packet, off: nat, limit: nat, made: seq<Write>)
    requires Fits(s) && IsFrame(off, p.segLen) && Sound(p) && 0 < limit && Collecting(s, p, off, made)
    requires Flushes(s, p, off, limit)
    ensures var c := Chunk(made + Writes(order, s, p, off), Request(s, p, off));
      && Covers(c, p, PayloadOffset(off) - s.waiting)
      && PayloadOffset(off) - s.waiting + c.dma.len == PayloadOffset(off) + PayloadBytes(off, p.segLen)
  {
    NoWrap(s, p, off, limit, made);
    WritesFollow(order, s, p, off, made);
    PayloadFollows(off, p.segLen);
    hide Writes, Contiguous, Request;
  }

  // What a frame leaves for the next.
  lemma NextCollects(order: Order, s: State, p: Packet, off: nat, limit: nat, made: seq<Write>)
    requires Fits(s) && IsFrame(off, p.segLen) && Sound(p) && Collecting(s, p, off, made)
    ensures var t, flushes := Step(s, p, off, limit), Flushes(s, p, off, limit);
      && (flushes ==> Settled(t))
      && (!flushes ==> t.waiting == s.waiting + PayloadBytes(off, p.segLen))
      && (!Last(off, p.segLen) ==>
            IsFrame(off + FRAME, p.segLen)
                && Collecting(t, p, off + FRAME, if flushes then [] else made + Writes(order, s, p, off)))
  {
    NoWrap(s, p, off, limit, made);
    WritesFollow(order, s, p, off, made);
    PayloadFollows(off, p.segLen);
    hide Writes, Request;
  }

  // The requests made for a packet tile its place in the message, in order, whatever the writes
  // hold.
  lemma {:induction false} FramesTile(
    order: Order, s: State, p: Packet, off: nat, limit: nat, made: seq<Write>)
    requires Fits(s) && IsFrame(off, p.segLen) && Sound(p) && 0 < limit && Collecting(s, p, off, made)
    ensures var (t, chunks) := Receive(order, s, p, off, limit, made);
      Settled(t) && Tiles(chunks, p, PayloadOffset(off) - s.waiting)
    decreases PacketBytes(p.segLen) - off
  {
    hide Step, Request, Writes, Contiguous, Flushes, Last, PayloadBytes, Tiles, Covers, Sound;
    var writes, flushes := made + Writes(order, s, p, off), Flushes(s, p, off, limit);
    var c := Chunk(writes, Request(s, p, off));
    NextCollects(order, s, p, off, limit, made);
    PayloadFollows(off, p.segLen);
    if flushes {
      RequestCovers(order, s, p, off, limit, made);
    }
    if Last(off, p.segLen) {
      FlushedAtLast(s, p, off, limit);
      TilesCons(c, [], p, PayloadOffset(off) - s.waiting);
      assert [c] + [] == [c];
    } else {
      var left := if flushes then [] else writes;
      FramesTile(order, Step(s, p, off, limit), p, off + FRAME, limit, left);
      var more := Receive(order, Step(s, p, off, limit), p, off + FRAME, limit, left).1;
      TilesCons(c, more, p, PayloadOffset(off) - s.waiting);
      assert [] + more == more;
    }
  }

  lemma TilesCons(c: Chunk, more: seq<Chunk>, p: Packet, from: nat)
    ensures Tiles([c] + more, p, from) <==> Covers(c, p, from) && Tiles(more, p, from + c.dma.len)
    ensures Tiles([], p, p.segLen)
  {
    assert ([c] + more)[1..] == more;
  }

  /* How large the requests are. */

  function LastHeld(ws: seq<Write>): nat {
    if ws == [] then 0 else |ws[|ws| - 1].holds|
  }

  // Each request but the packet's last takes at least the configured number of bytes, and none
  // would have without its last frame.
  ghost predicate Batched(chunks: seq<Chunk>, limit: nat) {
    forall k :: 0 <= k < |chunks| ==>
      && (k < |chunks| - 1 ==> chunks[k].dma.len >= limit)
      && chunks[k].dma.len - LastHeld(chunks[k].writes) < limit
  }

  lemma BatchedCons(c: Chunk, more: seq<Chunk>, limit: nat)
    requires Batched(more, limit) && c.dma.len - LastHeld(c.writes) < limit && (more != [] ==> c.dma.len >= limit)
    ensures Batched([c] + more, limit)
  {
    var all := [c] + more;
    forall k | 0 <= k < |all|
      ensures (k < |all| - 1 ==> all[k].dma.len >= limit) && all[k].dma.len - LastHeld(all[k].writes) < limit
    {
      assert k > 0 ==> all[k] == more[k - 1];
    }
  }

  // A frame that makes a request, and one that does not.
  lemma FrameBatches(order: Order, s: State, p: Packet, off: nat, limit: nat, made: seq<Write>)
    requires Fits(s) && IsFrame(off, p.segLen) && Sound(p) && Collecting(s, p, off, made) && s.waiting < limit
    ensures var c := Chunk(made + Writes(order, s, p, off), Request(s, p, off));
      && c.dma.len - LastHeld(c.writes) < limit
      && (Flushes(s, p, off, limit) && !Last(off, p.segLen) ==> c.dma.len >= limit)
      && Step(s, p, off, limit).waiting < limit
  {
    NoWrap(s, p, off, limit, made);
    if off == 0 {
      assert PayloadBytes(0, p.segLen) == 0;
      assert made + [] == made;
    }
  }

  lemma {:induction false} FramesBatch(order: Order, s: State, p: Packet, off: nat, limit: nat, made: seq<Write>)
    requires Fits(s) && IsFrame(off, p.segLen) && Sound(p) && Collecting(s, p, off, made) && s.waiting < limit
    ensures Batched(Receive(order, s, p, off, limit, made).1, limit)
    decreases PacketBytes(p.segLen) - off
  {
    hide Step, Request, Writes, Contiguous, Flushes, Last, PayloadBytes, Batched, Sound, LastHeld;
    var writes, flushes := made + Writes(order, s, p, off), Flushes(s, p, off, limit);
    var c := Chunk(writes, Request(s, p, off));
    NextCollects(order, s, p, off, limit, made);
    FrameBatches(order, s, p, off, limit, made);
    NoneBatched(limit);
    if Last(off, p.segLen) {
      FlushedAtLast(s, p, off, limit);
      BatchedCons(c, [], limit);
      assert [c] + [] == [c];
    } else {
      var left := if flushes then [] else writes;
      FramesBatch(order, Step(s, p, off, limit), p, off + FRAME, limit, left);
      var more := Receive(order, Step(s, p, off, limit), p, off + FRAME, limit, left).1;
      if flushes {
        BatchedCons(c, more, limit);
      }
      assert [] + more == more;
    }
  }

  lemma NoneBatched(limit: nat)
    ensures Batched([], limit)
  {
  }

  /* Which payload bytes the requests take to the host. */

  function Contents(ws: seq<Write>): seq<Option<nat>> {
    if ws == [] then [] else ws[0].holds + Contents(ws[1..])
  }

  // The bytes of the requests in order, as they were written for them.
  function Delivered(chunks: seq<Chunk>): seq<Option<nat>> {
    if chunks == [] then [] else Contents(chunks[0].writes) + Delivered(chunks[1..])
  }

  // The frames' writes in order.
  function Image(order: Order, off: nat, segLen: nat): seq<Option<nat>>
    requires IsFrame(off, segLen)
    decreases PacketBytes(segLen) - off
  {
    (if off == 0 then [] else Held(order, off, segLen))
    + if Last(off, segLen) then [] else Image(order, off + FRAME, segLen)
  }

  lemma {:induction false} ContentsConcat(a: seq<Write>, b: seq<Write>)
    ensures Contents(a + b) == Contents(a) + Contents(b)
  {
    if a == [] {
      assert a + b == b;
      Joined<Option<nat>>([], [], Contents(b));
    } else {
      ContentsConcat(a[1..], b);
      Joined(a[0].holds, Contents(a[1..]), Contents(b));
      FrontOf(a, b);
    }
  }

  lemma FrontOf(a: seq<Write>, b: seq<Write>)
    requires a != []
    ensures Contents(a + b) == a[0].holds + Contents(a[1..] + b)
  {
    assert (a + b)[1..] == a[1..] + b;
  }

  lemma DeliveredCons(c: Chunk, more: seq<Chunk>)
    ensures Delivered([c] + more) == Contents(c.writes) + Delivered(more)
    ensures Delivered([]) == [] && Contents([]) == []
  {
    assert ([c] + more)[1..] == more;
  }

  // After the writes already made come those of the frames from one on.
  lemma {:induction false} FramesDeliver(
    order: Order, s: State, p: Packet, off: nat, limit: nat, made: seq<Write>)
    requires Fits(s) && IsFrame(off, p.segLen)
    ensures Delivered(Receive(order, s, p, off, limit, made).1) == Contents(made) + Image(order, off, p.segLen)
    decreases PacketBytes(p.segLen) - off
  {
    hide Step, Request, Held, Contents, Delivered, Writes, Flushes, Last, IsFrame, PayloadOffset;
    var writes, flushes := made + Writes(order, s, p, off), Flushes(s, p, off, limit);
    var c := Chunk(writes, Request(s, p, off));
    ContentsConcat(made, Writes(order, s, p, off));
    ContentsOfFrame(order, s, p, off);
    DeliveredCons(c, []);
    var now := if off == 0 then [] else Held(order, off, p.segLen);
    if Last(off, p.segLen) {
      FlushedAtLast(s, p, off, limit);
      assert [c] + [] == [c];
      assert Contents(writes) + [] == Contents(made) + (now + []);
    } else {
      PayloadFollows(off, p.segLen);
      var left := if flushes then [] else writes;
      FramesDeliver(order, Step(s, p, off, limit), p, off + FRAME, limit, left);
      var more := Receive(order, Step(s, p, off, limit), p, off + FRAME, limit, left).1;
      DeliveredCons(c, more);
      assert [] + more == more;
      Joined(Contents(made), now, Image(order, off + FRAME, p.segLen));
    }
  }

  lemma Joined<T>(a: seq<T>, b: seq<T>, c: seq<T>)
    ensures (a + b) + c == a + (b + c) && [] + c == c
  {
  }

  lemma FlushedAtLast(s: State, p: Packet, off: nat, limit: nat)
    requires IsFrame(off, p.segLen) && Last(off, p.segLen)
    ensures Flushes(s, p, off, limit)
  {
  }

  lemma ContentsOfFrame(order: Order, s: State, p: Packet, off: nat)
    requires IsFrame(off, p.segLen)
    ensures Contents(Writes(order, s, p, off)) == if off == 0 then [] else Held(order, off, p.segLen)
  {
    if off > 0 {
      assert Writes(order, s, p, off)[1..] == [];
    }
  }

  // What a frame's write puts down, byte by byte.
  lemma HeldAt(order: Order, off: nat, segLen: nat, j: nat)
    requires IsFrame(off, segLen) && 0 < off && j < PayloadBytes(off, segLen)
    ensures var n, po := PayloadBytes(off, segLen), PayloadOffset(off);
      Held(order, off, segLen)[j] == match order
        case LowestFirst => Some(if off == FRAME then FRAME - n + j else po + j)
        case HighestFirst =>
          if off == FRAME then Some(n - 1 - j) else if FRAME - n <= j then Some(po + FRAME - 1 - j) else None
  {
    var n := PayloadBytes(off, segLen);
    var lane := if off == FRAME then FRAME - n + j else j;
    assert Held(order, off, segLen)[j] == Field(order, off, segLen)[lane];
  }

  // The payload of the second frame.
  function HeadBytes(segLen: nat): nat {
    if segLen < 2 * FRAME - HEADER then segLen else 2 * FRAME - HEADER
  }

  lemma {:induction false} ImageLength(order: Order, off: nat, segLen: nat)
    requires IsFrame(off, segLen)
    ensures PayloadOffset(off) <= segLen && |Image(order, off, segLen)| == segLen - PayloadOffset(off)
    decreases PacketBytes(segLen) - off
  {
    PayloadFollows(off, segLen);
    if !Last(off, segLen) {
      ImageLength(order, off + FRAME, segLen);
    }
  }

  // Place `k` of the image is in the write of the frame that carries byte `k`.
  lemma {:induction false} ImageAt(order: Order, off: nat, segLen: nat, k: nat) returns (f: nat, j: nat)
    requires IsFrame(off, segLen) && PayloadOffset(off) <= k < segLen
    ensures IsFrame(f, segLen) && 0 < f && off <= f && j < PayloadBytes(f, segLen) && k == PayloadOffset(f) + j
    ensures k - PayloadOffset(off) < |Image(order, off, segLen)|
    ensures Image(order, off, segLen)[k - PayloadOffset(off)] == Held(order, f, segLen)[j]
    decreases PacketBytes(segLen) - off
  {
    PayloadFollows(off, segLen);
    ImageLength(order, off, segLen);
    if k < PayloadOffset(off) + PayloadBytes(off, segLen) {
      f, j := off, k - PayloadOffset(off);
    } else {
      f, j := ImageAt(order, off + FRAME, segLen, k);
    }
  }

  /* For this card's egress. */

  // Every frame but the second brings its payload to its place.
  lemma EgressFrame(off: nat, segLen: nat)
    requires IsFrame(off, segLen) && 0 < off && 0 < PayloadBytes(off, segLen)
    ensures (forall j :: 0 <= j < PayloadBytes(off, segLen) ==>
               Held(LowestFirst, off, segLen)[j] == Some(PayloadOffset(off) + j)) <==> off != FRAME
  {
    HeldAt(LowestFirst, off, segLen, 0);
    forall j: nat | j < PayloadBytes(off, segLen) && off != FRAME
      ensures Held(LowestFirst, off, segLen)[j] == Some(PayloadOffset(off) + j)
    {
      HeldAt(LowestFirst, off, segLen, j);
    }
  }

  // Place `k` of the packet's range gets byte `k` of its payload exactly behind the second frame.
  lemma EgressByte(segLen: nat, k: nat)
    requires k < segLen
    ensures |Image(LowestFirst, 0, segLen)| == segLen
    ensures Image(LowestFirst, 0, segLen)[k] == Some(if k < HeadBytes(segLen) then FRAME - HeadBytes(segLen) + k else k)
  {
    ImageLength(LowestFirst, 0, segLen);
    var f, j := ImageAt(LowestFirst, 0, segLen, k);
    HeldAt(LowestFirst, f, segLen, j);
    hide Image, Held;
  }

  // And the bytes of the second frame come nowhere else.
  lemma EgressBytes(segLen: nat, k: nat)
    requires k < segLen
    ensures Image(LowestFirst, 0, segLen) != []
    ensures Some(k) in Image(LowestFirst, 0, segLen) <==> k >= HeadBytes(segLen)
  {
    hide Image;
    EgressByte(segLen, k);
    if Some(k) in Image(LowestFirst, 0, segLen) {
      var i :| 0 <= i < segLen && Image(LowestFirst, 0, segLen)[i] == Some(k);
      EgressByte(segLen, i);
    }
  }

  ghost predicate InPlace(delivered: seq<Option<nat>>, segLen: nat) {
    |delivered| == segLen && forall k :: 0 <= k < segLen ==> delivered[k] == Some(k)
  }

  // A packet of this card's own egress comes to the host whole only if it has no payload.
  lemma EgressPacket(s: State, p: Packet, limit: nat)
    requires Fits(s)
    ensures var d := Delivered(Receive(LowestFirst, s, p, 0, limit, []).1);
      AllButHead(d, p.segLen) && (InPlace(d, p.segLen) <==> p.segLen == 0)
  {
    DeliveredImage(LowestFirst, s, p, limit);
    EgressImage(p.segLen);
    hide Delivered, Receive, Image;
    var d := Delivered(Receive(LowestFirst, s, p, 0, limit, []).1);
    assert p.segLen > 0 ==> d[0] != Some(0);
  }

  // 1408 bytes: the first place gets byte 50, and the partial last frame, of 50 bytes from byte
  // 1358 on, comes whole.
  lemma EgressMisplaces(s: State, p: Packet, limit: nat)
    requires Fits(s) && p.segLen == 1408
    ensures var d := Delivered(Receive(LowestFirst, s, p, 0, limit, []).1);
      && |d| == 1408 && d[0] == Some(50) && d[1358] == Some(1358)
  {
    DeliveredImage(LowestFirst, s, p, limit);
    EgressByte(p.segLen, 0);
    EgressByte(p.segLen, 1358);
    hide Delivered, Receive, Image;
  }

  /* For a sender that fills the highest lanes first. */

  // A frame's payload is whole in the RAM exactly if the frame is the second or full: a partial
  // later frame is not shifted down, so the lowest lanes are written and the packet's bytes are
  // in the highest.
  lemma WholeFrame(off: nat, segLen: nat)
    requires IsFrame(off, segLen) && 0 < off && 0 < PayloadBytes(off, segLen)
    ensures (forall j :: 0 <= j < PayloadBytes(off, segLen) ==> Held(HighestFirst, off, segLen)[j].Some?)
        <==> off == FRAME || PayloadBytes(off, segLen) == FRAME
  {
    HeldAt(HighestFirst, off, segLen, 0);
    forall j: nat | j < PayloadBytes(off, segLen) && (off == FRAME || PayloadBytes(off, segLen) == FRAME)
      ensures Held(HighestFirst, off, segLen)[j].Some?
    {
      HeldAt(HighestFirst, off, segLen, j);
    }
  }

  // The first bytes of a last frame with `rest` bytes of 64: as many as it lacks.
  predicate Lost(segLen: nat, k: nat) {
    segLen > 2 * FRAME - HEADER
    && var rest := (segLen - (2 * FRAME - HEADER)) % FRAME;
       rest > 0 && segLen - rest <= k < segLen - rest + (FRAME - rest)
  }

  lemma RestOf(off: nat, segLen: nat)
    requires IsFrame(off, segLen) && FRAME < off
    ensures segLen > PayloadOffset(off) >= 2 * FRAME - HEADER
    ensures (segLen - (2 * FRAME - HEADER)) % FRAME == (segLen - PayloadOffset(off)) % FRAME
  {
    var q, m := off / FRAME, segLen - PayloadOffset(off);
    assert PayloadOffset(off) - (2 * FRAME - HEADER) == (q - 2) * FRAME;
    DivMod(segLen - (2 * FRAME - HEADER), FRAME, q - 2 + m / FRAME, m % FRAME);
  }

  // A frame puts down its payload but for the lost bytes.
  lemma FramePutsDown(off: nat, segLen: nat, k: nat)
    requires IsFrame(off, segLen) && 0 < off
    ensures var po := PayloadOffset(off);
      Some(k) in Held(HighestFirst, off, segLen) <==> po <= k < po + PayloadBytes(off, segLen) && !Lost(segLen, k)
  {
    var n, po := PayloadBytes(off, segLen), PayloadOffset(off);
    forall j: nat | j < n && Held(HighestFirst, off, segLen)[j] == Some(k)
      ensures po <= k < po + n && (off == FRAME || FRAME - n <= k - po)
    {
      HeldAt(HighestFirst, off, segLen, j);
    }
    if po <= k < po + n {
      if off == FRAME {
        HeldAt(HighestFirst, off, segLen, n - 1 - (k - po));
      } else if FRAME - n <= k - po {
        HeldAt(HighestFirst, off, segLen, FRAME - 1 - (k - po));
      }
      LostInFrame(off, segLen, k);
    }
  }

  lemma LostInFrame(off: nat, segLen: nat, k: nat)
    requires IsFrame(off, segLen) && 0 < off && 0 <= k - PayloadOffset(off) < PayloadBytes(off, segLen)
    ensures Lost(segLen, k) <==> off != FRAME && k - PayloadOffset(off) < FRAME - PayloadBytes(off, segLen)
  {
    if off > FRAME {
      RestOf(off, segLen);
      var m := segLen - PayloadOffset(off);
      if m < FRAME {
        DivSmall(m, FRAME);
      }
      assert m == m / FRAME * FRAME + m % FRAME;
    }
  }

  // The frames from one on put down the rest of the payload but for the lost bytes.
  lemma {:induction false} FramesPutDown(off: nat, segLen: nat, k: nat)
    requires IsFrame(off, segLen)
    ensures Some(k) in Image(HighestFirst, off, segLen) <==> PayloadOffset(off) <= k < segLen && !Lost(segLen, k)
    decreases PacketBytes(segLen) - off
  {
    PayloadFollows(off, segLen);
    if off > 0 {
      FramePutsDown(off, segLen, k);
    }
    hide Held, Lost;
    if !Last(off, segLen) {
      FramesPutDown(off + FRAME, segLen, k);
    }
  }

  ghost predicate AllIn(delivered: seq<Option<nat>>, segLen: nat) {
    forall k :: 0 <= k < segLen ==> Some(k) in delivered
  }

  // The whole payload comes to the RAM exactly if it ends with the second frame or with a full
  // one.
  lemma WholePacket(s: State, p: Packet, limit: nat)
    requires Fits(s)
    ensures AllIn(Delivered(Receive(HighestFirst, s, p, 0, limit, []).1), p.segLen) <==> EndsWithFrame(p.segLen)
  {
    hide Lost, EndsWithFrame;
    DeliveredImage(HighestFirst, s, p, limit);
    SomeLost(p.segLen);
    OtherImage(p.segLen);
    hide Image, Delivered, Receive;
  }

  predicate EndsWithFrame(segLen: nat) {
    segLen <= 2 * FRAME - HEADER || (segLen - (2 * FRAME - HEADER)) % FRAME == 0
  }

  lemma SomeLost(segLen: nat)
    ensures (exists k :: 0 <= k < segLen && Lost(segLen, k)) <==> !EndsWithFrame(segLen)
  {
    if !EndsWithFrame(segLen) {
      assert Lost(segLen, segLen - (segLen - (2 * FRAME - HEADER)) % FRAME);
    }
  }

  // Such a packet of 1408 bytes ends with a frame of 50: the payload's byte 1358 does not come to
  // the RAM, and the first byte of that frame's write is not one of the packet's.
  lemma PartialLastFrame(s: State, p: Packet, limit: nat)
    requires Fits(s) && p.segLen == 1408
    ensures PayloadBytes(1472, p.segLen) == 50 && Held(HighestFirst, 1472, p.segLen)[0] == None
    ensures Some(1358) !in Delivered(Receive(HighestFirst, s, p, 0, limit, []).1)
  {
    HeldAt(HighestFirst, 1472, p.segLen, 0);
    LostIsMissing(s, p, limit, 1358);
    hide Delivered, Receive, Held;
  }

  lemma LostIsMissing(s: State, p: Packet, limit: nat, k: nat)
    requires Fits(s) && Lost(p.segLen, k)
    ensures Some(k) !in Delivered(Receive(HighestFirst, s, p, 0, limit, []).1)
  {
    DeliveredImage(HighestFirst, s, p, limit);
    FramesPutDown(0, p.segLen, k);
    hide Image, Delivered, Receive, Lost;
  }

  /* Any number of packets. */

  function ReceiveAll(order: Order, s: State, ps: seq<Packet>, limit: nat): (r: (State, seq<seq<Chunk>>))
    requires Fits(s)
    ensures Fits(r.0) && |r.1| == |ps|
  {
    if ps == [] then (s, [])
    else
      var n := |ps| - 1;
      var (t, before) := ReceiveAll(order, s, ps[..n], limit);
      var (u, chunks) := Receive(order, t, ps[n], 0, limit, []);
      (u, before + [chunks])
  }

  // What the host gets in the packet's range.
  ghost predicate AllButHead(d: seq<Option<nat>>, segLen: nat) {
    |d| == segLen && forall k :: 0 <= k < segLen ==> (d[k] == Some(k) <==> k >= HeadBytes(segLen))
  }

  ghost predicate AllButLost(d: seq<Option<nat>>, segLen: nat) {
    |d| == segLen && forall k :: 0 <= k < segLen ==> (Some(k) in d <==> !Lost(segLen, k))
  }

  ghost predicate Accounted(order: Order, chunks: seq<Chunk>, p: Packet) {
    && Tiles(chunks, p, 0)
    && if order == LowestFirst then AllButHead(Delivered(chunks), p.segLen) else AllButLost(Delivered(chunks), p.segLen)
  }

  lemma EgressImage(segLen: nat)
    ensures AllButHead(Image(LowestFirst, 0, segLen), segLen)
  {
    ImageLength(LowestFirst, 0, segLen);
    hide Image;
    forall k: nat | k < segLen ensures Image(LowestFirst, 0, segLen)[k] == Some(k) <==> k >= HeadBytes(segLen) {
      EgressByte(segLen, k);
    }
  }

  lemma OtherImage(segLen: nat)
    ensures AllButLost(Image(HighestFirst, 0, segLen), segLen)
  {
    ImageLength(HighestFirst, 0, segLen);
    hide Image, Lost;
    forall k: nat | k < segLen ensures Some(k) in Image(HighestFirst, 0, segLen) <==> !Lost(segLen, k) {
      FramesPutDown(0, segLen, k);
    }
  }

  lemma PacketAccounted(order: Order, s: State, p: Packet, limit: nat)
    requires Fits(s) && Settled(s) && Sound(p) && 0 < limit
    ensures var (t, chunks) := Receive(order, s, p, 0, limit, []);
      Settled(t) && Accounted(order, chunks, p) && Batched(chunks, limit)
  {
    hide Tiles, Image, Delivered, AllButHead, AllButLost, Contents, Batched;
    FramesTile(order, s, p, 0, limit, []);
    FramesBatch(order, s, p, 0, limit, []);
    DeliveredImage(order, s, p, limit);
    EgressImage(p.segLen);
    OtherImage(p.segLen);
    assert order == LowestFirst || order == HighestFirst;
  }

  lemma DeliveredImage(order: Order, s: State, p: Packet, limit: nat)
    requires Fits(s)
    ensures Delivered(Receive(order, s, p, 0, limit, []).1) == Image(order, 0, p.segLen)
  {
    FramesDeliver(order, s, p, 0, limit, []);
    hide Image, Delivered, Receive;
  }

  // Over every stream of packets: each packet's requests tile its range of the message. Place `k`
  // of the range gets byte `k` exactly behind the second frame, from this card's egress; from a
  // sender that fills the highest lanes first, all bytes but the lost ones come to the range.
  lemma {:induction false} StreamTiles(order: Order, s: State, ps: seq<Packet>, limit: nat)
    requires Fits(s) && Settled(s) && 0 < limit && forall p :: p in ps ==> Sound(p)
    ensures var (t, chunks) := ReceiveAll(order, s, ps, limit);
      Settled(t) && forall i :: 0 <= i < |ps| ==> Accounted(order, chunks[i], ps[i]) && Batched(chunks[i], limit)
  {
    if ps != [] {
      hide Accounted, Batched, Receive;
      var n := |ps| - 1;
      var (t, before) := ReceiveAll(order, s, ps[..n], limit);
      StreamTiles(order, s, ps[..n], limit);
      PacketAccounted(order, t, ps[n], limit);
    }
  }

  /* The registers, updated in place. */

  class Ingress {
    var ramHead: nat
    var buffBytes: nat

    function Now(): State
      reads this
    {
      State(ramHead, buffBytes)
    }

    constructor ()
      ensures Now() == State(0, 0) && Fits(Now()) && Settled(Now())
    {
      ramHead, buffBytes := 0, 0;
    }

    // One frame of a packet: the RAM write it makes, and the DMA request if it makes one.
    method Frame(order: Order, p: Packet, off: nat, limit: nat) returns (writes: seq<Write>, dmas: seq<Dma>)
      requires Fits(Now()) && IsFrame(off, p.segLen)
      modifies this
      ensures Now() == Step(old(Now()), p, off, limit) && Fits(Now())
      ensures writes == Writes(order, old(Now()), p, off)
      ensures dmas == if Flushes(old(Now()), p, off, limit) then [Request(old(Now()), p, off)] else []
    {
      var bytes := PayloadBytes(off, p.segLen);
      var head, current := ramHead, (buffBytes + bytes) % RAM_SPACE;
      writes, dmas := [], [];
      if off != 0 {
        var data := Field(order, off, p.segLen);
        if off == FRAME {
          data := data[FRAME - bytes..] + seq(FRAME - bytes, _ => None);
        }
        writes := [Write(head, data[..bytes])];
      }
      if current >= limit || Last(off, p.segLen) {
        dmas := [Request(Now(), p, off)];
      }
      ramHead, buffBytes := (head + bytes) % RAM_SPACE, current;
      if current >= limit || Last(off, p.segLen) {
        buffBytes := 0;
        if TURN < head {
          ramHead := 0;
        }
      }
    }
  }
}
