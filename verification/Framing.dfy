/** The VPN data stream: packets from a TUN device are length-prefixed, optionally padded to
    128-byte blocks, written to a QUIC stream, and cut back into packets on the other side.
    The stream may deliver its bytes in chunks of any size and may end at any byte. */
module Framing {

  import opened ByteChunks

  const PADDING_BLOCK_SIZE := 128
  const HEADER_SIZE := 4
  const MAX_PACKET_LEN := 65535
  const BUFFER_SIZE := 65536

  // ---------- padding arithmetic ----------

  function PaddedFrameSize(payloadLen: nat): (total: nat)
    ensures total % PADDING_BLOCK_SIZE == 0
    ensures HEADER_SIZE + payloadLen <= total < HEADER_SIZE + payloadLen + PADDING_BLOCK_SIZE
  {
    var total := HEADER_SIZE + payloadLen;
    var rem := total % PADDING_BLOCK_SIZE;
    if rem != 0 then total + (PADDING_BLOCK_SIZE - rem) else total
  }

  /** The frame is the least block multiple that holds header and payload. */
  lemma PaddedFrameIsLeast(payloadLen: nat, blocks: nat)
    requires blocks * PADDING_BLOCK_SIZE >= HEADER_SIZE + payloadLen
    ensures PaddedFrameSize(payloadLen) <= blocks * PADDING_BLOCK_SIZE
    ensures exists k: nat :: PaddedFrameSize(payloadLen) == k * PADDING_BLOCK_SIZE
  {
    var k := PaddedFrameSize(payloadLen) / PADDING_BLOCK_SIZE;
    assert PaddedFrameSize(payloadLen) == k * PADDING_BLOCK_SIZE;
  }

  function PaddingLen(payloadLen: nat): (pad: nat)
    ensures pad < PADDING_BLOCK_SIZE
  {
    PaddedFrameSize(payloadLen) - HEADER_SIZE - payloadLen
  }

  /** What the receiver reads after the header of a packet of `l` bytes. */
  function ReadLen(l: nat, padding: bool): nat {
    if padding then l + PaddingLen(l) else l
  }

  /** The longest packet that survives the receiver's checks and its 65536-byte buffer. */
  function MaxPayload(padding: bool): nat {
    if padding then 65532 else MAX_PACKET_LEN
  }

  /** The exact bound: with padding on the slice fits the buffer up to 65532 bytes and not
      beyond; with padding off every length the header check admits fits. */
  lemma ReceiveBufferBound(l: nat, padding: bool)
    requires l <= MAX_PACKET_LEN
    ensures ReadLen(l, padding) <= BUFFER_SIZE <==> l <= MaxPayload(padding)
  {
    if l <= 65532 {
      PaddedFrameIsLeast(l, 512);
    } else {
      assert PaddedFrameSize(l) > 512 * PADDING_BLOCK_SIZE;
      assert PaddedFrameSize(l) >= 513 * PADDING_BLOCK_SIZE;
    }
  }

  // ---------- the wire format ----------

  function BigEndian32(n: nat): (h: Bytes)
    requires n < 0x1_0000_0000
    ensures |h| == HEADER_SIZE
  {
    [n / 0x100_0000, n / 0x1_0000 % 256, n / 256 % 256, n % 256]
  }

  function FromBigEndian32(h: Bytes): nat
    requires |h| == HEADER_SIZE
  {
    (((h[0] as int) * 256 + h[1]) * 256 + h[2]) * 256 + h[3]
  }

  lemma HeaderRoundTrip(n: nat)
    requires n < 0x1_0000_0000
    ensures FromBigEndian32(BigEndian32(n)) == n
  {
    assert n / 256 == n / 0x1_0000 * 256 + n / 256 % 256;
    assert n / 0x1_0000 == n / 0x100_0000 * 256 + n / 0x1_0000 % 256;
  }

  function Zeros(n: nat): (z: Bytes)
    ensures |z| == n
  {
    seq(n, _ => 0)
  }

  function Frame(p: Bytes, padding: bool): (f: Bytes)
    requires |p| <= BUFFER_SIZE
    ensures |f| == HEADER_SIZE + ReadLen(|p|, padding)
  {
    BigEndian32(|p|) + p + if padding then Zeros(PaddingLen(|p|)) else []
  }

  /** The bytes on the wire: the length with its highest byte first, the packet, and, with padding, zeros up
      to the next multiple of 128. */
  lemma FrameIs(p: Bytes, padding: bool)
    requires |p| <= BUFFER_SIZE
    ensures var f := Frame(p, padding);
      && |f| >= 4 + |p| && f[4..4 + |p|] == p
      && |p| == f[0] as int * 0x100_0000 + f[1] as int * 0x1_0000 + f[2] as int * 0x100 + f[3] as int
      && (forall i :: 4 + |p| <= i < |f| ==> f[i] == 0)
      && (if padding then |f| % 128 == 0 && |f| < 4 + |p| + 128 else |f| == 4 + |p|)
  {
    HeaderRoundTrip(|p|);
  }

  /** Everything a TUN read can return: the read buffer holds 65536 bytes. */
  ghost predicate Readable(ps: seq<Bytes>) {
    forall i :: 0 <= i < |ps| ==> |ps[i]| <= BUFFER_SIZE
  }

  /** Packets within the exact receive bound. */
  ghost predicate Sendable(ps: seq<Bytes>, padding: bool) {
    forall i :: 0 <= i < |ps| ==> |ps[i]| <= MaxPayload(padding)
  }

  ghost function Wire(ps: seq<Bytes>, padding: bool): Bytes
    requires Readable(ps)
  {
    if ps == [] then [] else Frame(ps[0], padding) + Wire(ps[1..], padding)
  }

  lemma {:induction false} WireAppend(ps: seq<Bytes>, qs: seq<Bytes>, padding: bool)
    requires Readable(ps) && Readable(qs)
    ensures Readable(ps + qs)
    ensures Wire(ps + qs, padding) == Wire(ps, padding) + Wire(qs, padding)
  {
    hide Frame;
    if ps == [] {
      assert ps + qs == qs;
    } else {
      assert (ps + qs)[1..] == ps[1..] + qs;
      WireAppend(ps[1..], qs, padding);
      Concat3(Frame(ps[0], padding), Wire(ps[1..], padding), Wire(qs, padding));
    }
  }

  ghost function TotalLen(ps: seq<Bytes>): nat {
    if ps == [] then 0 else |ps[0]| + TotalLen(ps[1..])
  }

  lemma {:induction false} TotalLenAppend(ps: seq<Bytes>, qs: seq<Bytes>)
    ensures TotalLen(ps + qs) == TotalLen(ps) + TotalLen(qs)
  {
    if ps == [] {
      assert ps + qs == qs;
    } else {
      assert (ps + qs)[1..] == ps[1..] + qs;
      TotalLenAppend(ps[1..], qs);
    }
  }

  // ---------- what the receive loop makes of a byte sequence ----------

  /** Why the loop ended: the stream ended, a header above the limit, or a slice beyond the
      buffer (a run-time panic in the source). */
  datatype Ending = StreamEnded | HeaderRejected | BufferOverrun

  datatype Received = Received(packets: seq<Bytes>, ending: Ending)

  ghost function Receive(bytes: Bytes, padding: bool): Received
    decreases |bytes|
  {
    if |bytes| < HEADER_SIZE then Received([], StreamEnded)
    else
      var l := FromBigEndian32(bytes[..HEADER_SIZE]);
      if l > MAX_PACKET_LEN then Received([], HeaderRejected)
      else
        var r := ReadLen(l, padding);
        if r > BUFFER_SIZE then Received([], BufferOverrun)
        else if |bytes| - HEADER_SIZE < r then Received([], StreamEnded)
        else
          var rest := Receive(bytes[HEADER_SIZE + r..], padding);
          Received([bytes[HEADER_SIZE..HEADER_SIZE + l]] + rest.packets, rest.ending)
  }

  /** One turn of the loop on the bytes it has in front of it. */
  lemma ReceiveTurn(bytes: Bytes, padding: bool, l: nat)
    requires |bytes| >= HEADER_SIZE && l == FromBigEndian32(bytes[..HEADER_SIZE])
    ensures l > MAX_PACKET_LEN ==> Receive(bytes, padding) == Received([], HeaderRejected)
    ensures l <= MAX_PACKET_LEN && ReadLen(l, padding) > BUFFER_SIZE ==>
      Receive(bytes, padding) == Received([], BufferOverrun)
    ensures l <= MAX_PACKET_LEN && ReadLen(l, padding) <= BUFFER_SIZE && |bytes| - HEADER_SIZE < ReadLen(l, padding) ==>
      Receive(bytes, padding) == Received([], StreamEnded)
    ensures l <= MAX_PACKET_LEN && ReadLen(l, padding) <= Min(BUFFER_SIZE, |bytes| - HEADER_SIZE) ==>
      var rest := Receive(bytes[HEADER_SIZE + ReadLen(l, padding)..], padding);
      Receive(bytes, padding) == Received([bytes[HEADER_SIZE..HEADER_SIZE + l]] + rest.packets, rest.ending)
  {
    hide FromBigEndian32, BigEndian32, ReadLen;
  }

  lemma ReceiveShort(bytes: Bytes, padding: bool)
    requires |bytes| < HEADER_SIZE
    ensures Receive(bytes, padding) == Received([], StreamEnded)
  {
  }

  /** What a payload read leaves in the buffer and in the stream. */
  lemma SliceTwice(bytes: Bytes, l: nat, r: nat)
    requires l <= r && HEADER_SIZE + r <= |bytes|
    ensures bytes[HEADER_SIZE..][..r][..l] == bytes[HEADER_SIZE..HEADER_SIZE + l]
    ensures bytes[HEADER_SIZE..][r..] == bytes[HEADER_SIZE + r..]
  {
  }

  /** A whole frame is decoded and leaves the loop aligned on the next one. */
  lemma ReceiveFrame(p: Bytes, rest: Bytes, padding: bool)
    requires |p| <= MaxPayload(padding)
    ensures Receive(Frame(p, padding) + rest, padding)
         == Received([p] + Receive(rest, padding).packets, Receive(rest, padding).ending)
  {
    var f := Frame(p, padding);
    HeaderRoundTrip(|p|);
    ReceiveBufferBound(|p|, padding);
    assert (f + rest)[..HEADER_SIZE] == BigEndian32(|p|);
    assert (f + rest)[HEADER_SIZE..HEADER_SIZE + |p|] == p;
    assert (f + rest)[HEADER_SIZE + ReadLen(|p|, padding)..] == rest;
  }

  /** A frame cut anywhere yields nothing. */
  lemma ReceivePartialFrame(p: Bytes, cut: nat, padding: bool)
    requires |p| <= MaxPayload(padding) && cut < |Frame(p, padding)|
    ensures Receive(Frame(p, padding)[..cut], padding) == Received([], StreamEnded)
  {
    if cut >= HEADER_SIZE {
      HeaderRoundTrip(|p|);
      ReceiveBufferBound(|p|, padding);
      assert Frame(p, padding)[..cut][..HEADER_SIZE] == BigEndian32(|p|);
    }
  }

  /** How many frames lie completely within the first `cut` bytes of the wire. */
  ghost function WholeFrames(ps: seq<Bytes>, padding: bool, cut: nat): (k: nat)
    requires Readable(ps)
    ensures k <= |ps|
  {
    if ps == [] || cut < |Frame(ps[0], padding)| then 0
    else 1 + WholeFrames(ps[1..], padding, cut - |Frame(ps[0], padding)|)
  }

  /** WholeFrames is the largest k whose k frames fit into the cut. */
  lemma {:induction false} WholeFramesIsLargest(ps: seq<Bytes>, padding: bool, cut: nat)
    requires Readable(ps)
    ensures var k := WholeFrames(ps, padding, cut);
      && |Wire(ps[..k], padding)| <= cut
      && (k < |ps| ==> cut < |Wire(ps[..k + 1], padding)|)
  {
    if ps != [] {
      var k := WholeFrames(ps, padding, cut);
      if cut < |Frame(ps[0], padding)| {
        assert ps[..1][1..] == [];
        assert Wire(ps[..1], padding) == Frame(ps[0], padding) + Wire([], padding);
      } else {
        WholeFramesIsLargest(ps[1..], padding, cut - |Frame(ps[0], padding)|);
        assert ps[..k][1..] == ps[1..][..k - 1];
        if k < |ps| {
          assert ps[..k + 1][1..] == ps[1..][..k];
        }
      }
    }
  }

  /** Round trip under truncation: from any prefix of the wire the receiver gets exactly the
      packets whose whole frame lies in the prefix, unchanged and in order. */
  lemma {:induction false} RoundTripUnderTruncation(ps: seq<Bytes>, padding: bool, cut: nat)
    requires Readable(ps) && Sendable(ps, padding) && cut <= |Wire(ps, padding)|
    ensures Receive(Wire(ps, padding)[..cut], padding)
         == Received(ps[..WholeFrames(ps, padding, cut)], StreamEnded)
  {
    hide Receive;
    if ps == [] {
      assert Receive([], padding) == Received([], StreamEnded) by { ReceiveNothing(padding); }
    } else {
      var f := Frame(ps[0], padding);
      var tail := Wire(ps[1..], padding);
      if cut < |f| {
        ReceivePartialFrame(ps[0], cut, padding);
        assert (f + tail)[..cut] == f[..cut];
      } else {
        RoundTripUnderTruncation(ps[1..], padding, cut - |f|);
        ReceiveFrame(ps[0], tail[..cut - |f|], padding);
        assert (f + tail)[..cut] == f + tail[..cut - |f|];
        var k := WholeFrames(ps, padding, cut);
        assert ps[..k] == [ps[0]] + ps[1..][..k - 1];
      }
    }
  }

  lemma ReceiveNothing(padding: bool)
    ensures Receive([], padding) == Received([], StreamEnded)
  {
  }

  /** The size bound is exact: a packet the TUN can deliver comes back from the wire if and
      only if it is within MaxPayload. */
  lemma SinglePacketRoundTripIff(p: Bytes, padding: bool)
    requires |p| <= BUFFER_SIZE
    ensures Receive(Frame(p, padding), padding) == Received([p], StreamEnded) <==> |p| <= MaxPayload(padding)
  {
    var f := Frame(p, padding);
    if |p| <= MaxPayload(padding) {
      ReceiveFrame(p, [], padding);
      assert f + [] == f;
    } else {
      HeaderRoundTrip(|p|);
      assert f[..HEADER_SIZE] == BigEndian32(|p|);
      if |p| <= MAX_PACKET_LEN {
        ReceiveBufferBound(|p|, padding);
      }
    }
  }

  lemma OversizeStops(p: Bytes, rest: Bytes, padding: bool)
    requires MaxPayload(padding) < |p| <= BUFFER_SIZE
    ensures Receive(Frame(p, padding) + rest, padding).packets == []
  {
    HeaderRoundTrip(|p|);
    assert (Frame(p, padding) + rest)[..HEADER_SIZE] == BigEndian32(|p|);
    if |p| <= MAX_PACKET_LEN {
      ReceiveBufferBound(|p|, padding);
    }
  }

  /** A list of packets comes back whole if and only if every packet is within the bound. */
  lemma {:induction false} ListRoundTripIff(ps: seq<Bytes>, padding: bool)
    requires Readable(ps)
    ensures Receive(Wire(ps, padding), padding) == Received(ps, StreamEnded) <==> Sendable(ps, padding)
  {
    hide Receive, Frame;
    if ps == [] {
      ReceiveNothing(padding);
    } else {
      var tail := Wire(ps[1..], padding);
      ListRoundTripIff(ps[1..], padding);
      assert Sendable(ps, padding) <==> |ps[0]| <= MaxPayload(padding) && Sendable(ps[1..], padding);
      if |ps[0]| <= MaxPayload(padding) {
        ReceiveFrame(ps[0], tail, padding);
        assert ps == [ps[0]] + ps[1..];
        assert ([ps[0]] + Receive(tail, padding).packets)[1..] == Receive(tail, padding).packets;
      } else {
        OversizeStops(ps[0], tail, padding);
      }
    }
  }

  // ---------- unequal padding settings ----------

  /** A frame sent with setting `sent` is received with setting `read`, and the loop is aligned on
      whatever follows. */
  ghost predicate Aligned(p: Bytes, sent: bool, read: bool, rest: Bytes)
    requires |p| <= BUFFER_SIZE
  {
    var r := Receive(rest, read);
    Receive(Frame(p, sent) + rest, read) == Received([p] + r.packets, r.ending)
  }

  /** Padding that is not expected is taken for headers: with three more bytes it yields a packet. */
  lemma UnexpectedPaddingMisaligns(p: Bytes)
    requires |p| <= MaxPayload(false) && PaddingLen(|p|) > 0
    ensures !Aligned(p, true, false, Zeros(3))
  {
    var pad := Zeros(PaddingLen(|p|)) + Zeros(3);
    assert Frame(p, true) + Zeros(3) == Frame(p, false) + pad;
    ReceiveFrame(p, pad, false);
    HeaderRoundTrip(0);
    assert pad[..4] == BigEndian32(0);
    var taken := Receive(pad, false).packets;
    assert |taken| > 0;
    assert Receive(Zeros(3), false).packets == [];
    assert |[p] + taken| > |[p] + Receive(Zeros(3), false).packets|;
  }

  /** Padding that is expected but missing: the frame on its own is never complete. */
  lemma MissingPaddingMisaligns(p: Bytes)
    requires |p| <= MaxPayload(true) && PaddingLen(|p|) > 0
    ensures !Aligned(p, false, true, [])
  {
    var f := Frame(p, false);
    assert f + [] == f;
    HeaderRoundTrip(|p|);
    ReceiveBufferBound(|p|, true);
    assert f[..HEADER_SIZE] == BigEndian32(|p|);
  }

  /** Resynchronisation needs equal settings: a frame leaves the receiver aligned on every
      continuation exactly when the settings are equal or the frame happens to need no padding. */
  lemma PaddingMismatchDesynchronises(p: Bytes, sent: bool, read: bool)
    requires |p| <= MaxPayload(read)
    ensures (forall rest :: Aligned(p, sent, read, rest)) <==> sent == read || PaddingLen(|p|) == 0
  {
    hide Receive;
    if sent == read || PaddingLen(|p|) == 0 {
      assert Frame(p, sent) == Frame(p, read);
      forall rest
        ensures Aligned(p, sent, read, rest)
      {
        ReceiveFrame(p, rest, read);
      }
    } else if sent {
      UnexpectedPaddingMisaligns(p);
    } else {
      MissingPaddingMisaligns(p);
    }
  }

  // ---------- the environment: a chunked stream, a TUN device, a stream writer ----------

  /** A byte stream that delivers its content in arbitrary chunks and then ends. */
  class ByteStream {
    var chunks: seq<Bytes>

    constructor (chunks: seq<Bytes>)
      ensures this.chunks == chunks
    {
      this.chunks := chunks;
    }

    ghost function Remaining(): Bytes
      reads this
    {
      Flatten(chunks)
    }

    /** One read into buf[lo..hi]: at most one chunk, never more than the slice. */
    method Read(buf: array<Byte>, lo: nat, hi: nat) returns (n: nat, ok: bool)
      requires lo < hi <= buf.Length
      modifies this, buf
      ensures ok ==> n <= hi - lo && n <= |old(Remaining())|
      ensures ok ==> buf[..lo] == old(buf[..lo]) && buf[lo..lo + n] == old(Remaining())[..n]
      ensures ok ==> Remaining() == old(Remaining())[n..]
      ensures ok ==> n > 0 || |chunks| < old(|chunks|)
      ensures !ok ==> n == 0 && Remaining() == [] && old(Remaining()) == []
    {
      if |chunks| == 0 {
        return 0, false;
      }
      var chunk := chunks[0];
      n, ok := if |chunk| <= hi - lo then |chunk| else hi - lo, true;
      forall i | 0 <= i < n {
        buf[lo + i] := chunk[i];
      }
      assert buf[lo..lo + n] == chunk[..n];
      assert chunk == chunk[..n] + chunk[n..];
      if n == |chunk| {
        chunks := chunks[1..];
      } else {
        chunks := [chunk[n..]] + chunks[1..];
      }
    }
  }

  /** io.ReadFull: read until buf[..n] is full or the stream ends. */
  method ReadFull(data: ByteStream, buf: array<Byte>, n: nat) returns (ok: bool)
    requires n <= buf.Length
    modifies data, buf
    ensures ok <==> n <= |old(data.Remaining())|
    ensures ok ==> buf[..n] == old(data.Remaining())[..n] && data.Remaining() == old(data.Remaining())[n..]
    ensures !ok ==> data.Remaining() == []
  {
    var got := 0;
    while got < n
      invariant got <= n && got <= |old(data.Remaining())|
      invariant buf[..got] == old(data.Remaining())[..got]
      invariant data.Remaining() == old(data.Remaining())[got..]
      decreases n - got, |data.chunks|
    {
      ghost var before := data.Remaining();
      var k, more := data.Read(buf, got, n);
      if !more {
        return false;
      }
      assert buf[..got + k] == buf[..got] + buf[got..got + k];
      assert old(data.Remaining())[..got + k] == old(data.Remaining())[..got] + before[..k];
      got := got + k;
    }
    return true;
  }

  /** The TUN device: a script of packets to read, and a bounded number of accepted writes. */
  class TunDevice {
    var pending: seq<Bytes>
    var written: seq<Bytes>
    var room: nat

    constructor (pending: seq<Bytes>, room: nat)
      ensures this.pending == pending && this.room == room && written == []
    {
      this.pending, this.room, this.written := pending, room, [];
    }

    method Read(buf: array<Byte>) returns (n: nat, ok: bool)
      requires forall i :: 0 <= i < |pending| ==> |pending[i]| <= buf.Length
      modifies `pending, buf
      ensures ok <==> old(pending) != []
      ensures ok ==> n <= buf.Length && buf[..n] == old(pending)[0] && pending == old(pending)[1..]
      ensures !ok ==> pending == []
    {
      if pending == [] {
        return 0, false;
      }
      var p := pending[0];
      forall i | 0 <= i < |p| {
        buf[i] := p[i];
      }
      pending := pending[1..];
      return |p|, true;
    }

    method Write(p: Bytes) returns (ok: bool)
      modifies `written, `room
      ensures ok <==> old(room) > 0
      ensures ok ==> written == old(written) + [p] && room == old(room) - 1
      ensures !ok ==> written == old(written) && room == old(room)
    {
      if room == 0 {
        return false;
      }
      written, room := written + [p], room - 1;
      return true;
    }
  }

  /** The sending side of a stream that may break after any number of bytes. */
  class StreamWriter {
    var sent: Bytes
    var room: nat

    constructor (room: nat)
      ensures this.room == room && sent == []
    {
      this.room, this.sent := room, [];
    }

    method Write(b: Bytes) returns (ok: bool)
      modifies this
      ensures ok <==> |b| <= old(room)
      ensures sent == old(sent) + (if ok then b else b[..old(room)])
      ensures room == if ok then old(room) - |b| else 0
    {
      ok := |b| <= room;
      var n := if ok then |b| else room;
      sent, room := sent + b[..n], room - n;
    }
  }

  ghost function Min(a: nat, b: nat): (m: nat)
    ensures m <= a && m <= b
  {
    if a < b then a else b
  }

  // ---------- the two pipe loops ----------

  class VpnPipe {
    var bytesIn: nat
    var bytesOut: nat
    const padding: bool

    constructor (padding: bool)
      ensures this.padding == padding && bytesIn == 0 && bytesOut == 0
    {
      this.padding, bytesIn, bytesOut := padding, 0, 0;
    }

    /** One turn of the stream-to-TUN loop up to the TUN write: header, checks, then payload
        and padding into the reused buffer. */
    method NextPacket(data: ByteStream, header: array<Byte>, buf: array<Byte>)
      returns (l: nat, stop: bool, ghost ending: Ending)
      requires header.Length == HEADER_SIZE && buf.Length == BUFFER_SIZE && header != buf
      modifies data, header, buf
      ensures stop ==> Receive(old(data.Remaining()), padding) == Received([], ending)
      ensures !stop ==> l <= MAX_PACKET_LEN && |data.Remaining()| < |old(data.Remaining())|
      ensures !stop ==>
        var r := Receive(data.Remaining(), padding);
        Receive(old(data.Remaining()), padding) == Received([buf[..l]] + r.packets, r.ending)
    {
      hide Flatten, Receive, FromBigEndian32, ByteStream.Remaining;
      ghost var rest := data.Remaining();
      var ok := ReadFull(data, header, HEADER_SIZE);
      if !ok {
        ReceiveShort(rest, padding);
        return 0, true, StreamEnded;
      }
      assert header[..HEADER_SIZE] == header[..];
      l := FromBigEndian32(header[..]);
      ReceiveTurn(rest, padding, l);
      if l > MAX_PACKET_LEN {
        return l, true, HeaderRejected;
      }
      var readLen := ReadLen(l, padding);
      if readLen > BUFFER_SIZE {
        return l, true, BufferOverrun;
      }
      ok := ReadFull(data, buf, readLen);
      if !ok {
        return l, true, StreamEnded;
      }
      SliceTwice(rest, l, readLen);
      assert buf[..l] == buf[..readLen][..l];
      return l, false, StreamEnded;
    }

    /** Stream to TUN. The TUN receives exactly the packets Receive finds in the stream, up to
        its first failing write; the counter also includes the packet whose write failed. */
    method PipeQuicToTun(data: ByteStream, tun: TunDevice) returns (ghost ending: Ending)
      modifies this`bytesIn, data, tun`written, tun`room
      ensures var r := Receive(old(data.Remaining()), padding);
        && tun.written == old(tun.written) + r.packets[..Min(old(tun.room), |r.packets|)]
        && bytesIn == old(bytesIn) + TotalLen(r.packets[..Min(old(tun.room) + 1, |r.packets|)])
        && (|r.packets| <= old(tun.room) ==> ending == r.ending)
    {
      hide Receive, Flatten, TotalLen;
      var buf := new Byte[BUFFER_SIZE];
      var header := new Byte[HEADER_SIZE];
      ghost var all := Receive(data.Remaining(), padding);
      ghost var done: seq<Bytes> := [];
      TotalLenNothing();
      while true
        invariant all == Received(done + Receive(data.Remaining(), padding).packets,
                                  Receive(data.Remaining(), padding).ending)
        invariant |done| <= old(tun.room) && tun.room == old(tun.room) - |done|
        invariant tun.written == old(tun.written) + done
        invariant bytesIn == old(bytesIn) + TotalLen(done)
        decreases |data.Remaining()|
      {
        var l, stop;
        l, stop, ending := NextPacket(data, header, buf);
        if stop {
          assert all.packets == done;
          assert all.packets[..|done|] == done;
          return;
        }
        var p := buf[..l];
        assert all.packets == done + [p] + Receive(data.Remaining(), padding).packets;
        assert all.packets[..|done|] == done && all.packets[..|done| + 1] == done + [p];
        bytesIn := bytesIn + l;
        TotalLenAppend(done, [p]);
        TotalLenOne(p);
        var ok := tun.Write(p);
        if !ok {
          return;
        }
        done := done + [p];
      }
    }

    /** The three writes of one frame: header, payload from the reused buffer, padding. */
    method WriteFrame(data: StreamWriter, buf: array<Byte>, n: nat) returns (ok: bool)
      requires n <= buf.Length == BUFFER_SIZE
      modifies data
      ensures ok <==> |Frame(buf[..n], padding)| <= old(data.room)
      ensures var f := Frame(buf[..n], padding); data.sent == old(data.sent) + f[..Min(old(data.room), |f|)]
      ensures ok ==> data.room == old(data.room) - |Frame(buf[..n], padding)|
    {
      ghost var sent0, room0 := data.sent, data.room;
      ghost var h, p, z := BigEndian32(n), buf[..n], Tail(n, padding);
      FrameParts(p, padding);
      hide Frame, BigEndian32, Tail;
      ok := data.Write(BigEndian32(n));
      if !ok {
        CutInPart([], h, p, z, room0);
        return;
      }
      ok := data.Write(buf[..n]);
      if !ok {
        CutInPart(h, p, [], z, room0 - |h|);
        Concat3(sent0, h, p[..room0 - |h|]);
        return;
      }
      Concat3(sent0, h, p);
      if padding {
        var padLen := PaddingLen(n);
        TailIs(n);
        if padLen > 0 {
          ok := data.Write(Zeros(padLen));
          Concat3(sent0, h + p, if ok then z else z[..room0 - |h + p|]);
          if !ok {
            CutInPart(h + p, z, [], [], room0 - |h + p|);
            return;
          }
        }
      }
      WholeFrame(h, p, z);
    }

    /** One turn of the loop: read a packet, count it, send its frame. */
    method SendNext(tun: TunDevice, data: StreamWriter, buf: array<Byte>, ghost all: seq<Bytes>, ghost done: seq<Bytes>,
                    ghost sent0: Bytes, ghost room0: nat) returns (more: bool, ok: bool)
      requires AllRead(all, done, tun.pending) && SentSoFar(done, padding, sent0, room0, data.sent, data.room)
      requires buf.Length == BUFFER_SIZE
      modifies this`bytesOut, tun`pending, data, buf
      ensures more <==> old(tun.pending) != []
      ensures !more ==>
        tun.pending == [] && bytesOut == old(bytesOut) && data.sent == old(data.sent) && data.room == old(data.room)
      ensures more ==>
        && bytesOut == old(bytesOut) + |old(tun.pending)[0]| && |tun.pending| < |old(tun.pending)|
        && AllRead(all, done + [old(tun.pending)[0]], tun.pending)
        && if ok then SentSoFar(done + [old(tun.pending)[0]], padding, sent0, room0, data.sent, data.room)
           else CutShort(all, padding, sent0, room0, data.sent)
    {
      hide Wire, TotalLen, Frame, Readable, SentSoFar, AllRead, CutShort, Min, ReadLen;
      ghost var pending := tun.pending;
      ReadableRest(all, done, pending);
      var n;
      ok := true;
      n, more := tun.Read(buf);
      if !more {
        return;
      }
      ReadNext(all, done, pending);
      bytesOut := bytesOut + n;
      ghost var sentBefore, roomBefore := data.sent, data.room;
      ok := WriteFrame(data, buf, n);
      if ok {
        SentNext(done, buf[..n], padding, sent0, room0, sentBefore, roomBefore, data.sent, data.room);
      } else {
        SentCut(all, done, pending, padding, sent0, room0, sentBefore, roomBefore, data.sent);
      }
    }

    /** TUN to stream. What reaches the stream is the wire image of the packets read, cut where
        the stream broke; the counter covers every packet read. */
    method PipeTunToQuic(tun: TunDevice, data: StreamWriter)
      requires Readable(tun.pending)
      modifies this`bytesOut, tun`pending, data
      ensures var wire := Wire(old(tun.pending), padding);
        data.sent == old(data.sent) + wire[..Min(old(data.room), |wire|)]
      ensures |tun.pending| <= |old(tun.pending)|
      ensures old(tun.pending)[|old(tun.pending)| - |tun.pending|..] == tun.pending
      ensures bytesOut == old(bytesOut) + TotalLen(old(tun.pending)[..|old(tun.pending)| - |tun.pending|])
      ensures |Wire(old(tun.pending), padding)| <= old(data.room) ==> tun.pending == []
    {
      hide Wire, TotalLen, Frame, Readable, SentSoFar, AllRead, CutShort, Min;
      var buf := new Byte[BUFFER_SIZE];
      ghost var all := tun.pending;
      ghost var done: seq<Bytes> := [];
      NothingSent(all, padding, data.sent, data.room);
      while true
        invariant AllRead(all, done, tun.pending)
        invariant SentSoFar(done, padding, old(data.sent), old(data.room), data.sent, data.room)
        invariant bytesOut == old(bytesOut) + TotalLen(done)
        decreases |tun.pending|
      {
        ghost var pending := tun.pending;
        var more, ok := SendNext(tun, data, buf, all, done, old(data.sent), old(data.room));
        if !more {
          AllSent(all, done, padding, old(data.sent), old(data.room), data.sent, data.room);
          return;
        }
        TotalLenNext(done, pending[0]);
        if !ok {
          ReadSplit(all, done + [pending[0]], tun.pending);
          IsCutShort(all, padding, old(data.sent), old(data.room), data.sent);
          return;
        }
        done := done + [pending[0]];
      }
    }
  }

  /** What follows the payload in a frame. */
  function Tail(n: nat, padding: bool): Bytes {
    if padding then Zeros(PaddingLen(n)) else []
  }

  lemma TailIs(n: nat)
    ensures Tail(n, true) == Zeros(PaddingLen(n))
  {
  }

  lemma FrameParts(p: Bytes, padding: bool)
    requires |p| <= BUFFER_SIZE
    ensures Frame(p, padding) == BigEndian32(|p|) + p + Tail(|p|, padding)
    ensures !padding ==> Tail(|p|, padding) == []
  {
  }

  lemma CutInPart(before: Bytes, part: Bytes, next: Bytes, last: Bytes, k: nat)
    requires k <= |part|
    ensures (before + part + next + last)[..|before| + k] == before + part[..k]
  {
  }

  lemma WholeFrame(h: Bytes, p: Bytes, z: Bytes)
    ensures var f := h + p + z; f[..|f|] == f
  {
  }

  /** The packets read so far and those still pending are all the packets, each within the buffer. */
  ghost predicate AllRead(all: seq<Bytes>, done: seq<Bytes>, pending: seq<Bytes>) {
    all == done + pending && Readable(all)
  }

  /** After the packets `done`: their wire image has been sent, and that much room is used up. */
  ghost predicate SentSoFar(done: seq<Bytes>, padding: bool, sent0: Bytes, room0: nat, sent: Bytes, room: nat) {
    && Readable(done) && |Wire(done, padding)| <= room0
    && room == room0 - |Wire(done, padding)| && sent == sent0 + Wire(done, padding)
  }

  /** The stream broke before the whole wire image was sent; what fits has been. */
  ghost predicate CutShort(all: seq<Bytes>, padding: bool, sent0: Bytes, room0: nat, sent: Bytes) {
    Readable(all) && |Wire(all, padding)| > room0 && sent == sent0 + Wire(all, padding)[..room0]
  }

  lemma IsCutShort(all: seq<Bytes>, padding: bool, sent0: Bytes, room0: nat, sent: Bytes)
    requires CutShort(all, padding, sent0, room0, sent)
    ensures Readable(all) && |Wire(all, padding)| > room0
    ensures var wire := Wire(all, padding); sent == sent0 + wire[..Min(room0, |wire|)]
  {
    hide Wire;
  }

  lemma ReadSplit(all: seq<Bytes>, done: seq<Bytes>, pending: seq<Bytes>)
    requires AllRead(all, done, pending)
    ensures |all| == |done| + |pending| && all[|done|..] == pending && all[..|done|] == done
  {
  }

  lemma NothingSent(all: seq<Bytes>, padding: bool, sent: Bytes, room: nat)
    requires Readable(all)
    ensures AllRead(all, [], all) && SentSoFar([], padding, sent, room, sent, room) && TotalLen([]) == 0
  {
  }

  lemma ReadableRest(all: seq<Bytes>, done: seq<Bytes>, pending: seq<Bytes>)
    requires AllRead(all, done, pending)
    ensures Readable(all) && Readable(pending) && forall i :: 0 <= i < |pending| ==> |pending[i]| <= BUFFER_SIZE
    ensures |all| == |done| + |pending| && all[|done|..] == pending && all[..|done|] == done
  {
    forall i | 0 <= i < |pending|
      ensures |pending[i]| <= BUFFER_SIZE
    {
      assert pending[i] == all[|done| + i];
    }
  }

  lemma ReadNext(all: seq<Bytes>, done: seq<Bytes>, pending: seq<Bytes>)
    requires AllRead(all, done, pending) && pending != []
    ensures AllRead(all, done + [pending[0]], pending[1..])
    ensures all[..|done| + 1] == done + [pending[0]] && all[|done| + 1..] == pending[1..] && |all| == |done| + |pending|
  {
    assert pending == [pending[0]] + pending[1..];
  }

  lemma TotalLenNext(done: seq<Bytes>, p: Bytes)
    ensures TotalLen(done + [p]) == TotalLen(done) + |p|
  {
    TotalLenAppend(done, [p]);
    TotalLenOne(p);
  }

  lemma SentNext(done: seq<Bytes>, p: Bytes, padding: bool, sent0: Bytes, room0: nat, sent: Bytes, room: nat,
                 sent': Bytes, room': nat)
    requires SentSoFar(done, padding, sent0, room0, sent, room) && |p| <= BUFFER_SIZE
    requires var f := Frame(p, padding); |f| <= room && sent' == sent + f[..Min(room, |f|)] && room' == room - |f|
    ensures SentSoFar(done + [p], padding, sent0, room0, sent', room')
  {
    hide Wire, Frame;
    SplitWire(done, p, [], padding);
    assert Frame(p, padding)[..|Frame(p, padding)|] == Frame(p, padding);
    Concat3(sent0, Wire(done, padding), Frame(p, padding));
  }

  lemma SentCut(all: seq<Bytes>, done: seq<Bytes>, pending: seq<Bytes>, padding: bool, sent0: Bytes, room0: nat,
                sent: Bytes, room: nat, sent': Bytes)
    requires AllRead(all, done, pending) && pending != [] && SentSoFar(done, padding, sent0, room0, sent, room)
    requires |pending[0]| <= BUFFER_SIZE
    requires var f := Frame(pending[0], padding); |f| > room && sent' == sent + f[..Min(room, |f|)]
    ensures CutShort(all, padding, sent0, room0, sent')
  {
    hide Wire, Frame;
    ReadableRest(all, done, pending);
    var f, w := Frame(pending[0], padding), Wire(done, padding);
    assert pending == [pending[0]] + pending[1..];
    SplitWire(done, pending[0], pending[1..], padding);
    var tail := Wire(pending[1..], padding);
    assert Wire(all, padding) == w + f + tail;
    assert (w + f + tail)[..|w| + room] == w + f[..room];
    Concat3(sent0, w, f[..room]);
  }

  lemma AllSent(all: seq<Bytes>, done: seq<Bytes>, padding: bool, sent0: Bytes, room0: nat, sent: Bytes, room: nat)
    requires AllRead(all, done, []) && SentSoFar(done, padding, sent0, room0, sent, room)
    ensures Readable(all) && |Wire(all, padding)| <= room0 && all == done && all[..|all|] == all
    ensures var wire := Wire(all, padding); sent == sent0 + wire[..Min(room0, |wire|)]
  {
    hide Wire;
    assert all == done;
    assert Wire(all, padding)[..|Wire(all, padding)|] == Wire(all, padding);
  }

  lemma TotalLenNothing()
    ensures TotalLen([]) == 0
  {
  }

  lemma TotalLenOne(p: Bytes)
    ensures TotalLen([p]) == |p|
  {
    assert [p][1..] == [];
  }

  lemma WireNothing(padding: bool)
    ensures Wire([], padding) == []
  {
  }

  lemma SplitWire(done: seq<Bytes>, p: Bytes, rest: seq<Bytes>, padding: bool)
    requires Readable(done) && |p| <= BUFFER_SIZE && Readable(rest)
    ensures Readable(done + [p]) && Readable(done + ([p] + rest))
    ensures Wire(done + [p], padding) == Wire(done, padding) + Frame(p, padding)
    ensures Wire(done + ([p] + rest), padding) == Wire(done, padding) + Frame(p, padding) + Wire(rest, padding)
  {
    WireAppend(done, [p], padding);
    assert Wire([p], padding) == Frame(p, padding) + Wire([p][1..], padding) == Frame(p, padding);
    assert ([p] + rest)[1..] == rest;
    WireAppend(done, [p] + rest, padding);
  }

  /** Both loops together, over a stream that breaks after `room` bytes and is delivered in
      chunks cut anywhere: the far TUN gets exactly the packets whose frame got through, and the
      receive counter is the sum of their lengths. */
  method EndToEnd(ps: seq<Bytes>, padding: bool, room: nat, chunks: seq<Bytes>) returns (out: seq<Bytes>, counted: nat)
    requires Readable(ps) && Sendable(ps, padding)
    requires Flatten(chunks) == Wire(ps, padding)[..Min(room, |Wire(ps, padding)|)]
    ensures out == ps[..WholeFrames(ps, padding, Min(room, |Wire(ps, padding)|))]
    ensures counted == TotalLen(out)
  {
    hide Receive, Frame, Flatten, Sendable, WholeFrames, Wire, TotalLen;
    var near := new TunDevice(ps, 0);
    var far := new TunDevice([], |ps|);
    var pipe := new VpnPipe(padding);
    var writer := new StreamWriter(room);
    pipe.PipeTunToQuic(near, writer);
    var stream := new ByteStream(chunks);
    assert stream.Remaining() == writer.sent;
    RoundTripUnderTruncation(ps, padding, Min(room, |Wire(ps, padding)|));
    ghost var ending := pipe.PipeQuicToTun(stream, far);
    out, counted := far.written, pipe.bytesIn;
    ghost var got := ps[..WholeFrames(ps, padding, Min(room, |Wire(ps, padding)|))];
    assert got[..|got|] == got;
  }
}
