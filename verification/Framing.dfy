/**
 Requests on the wire: the packed byte format, the gateway that numbers them, and the server that takes the stream
 apart.
 */
module Framing {
  import opened Types

  type Byte = b: int | 0 <= b < 256

  type Bytes = seq<Byte>

  // --- Numbers, least significant byte first -----------------------------------------------------------------

  function Range(k: nat): (n: nat)
    ensures n > 0
  {
    if k == 0 then 1 else 256 * Range(k - 1)
  }

  function ToBytes(n: nat, k: nat): (bs: Bytes)
    ensures |bs| == k
  {
    if k == 0 then [] else [n % 256] + ToBytes(n / 256, k - 1)
  }

  function FromBytes(bs: Bytes): nat {
    if bs == [] then 0 else bs[0] + 256 * FromBytes(bs[1..])
  }

  lemma {:induction false} NumberRoundTrip(n: nat, k: nat)
    requires n < Range(k)
    ensures FromBytes(ToBytes(n, k)) == n
    decreases k
  {
    if k > 0 {
      NumberRoundTrip(n / 256, k - 1);
      assert ToBytes(n, k)[1..] == ToBytes(n / 256, k - 1);
    }
  }

  lemma FirstByte(b: Byte, n: nat)
    ensures (b + 256 * n) % 256 == b && (b + 256 * n) / 256 == n
  {
  }

  lemma {:induction false} BytesRoundTrip(bs: Bytes)
    ensures FromBytes(bs) < Range(|bs|) && ToBytes(FromBytes(bs), |bs|) == bs
    decreases |bs|
  {
    if bs != [] {
      BytesRoundTrip(bs[1..]);
      FirstByte(bs[0], FromBytes(bs[1..]));
      assert bs == [bs[0]] + bs[1..];
    }
  }

  // --- One request -------------------------------------------------------------------------------------------

  const FRAME_SIZE: nat := 38

  // A numbered request with its fields as they go over the wire.
  datatype Frame = Frame(seqNum: nat, kind: Byte, client: nat, ticker: nat, orderId: nat, side: Byte, price: int,
      qty: nat)

  const PRICE_HALF: int := 0x8000_0000_0000_0000

  /** Every field fits its width. */
  predicate Fits(f: Frame) {
    && f.seqNum < Range(8) && f.client < Range(4) && f.ticker < Range(4) && f.orderId < Range(8)
    && -PRICE_HALF <= f.price < PRICE_HALF && f.qty < Range(4)
  }

  /** A signed price as the unsigned number with the same 64 bits. */
  function Unsigned(price: int): nat
    requires -PRICE_HALF <= price < PRICE_HALF
  {
    if price < 0 then price + 2 * PRICE_HALF else price
  }

  function Signed(n: nat): int {
    if n < PRICE_HALF then n else n - 2 * PRICE_HALF
  }

  function Encode(f: Frame): (bs: Bytes)
    requires Fits(f)
    ensures |bs| == FRAME_SIZE
  {
    ToBytes(f.seqNum, 8) + [f.kind] + ToBytes(f.client, 4) + ToBytes(f.ticker, 4) + ToBytes(f.orderId, 8) + [f.side]
    + ToBytes(Unsigned(f.price), 8) + ToBytes(f.qty, 4)
  }

  function Decode(bs: Bytes): Frame
    requires |bs| == FRAME_SIZE
  {
    Frame(FromBytes(bs[0..8]), bs[8], FromBytes(bs[9..13]), FromBytes(bs[13..17]), FromBytes(bs[17..25]), bs[25],
          Signed(FromBytes(bs[26..34])), FromBytes(bs[34..38]))
  }

  /** The i-th byte of a number, counted from the least significant one. */
  function ByteAt(n: nat, i: nat): nat {
    if i == 0 then n % 256 else ByteAt(n / 256, i - 1)
  }

  lemma {:induction false} ToBytesAt(n: nat, k: nat, i: nat)
    requires i < k
    ensures ToBytes(n, k)[i] == ByteAt(n, i)
    decreases k
  {
    if i > 0 { ToBytesAt(n / 256, k - 1, i - 1); }
  }

  /** Where each field lies in a packed frame, least significant byte first. */
  lemma WireLayout(f: Frame, i: nat)
    requires Fits(f) && i < 8
    ensures var bs := Encode(f);
      && bs[i] == ByteAt(f.seqNum, i) && bs[8] == f.kind && bs[17 + i] == ByteAt(f.orderId, i) && bs[25] == f.side
      && bs[26 + i] == ByteAt(if f.price < 0 then f.price + 0x1_0000_0000_0000_0000 else f.price, i)
      && (i < 4 ==>
            bs[9 + i] == ByteAt(f.client, i) && bs[13 + i] == ByteAt(f.ticker, i) && bs[34 + i] == ByteAt(f.qty, i))
  {
    hide ToBytes;
    hide ByteAt;
    ToBytesAt(f.seqNum, 8, i);
    ToBytesAt(f.orderId, 8, i);
    ToBytesAt(Unsigned(f.price), 8, i);
    if i < 4 {
      ToBytesAt(f.client, 4, i);
      ToBytesAt(f.ticker, 4, i);
      ToBytesAt(f.qty, 4, i);
    }
  }

  lemma RangeEight()
    ensures Range(8) == 2 * PRICE_HALF
  {
  }

  lemma DecodeEncode(f: Frame)
    requires Fits(f)
    ensures Decode(Encode(f)) == f
  {
    RangeEight();
    var bs := Encode(f);
    assert bs[0..8] == ToBytes(f.seqNum, 8);
    assert bs[9..13] == ToBytes(f.client, 4);
    assert bs[13..17] == ToBytes(f.ticker, 4);
    assert bs[17..25] == ToBytes(f.orderId, 8);
    assert bs[26..34] == ToBytes(Unsigned(f.price), 8);
    assert bs[34..38] == ToBytes(f.qty, 4);
    NumberRoundTrip(f.seqNum, 8);
    NumberRoundTrip(f.client, 4);
    NumberRoundTrip(f.ticker, 4);
    NumberRoundTrip(f.orderId, 8);
    NumberRoundTrip(Unsigned(f.price), 8);
    NumberRoundTrip(f.qty, 4);
  }

  lemma EncodeDecode(bs: Bytes)
    requires |bs| == FRAME_SIZE
    ensures Fits(Decode(bs)) && Encode(Decode(bs)) == bs
  {
    hide ToBytes;
    hide FromBytes;
    hide Range;
    RangeEight();
    BytesRoundTrip(bs[0..8]);
    BytesRoundTrip(bs[9..13]);
    BytesRoundTrip(bs[13..17]);
    BytesRoundTrip(bs[17..25]);
    BytesRoundTrip(bs[26..34]);
    BytesRoundTrip(bs[34..38]);
    assert Unsigned(Decode(bs).price) == FromBytes(bs[26..34]);
    assert bs == bs[0..8] + [bs[8]] + bs[9..13] + bs[13..17] + bs[17..25] + [bs[25]] + bs[26..34] + bs[34..38];
  }

  // --- The sender --------------------------------------------------------------------------------------------

  function KindByte(kind: RequestType): Byte {
    match kind
    case New => 1
    case CancelOrder => 2
  }

  function SideByte(side: Side): Byte {
    match side
    case Buy => 1
    case Sell => 255
    case NoSide => 0
  }

  function FrameOf(seqNum: nat, r: ClientRequest): Frame {
    Frame(seqNum, KindByte(r.kind), r.client, r.ticker, r.orderId, SideByte(r.side), r.price, r.qty)
  }

  /** The request a frame carries. */
  function RequestOf(f: Frame): Option<ClientRequest> {
    if f.kind !in {1, 2} || f.side !in {0, 1, 255} then None
    else
      Some(ClientRequest(if f.kind == 1 then New else CancelOrder, f.client, f.ticker, f.orderId,
                         if f.side == 1 then Buy else if f.side == 255 then Sell else NoSide, f.price, f.qty))
  }

  lemma RequestRoundTrip(seqNum: nat, r: ClientRequest)
    ensures RequestOf(FrameOf(seqNum, r)) == Some(r)
    ensures FrameOf(seqNum, r).kind == (if r.kind == New then 1 else 2)
    ensures FrameOf(seqNum, r).side as int == SideValue(r.side) % 256
  {
  }

  /** These requests, numbered from first on. */
  function FramesOf(rs: seq<ClientRequest>, first: nat): (fs: seq<Frame>) {
    seq(|rs|, i requires 0 <= i < |rs| => FrameOf(first + i, rs[i]))
  }

  predicate AllFit(fs: seq<Frame>) {
    forall i :: 0 <= i < |fs| ==> Fits(fs[i])
  }

  function Stream(fs: seq<Frame>): (bs: Bytes)
    requires AllFit(fs)
    ensures |bs| == FRAME_SIZE * |fs|
  {
    if fs == [] then [] else Stream(fs[..|fs| - 1]) + Encode(fs[|fs| - 1])
  }

  class OrderGateway {
    var nextOutgoingSeqNum: nat
    // Everything handed to the socket so far.
    var sent: Bytes

    constructor ()
      ensures nextOutgoingSeqNum == 1 && sent == []
    {
      nextOutgoingSeqNum, sent := 1, [];
    }

    /** Send every queued request under the next number. */
    method Send(requests: seq<ClientRequest>, ghost before: seq<ClientRequest>)
      requires AllFit(FramesOf(before + requests, 1))
      requires nextOutgoingSeqNum == |before| + 1 && AllFit(FramesOf(before, 1)) && sent == Stream(FramesOf(before, 1))
      modifies this
      ensures nextOutgoingSeqNum == |before + requests| + 1 && sent == Stream(FramesOf(before + requests, 1))
    {
      hide Encode;
      hide Fits;
      ghost var all := FramesOf(before + requests, 1);
      assert all[..|before|] == FramesOf(before, 1);
      for i := 0 to |requests|
        invariant nextOutgoingSeqNum == |before| + i + 1
        invariant AllFit(all[..|before| + i]) && sent == Stream(all[..|before| + i])
      {
        ghost var n := |before| + i;
        assert all[..n + 1][..n] == all[..n] && all[n] == FrameOf(nextOutgoingSeqNum, requests[i]);
        sent := sent + Encode(FrameOf(nextOutgoingSeqNum, requests[i]));
        nextOutgoingSeqNum := nextOutgoingSeqNum + 1;
      }
      assert all[..|before| + |requests|] == all;
    }
  }

  // --- The receiver ------------------------------------------------------------------------------------------

  class TCPSocket {
    // What has been read and not yet taken apart.
    var inbound: Bytes

    constructor ()
      ensures inbound == []
    {
      inbound := [];
    }
  }

  // Which connection each client speaks on, which number is expected from it next, and what was let through.
  datatype Gate = Gate(sockets: seq<TCPSocket?>, expected: seq<nat>, forwarded: seq<Frame>)

  predicate GateOk(g: Gate) {
    |g.sockets| == |g.expected| == ME_MAX_NUM_CLIENTS
  }

  /** The first message of a client ties it to its connection; a message on another one or out of turn is dropped. */
  function Admit(g: Gate, s: TCPSocket, f: Frame): (h: Gate)
    requires GateOk(g) && f.client < ME_MAX_NUM_CLIENTS
    ensures GateOk(h)
  {
    var h := if g.sockets[f.client] == null then g.(sockets := g.sockets[f.client := s]) else g;
    if h.sockets[f.client] != s || f.seqNum != h.expected[f.client] then h
    else h.(expected := h.expected[f.client := f.seqNum + 1], forwarded := h.forwarded + [f])
  }

  /** Every whole frame names a client the server has room for. */
  predicate Named(bs: Bytes)
    decreases |bs|
  {
    |bs| < FRAME_SIZE || (Decode(bs[..FRAME_SIZE]).client < ME_MAX_NUM_CLIENTS && Named(bs[FRAME_SIZE..]))
  }

  function AdmitAll(g: Gate, s: TCPSocket, bs: Bytes): (h: Gate)
    requires GateOk(g) && Named(bs)
    ensures GateOk(h)
    decreases |bs|
  {
    if |bs| < FRAME_SIZE then g else AdmitAll(Admit(g, s, Decode(bs[..FRAME_SIZE])), s, bs[FRAME_SIZE..])
  }

  /** What is left after the whole frames. */
  function Rest(bs: Bytes): (r: Bytes)
    ensures |r| < FRAME_SIZE
    decreases |bs|
  {
    if |bs| < FRAME_SIZE then bs else Rest(bs[FRAME_SIZE..])
  }

  class OrderServer {
    const cidTcpSocket: array<TCPSocket?>
    const cidNextExpSeqNum: array<nat>
    // What goes to the sequencer.
    var forwarded: seq<Frame>

    ghost predicate Valid() {
      cidTcpSocket.Length == cidNextExpSeqNum.Length == ME_MAX_NUM_CLIENTS
    }

    ghost function State(): (g: Gate)
      requires Valid()
      reads this, cidTcpSocket, cidNextExpSeqNum
      ensures GateOk(g)
    {
      Gate(cidTcpSocket[..], cidNextExpSeqNum[..], forwarded)
    }

    constructor ()
      ensures Valid() && fresh(cidTcpSocket) && fresh(cidNextExpSeqNum)
      ensures forwarded == [] && forall c :: 0 <= c < ME_MAX_NUM_CLIENTS ==>
        cidTcpSocket[c] == null && cidNextExpSeqNum[c] == 1
    {
      cidTcpSocket := new TCPSocket?[ME_MAX_NUM_CLIENTS](_ => null);
      cidNextExpSeqNum := new nat[ME_MAX_NUM_CLIENTS](_ => 1);
      forwarded := [];
    }

    /** One frame: check the connection and the number, and let it through or drop it. */
    method Take(socket: TCPSocket, request: Frame)
      requires Valid() && request.client < ME_MAX_NUM_CLIENTS
      modifies this, cidTcpSocket, cidNextExpSeqNum
      ensures State() == Admit(old(State()), socket, request)
    {
      if cidTcpSocket[request.client] == null {
        cidTcpSocket[request.client] := socket;
      }
      if cidTcpSocket[request.client] != socket {
        return;
      }
      if request.seqNum != cidNextExpSeqNum[request.client] {
        return;
      }
      cidNextExpSeqNum[request.client] := cidNextExpSeqNum[request.client] + 1;
      forwarded := forwarded + [request];
    }

    /** Take every whole frame off the front of the buffer and keep the rest. */
    method RecvCallback(socket: TCPSocket)
      requires Valid() && Named(socket.inbound)
      modifies this, cidTcpSocket, cidNextExpSeqNum, socket
      ensures State() == AdmitAll(old(State()), socket, old(socket.inbound))
      ensures socket.inbound == Rest(old(socket.inbound))
    {
      if |socket.inbound| >= FRAME_SIZE {
        var bs, i := socket.inbound, 0;
        while i + FRAME_SIZE <= |bs|
          invariant 0 <= i <= |bs| && Named(bs[i..]) && socket.inbound == bs
          invariant AdmitAll(State(), socket, bs[i..]) == AdmitAll(old(State()), socket, bs)
          invariant Rest(bs[i..]) == Rest(bs)
        {
          assert bs[i..][..FRAME_SIZE] == bs[i..i + FRAME_SIZE] && bs[i..][FRAME_SIZE..] == bs[i + FRAME_SIZE..];
          Take(socket, Decode(bs[i..i + FRAME_SIZE]));
          i := i + FRAME_SIZE;
        }
        socket.inbound := bs[i..];
      }
    }
  }

  // --- However the stream is cut -----------------------------------------------------------------------------

  // A connection: the gate behind it and the bytes waiting in its buffer.
  datatype Link = Link(gate: Gate, buffer: Bytes)

  function Read(l: Link, s: TCPSocket, chunk: Bytes): Link
    requires GateOk(l.gate) && Named(l.buffer + chunk)
  {
    Link(AdmitAll(l.gate, s, l.buffer + chunk), Rest(l.buffer + chunk))
  }

  function Flat(chunks: seq<Bytes>): Bytes {
    if chunks == [] then [] else Flat(chunks[..|chunks| - 1]) + chunks[|chunks| - 1]
  }

  /** Taking apart a longer stream is taking apart the first bytes, and then what they left together with the others. */
  lemma {:induction false} InTwo(g: Gate, s: TCPSocket, a: Bytes, b: Bytes)
    requires GateOk(g) && Named(a + b)
    ensures Named(a) && Named(Rest(a) + b)
    ensures AdmitAll(g, s, a + b) == AdmitAll(AdmitAll(g, s, a), s, Rest(a) + b) && Rest(a + b) == Rest(Rest(a) + b)
    decreases |a|
  {
    if |a| >= FRAME_SIZE {
      var ab := a + b;
      assert ab[..FRAME_SIZE] == a[..FRAME_SIZE] && ab[FRAME_SIZE..] == a[FRAME_SIZE..] + b;
      InTwo(Admit(g, s, Decode(a[..FRAME_SIZE])), s, a[FRAME_SIZE..], b);
    }
  }

  /** The connection after these reads, starting with an empty buffer: where the stream is cut makes no difference. */
  function ReadAll(g: Gate, s: TCPSocket, chunks: seq<Bytes>): (l: Link)
    requires GateOk(g) && Named(Flat(chunks))
    ensures l == Link(AdmitAll(g, s, Flat(chunks)), Rest(Flat(chunks)))
    decreases |chunks|
  {
    if chunks == [] then Link(g, [])
    else
      var most, last := chunks[..|chunks| - 1], chunks[|chunks| - 1];
      InTwo(g, s, Flat(most), last);
      Read(ReadAll(g, s, most), s, last)
  }

  /** The gate after it let these frames of one client through. */
  function Through(g: Gate, s: TCPSocket, client: ClientId, fs: seq<Frame>): Gate
    requires GateOk(g) && client < ME_MAX_NUM_CLIENTS
  {
    if fs == [] then g
    else Gate(g.sockets[client := s], g.expected[client := g.expected[client] + |fs|], g.forwarded + fs)
  }

  /** Frames of one client, numbered on from what the server expects. */
  predicate InTurn(g: Gate, s: TCPSocket, client: ClientId, fs: seq<Frame>)
    requires GateOk(g)
  {
    && client < ME_MAX_NUM_CLIENTS && (g.sockets[client] == null || g.sockets[client] == s)
    && forall i :: 0 <= i < |fs| ==> fs[i].client == client && fs[i].seqNum == g.expected[client] + i
  }

  lemma {:induction false} PrefixAdmitted(g: Gate, s: TCPSocket, client: ClientId, fs: seq<Frame>, bs: Bytes)
    requires GateOk(g) && AllFit(fs) && InTurn(g, s, client, fs) && bs <= Stream(fs)
    ensures Named(bs) && AdmitAll(g, s, bs) == Through(g, s, client, fs[..|bs| / FRAME_SIZE])
    ensures Rest(bs) == bs[|bs| / FRAME_SIZE * FRAME_SIZE..]
    decreases |bs|
  {
    hide Encode;
    hide Decode;
    hide Fits;
    hide Stream;
    hide Admit;
    if |bs| >= FRAME_SIZE {
      var f, more := fs[0], fs[1..];
      StreamFirst(fs);
      var rest := bs[FRAME_SIZE..];
      assert bs[..FRAME_SIZE] == Encode(f);
      DecodeEncode(f);
      AdmitsFirst(g, s, client, fs);
      assert fs[..1] == [f];
      var h := Admit(g, s, f);
      assert rest <= Stream(more);
      PrefixAdmitted(h, s, client, more, rest);
      var n := OneFrameMore(|rest|);
      assert fs[..n + 1] == [f] + more[..n];
      ThroughFirst(g, s, client, f, more[..n]);
      assert rest[n * FRAME_SIZE..] == bs[(n + 1) * FRAME_SIZE..];
    } else {
      NoFrame(|bs|);
      assert fs[..0] == [];
    }
  }

  lemma OneFrameMore(n: nat) returns (k: nat)
    ensures k == n / FRAME_SIZE && (n + FRAME_SIZE) / FRAME_SIZE == k + 1
    ensures (k + 1) * FRAME_SIZE == k * FRAME_SIZE + FRAME_SIZE <= n + FRAME_SIZE
  {
    k := n / FRAME_SIZE;
  }

  lemma WholeFrames(n: nat, k: nat)
    requires n <= FRAME_SIZE * k
    ensures n / FRAME_SIZE <= k && (n == FRAME_SIZE * k ==> n / FRAME_SIZE == k)
    ensures n / FRAME_SIZE * FRAME_SIZE <= n && (n == FRAME_SIZE * k ==> n / FRAME_SIZE * FRAME_SIZE == n)
  {
  }

  lemma NoFrame(n: nat)
    requires n < FRAME_SIZE
    ensures n / FRAME_SIZE == 0
  {
  }

  lemma AdmitsFirst(g: Gate, s: TCPSocket, client: ClientId, fs: seq<Frame>)
    requires GateOk(g) && InTurn(g, s, client, fs) && fs != []
    ensures Admit(g, s, fs[0]) == Through(g, s, client, fs[..1]) && InTurn(Admit(g, s, fs[0]), s, client, fs[1..])
  {
  }

  lemma ThroughFirst(g: Gate, s: TCPSocket, client: ClientId, f: Frame, fs: seq<Frame>)
    requires GateOk(g) && client < ME_MAX_NUM_CLIENTS
    ensures GateOk(Through(g, s, client, [f]))
      && Through(Through(g, s, client, [f]), s, client, fs) == Through(g, s, client, [f] + fs)
  {
  }

  lemma {:induction false} StreamFirst(fs: seq<Frame>)
    requires fs != [] && AllFit(fs)
    ensures AllFit(fs[1..]) && Stream(fs) == Encode(fs[0]) + Stream(fs[1..])
    decreases |fs|
  {
    if |fs| > 1 {
      var most := fs[..|fs| - 1];
      StreamFirst(most);
      assert most[1..] == fs[1..][..|fs| - 2] && fs[1..][|fs| - 2] == fs[|fs| - 1];
    } else {
      assert fs[..0] == [] && fs[1..] == [];
    }
  }

  /**
   From the gateway to the sequencer: however the connection cuts the gateway's stream into reads, the server has let
   through, in order and none dropped, exactly the requests whose bytes have arrived.
   */
  lemma RequestsArrive(g: Gate, s: TCPSocket, client: ClientId, rs: seq<ClientRequest>, chunks: seq<Bytes>)
    requires GateOk(g) && client < ME_MAX_NUM_CLIENTS && g.sockets[client] == null && g.expected[client] == 1
    requires forall i :: 0 <= i < |rs| ==> rs[i].client == client
    requires AllFit(FramesOf(rs, 1)) && Flat(chunks) <= Stream(FramesOf(rs, 1))
    ensures Named(Flat(chunks))
    ensures var n, l := |Flat(chunks)| / FRAME_SIZE, ReadAll(g, s, chunks);
      && n <= |rs| && l.gate.forwarded == g.forwarded + FramesOf(rs[..n], 1)
      && (Flat(chunks) == Stream(FramesOf(rs, 1)) ==> n == |rs| && l.buffer == [])
  {
    hide Encode;
    hide Decode;
    hide Fits;
    hide Stream;
    hide Named;
    hide AdmitAll;
    hide Rest;
    hide ReadAll;
    hide Flat;
    var bs := Flat(chunks);
    var fs, n := FramesOf(rs, 1), |bs| / FRAME_SIZE;
    PrefixAdmitted(g, s, client, fs, bs);
    WholeFrames(|bs|, |rs|);
    assert fs[..n] == FramesOf(rs[..n], 1);
  }

  // --- Any number of connections -------------------------------------------------------------------------------

  // A whole frame, and the connection it came over.
  datatype Offer = Offer(socket: TCPSocket, frame: Frame)

  // What one read finds in the buffer of a connection.
  datatype Arrival = Arrival(socket: TCPSocket, bytes: Bytes)

  function FramesIn(bs: Bytes): (fs: seq<Frame>)
    decreases |bs|
  {
    if |bs| < FRAME_SIZE then [] else [Decode(bs[..FRAME_SIZE])] + FramesIn(bs[FRAME_SIZE..])
  }

  function OffersOf(a: Arrival): (os: seq<Offer>) {
    var fs := FramesIn(a.bytes);
    seq(|fs|, i requires 0 <= i < |fs| => Offer(a.socket, fs[i]))
  }

  /** Everything that arrives, frame by frame. */
  function AllOffers(arrivals: seq<Arrival>): seq<Offer> {
    if arrivals == [] then [] else OffersOf(arrivals[0]) + AllOffers(arrivals[1..])
  }

  predicate AllNamed(arrivals: seq<Arrival>) {
    forall a :: a in arrivals ==> Named(a.bytes)
  }

  /** The gate after these reads, in turn. */
  function AfterArrivals(g: Gate, arrivals: seq<Arrival>): (h: Gate)
    requires GateOk(g) && AllNamed(arrivals)
    ensures GateOk(h)
    decreases |arrivals|
  {
    if arrivals == [] then g
    else
      assert arrivals[0] in arrivals;
      AfterArrivals(AdmitAll(g, arrivals[0].socket, arrivals[0].bytes), arrivals[1..])
  }

  /** The connection that first names this client. */
  function Speaker(os: seq<Offer>, client: ClientId): TCPSocket? {
    if os == [] then null else if os[0].frame.client == client then os[0].socket else Speaker(os[1..], client)
  }

  /** The frames of a client over one connection whose turn it is, numbered from n on; all others are passed over. */
  function Passing(os: seq<Offer>, client: ClientId, s: TCPSocket?, n: nat): seq<Frame> {
    if os == [] then []
    else
      var f := os[0].frame;
      if f.client == client && os[0].socket == s && f.seqNum == n then [f] + Passing(os[1..], client, s, n + 1)
      else Passing(os[1..], client, s, n)
  }

  function Of(fs: seq<Frame>, client: ClientId): seq<Frame> {
    if fs == [] then [] else (if fs[0].client == client then [fs[0]] else []) + Of(fs[1..], client)
  }

  lemma {:induction false} OfAppend(a: seq<Frame>, b: seq<Frame>, client: ClientId)
    ensures Of(a + b, client) == Of(a, client) + Of(b, client)
  {
    if a == [] {
      assert a + b == b;
    } else {
      var first := if a[0].client == client then [a[0]] else [];
      assert (a + b)[1..] == a[1..] + b;
      OfAppend(a[1..], b, client);
      assert first + (Of(a[1..], client) + Of(b, client)) == (first + Of(a[1..], client)) + Of(b, client);
    }
  }

  /** What the gate is to be for a client after these frames. */
  ghost predicate GateAfter(g: Gate, os: seq<Offer>, h: Gate, client: ClientId)
    requires GateOk(g) && GateOk(h) && client < ME_MAX_NUM_CLIENTS
  {
    var s := if g.sockets[client] != null then g.sockets[client] else Speaker(os, client);
    var passed := Passing(os, client, s, g.expected[client]);
    && h.sockets[client] == s && h.expected[client] == g.expected[client] + |passed|
    && Of(h.forwarded, client) == Of(g.forwarded, client) + passed
  }

  /**
   A frame over another connection than its client's, or under another number than the one expected, is dropped; any
   other is let through and moves its client's number on.  The other clients notice nothing.
   */
  lemma DroppedOrLetThrough(g: Gate, s: TCPSocket, f: Frame)
    requires GateOk(g) && f.client < ME_MAX_NUM_CLIENTS
    ensures var h, mine := Admit(g, s, f), g.sockets[f.client];
      && h.sockets == g.sockets[f.client := if mine == null then s else mine]
      && (if (mine == null || mine == s) && f.seqNum == g.expected[f.client] then
            h.expected == g.expected[f.client := f.seqNum + 1] && h.forwarded == g.forwarded + [f]
          else h.expected == g.expected && h.forwarded == g.forwarded)
  {
  }

  lemma OneOffer(g: Gate, o: Offer, os: seq<Offer>, h: Gate, client: ClientId)
    requires GateOk(g) && GateOk(h) && client < ME_MAX_NUM_CLIENTS && o.frame.client < ME_MAX_NUM_CLIENTS
    requires GateAfter(Admit(g, o.socket, o.frame), os, h, client)
    ensures GateAfter(g, [o] + os, h, client)
  {
    hide Admit;
    var f, all := o.frame, [o] + os;
    assert all[0] == o && all[1..] == os;
    DroppedOrLetThrough(g, o.socket, f);
    OfAppend(g.forwarded, [f], client);
    assert [f][1..] == [];
  }

  lemma NoOffer(g: Gate, client: ClientId)
    requires GateOk(g) && client < ME_MAX_NUM_CLIENTS
    ensures GateAfter(g, [], g, client)
  {
  }

  lemma {:induction false} OneArrival(g: Gate, a: Arrival, os: seq<Offer>, h: Gate, client: ClientId)
    requires GateOk(g) && GateOk(h) && client < ME_MAX_NUM_CLIENTS && Named(a.bytes)
    requires GateAfter(AdmitAll(g, a.socket, a.bytes), os, h, client)
    ensures GateAfter(g, OffersOf(a) + os, h, client)
    decreases |a.bytes|
  {
    hide GateAfter;
    hide Decode;
    hide Admit;
    var bs := a.bytes;
    if |bs| < FRAME_SIZE {
      assert OffersOf(a) + os == os;
    } else {
      var o, rest := Offer(a.socket, Decode(bs[..FRAME_SIZE])), Arrival(a.socket, bs[FRAME_SIZE..]);
      OneArrival(Admit(g, a.socket, o.frame), rest, os, h, client);
      OneOffer(g, o, OffersOf(rest) + os, h, client);
      assert OffersOf(a) + os == [o] + (OffersOf(rest) + os);
    }
  }

  /**
   However reads of any number of connections interleave: a client is tied to the connection that first named it, and
   what is let through for it is exactly its frames over that connection whose turn it was.
   */
  lemma {:induction false} GateKept(g: Gate, arrivals: seq<Arrival>, client: ClientId)
    requires GateOk(g) && AllNamed(arrivals) && client < ME_MAX_NUM_CLIENTS
    ensures GateAfter(g, AllOffers(arrivals), AfterArrivals(g, arrivals), client)
    decreases |arrivals|
  {
    hide GateAfter;
    hide AdmitAll;
    hide OffersOf;
    if arrivals == [] {
      NoOffer(g, client);
    } else {
      var a := arrivals[0];
      assert a in arrivals;
      var h := AdmitAll(g, a.socket, a.bytes);
      GateKept(h, arrivals[1..], client);
      OneArrival(g, a, AllOffers(arrivals[1..]), AfterArrivals(g, arrivals), client);
    }
  }

  lemma {:induction false} PassingInTurn(os: seq<Offer>, client: ClientId, s: TCPSocket, n: nat, i: nat)
    requires i < |Passing(os, client, s, n)|
    ensures var f := Passing(os, client, s, n)[i];
      f.client == client && f.seqNum == n + i && Offer(s, f) in os
    decreases |os|
  {
    var f := os[0].frame;
    if f.client == client && os[0].socket == s && f.seqNum == n {
      if i > 0 { PassingInTurn(os[1..], client, s, n + 1, i - 1); }
    } else {
      PassingInTurn(os[1..], client, s, n, i);
    }
  }

  lemma {:induction false} NobodyPasses(os: seq<Offer>, client: ClientId, n: nat)
    ensures Passing(os, client, null, n) == []
  {
    if os != [] { NobodyPasses(os[1..], client, n); }
  }

  /**
   From the start, whatever arrives over whichever connections: what is let through for a client carries the numbers 1,
   2, 3 and so on, without gap or repeat, up to the one before the number expected, and all of it came over the one
   connection that first named the client.
   */
  lemma OneSpeakerInTurn(g: Gate, arrivals: seq<Arrival>, client: ClientId)
    requires GateOk(g) && AllNamed(arrivals) && client < ME_MAX_NUM_CLIENTS
    requires g.sockets[client] == null && g.expected[client] == 1 && g.forwarded == []
    ensures var h, s := AfterArrivals(g, arrivals), Speaker(AllOffers(arrivals), client);
      var fs := Of(h.forwarded, client);
      && h.sockets[client] == s && h.expected[client] == |fs| + 1
      && forall i :: 0 <= i < |fs| ==>
           fs[i].client == client && fs[i].seqNum == i + 1 && s != null && Offer(s, fs[i]) in AllOffers(arrivals)
  {
    hide AllOffers;
    hide AfterArrivals;
    hide Passing;
    GateKept(g, arrivals, client);
    var os := AllOffers(arrivals);
    var s := Speaker(os, client);
    var fs := Passing(os, client, s, 1);
    assert Of([], client) + fs == fs;
    if s == null {
      NobodyPasses(os, client, 1);
    } else {
      forall i: nat | i < |fs| ensures fs[i].client == client && fs[i].seqNum == i + 1 && Offer(s, fs[i]) in os {
        PassingInTurn(os, client, s, 1, i);
      }
    }
  }
}
