/** Packets as bytes: the ACNET header, the byte swap of the historical protocol, and how a datagram
    is made of packets and taken apart again (server.h, network.cpp, main.cpp). */
module Wire {
  import opened Sequences
  import opened Acnet

  type byte = x: nat | x < 256

  predicate Even(n: nat) { Padded(n) == n }

  lemma EvenIs(n: nat)
    ensures Even(n) <==> n % 2 == 0
  {
    PaddedIs(n);
  }

  lemma {:induction false} EvenSum(a: nat, b: nat)
    requires Even(a) && Even(b)
    ensures Even(a + b)
  {
    if a >= 2 { EvenSum(a - 2, b); }
  }

  lemma {:induction false} PaddedIsEven(n: nat)
    ensures Even(Padded(n))
  {
    if n >= 2 { PaddedIsEven(n - 2); }
  }

  // ---- The header ----

  /** The values that fit the fields of an AcnetHeader. */
  predicate HeaderOk(h: Header) {
    && h.flags < 0x1_0000 && -0x8000 <= h.status < 0x8000 && h.server < 0x1_0000 && h.client < 0x1_0000
    && h.task < 0x1_0000_0000 && h.taskId < 0x1_0000 && h.msgId < 0x1_0000 && h.msgLen < 0x1_0000
  }

  function Lo(v: nat): byte { v % 256 }
  function Hi(v: nat): byte { v / 256 % 256 }
  function ShortOf(a: byte, b: byte): nat { a + 256 * b }

  lemma ShortRoundTrip(v: nat)
    requires v < 0x1_0000
    ensures ShortOf(Lo(v), Hi(v)) == v
  {}

  lemma ShortBytesRoundTrip(a: byte, b: byte)
    ensures Lo(ShortOf(a, b)) == a && Hi(ShortOf(a, b)) == b
  {}

  /** The bytes of a header: numbers are little-endian, a node is its trunk and then its number. */
  function Encode(h: Header): (bs: seq<byte>)
    requires HeaderOk(h)
    ensures |bs| == HEADER_SIZE
  {
    var s, low, high := h.status % 0x1_0000, h.task % 0x1_0000, h.task / 0x1_0000;
    [Lo(h.flags), Hi(h.flags), Lo(s), Hi(s), Hi(h.server), Lo(h.server), Hi(h.client), Lo(h.client),
     Lo(low), Hi(low), Lo(high), Hi(high), Lo(h.taskId), Hi(h.taskId), Lo(h.msgId), Hi(h.msgId),
     Lo(h.msgLen), Hi(h.msgLen)]
  }

  function Decode(bs: seq<byte>): (h: Header)
    requires |bs| == HEADER_SIZE
    ensures HeaderOk(h)
  {
    Header(ShortOf(bs[0], bs[1]), AsStatus(ShortOf(bs[2], bs[3])), ShortOf(bs[5], bs[4]), ShortOf(bs[7], bs[6]),
           ShortOf(bs[8], bs[9]) + 0x1_0000 * ShortOf(bs[10], bs[11]),
           ShortOf(bs[12], bs[13]), ShortOf(bs[14], bs[15]), ShortOf(bs[16], bs[17]))
  }

  lemma HeaderRoundTrip(h: Header)
    requires HeaderOk(h)
    ensures Decode(Encode(h)) == h
  {
    var s := h.status % 0x1_0000;
    assert AsStatus(s) == h.status;
    ShortRoundTrip(h.flags);
    ShortRoundTrip(s);
    ShortRoundTrip(h.server);
    ShortRoundTrip(h.client);
    ShortRoundTrip(h.task % 0x1_0000);
    ShortRoundTrip(h.task / 0x1_0000);
    ShortRoundTrip(h.taskId);
    ShortRoundTrip(h.msgId);
    ShortRoundTrip(h.msgLen);
  }

  /** Two bytes as a number, the low one first, and the high one first. */
  function LittleAt(bs: seq<byte>, k: nat): int
    requires k + 1 < |bs|
  {
    (bs[k] as int) + 256 * (bs[k + 1] as int)
  }

  function BigAt(bs: seq<byte>, k: nat): int
    requires k + 1 < |bs|
  {
    256 * (bs[k] as int) + (bs[k + 1] as int)
  }

  lemma WordAt(bs: seq<byte>, k: nat, v: nat)
    requires k + 1 < |bs| && v < 0x1_0000
    ensures bs[k] == Lo(v) && bs[k + 1] == Hi(v) ==> LittleAt(bs, k) == v
    ensures bs[k] == Hi(v) && bs[k + 1] == Lo(v) ==> BigAt(bs, k) == v
  {}

  /** Where the fields are. All are little-endian, but the nodes: a trunk comes before a node number. A
      negative status is sent as its two's complement. */
  lemma HeaderLayout(h: Header)
    requires HeaderOk(h)
    ensures var b := Encode(h);
            && LittleAt(b, 0) == h.flags && LittleAt(b, 2) == (if h.status < 0 then h.status + 65536 else h.status)
            && BigAt(b, 4) == h.server && BigAt(b, 6) == h.client
            && LittleAt(b, 8) + 65536 * LittleAt(b, 10) == h.task
            && LittleAt(b, 12) == h.taskId && LittleAt(b, 14) == h.msgId && LittleAt(b, 16) == h.msgLen
  {
    FirstFields(h);
    LastFields(h);
  }

  lemma FirstFields(h: Header)
    requires HeaderOk(h)
    ensures var b := Encode(h);
            && LittleAt(b, 0) == h.flags && LittleAt(b, 2) == (if h.status < 0 then h.status + 65536 else h.status)
            && BigAt(b, 4) == h.server && BigAt(b, 6) == h.client
  {
    var b := Encode(h);
    WordAt(b, 0, h.flags);
    WordAt(b, 2, h.status % 0x1_0000);
    WordAt(b, 4, h.server);
    WordAt(b, 6, h.client);
  }

  lemma LastFields(h: Header)
    requires HeaderOk(h)
    ensures var b := Encode(h);
            && LittleAt(b, 8) + 65536 * LittleAt(b, 10) == h.task
            && LittleAt(b, 12) == h.taskId && LittleAt(b, 14) == h.msgId && LittleAt(b, 16) == h.msgLen
  {
    var b := Encode(h);
    WordAt(b, 8, h.task % 0x1_0000);
    WordAt(b, 10, h.task / 0x1_0000);
    WordAt(b, 12, h.taskId);
    WordAt(b, 14, h.msgId);
    WordAt(b, 16, h.msgLen);
  }

  // ---- The byte swap ----

  /** swap() on a uint16_t */
  function Swap(v: nat): (w: nat)
    requires v < 0x1_0000
    ensures w < 0x1_0000
  {
    (v / 256 + v * 256) % 0x1_0000
  }

  /** The bytes of the words of bs, swapped; a last byte without a partner stays as it is. */
  function Swapped(bs: seq<byte>): (r: seq<byte>)
    ensures |r| == |bs|
  {
    if |bs| < 2 then bs else [bs[1], bs[0]] + Swapped(bs[2..])
  }

  lemma MultipleDropsOut(x: nat, q: nat)
    requires x < 0x1_0000
    ensures (x + 0x1_0000 * q) % 0x1_0000 == x
  {}

  /** swap() exchanges the two bytes a word has in memory. */
  lemma SwapExchangesBytes(a: byte, b: byte)
    ensures Lo(Swap(ShortOf(a, b))) == b && Hi(Swap(ShortOf(a, b))) == a
  {
    var v := ShortOf(a, b);
    assert v / 256 == b;
    assert v / 256 + v * 256 == ShortOf(b, a) + 0x1_0000 * b;
    MultipleDropsOut(ShortOf(b, a), b);
    ShortBytesRoundTrip(b, a);
  }

  lemma {:induction false} SwappedTwice(bs: seq<byte>)
    ensures Swapped(Swapped(bs)) == bs
  {
    if |bs| >= 2 {
      SwappedTwice(bs[2..]);
      assert Swapped(bs)[2..] == Swapped(bs[2..]);
    }
  }

  lemma TwoMore<T>(a: seq<T>, b: seq<T>)
    requires |a| >= 2
    ensures (a + b)[2..] == a[2..] + b && (a + b)[0] == a[0] && (a + b)[1] == a[1]
  {}

  lemma {:induction false} SwappedConcat(a: seq<byte>, b: seq<byte>)
    requires Even(|a|)
    ensures Swapped(a + b) == Swapped(a) + Swapped(b)
  {
    if a == [] {
      assert a + b == b;
    } else {
      SwappedConcat(a[2..], b);
      TwoMore(a, b);
      Associative([a[1], a[0]], Swapped(a[2..]), Swapped(b));
    }
  }

  /** One more word swapped. */
  lemma SwapStep(was: seq<byte>, now: seq<byte>, next: seq<byte>, k: nat)
    requires |now| == |was| == |next| && Even(k) && k + 2 <= |was|
    requires now[..k] == Swapped(was[..k]) && now[k..] == was[k..]
    requires next == now[k := now[k + 1]][k + 1 := now[k]]
    ensures next[..k + 2] == Swapped(was[..k + 2]) && next[k + 2..] == was[k + 2..]
  {
    var a, x, y := was[..k], was[k], was[k + 1];
    assert was[..k + 2] == a + [x, y];
    SwappedConcat(a, [x, y]);
    assert Swapped([x, y]) == [y, x] by { assert [x, y][2..] == []; }
    assert now[k] == now[k..][0] && now[k + 1] == now[k..][1];
    assert next[..k + 2] == now[..k] + [y, x];
    forall j | k + 2 <= j < |was| ensures next[j] == was[j] { assert now[k..][j - k] == was[k..][j - k]; }
  }

  lemma SwapEnd(was: seq<byte>, now: seq<byte>, k: nat)
    requires |now| == |was| && Even(k) && k <= |was| < k + 2
    requires now[..k] == Swapped(was[..k]) && now[k..] == was[k..]
    ensures now == Swapped(was)
  {
    SwappedConcat(was[..k], was[k..]);
    assert was == was[..k] + was[k..] && now == now[..k] + now[k..];
  }

  /** swap() on the word at byte k of the buffer. */
  method SwapWord(buffer: array<byte>, k: nat, total: nat)
    requires k + 2 <= total <= buffer.Length
    modifies buffer
    ensures buffer[..total] == old(buffer[..total])[k := old(buffer[..total])[k + 1]][k + 1 := old(buffer[..total])[k]]
    ensures buffer[total..] == old(buffer[total..])
  {
    SwapExchangesBytes(buffer[k], buffer[k + 1]);
    var v := Swap(ShortOf(buffer[k], buffer[k + 1]));
    buffer[k], buffer[k + 1] := Lo(v), Hi(v);
  }

  /** The swap loop of readNextPacket, over the words received. */
  method SwapWords(buffer: array<byte>, total: nat)
    requires total <= buffer.Length
    modifies buffer
    ensures buffer[..total] == Swapped(old(buffer[..total])) && buffer[total..] == old(buffer[total..])
  {
    ghost var was, rest := buffer[..total], buffer[total..];
    var ii := 0;
    while ii < total / 2
      invariant 0 <= ii <= total / 2 && Even(2 * ii)
      invariant buffer[..total][..2 * ii] == Swapped(was[..2 * ii]) && buffer[..total][2 * ii..] == was[2 * ii..]
      invariant buffer[total..] == rest
    {
      ghost var now := buffer[..total];
      SwapWord(buffer, 2 * ii, total);
      SwapStep(was, now, buffer[..total], 2 * ii);
      EvenSum(2 * ii, 2);
      ii := ii + 1;
    }
    SwapEnd(was, buffer[..total], 2 * ii);
  }

  // ---- Messages and datagrams ----

  /** What sendDataToNetwork is given: a header and a payload. */
  datatype Message = Message(h: Header, payload: seq<byte>)

  function Pad(bs: seq<byte>): (r: seq<byte>)
    ensures |r| == Padded(|bs|)
  {
    if Even(|bs|) then bs else bs + [0]
  }

  /** A message whose header is consistent and whose payload is not too long. */
  predicate Legal(m: Message) {
    HeaderOk(m.h) && m.h.msgLen == HEADER_SIZE + Padded(|m.payload|) && |m.payload| <= USER_PACKET_SIZE
  }

  /** A legal message fits an empty packet. */
  lemma LegalFits(m: Message)
    requires |m.payload| <= USER_PACKET_SIZE
    ensures HEADER_SIZE + Padded(|m.payload|) <= PACKET_SIZE
  {
    EvenIs(USER_PACKET_SIZE);
  }

  function Bytes(m: Message): (bs: seq<byte>)
    requires HeaderOk(m.h)
    ensures |bs| == HEADER_SIZE + Padded(|m.payload|)
  {
    Encode(m.h) + Pad(m.payload)
  }

  predicate AllLegal(ms: seq<Message>) {
    forall k {:trigger ms[k]} :: 0 <= k < |ms| ==> Legal(ms[k])
  }

  /** Messages one after the other. */
  function Joined(ms: seq<Message>): (bs: seq<byte>)
    requires AllLegal(ms)
  {
    if ms == [] then [] else Bytes(ms[0]) + Joined(ms[1..])
  }

  lemma BytesEven(m: Message)
    requires HeaderOk(m.h)
    ensures Even(|Bytes(m)|)
  {
    PaddedIsEven(|m.payload|);
    EvenIs(HEADER_SIZE);
    EvenSum(HEADER_SIZE, Padded(|m.payload|));
  }

  lemma {:induction false} JoinedEven(ms: seq<Message>)
    requires AllLegal(ms)
    ensures Even(|Joined(ms)|)
  {
    if ms != [] {
      BytesEven(ms[0]);
      JoinedEven(ms[1..]);
      EvenSum(|Bytes(ms[0])|, |Joined(ms[1..])|);
    }
  }

  lemma {:induction false} JoinedAppend(ms: seq<Message>, m: Message)
    requires AllLegal(ms) && Legal(m)
    ensures AllLegal(ms + [m]) && Joined(ms + [m]) == Joined(ms) + Bytes(m)
  {
    if ms == [] {
      assert ms + [m] == [m];
      assert Joined([m]) == Bytes(m) + Joined([m][1..]);
    } else {
      JoinedAppend(ms[1..], m);
      assert (ms + [m])[1..] == ms[1..] + [m];
      Associative(Bytes(ms[0]), Joined(ms[1..]), Bytes(m));
    }
  }

  /** isPacketSizeValid */
  predicate PacketSizeValid(offset: nat, size: nat, datagramSize: nat) {
    size >= HEADER_SIZE && offset + size <= datagramSize && size <= PACKET_SIZE
  }

  /** The msgLen field of a header. */
  function MsgLen(bs: seq<byte>): (n: nat)
    requires |bs| >= HEADER_SIZE
  {
    ShortOf(bs[16], bs[17])
  }

  /** The packets of a datagram, up to the first one that is not valid. */
  function Split(bs: seq<byte>): seq<seq<byte>> {
    if |bs| < HEADER_SIZE || !PacketSizeValid(0, MsgLen(bs), |bs|) then []
    else [bs[..MsgLen(bs)]] + (if Padded(MsgLen(bs)) <= |bs| then Split(bs[Padded(MsgLen(bs))..]) else [])
  }

  /** len - offset, as the size_t it is computed in. */
  function UnsignedMinus(len: nat, offset: nat): (r: nat) {
    (len - offset) % 0x1_0000_0000_0000_0000
  }

  /** Between even numbers, what fits fits when padded. */
  lemma PaddedFits(offset: nat, size: nat, len: nat, next: nat)
    requires offset % 2 == 0 && len % 2 == 0 && next == offset + ClearBit0(size + 1) && offset + size <= len
    ensures next == offset + Padded(size) && next <= len && next % 2 == 0
  {
    PaddedIs(size);
  }

  /** n & ~1 */
  function ClearBit0(n: nat): nat { n - n % 2 }

  lemma Slices<T>(xs: seq<T>, offset: nat, size: nat, pad: nat, next: nat)
    requires offset + size <= |xs| && next == offset + pad <= |xs|
    ensures xs[offset..][..size] == xs[offset..offset + size] && xs[offset..][pad..] == xs[next..]
  {}

  lemma SplitRest(rest: seq<byte>, size: nat)
    requires |rest| >= HEADER_SIZE && MsgLen(rest) == size && PacketSizeValid(0, size, |rest|) && Padded(size) <= |rest|
    ensures Split(rest) == [rest[..size]] + Split(rest[Padded(size)..])
  {}

  lemma MsgLenAt(bs: seq<byte>, offset: nat)
    requires offset + HEADER_SIZE <= |bs|
    ensures MsgLen(bs[offset..]) == ShortOf(bs[offset + 16], bs[offset + 17])
  {}

  lemma SplitStep(bs: seq<byte>, offset: nat, size: nat, next: nat)
    requires offset + HEADER_SIZE <= |bs| && MsgLen(bs[offset..]) == size
    requires PacketSizeValid(offset, size, |bs|) && next == offset + Padded(size) && next <= |bs|
    ensures Split(bs[offset..]) == [bs[offset..offset + size]] + Split(bs[next..])
  {
    SplitRest(bs[offset..], size);
    Slices(bs, offset, size, Padded(size), next);
  }

  lemma SplitStop(bs: seq<byte>, offset: nat, size: nat)
    requires offset + HEADER_SIZE <= |bs| && MsgLen(bs[offset..]) == size
    requires !PacketSizeValid(offset, size, |bs|)
    ensures Split(bs[offset..]) == []
  {}

  /** As long as the offset is in the datagram, the subtraction does not wrap. */
  lemma NoWrap(len: nat, offset: nat)
    requires offset <= len < 0x8000_0000_0000_0000
    ensures UnsignedMinus(len, offset) == len - offset
  {}

  /** One round of the loop of handleNetworkDatagram: the packet at an offset, and where the next is. */
  method ReadPacket(buf: array<byte>, len: nat, offset: nat) returns (packet: seq<byte>, next: nat, valid: bool)
    requires len <= buf.Length && len % 2 == 0 && offset % 2 == 0 && offset + HEADER_SIZE <= len
    ensures valid ==> offset < next <= len && next % 2 == 0
                      && Split(buf[..len][offset..]) == [packet] + Split(buf[..len][next..])
    ensures !valid ==> Split(buf[..len][offset..]) == []
  {
    ghost var bs := buf[..len];
    assert buf[offset + 16] == bs[offset + 16] && buf[offset + 17] == bs[offset + 17];
    var pktSize := ShortOf(buf[offset + 16], buf[offset + 17]);
    MsgLenAt(bs, offset);
    packet, next, valid := [], offset + ClearBit0(pktSize + 1), PacketSizeValid(offset, pktSize, len);
    if valid {
      packet := buf[offset..offset + pktSize];
      assert packet == bs[offset..offset + pktSize];
      PaddedFits(offset, pktSize, len, next);
      SplitStep(bs, offset, pktSize, next);
    } else {
      SplitStop(bs, offset, pktSize);
    }
  }

  /** handleNetworkDatagram: the packets it handles, in order. The subtraction in the loop never wraps,
      and every packet lies in the buffer. */
  method HandleDatagram(buf: array<byte>, len: nat) returns (handled: seq<seq<byte>>)
    requires len <= buf.Length && len < 0x8000_0000_0000_0000
    ensures handled == if len % 2 == 1 then [] else Split(buf[..len])
  {
    handled := [];
    if len % 2 == 1 { return; }
    var offset, more := 0, true;
    assert buf[..len][0..] == buf[..len];
    NoWrap(len, 0);
    while more && UnsignedMinus(len, offset) >= HEADER_SIZE
      invariant offset <= len && offset % 2 == 0 && UnsignedMinus(len, offset) == len - offset
      invariant handled + (if more then Split(buf[..len][offset..]) else []) == Split(buf[..len])
      decreases more, len - offset
    {
      var packet, next, valid := ReadPacket(buf, len, offset);
      if valid {
        NoWrap(len, next);
        Associative(handled, [packet], Split(buf[..len][next..]));
        handled, offset := handled + [packet], next;
      } else {
        more := false;
      }
    }
  }

  lemma LengthInHeader(m: Message, rest: seq<byte>)
    requires HeaderOk(m.h)
    ensures |Bytes(m) + rest| >= HEADER_SIZE && MsgLen(Bytes(m) + rest) == m.h.msgLen
  {
    var bs := Bytes(m) + rest;
    assert bs[16] == Encode(m.h)[16] && bs[17] == Encode(m.h)[17];
    ShortRoundTrip(m.h.msgLen);
  }

  lemma SplitFirst(m: Message, rest: seq<byte>)
    requires Legal(m)
    ensures Split(Bytes(m) + rest) == [Bytes(m)] + Split(rest)
  {
    LengthInHeader(m, rest);
    BytesEven(m);
    LegalFits(m);
    SplitHead(Bytes(m), rest, Bytes(m) + rest);
  }

  lemma SplitHead(a: seq<byte>, rest: seq<byte>, bs: seq<byte>)
    requires bs == a + rest && |bs| >= HEADER_SIZE && MsgLen(bs) == |a| && HEADER_SIZE <= |a| <= PACKET_SIZE
             && Even(|a|)
    ensures Split(bs) == [a] + Split(rest)
  {
    assert bs[..|a|] == a && bs[|a|..] == rest;
  }

  function AllBytes(ms: seq<Message>): seq<seq<byte>>
    requires AllLegal(ms)
  {
    if ms == [] then [] else [Bytes(ms[0])] + AllBytes(ms[1..])
  }

  /** Taking a datagram apart gives back the messages it was made of. */
  lemma {:induction false} SplitJoined(ms: seq<Message>)
    requires AllLegal(ms)
    ensures Split(Joined(ms)) == AllBytes(ms)
  {
    if ms != [] {
      SplitFirst(ms[0], Joined(ms[1..]));
      SplitJoined(ms[1..]);
    }
  }

  /** What arrives of a message: its header, and its payload but for the byte that makes an odd one even. */
  lemma MessageArrives(m: Message, hdr: seq<byte>, data: seq<byte>)
    requires Legal(m) && hdr + data == Bytes(m) && |hdr| == HEADER_SIZE
    ensures |hdr + data| == m.h.msgLen && Decode(hdr) == m.h
    ensures data == if |m.payload| % 2 == 1 then m.payload + [0] else m.payload
  {
    EvenIs(|m.payload|);
    HeaderRoundTrip(m.h);
    assert hdr == (hdr + data)[..HEADER_SIZE] && data == (hdr + data)[HEADER_SIZE..];
  }

  /** Whatever bytes arrive, the packets handled have a header, the length it says, and at most the
      largest length there is. */
  lemma {:induction false} SplitIsSound(bs: seq<byte>, k: nat)
    requires k < |Split(bs)|
    ensures var p := Split(bs)[k]; HEADER_SIZE <= |p| <= PACKET_SIZE && MsgLen(p) == |p|
  {
    if k > 0 { SplitIsSound(bs[Padded(MsgLen(bs))..], k - 1); }
  }
}
