/** The queue of outgoing datagrams (network.cpp, ipaddr.cpp): messages for the same node are put into
    the same datagram as long as it is queued and has room. */
module Network {
  import opened Sequences
  import opened Acnet
  import opened Wire

  /** What a DataOut holds: the node it is for, and the messages put in it. */
  datatype Datagram = Datagram(target: nat, msgs: seq<Message>)

  /** All datagrams allocated so far, how many of them have left the queue, and which one is the
      partial buffer of which node. */
  datatype View = View(all: seq<Datagram>, sent: nat, open: map<nat, nat>)

  /** Where sendDataToNetwork sends a packet. */
  function Destination(h: Header): nat {
    if IsReply(h.flags) then h.client else h.server
  }

  /** A reply is for its client's node, anything else for its server's; bits 1 and 2 tell the type. */
  predicate Addressed(h: Header, node: nat) {
    if h.flags / 2 % 4 == 2 then h.client == node else h.server == node
  }

  /** A message whose header says its length right. */
  predicate Consistent(m: Message) {
    HeaderOk(m.h) && m.h.msgLen == HEADER_SIZE + Padded(|m.payload|)
  }

  predicate Room(total: nat, m: Message) {
    HEADER_SIZE + Padded(|m.payload|) + total <= PACKET_SIZE
  }

  ghost predicate DatagramOk(d: Datagram) {
    AllLegal(d.msgs) && |Joined(d.msgs)| <= PACKET_SIZE
  }

  ghost predicate AllOk(all: seq<Datagram>) {
    forall k {:trigger all[k]} :: 0 <= k < |all| ==> DatagramOk(all[k])
  }

  /** Is datagram k queued, for node dst, and the last one for it? */
  ghost predicate LastFor(v: View, k: nat, dst: nat) {
    && v.sent <= k < |v.all| && v.all[k].target == dst
    && forall j {:trigger v.all[j]} :: k < j < |v.all| ==> v.all[j].target != dst
  }

  /** What there is to say of the queue: its bounds, that every datagram is well filled, and that the
      partial buffers are the last datagrams for their nodes. */
  datatype Claim = Bounds | Fillings | Latest

  ghost predicate Claims(a: Claim, v: View, known: set<nat>) {
    match a
    case Bounds => v.sent <= |v.all| && v.open.Keys <= known
    case Fillings => AllOk(v.all)
    case Latest => forall dst {:trigger v.open[dst]} :: dst in v.open ==> LastFor(v, v.open[dst], dst)
  }

  ghost predicate ViewOk(v: View, known: set<nat>) {
    forall a: Claim {:trigger Claims(a, v, known)} :: Claims(a, v, known)
  }

  lemma ViewParts(v: View, known: set<nat>)
    requires ViewOk(v, known)
    ensures Claims(Bounds, v, known) && Claims(Fillings, v, known) && Claims(Latest, v, known)
  {}

  /** allocPacket */
  function Allocated(v: View, known: set<nat>, dst: nat): View {
    v.(all := v.all + [Datagram(dst, [])], open := if dst in known then v.open[dst := |v.all|] else v.open)
  }

  /** DataOut::addData to datagram k */
  function Added(v: View, k: nat, m: Message): View
    requires k < |v.all|
  {
    v.(all := v.all[k := v.all[k].(msgs := v.all[k].msgs + [m])])
  }

  /** sendDataToNetwork: the new view, and whether the message was queued. */
  ghost function Queued(v: View, known: set<nat>, m: Message): (View, bool)
    requires ViewOk(v, known)
  {
    ViewParts(v, known);
    var dst := Destination(m.h);
    if dst in v.open && Room(|Joined(v.all[v.open[dst]].msgs)|, m) then (Added(v, v.open[dst], m), true)
    else
      var v1 := Allocated(v, known, dst);
      if Room(0, m) then (Added(v1, |v.all|, m), true) else (v1, false)
  }

  /** The datagram at the head of the queue is dealt with. */
  function Popped(v: View): View {
    var open := if v.sent < |v.all| && v.all[v.sent].target in v.open && v.open[v.all[v.sent].target] == v.sent
                then v.open - {v.all[v.sent].target} else v.open;
    v.(sent := v.sent + 1, open := open)
  }

  function PoppedTimes(v: View, n: nat): View {
    if n == 0 then v else Popped(PoppedTimes(v, n - 1))
  }

  /** All messages for a node, in the order they will arrive. */
  function Stream(all: seq<Datagram>, dst: nat): seq<Message> {
    if all == [] then []
    else Stream(all[..|all| - 1], dst) + (if all[|all| - 1].target == dst then all[|all| - 1].msgs else [])
  }

  lemma {:induction false} StreamAdded(all: seq<Datagram>, k: nat, m: Message, dst: nat)
    requires k < |all|
    requires forall j {:trigger all[j]} :: k < j < |all| ==> all[j].target != all[k].target
    ensures Stream(all[k := all[k].(msgs := all[k].msgs + [m])], dst)
         == Stream(all, dst) + (if all[k].target == dst then [m] else [])
  {
    var n, d := |all| - 1, all[k].(msgs := all[k].msgs + [m]);
    var all' := all[k := d];
    if k == n {
      assert all'[..n] == all[..n];
    } else {
      assert all'[..n] == all[..n][k := d];
      StreamAdded(all[..n], k, m, dst);
      var tail := if all[n].target == dst then all[n].msgs else [];
      assert all[k].target == dst ==> tail == [];
    }
  }

  lemma StreamAllocated(all: seq<Datagram>, d: Datagram, dst: nat)
    requires d.msgs == []
    ensures Stream(all + [d], dst) == Stream(all, dst)
  {
    assert (all + [d])[..|all|] == all;
  }

  /** Room in an empty packet is what makes the payload of a consistent message a legal one. */
  lemma RoomIsLegal(m: Message)
    requires Consistent(m)
    ensures Room(0, m) <==> |m.payload| <= USER_PACKET_SIZE
    ensures Room(0, m) <==> Legal(m)
  {
    if |m.payload| <= USER_PACKET_SIZE { LegalFits(m); }
  }

  lemma AddedOk(v: View, known: set<nat>, k: nat, m: Message)
    requires ViewOk(v, known) && k < |v.all| && Legal(m) && AllLegal(v.all[k].msgs) && Room(|Joined(v.all[k].msgs)|, m)
    ensures ViewOk(Added(v, k, m), known)
  {
    ViewParts(v, known);
    JoinedAppend(v.all[k].msgs, m);
    var v' := Added(v, k, m);
    forall dst | dst in v'.open ensures LastFor(v', v'.open[dst], dst) {
      assert LastFor(v, v.open[dst], dst);
    }
  }

  lemma AllocatedOk(v: View, known: set<nat>, dst: nat)
    requires ViewOk(v, known)
    ensures ViewOk(Allocated(v, known, dst), known)
  {
    ViewParts(v, known);
    var v' := Allocated(v, known, dst);
    forall d | d in v'.open ensures LastFor(v', v'.open[d], d) {
      if d != dst || dst !in known { assert LastFor(v, v.open[d], d); }
    }
  }

  lemma DestinationIs(h: Header, node: nat)
    ensures Destination(h) == node <==> Addressed(h, node)
  {}

  lemma QueuedAt(v: View, known: set<nat>, m: Message, dst: nat)
    requires ViewOk(v, known) && Consistent(m)
    ensures var (v', ok) := Queued(v, known, m);
            && ViewOk(v', known) && v'.sent == v.sent <= |v.all| <= |v'.all| && v'.all[..v.sent] == v.all[..v.sent]
            && (ok <==> |m.payload| <= USER_PACKET_SIZE)
            && Stream(v'.all, dst) == Stream(v.all, dst) + (if ok && dst == Destination(m.h) then [m] else [])
  {
    ViewParts(v, known);
    var d := Destination(m.h);
    RoomIsLegal(m);
    if d in v.open && Room(|Joined(v.all[v.open[d]].msgs)|, m) {
      AddedOk(v, known, v.open[d], m);
      StreamAdded(v.all, v.open[d], m, dst);
    } else {
      var v1 := Allocated(v, known, d);
      AllocatedOk(v, known, d);
      StreamAllocated(v.all, Datagram(d, []), dst);
      if Room(0, m) {
        AddedOk(v1, known, |v.all|, m);
        StreamAdded(v1.all, |v.all|, m, dst);
      }
    }
  }

  /** sendDataToNetwork keeps the messages for each node in the order they were sent; a message is
      queued exactly if its payload is not too long; and packets that have left are not touched. */
  lemma QueuedInOrder(v: View, known: set<nat>, m: Message, dst: nat)
    requires ViewOk(v, known) && Consistent(m)
    ensures var (v', ok) := Queued(v, known, m);
            && ViewOk(v', known) && v'.sent == v.sent <= |v.all| <= |v'.all| && v'.all[..v.sent] == v.all[..v.sent]
            && (ok <==> |m.payload| <= USER_PACKET_SIZE)
            && Stream(v'.all, dst) == Stream(v.all, dst) + (if ok && Addressed(m.h, dst) then [m] else [])
  {
    DestinationIs(m.h, dst);
    QueuedAt(v, known, m, dst);
  }

  /** The head of the queue is the partial buffer of its own node at most. */
  lemma HeadIsOwn(v: View, known: set<nat>)
    requires ViewOk(v, known) && v.sent < |v.all|
    ensures forall d {:trigger v.open[d]} :: d in v.open && v.open[d] == v.sent ==> d == v.all[v.sent].target
  {
    ViewParts(v, known);
    forall d | d in v.open && v.open[d] == v.sent ensures d == v.all[v.sent].target {
      assert LastFor(v, v.open[d], d);
    }
  }

  lemma PoppedKeeps(v: View, known: set<nat>, dst: nat)
    requires ViewOk(v, known) && v.sent < |v.all| && dst in Popped(v).open
    ensures dst in v.open && Popped(v).open[dst] == v.open[dst] && LastFor(Popped(v), v.open[dst], dst)
  {
    HeadIsOwn(v, known);
    ViewParts(v, known);
    assert LastFor(v, v.open[dst], dst);
    StillLast(v, v.open[dst], dst);
  }

  lemma StillLast(v: View, k: nat, dst: nat)
    requires LastFor(v, k, dst) && k != v.sent
    ensures LastFor(Popped(v), k, dst)
  {}

  lemma PoppedOk(v: View, known: set<nat>)
    requires ViewOk(v, known) && v.sent < |v.all|
    ensures ViewOk(Popped(v), known) && Popped(v).all == v.all
  {
    ViewParts(v, known);
    var v' := Popped(v);
    forall dst | dst in v'.open ensures LastFor(v', v'.open[dst], dst) { PoppedKeeps(v, known, dst); }
  }

  /** A packet may be queued for a node that has no partial buffer. */
  lemma PushedOk(v: View, known: set<nat>, dst: nat)
    requires ViewOk(v, known) && dst !in v.open
    ensures ViewOk(v.(all := v.all + [Datagram(dst, [])]), known)
  {
    ViewParts(v, known);
    var v' := v.(all := v.all + [Datagram(dst, [])]);
    forall d | d in v'.open ensures LastFor(v', v'.open[d], d) { assert LastFor(v, v.open[d], d); }
  }

  /** A partial buffer may be forgotten at any time. */
  lemma ClosedOk(v: View, known: set<nat>, dst: nat)
    requires ViewOk(v, known)
    ensures ViewOk(v.(open := v.open - {dst}), known)
  {
    ViewParts(v, known);
    var v' := v.(open := v.open - {dst});
    forall d | d in v'.open ensures LastFor(v', v'.open[d], d) { assert LastFor(v, v.open[d], d); }
  }

  // ---- What arrives ----

  /** The packets a node finds in the datagrams sent to it, when it unswaps and splits them. */
  ghost function Arriving(all: seq<Datagram>, dst: nat): seq<seq<byte>>
    requires AllOk(all)
  {
    if all == [] then []
    else
      var d := all[|all| - 1];
      assert DatagramOk(d);
      Arriving(all[..|all| - 1], dst) + (if d.target == dst then Split(Swapped(Swapped(Joined(d.msgs)))) else [])
  }

  lemma AllLegalConcat(a: seq<Message>, b: seq<Message>)
    requires AllLegal(a) && AllLegal(b)
    ensures AllLegal(a + b)
  {}

  lemma {:induction false} AllBytesConcat(a: seq<Message>, b: seq<Message>)
    requires AllLegal(a) && AllLegal(b)
    ensures AllLegal(a + b) && AllBytes(a + b) == AllBytes(a) + AllBytes(b)
  {
    AllLegalConcat(a, b);
    if a == [] {
      assert a + b == b;
    } else {
      ConcatRest(a, b, a + b);
      AllBytesConcat(a[1..], b);
      Associative([Bytes(a[0])], AllBytes(a[1..]), AllBytes(b));
    }
  }

  lemma ConcatRest(a: seq<Message>, b: seq<Message>, ab: seq<Message>)
    requires a != [] && ab == a + b
    ensures ab != [] && ab[0] == a[0] && ab[1..] == a[1..] + b
  {}

  /** What a node finds in its datagrams is the messages that were put in them, in order. */
  lemma {:induction false} DatagramsArrive(all: seq<Datagram>, dst: nat)
    requires AllOk(all)
    ensures AllLegal(Stream(all, dst)) && Arriving(all, dst) == AllBytes(Stream(all, dst))
  {
    if all != [] {
      var n := |all| - 1;
      DatagramsArrive(all[..n], dst);
      assert DatagramOk(all[n]);
      if all[n].target == dst {
        SwappedTwice(Joined(all[n].msgs));
        SplitJoined(all[n].msgs);
        AllBytesConcat(Stream(all[..n], dst), all[n].msgs);
      } else {
        assert Stream(all, dst) == Stream(all[..n], dst);
      }
    }
  }

  // ---- Runs ----

  /** What can happen to the queue: a message is given to sendDataToNetwork, or the datagram at the
      head leaves, if there is one. */
  datatype Act = Send(m: Message) | Leave

  ghost predicate ActsOk(acts: seq<Act>) {
    forall k {:trigger acts[k]} :: 0 <= k < |acts| && acts[k].Send? ==> Consistent(acts[k].m)
  }

  ghost function Next(v: View, known: set<nat>, a: Act): View
    requires ViewOk(v, known)
  {
    match a
    case Send(m) => Queued(v, known, m).0
    case Leave => if v.sent < |v.all| then Popped(v) else v
  }

  lemma EmptyOk(known: set<nat>)
    ensures ViewOk(View([], 0, map[]), known)
  {}

  lemma NextOk(v: View, known: set<nat>, a: Act)
    requires ViewOk(v, known) && (a.Send? ==> Consistent(a.m))
    ensures ViewOk(Next(v, known, a), known)
  {
    if a.Send? { QueuedInOrder(v, known, a.m, 0); } else if v.sent < |v.all| { PoppedOk(v, known); }
  }

  /** The queue after a run that starts with none. */
  ghost function After(known: set<nat>, acts: seq<Act>): (v: View)
    requires ActsOk(acts)
    ensures ViewOk(v, known)
    decreases |acts|
  {
    EmptyOk(known);
    if acts == [] then View([], 0, map[])
    else
      var v := After(known, acts[..|acts| - 1]);
      NextOk(v, known, acts[|acts| - 1]);
      Next(v, known, acts[|acts| - 1])
  }

  /** The messages given to sendDataToNetwork for a node, but for those whose payload is too long. */
  function SentTo(acts: seq<Act>, dst: nat): seq<Message>
    decreases |acts|
  {
    if acts == [] then []
    else
      var a := acts[|acts| - 1];
      SentTo(acts[..|acts| - 1], dst)
      + (if a.Send? && Addressed(a.m.h, dst) && |a.m.payload| <= USER_PACKET_SIZE then [a.m] else [])
  }

  lemma {:induction false} StreamIsSent(known: set<nat>, acts: seq<Act>, dst: nat)
    requires ActsOk(acts)
    ensures Stream(After(known, acts).all, dst) == SentTo(acts, dst)
    decreases |acts|
  {
    if acts != [] {
      var init, a := acts[..|acts| - 1], acts[|acts| - 1];
      var v := After(known, init);
      StreamIsSent(known, init, dst);
      if a.Send? { QueuedInOrder(v, known, a.m, dst); } else if v.sent < |v.all| { PoppedOk(v, known); }
    }
  }

  /** Datagrams that leave first arrive first. */
  lemma {:induction false} ArrivingPrefix(all: seq<Datagram>, n: nat, dst: nat)
    requires AllOk(all)
    requires n <= |all|
    ensures Arriving(all[..n], dst) <= Arriving(all, dst)
    decreases |all|
  {
    if n == |all| {
      assert all[..n] == all;
    } else {
      var init := all[..|all| - 1];
      ArrivingPrefix(init, n, dst);
      assert init[..n] == all[..n];
    }
  }

  /** Batching is transparent. Over any run of sends and departures, what a node finds in all datagrams
      made for it is the messages sent to it, in the order in which they were sent; and what it finds in
      those that left so far is the first of them. */
  lemma BatchingIsTransparent(known: set<nat>, acts: seq<Act>, dst: nat)
    requires ActsOk(acts)
    ensures var v := After(known, acts);
            && v.sent <= |v.all| && AllOk(v.all)
            && AllLegal(SentTo(acts, dst)) && Arriving(v.all, dst) == AllBytes(SentTo(acts, dst))
            && Arriving(v.all[..v.sent], dst) <= AllBytes(SentTo(acts, dst))
  {
    var v := After(known, acts);
    ViewParts(v, known);
    StreamIsSent(known, acts, dst);
    DatagramsArrive(v.all, dst);
    ArrivingPrefix(v.all, v.sent, dst);
  }

  lemma {:induction false} AllBytesAt(ms: seq<Message>, k: nat)
    requires AllLegal(ms) && k < |ms|
    ensures |AllBytes(ms)| == |ms| && AllBytes(ms)[k] == Bytes(ms[k])
  {
    if k > 0 {
      AllBytesAt(ms[1..], k - 1);
    } else if |ms| > 1 {
      AllBytesAt(ms[1..], 0);
    }
  }

  /** So the k-th packet that arrives at a node has the header of the k-th message sent to it, and its
      payload, with one zero byte more if that has an odd length. */
  lemma MessagesArriveIntact(known: set<nat>, acts: seq<Act>, dst: nat, k: nat)
    requires ActsOk(acts) && k < |SentTo(acts, dst)|
    ensures var v := After(known, acts);
            && AllOk(v.all)
            && |Arriving(v.all, dst)| == |SentTo(acts, dst)|
            && var bytes, m := Arriving(v.all, dst)[k], SentTo(acts, dst)[k];
               && |bytes| == m.h.msgLen >= HEADER_SIZE && Decode(bytes[..HEADER_SIZE]) == m.h
               && bytes[HEADER_SIZE..] == if |m.payload| % 2 == 1 then m.payload + [0] else m.payload
  {
    BatchingIsTransparent(known, acts, dst);
    AllBytesAt(SentTo(acts, dst), k);
    var bytes := Arriving(After(known, acts).all, dst)[k];
    assert bytes == bytes[..HEADER_SIZE] + bytes[HEADER_SIZE..];
    MessageArrives(SentTo(acts, dst)[k], bytes[..HEADER_SIZE], bytes[HEADER_SIZE..]);
  }

  /** A queue that went through a run goes on with it when a message is sent or datagrams leave. */
  lemma AfterSend(known: set<nat>, acts: seq<Act>, m: Message)
    requires ActsOk(acts) && Consistent(m)
    ensures ActsOk(acts + [Send(m)]) && After(known, acts + [Send(m)]) == Queued(After(known, acts), known, m).0
  {
    assert (acts + [Send(m)])[..|acts|] == acts;
  }

  lemma {:induction false} AfterPops(known: set<nat>, acts: seq<Act>, v: View, n: nat) returns (more: seq<Act>)
    requires ActsOk(acts) && v == After(known, acts) && v.sent + n <= |v.all|
    ensures |more| == n && (forall k :: 0 <= k < n ==> more[k] == Leave)
    ensures ActsOk(acts + more) && After(known, acts + more) == PoppedTimes(v, n)
    ensures PoppedTimes(v, n).sent == v.sent + n && PoppedTimes(v, n).all == v.all
  {
    if n == 0 {
      more := [];
      assert acts + more == acts;
    } else {
      var less := AfterPops(known, acts, v, n - 1);
      more := less + [Leave];
      Associative(acts, less, [Leave]);
      AfterLeave(known, acts + less, acts + more);
    }
  }

  lemma {:induction false} PoppedCount(v: View, n: nat)
    ensures PoppedTimes(v, n).sent == v.sent + n && PoppedTimes(v, n).all == v.all
  {
    if n > 0 { PoppedCount(v, n - 1); }
  }

  lemma AfterLeave(known: set<nat>, acts: seq<Act>, acts': seq<Act>)
    requires ActsOk(acts) && acts' == acts + [Leave] && After(known, acts).sent < |After(known, acts).all|
    ensures ActsOk(acts') && After(known, acts') == Popped(After(known, acts))
  {
    assert acts'[..|acts'| - 1] == acts;
  }
}
