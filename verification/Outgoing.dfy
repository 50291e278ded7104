/** DataOut and the outgoing queue as the objects they are (network.cpp): byte buffers that are filled
    in place, and pointers to the partly filled ones. */
module Outgoing {
  import opened Sequences
  import opened Acnet
  import opened Wire
  import opened Network

  /** What there is to say of a buffer: its size, and the bytes in it. */
  datatype Filling = Size | Bytes

  class DataOut {
    /** How many packets were allocated before this one. */
    ghost const number: nat
    const tgt: nat
    const data: array<byte>
    var total: nat
    ghost var msgs: seq<Message>

    ghost predicate Fills(a: Filling)
      reads this, data
    {
      match a
      case Size => data.Length == PACKET_SIZE && total <= PACKET_SIZE
      case Bytes => AllLegal(msgs) && total == |Joined(msgs)| <= data.Length && data[..total] == Swapped(Joined(msgs))
    }

    ghost predicate Valid()
      reads this, data
    {
      forall a: Filling {:trigger Fills(a)} :: Fills(a)
    }

    constructor (ghost number: nat, tgt: nat)
      ensures Valid() && fresh(data) && msgs == [] && this.number == number && this.tgt == tgt
    {
      this.number, this.tgt, total, msgs := number, tgt, 0, [];
      data := new byte[PACKET_SIZE];
    }

    /** getPacketData and getPacketSize */
    method PacketData() returns (bytes: seq<byte>)
      requires Valid()
      ensures AllLegal(msgs) && bytes == Swapped(Joined(msgs))
    {
      assert Fills(Size) && Fills(Filling.Bytes);
      bytes := data[..total];
    }

    /** One word, swapped. */
    method PutWord(k: nat, a: byte, b: byte)
      requires k + 2 <= data.Length
      modifies data
      ensures data[..k + 2] == old(data[..k]) + [b, a]
    {
      SwapExchangesBytes(a, b);
      var v := Swap(ShortOf(a, b));
      data[k], data[k + 1] := Lo(v), Hi(v);
    }

    /** The words of d, swapped, go behind the first `total` bytes. */
    method PutWords(d: seq<byte>) returns (end: nat)
      requires total + Padded(|d|) <= data.Length
      modifies data
      ensures end == |d| - |d| % 2 && Even(end) && data[..total + end] == old(data[..total]) + Swapped(d[..end])
    {
      ghost var base := data[..total];
      end := 0;
      assert base + Swapped(d[..0]) == base;
      while end + 1 < |d|
        invariant end <= |d| && Even(end) && data[..total + end] == base + Swapped(d[..end])
      {
        ghost var done := data[..total + end];
        PutWord(total + end, d[end], d[end + 1]);
        AddedWord(d, base, done, end);
        EvenSum(end, 2);
        end := end + 2;
      }
      EvenIs(end);
    }

    /** addData: d goes to the end of the buffer, swapped, and padded with a zero if its length is odd. */
    method AddBytes(d: seq<byte>)
      requires total + Padded(|d|) <= data.Length
      modifies this`total, data
      ensures total == old(total) + Padded(|d|) && data[..total] == old(data[..total]) + Swapped(Pad(d))
    {
      ghost var base := data[..total];
      PaddedIs(|d|);
      var end := PutWords(d);
      if end != |d| {
        AddedLast(d, base, data[..total + end]);
        PutWord(total + end, d[|d| - 1], 0);
        total := total + |d| + 1;
      } else {
        assert d[..end] == d;
        total := total + |d|;
      }
    }

    /** addData: the message goes in if there is room. */
    method AddData(m: Message) returns (ok: bool)
      requires Valid() && Consistent(m)
      modifies this, data
      ensures Valid() && AllLegal(old(msgs)) && ok == Room(|Joined(old(msgs))|, m)
      ensures msgs == if ok then old(msgs) + [m] else old(msgs)
      ensures ok || (unchanged(this) && unchanged(data))
    {
      assert Fills(Size) && Fills(Filling.Bytes);
      ok := Padded(|m.payload|) + HEADER_SIZE <= PACKET_SIZE - total;
      if ok {
        RoomHere(msgs, m);
        AddMessage(m);
      }
    }

    method AddMessage(m: Message)
      requires Valid() && AllLegal(msgs) && Legal(m) && Room(|Joined(msgs)|, m)
      modifies this, data
      ensures Valid() && msgs == old(msgs) + [m]
    {
      assert Fills(Size) && Fills(Filling.Bytes);
      AddedBytes(msgs, m);
      EvenIs(HEADER_SIZE);
      AddBytes(Encode(m.h));
      AddBytes(m.payload);
      msgs := msgs + [m];
    }
  }

  /** The bytes of a header and of a padded payload are those of the message. */
  lemma AddedBytes(ms: seq<Message>, m: Message)
    requires AllLegal(ms) && Legal(m)
    ensures AllLegal(ms + [m]) && Pad(Encode(m.h)) == Encode(m.h)
    ensures Swapped(Joined(ms)) + Swapped(Encode(m.h)) + Swapped(Pad(m.payload)) == Swapped(Joined(ms + [m]))
    ensures |Joined(ms + [m])| == |Joined(ms)| + HEADER_SIZE + Padded(|m.payload|)
  {
    EvenIs(HEADER_SIZE);
    JoinedAppend(ms, m);
    JoinedEven(ms);
    SwappedConcat(Encode(m.h), Pad(m.payload));
    SwappedConcat(Joined(ms), Wire.Bytes(m));
    Associative(Swapped(Joined(ms)), Swapped(Encode(m.h)), Swapped(Pad(m.payload)));
  }

  lemma RoomHere(ms: seq<Message>, m: Message)
    requires AllLegal(ms) && Consistent(m) && Room(|Joined(ms)|, m)
    ensures Legal(m)
  {
    RoomIsLegal(m);
  }

  lemma AddedWord(d: seq<byte>, base: seq<byte>, done: seq<byte>, k: nat)
    requires Even(k) && k + 2 <= |d| && done == base + Swapped(d[..k])
    ensures done + [d[k + 1], d[k]] == base + Swapped(d[..k + 2])
  {
    var w := [d[k], d[k + 1]];
    assert d[..k + 2] == d[..k] + w;
    SwappedConcat(d[..k], w);
    assert Swapped(w) == [d[k + 1], d[k]] by { assert w[2..] == []; }
    Associative(base, Swapped(d[..k]), Swapped(w));
  }

  lemma AddedLast(d: seq<byte>, base: seq<byte>, done: seq<byte>)
    requires !Even(|d|) && |d| >= 1 && Even(|d| - 1) && done == base + Swapped(d[..|d| - 1])
    ensures done + [0, d[|d| - 1]] == base + Swapped(Pad(d))
  {
    var n := |d| - 1;
    assert Pad(d)[..n] == d[..n] && Pad(d)[n] == d[n] && Pad(d)[n + 1] == 0 && Pad(d)[..n + 2] == Pad(d);
    AddedWord(Pad(d), base, done, n);
  }

  /** What the socket, or the node table, has to say to a datagram. */
  datatype Answer = NoAddress | Accepted | Full | Failed

  /** Of the first n answers none says that the socket is full. */
  predicate Taken(answers: seq<Answer>, n: nat) {
    n <= |answers| && forall k :: 0 <= k < n ==> answers[k] != Full
  }

  lemma TakenMore(answers: seq<Answer>, n: nat)
    requires Taken(answers, n) && n < |answers| && answers[n] != Full
    ensures Taken(answers, n + 1)
  {}

  /** A datagram as the socket sees it. */
  ghost predicate IsDatagram(packet: (nat, seq<byte>), d: Datagram) {
    AllLegal(d.msgs) && packet == (d.target, Swapped(Joined(d.msgs)))
  }

  /** What a node finds in packets of the socket, when it unswaps and splits those for it. */
  ghost function Found(sent: seq<(nat, seq<byte>)>, dst: nat): seq<seq<byte>> {
    if sent == [] then []
    else
      var packet := sent[|sent| - 1];
      Found(sent[..|sent| - 1], dst) + (if packet.0 == dst then Split(Swapped(packet.1)) else [])
  }

  ghost predicate AreDatagrams(sent: seq<(nat, seq<byte>)>, ds: seq<Datagram>) {
    |sent| == |ds| && forall k {:trigger sent[k]} :: 0 <= k < |sent| ==> IsDatagram(sent[k], ds[k])
  }

  lemma OneMore(sent: seq<(nat, seq<byte>)>, all: seq<Datagram>, from: nat, to: nat, next: nat,
                packet: (nat, seq<byte>))
    requires from <= to < |all| && next == to + 1 && AreDatagrams(sent, all[from..to]) && IsDatagram(packet, all[to])
    ensures AreDatagrams(sent + [packet], all[from..next])
  {
    assert all[from..next] == all[from..to] + [all[to]];
  }

  lemma AllOkInit(all: seq<Datagram>, init: seq<Datagram>, d: Datagram)
    requires all == init + [d] && AllOk(all)
    ensures AllOk(init) && DatagramOk(d)
  {
    forall k | 0 <= k < |init| ensures DatagramOk(init[k]) { assert init[k] == all[k]; }
    assert all[|init|] == d;
  }

  lemma ConcatInit(all: seq<Datagram>, base: seq<Datagram>, ds: seq<Datagram>)
    requires all == base + ds && ds != []
    ensures all != [] && all[..|all| - 1] == base + ds[..|ds| - 1] && all[|all| - 1] == ds[|ds| - 1]
    ensures all == all[..|all| - 1] + [all[|all| - 1]]
  {}

  /** What one packet more brings. */
  lemma OneArrives(all: seq<Datagram>, init: seq<Datagram>, base: seq<Datagram>, less: seq<(nat, seq<byte>)>,
                   sent: seq<(nat, seq<byte>)>, packet: (nat, seq<byte>), d: Datagram, dst: nat)
    requires all != [] && init == all[..|all| - 1] && d == all[|all| - 1] && AllOk(all) && AllOk(init) && AllOk(base)
    requires sent != [] && less == sent[..|sent| - 1] && packet == sent[|sent| - 1] && IsDatagram(packet, d)
    requires Arriving(init, dst) == Arriving(base, dst) + Found(less, dst)
    ensures Arriving(all, dst) == Arriving(base, dst) + Found(sent, dst)
  {
    var tail := if d.target == dst then Split(Swapped(packet.1)) else [];
    assert Found(sent, dst) == Found(less, dst) + tail;
    assert Arriving(all, dst) == Arriving(init, dst) + tail;
    Associative(Arriving(base, dst), Found(less, dst), tail);
  }

  /** Packets that are some datagrams bring what is in these, after what earlier ones brought. */
  lemma {:induction false} SentArrives(sent: seq<(nat, seq<byte>)>, base: seq<Datagram>, ds: seq<Datagram>,
                                       all: seq<Datagram>, dst: nat)
    requires AreDatagrams(sent, ds) && all == base + ds && AllOk(base) && AllOk(all)
    ensures Arriving(all, dst) == Arriving(base, dst) + Found(sent, dst)
    decreases |sent|
  {
    if sent == [] {
      assert all == base;
    } else {
      var n := |sent| - 1;
      var init := all[..|all| - 1];
      ConcatInit(all, base, ds);
      AllOkInit(all, init, ds[n]);
      OneLess(sent, ds, sent[..n], ds[..n], sent[n], ds[n]);
      SentArrives(sent[..n], base, ds[..n], init, dst);
      OneArrives(all, init, base, sent[..n], sent, sent[n], ds[n], dst);
    }
  }

  /** The packets that the socket took. */
  function Accepted(sent: seq<(nat, seq<byte>)>, fates: seq<Answer>): seq<(nat, seq<byte>)>
    requires |sent| == |fates|
    decreases |sent|
  {
    if sent == [] then []
    else
      var n := |sent| - 1;
      Accepted(sent[..n], fates[..n]) + (if fates[n] == Answer.Accepted then [sent[n]] else [])
  }

  /** A packet that is lost takes its messages with it, and nothing else. */
  lemma {:induction false} LossesAreWhole(sent: seq<(nat, seq<byte>)>, fates: seq<Answer>, dst: nat)
    requires |sent| == |fates|
    ensures Subsequence(Found(Accepted(sent, fates), dst), Found(sent, dst))
    decreases |sent|
  {
    if sent != [] {
      var n := |sent| - 1;
      LossesAreWhole(sent[..n], fates[..n], dst);
      var before, tail := AcceptedNext(sent, fates, dst);
      if fates[n] == Answer.Accepted {
        SubsequenceAndMore(before, Found(sent[..n], dst), tail);
      } else {
        SubsequenceOfMore(before, Found(sent[..n], dst), tail);
      }
    }
  }

  lemma {:induction false} NoneIsLost(sent: seq<(nat, seq<byte>)>, fates: seq<Answer>, dst: nat)
    requires |sent| == |fates|
    requires forall k {:trigger sent[k]} :: 0 <= k < |sent| && sent[k].0 == dst ==> fates[k] == Answer.Accepted
    ensures Found(Accepted(sent, fates), dst) == Found(sent, dst)
    decreases |sent|
  {
    if sent != [] {
      var n := |sent| - 1;
      var less := sent[..n];
      forall k | 0 <= k < n && less[k].0 == dst ensures fates[..n][k] == Answer.Accepted { assert sent[k] == less[k]; }
      NoneIsLost(less, fates[..n], dst);
      var before, tail := AcceptedNext(sent, fates, dst);
      assert sent[n].0 == dst ==> fates[n] == Answer.Accepted;
      assert before + [] == before;
    }
  }

  /** What the last packet brings, if it is taken. */
  lemma AcceptedNext(sent: seq<(nat, seq<byte>)>, fates: seq<Answer>, dst: nat)
    returns (before: seq<seq<byte>>, tail: seq<seq<byte>>)
    requires |sent| == |fates| > 0
    ensures var n := |sent| - 1;
            && before == Found(Accepted(sent[..n], fates[..n]), dst) && (sent[n].0 != dst ==> tail == [])
            && Found(sent, dst) == Found(sent[..n], dst) + tail
            && Found(Accepted(sent, fates), dst) == if fates[n] == Answer.Accepted then before + tail else before
  {
    var n := |sent| - 1;
    var less := Accepted(sent[..n], fates[..n]);
    before, tail := Found(less, dst), if sent[n].0 == dst then Split(Swapped(sent[n].1)) else [];
    FoundNext(less, sent[n], dst);
    assert less + [] == less;
  }

  lemma FoundNext(less: seq<(nat, seq<byte>)>, packet: (nat, seq<byte>), dst: nat)
    ensures Found(less + [packet], dst)
         == Found(less, dst) + (if packet.0 == dst then Split(Swapped(packet.1)) else [])
  {
    assert (less + [packet])[..|less|] == less;
  }

  // ---- Runs ----

  /** What can happen to the objects: a message is given to sendDataToNetwork, or the socket is ready. */
  datatype Op = Give(m: Message) | Flush(answers: seq<Answer>)

  ghost predicate OpsOk(ops: seq<Op>) {
    forall k {:trigger ops[k]} :: 0 <= k < |ops| && ops[k].Give? ==> Consistent(ops[k].m)
  }

  function OfOp(op: Op, dst: nat): seq<Message> {
    if op.Give? && Addressed(op.m.h, dst) && |op.m.payload| <= USER_PACKET_SIZE then [op.m] else []
  }

  /** The messages given for a node, but for those whose payload is too long. */
  function GivenTo(ops: seq<Op>, dst: nat): seq<Message>
    decreases |ops|
  {
    if ops == [] then [] else GivenTo(ops[..|ops| - 1], dst) + OfOp(ops[|ops| - 1], dst)
  }

  lemma GivenNext(ops: seq<Op>, k: nat, dst: nat)
    requires k < |ops|
    ensures GivenTo(ops[..k + 1], dst) == GivenTo(ops[..k], dst) + OfOp(ops[k], dst)
  {
    assert ops[..k + 1][..k] == ops[..k];
  }

  /** Departures send no message. */
  lemma {:induction false} LeavesSendNone(acts: seq<Act>, more: seq<Act>, dst: nat)
    requires forall k :: 0 <= k < |more| ==> more[k] == Leave
    ensures SentTo(acts + more, dst) == SentTo(acts, dst)
    decreases |more|
  {
    if more == [] {
      assert acts + more == acts;
    } else {
      assert (acts + more)[..|acts + more| - 1] == acts + more[..|more| - 1];
      LeavesSendNone(acts, more[..|more| - 1], dst);
    }
  }

  lemma SendSends(acts: seq<Act>, m: Message, dst: nat)
    ensures SentTo(acts + [Send(m)], dst) == SentTo(acts, dst) + OfOp(Give(m), dst)
  {
    assert (acts + [Send(m)])[..|acts|] == acts;
  }

  /** What the packets dealt with bring to a node is a prefix of what was sent to it. */
  lemma PacketsBring(known: set<nat>, acts: seq<Act>, sent: seq<(nat, seq<byte>)>, dst: nat)
    requires ActsOk(acts) && After(known, acts).sent <= |After(known, acts).all|
    requires var v := After(known, acts); AreDatagrams(sent, v.all[..v.sent])
    ensures AllLegal(SentTo(acts, dst)) && Found(sent, dst) <= AllBytes(SentTo(acts, dst))
    ensures var v := After(known, acts); v.sent == |v.all| ==> Found(sent, dst) == AllBytes(SentTo(acts, dst))
  {
    var v := After(known, acts);
    BatchingIsTransparent(known, acts, dst);
    AllOkPrefix(v.all, v.sent);
    assert [] + v.all[..v.sent] == v.all[..v.sent];
    SentArrives(sent, [], v.all[..v.sent], v.all[..v.sent], dst);
    assert [] + Found(sent, dst) == Found(sent, dst);
    assert v.all[..|v.all|] == v.all;
  }

  lemma AllOkPrefix(all: seq<Datagram>, n: nat)
    requires AllOk(all) && n <= |all|
    ensures AllOk(all[..n])
  {
    forall k | 0 <= k < n ensures DatagramOk(all[..n][k]) { assert all[..n][k] == all[k]; }
  }

  lemma MoreDatagrams(sent: seq<(nat, seq<byte>)>, more: seq<(nat, seq<byte>)>, all: seq<Datagram>, n: nat, n': nat)
    requires n <= n' <= |all| && AreDatagrams(sent, all[..n]) && AreDatagrams(more, all[n..n'])
    ensures AreDatagrams(sent + more, all[..n'])
  {
    var both := sent + more;
    assert all[..n'] == all[..n] + all[n..n'];
    forall k | 0 <= k < |both| ensures IsDatagram(both[k], all[..n'][k]) {
      if k < |sent| {
        assert IsDatagram(sent[k], all[..n][k]);
      } else {
        assert IsDatagram(more[k - |sent|], all[n..n'][k - |sent|]);
      }
    }
  }

  lemma OneLess(sent: seq<(nat, seq<byte>)>, ds: seq<Datagram>, sent': seq<(nat, seq<byte>)>, ds': seq<Datagram>,
                packet: (nat, seq<byte>), d: Datagram)
    requires AreDatagrams(sent, ds) && sent == sent' + [packet] && ds == ds' + [d]
    ensures AreDatagrams(sent', ds') && IsDatagram(packet, d)
  {
    forall k | 0 <= k < |sent'| ensures IsDatagram(sent'[k], ds'[k]) { assert sent[k] == sent'[k]; }
    assert sent[|sent'|] == packet;
  }

  /** What allocPacket does to the view, step by step. */
  lemma AllocSteps(v: View, known: set<nat>, dst: nat)
    requires ViewOk(v, known)
    ensures ViewOk(v.(open := v.open - {dst}), known) && ViewOk(Allocated(v, known, dst), known)
    ensures dst !in known ==> dst !in v.open && Allocated(v, known, dst) == v.(all := v.all + [Datagram(dst, [])])
    ensures dst in known ==>
      var v1 := if dst in v.open then v.(open := v.open - {dst}) else v;
      var v2 := v1.(all := v.all + [Datagram(dst, [])]);
      Allocated(v, known, dst) == v2.(open := v1.open[dst := |v.all|])
  {
    AllocatedOk(v, known, dst);
    ClosedOk(v, known, dst);
    ViewParts(v, known);
    assert dst in v.open ==> (v.open - {dst})[dst := |v.all|] == v.open[dst := |v.all|];
  }

  /** The queued packets by their numbers, and whose the buffers are. */
  datatype Index = Index(packet: map<nat, DataOut>, owner: map<array<byte>, nat>)

  /** What there is to say of the queue: whose the buffers are, what is in them, in which order they
      are queued, which are partial, and what that means. */
  datatype Aspect = Owned | Filled | Order | Partials | Meaning

  class OutQueue {
    /** The nodes in the node table. */
    const known: set<nat>
    var outgoing: seq<DataOut>
    /** IpInfo::partial, where it is not null. */
    var partial: map<nat, DataOut>
    ghost var view: View
    ghost var index: Index
    ghost var Repr: set<object>

    ghost predicate Holds(a: Aspect)
      reads this, Repr
    {
      match a
      case Owned =>
        && this in Repr
        && (forall n {:trigger index.packet[n]} :: n in index.packet ==>
              && index.packet[n] in Repr && index.packet[n].data in Repr && index.packet[n].number == n
              && index.packet[n].data in index.owner && index.owner[index.packet[n].data] == n)
      case Filled =>
        && view.sent <= |view.all|
        && (forall n {:trigger n in index.packet} :: n in index.packet <==> view.sent <= n < |view.all|)
        && (forall n {:trigger index.packet[n]} :: n in index.packet ==>
              && index.packet[n] in Repr && index.packet[n].data in Repr
              && index.packet[n].tgt == view.all[n].target
              && index.packet[n].msgs == view.all[n].msgs && index.packet[n].Valid())
      case Order =>
        && |outgoing| == |view.all| - view.sent
        && (forall k {:trigger outgoing[k]} :: 0 <= k < |outgoing| ==>
              outgoing[k].number == view.sent + k && outgoing[k].number in index.packet
                  && index.packet[outgoing[k].number] == outgoing[k])
      case Partials =>
        && partial.Keys == view.open.Keys
        && (forall d {:trigger partial[d]} :: d in partial ==>
              view.open[d] in index.packet && partial[d] == index.packet[view.open[d]])
      case Meaning => ViewOk(view, known)
    }

    ghost predicate Valid()
      reads this, Repr
      ensures Valid() ==> this in Repr && partial.Keys == view.open.Keys && ViewOk(view, known)
    {
      assert Holds(Owned) && Holds(Partials) && Holds(Meaning) ==> this in Repr;
      forall a: Aspect {:trigger Holds(a)} :: Holds(a)
    }

    constructor (known: set<nat>)
      ensures Valid() && fresh(Repr) && this.known == known && view == View([], 0, map[])
    {
      this.known, outgoing, partial, view, index := known, [], map[], View([], 0, map[]), Index(map[], map[]);
      Repr := {this};
    }

    lemma Open()
      requires Valid()
      ensures Holds(Owned) && Holds(Filled) && Holds(Order) && Holds(Partials) && Holds(Meaning)
    {}

    twostate predicate SameObjects(s: set<object>)
      reads s
    {
      forall o :: o in s ==> unchanged(o)
    }

    // What each aspect needs to go on holding, from an earlier state on.

    twostate lemma StillOwned()
      requires old(Holds(Owned)) && Repr == old(Repr) && index == old(index)
      ensures Holds(Owned)
    {}

    /** A packet that is not touched holds what it held. */
    twostate lemma PacketKept(n: nat)
      requires old(Holds(Owned)) && old(Holds(Filled)) && n in old(index).packet
      requires unchanged(old(index).packet[n]) && unchanged(old(index).packet[n].data)
      ensures old(view).sent <= n < |old(view).all|
      ensures var p := old(index).packet[n];
              p.msgs == old(view).all[n].msgs && p.tgt == old(view).all[n].target && p.Valid()
    {}

    twostate lemma StillFilled()
      requires old(Holds(Owned)) && old(Holds(Filled)) && Repr == old(Repr) && index == old(index)
      requires view.all == old(view).all && view.sent == old(view).sent
      requires SameObjects(old(Repr) - {this})
      ensures Holds(Filled)
    {
      forall n | n in index.packet
        ensures index.packet[n].msgs == view.all[n].msgs && index.packet[n].Valid()
      {
        var p := index.packet[n];
        assert p in old(Repr) - {this} && p.data in old(Repr) - {this};
        PacketKept(n);
      }
    }

    twostate lemma StillInOrder()
      requires old(Holds(Order)) && outgoing == old(outgoing) && index == old(index)
      requires |view.all| == |old(view).all| && view.sent == old(view).sent
      ensures Holds(Order)
    {}

    twostate lemma StillPartial()
      requires old(Holds(Partials)) && partial == old(partial) && view.open == old(view).open && index == old(index)
      ensures Holds(Partials)
    {}

    lemma Close()
      requires Holds(Owned) && Holds(Filled) && Holds(Order) && Holds(Partials) && Holds(Meaning)
      ensures Valid()
    {}

    /** Message m went into packet n. */
    twostate lemma AddedFilled(new n: nat, p: DataOut, new m: Message)
      requires old(Holds(Owned)) && old(Holds(Filled)) && Repr == old(Repr) && index == old(index)
      requires n in index.packet && index.packet[n] == p && n < |old(view).all| && view == Added(old(view), n, m)
      requires p.Valid() && p.msgs == old(p.msgs) + [m]
      requires SameObjects(old(Repr) - {this, p, p.data})
      ensures Holds(Filled)
    {
      forall k | k in index.packet ensures index.packet[k].msgs == view.all[k].msgs && index.packet[k].Valid() {
        if k != n {
          var q := index.packet[k];
          assert q != p && q.data != p.data;
          assert q in old(Repr) - {this, p, p.data} && q.data in old(Repr) - {this, p, p.data};
          PacketKept(k);
        }
      }
    }

    twostate lemma AddedValid(new n: nat, p: DataOut, new m: Message)
      requires old(Valid()) && Repr == old(Repr) && index == old(index) && partial == old(partial)
      requires outgoing == old(outgoing) && n in index.packet && index.packet[n] == p && n < |old(view).all|
      requires view == Added(old(view), n, m) && ViewOk(view, known) && p.Valid() && p.msgs == old(p.msgs) + [m]
      requires SameObjects(old(Repr) - {this, p, p.data})
      ensures Valid()
    {
      assert old(Holds(Owned)) && old(Holds(Filled)) && old(Holds(Order)) && old(Holds(Partials));
      StillOwned();
      AddedFilled(n, p, m);
      StillInOrder();
      StillPartial();
      Close();
    }

    /** The packet did not take the message. */
    twostate lemma SameValid()
      requires old(Valid()) && Repr == old(Repr) && index == old(index) && partial == old(partial)
      requires outgoing == old(outgoing) && view == old(view)
      requires SameObjects(old(Repr) - {this})
      ensures Valid()
    {
      assert old(Holds(Owned)) && old(Holds(Filled)) && old(Holds(Order)) && old(Holds(Partials))
          && old(Holds(Meaning));
      StillOwned();
      StillFilled();
      StillInOrder();
      StillPartial();
      Close();
    }

    /** Packet n is in Repr with its buffer, and holds what datagram n says. */
    lemma PacketIs(n: nat, p: DataOut)
      requires Valid() && n in index.packet && index.packet[n] == p
      ensures p in Repr && p.data in Repr && p.Valid()
      ensures view.sent <= n < |view.all| && p.msgs == view.all[n].msgs && p.tgt == view.all[n].target && p.number == n
    {
      assert Holds(Owned) && Holds(Filled);
    }

    /** ptr->addData for the queued packet number n. */
    method AddTo(p: DataOut, ghost n: nat, m: Message) returns (ok: bool)
      requires Valid() && n in index.packet && index.packet[n] == p && Consistent(m)
      modifies Repr
      ensures Valid() && Repr == old(Repr) && n < |old(view).all| && AllLegal(old(view).all[n].msgs)
      ensures ok == Room(|Joined(old(view).all[n].msgs)|, m)
      ensures view == if ok then Added(old(view), n, m) else old(view)
      ensures index == old(index)
    {
      PacketIs(n, p);
      ok := p.AddData(m);
      if ok {
        RoomHere(view.all[n].msgs, m);
        AddedOk(view, known, n, m);
        view := Added(view, n, m);
        AddedValid(n, p, m);
      } else {
        SameValid();
      }
    }

    twostate lemma ForgottenValid(target: nat)
      requires old(Valid()) && target in old(partial) && Repr == old(Repr) && index == old(index)
      requires outgoing == old(outgoing) && partial == old(partial) - {target}
      requires view == old(view).(open := old(view).open - {target}) && ViewOk(view, known)
      requires SameObjects(old(Repr) - {this})
      ensures Valid()
    {
      assert old(Holds(Owned)) && old(Holds(Filled)) && old(Holds(Order));
      StillOwned();
      StillFilled();
      StillInOrder();
      ForgottenPartial(target);
      Close();
    }

    twostate lemma ForgottenPartial(target: nat)
      requires old(Valid()) && target in old(partial) && index == old(index) && partial == old(partial) - {target}
      requires view.open == old(view).open - {target}
      ensures Holds(Partials)
    {
      assert old(Holds(Partials));
    }

    /** setPartialBuffer(target, 0) */
    method ForgetPartial(target: nat)
      requires Valid() && target in partial && ViewOk(view.(open := view.open - {target}), known)
      modifies this
      ensures Valid() && Repr == old(Repr) && outgoing == old(outgoing)
      ensures view == old(view).(open := old(view).open - {target})
    {
      partial := partial - {target};
      view := view.(open := view.open - {target});
      ForgottenValid(target);
    }

    twostate lemma PushedOwned(new p: DataOut)
      requires old(Holds(Owned)) && p !in old(Repr) && p.data !in old(Repr) && p.number !in old(index).packet
      requires Repr == old(Repr) + {p, p.data}
      requires index == Index(old(index).packet[p.number := p], old(index).owner[p.data := p.number])
      ensures Holds(Owned)
    {
      forall n | n in index.packet
        ensures index.packet[n] in Repr && index.packet[n].data in Repr && index.packet[n].number == n
                && index.packet[n].data in index.owner && index.owner[index.packet[n].data] == n
      {
        if n != p.number { assert index.packet[n] == old(index).packet[n] && old(index).packet[n].data in old(Repr); }
      }
    }

    twostate lemma PushedFilled(new p: DataOut)
      requires old(Holds(Owned)) && old(Holds(Filled)) && p.number == |old(view).all| && p.Valid() && p.msgs == []
      requires Repr == old(Repr) + {p, p.data} && index.packet == old(index).packet[p.number := p]
      requires view.all == old(view).all + [Datagram(p.tgt, [])] && view.sent == old(view).sent
      requires SameObjects(old(Repr) - {this})
      ensures Holds(Filled)
    {
      forall n | n in index.packet
        ensures index.packet[n] in Repr && index.packet[n].data in Repr
                && index.packet[n].tgt == view.all[n].target
                && index.packet[n].msgs == view.all[n].msgs && index.packet[n].Valid()
      {
        if n != p.number {
          var q := index.packet[n];
          assert q in old(Repr) - {this} && q.data in old(Repr) - {this};
          PacketKept(n);
        }
      }
    }

    twostate lemma PushedOrder(new p: DataOut)
      requires old(Holds(Order)) && old(Holds(Filled)) && p.number == |old(view).all| && outgoing == old(outgoing) + [p]
      requires index.packet == old(index).packet[p.number := p]
      requires |view.all| == |old(view).all| + 1 && view.sent == old(view).sent
      ensures Holds(Order)
    {}

    twostate lemma PushedPartials(new p: DataOut)
      requires old(Holds(Partials)) && p.number !in old(index).packet && partial == old(partial)
      requires index.packet == old(index).packet[p.number := p] && view.open == old(view).open
      ensures Holds(Partials)
    {}

    twostate lemma PushedValid(new p: DataOut)
      requires old(Valid()) && p !in old(Repr) && p.data !in old(Repr) && p.Valid() && p.msgs == []
      requires p.number == |old(view).all| && outgoing == old(outgoing) + [p] && partial == old(partial)
      requires view == old(view).(all := old(view).all + [Datagram(p.tgt, [])]) && ViewOk(view, known)
      requires index == Index(old(index).packet[p.number := p], old(index).owner[p.data := p.number])
      requires Repr == old(Repr) + {p, p.data} && SameObjects(old(Repr) - {this})
      ensures Valid()
    {
      assert old(Holds(Owned)) && old(Holds(Filled)) && old(Holds(Order)) && old(Holds(Partials));
      PushedOwned(p);
      PushedFilled(p);
      PushedOrder(p);
      PushedPartials(p);
      Close();
    }

    /** outgoing.push(ptr) */
    method Push(p: DataOut)
      requires Valid() && p !in Repr && p.data !in Repr && p.Valid() && p.msgs == [] && p.number == |view.all|
      requires p.tgt !in view.open
      modifies this
      ensures Valid() && Repr == old(Repr) + {p, p.data}
      ensures view == old(view).(all := old(view).all + [Datagram(p.tgt, [])])
      ensures index.packet == old(index).packet[p.number := p]
    {
      PushedOk(view, known, p.tgt);
      outgoing := outgoing + [p];
      view := view.(all := view.all + [Datagram(p.tgt, [])]);
      index := Index(index.packet[p.number := p], index.owner[p.data := p.number]);
      Repr := Repr + {p, p.data};
      PushedValid(p);
    }

    twostate lemma SetValid(new dst: nat, p: DataOut, new n: nat)
      requires old(Valid()) && n in index.packet && index.packet[n] == p && Repr == old(Repr) && index == old(index)
      requires outgoing == old(outgoing) && partial == old(partial)[dst := p]
      requires view == old(view).(open := old(view).open[dst := n]) && ViewOk(view, known)
      requires SameObjects(old(Repr) - {this})
      ensures Valid()
    {
      assert old(Holds(Owned)) && old(Holds(Filled)) && old(Holds(Order));
      StillOwned();
      StillFilled();
      StillInOrder();
      SetPartials(dst, p, n);
      Close();
    }

    twostate lemma SetPartials(new dst: nat, p: DataOut, new n: nat)
      requires old(Valid()) && n in index.packet && index.packet[n] == p && index == old(index)
      requires partial == old(partial)[dst := p] && view.open == old(view).open[dst := n]
      ensures Holds(Partials)
    {
      assert old(Holds(Partials));
    }

    /** setPartialBuffer(dst, ptr), for the packet queued last */
    method SetPartial(dst: nat, p: DataOut, ghost n: nat)
      requires Valid() && n in index.packet && index.packet[n] == p && ViewOk(view.(open := view.open[dst := n]), known)
      modifies this
      ensures Valid() && Repr == old(Repr) && index == old(index)
              && view == old(view).(open := old(view).open[dst := n])
    {
      partial := partial[dst := p];
      view := view.(open := view.open[dst := n]);
      SetValid(dst, p, n);
    }

    /** allocPacket: a new packet is queued, and is the partial buffer of its node if that is known,
        in place of the one there was. */
    method AllocPacket(dst: nat) returns (p: DataOut, ghost n: nat)
      requires Valid()
      modifies Repr
      ensures Valid() && fresh(Repr - old(Repr)) && n == |old(view).all| && n in index.packet && index.packet[n] == p
      ensures view == Allocated(old(view), known, dst)
    {
      AllocSteps(view, known, dst);
      assert Holds(Partials);
      ghost var was := view;
      n := |view.all|;
      p := new DataOut(n, dst);
      if dst in partial { ForgetPartial(dst); }
      Push(p);
      if dst in known { SetPartial(dst, p, n); }
    }

    /** sendDataToNetwork: a message goes into its node's partial buffer or into a new packet. */
    method SendDataToNetwork(m: Message) returns (r: int)
      requires Valid() && Consistent(m)
      modifies Repr
      ensures Valid() && fresh(Repr - old(Repr))
      ensures ViewOk(old(view), known) && (view, r == 1) == Queued(old(view), known, m)
    {
      assert Holds(Partials);
      var dst := Destination(m.h);
      if dst in partial {
        var ok := AddTo(partial[dst], view.open[dst], m);
        if ok { return 1; }
      }
      var ptr, n := AllocPacket(dst);
      var ok := AddTo(ptr, n, m);
      r := if ok then 1 else 0;
    }

    twostate lemma DequeuedFilled()
      requires old(Holds(Owned)) && old(Holds(Filled)) && Repr == old(Repr) && old(view).sent < |old(view).all|
      requires index.packet == old(index).packet - {old(view).sent}
      requires view.all == old(view).all && view.sent == old(view).sent + 1
      requires SameObjects(old(Repr) - {this})
      ensures Holds(Filled)
    {
      forall n | n in index.packet
        ensures index.packet[n] in Repr && index.packet[n].data in Repr
                && index.packet[n].tgt == view.all[n].target
                && index.packet[n].msgs == view.all[n].msgs && index.packet[n].Valid()
      {
        var q := index.packet[n];
        assert q in old(Repr) - {this} && q.data in old(Repr) - {this};
        PacketKept(n);
      }
    }

    twostate lemma DequeuedOwned()
      requires old(Holds(Owned)) && Repr == old(Repr) && index.owner == old(index).owner
      requires index.packet == old(index).packet - {old(view).sent}
      ensures Holds(Owned)
    {
      forall n | n in index.packet
        ensures index.packet[n] in Repr && index.packet[n].data in Repr && index.packet[n].number == n
                && index.packet[n].data in index.owner && index.owner[index.packet[n].data] == n
      {
        assert index.packet[n] == old(index).packet[n];
      }
    }

    twostate lemma DequeuedOrder()
      requires old(Holds(Order)) && old(outgoing) != [] && outgoing == old(outgoing)[1..]
      requires index.packet == old(index).packet - {old(view).sent}
      requires |view.all| == |old(view).all| && view.sent == old(view).sent + 1
      ensures Holds(Order)
    {
      forall k | 0 <= k < |outgoing|
        ensures outgoing[k].number == view.sent + k && outgoing[k].number in index.packet
                && index.packet[outgoing[k].number] == outgoing[k]
      {
        assert outgoing[k] == old(outgoing)[k + 1];
      }
    }

    twostate lemma DequeuedPartials()
      requires old(Holds(Partials)) && index.packet == old(index).packet - {old(view).sent}
      requires partial == old(partial) && view.open == old(view).open
      requires forall d {:trigger view.open[d]} :: d in view.open ==> view.open[d] != old(view).sent
      ensures Holds(Partials)
    {}

    twostate lemma DequeuedValid()
      requires old(Valid()) && Repr == old(Repr) && old(outgoing) != [] && outgoing == old(outgoing)[1..]
      requires partial == old(partial) && view == old(view).(sent := old(view).sent + 1) && ViewOk(view, known)
      requires index == old(index).(packet := old(index).packet - {old(view).sent})
      requires forall d {:trigger view.open[d]} :: d in view.open ==> view.open[d] != old(view).sent
      requires SameObjects(old(Repr) - {this})
      ensures Valid()
    {
      assert old(Holds(Owned)) && old(Holds(Filled)) && old(Holds(Order)) && old(Holds(Partials));
      DequeuedOwned();
      DequeuedFilled();
      DequeuedOrder();
      DequeuedPartials();
      Close();
    }

    /** outgoing.pop(), of a packet that is no partial buffer */
    method Dequeue()
      requires Valid() && outgoing != [] && ViewOk(view.(sent := view.sent + 1), known)
      requires forall d {:trigger view.open[d]} :: d in view.open ==> view.open[d] != view.sent
      modifies this
      ensures Valid() && Repr == old(Repr) && view == old(view).(sent := old(view).sent + 1)
              && |outgoing| == |old(outgoing)| - 1
    {
      outgoing := outgoing[1..];
      view, index := view.(sent := view.sent + 1), index.(packet := index.packet - {view.sent});
      DequeuedValid();
    }

    /** The packet at the head of the queue, and whether it is a partial buffer. */
    method Head() returns (target: nat, bytes: seq<byte>, isPartial: bool)
      requires Valid() && outgoing != []
      ensures view.sent < |view.all| && target == view.all[view.sent].target
      ensures AllLegal(view.all[view.sent].msgs) && bytes == Swapped(Joined(view.all[view.sent].msgs))
      ensures isPartial == (target in view.open && view.open[target] == view.sent) && (isPartial ==> target in partial)
    {
      Open();
      var ptr := outgoing[0];
      assert ptr.number == view.sent;
      target := ptr.tgt;
      bytes := ptr.PacketData();
      if target in partial { assert partial[target].number == view.open[target]; }
      isPartial := target in partial && partial[target] == ptr;
    }

    /** The packet at the head of the queue is dealt with, and no longer a partial buffer. */
    method PopHead() returns (target: nat, bytes: seq<byte>)
      requires Valid() && outgoing != []
      modifies this
      ensures Valid() && Repr == old(Repr) && view == Popped(old(view)) && |outgoing| == |old(outgoing)| - 1
      ensures old(view).sent < |old(view).all| && target == old(view).all[old(view).sent].target
      ensures AllLegal(old(view).all[old(view).sent].msgs)
              && bytes == Swapped(Joined(old(view).all[old(view).sent].msgs))
    {
      var isPartial: bool;
      target, bytes, isPartial := Head();
      assert Holds(Meaning);
      PoppedOk(view, known);
      HeadIsOwn(view, known);
      ClosedOk(view, known, target);
      if isPartial { ForgetPartial(target); }
      Dequeue();
    }

    /** sendPendingPackets: `answers` are those of the socket and the node table, of which `used` are
        needed; when they are used up the socket takes no more. It says if the queue became empty.
        `sent` are the datagrams dealt with, each with its node and its bytes. */
    method SendPendingPackets(answers: seq<Answer>) returns (done: bool, used: nat, sent: seq<(nat, seq<byte>)>)
      requires Valid()
      modifies this
      ensures Valid() && Repr == old(Repr) && done == (outgoing == [])
      ensures Taken(answers, used)
      ensures !done ==> used == |answers| || answers[used] == Full
      ensures view == PoppedTimes(old(view), used) && |sent| == used
      ensures view.all == old(view).all && old(view).sent <= view.sent <= |view.all|
      ensures AreDatagrams(sent, view.all[old(view).sent..view.sent])
    {
      ghost var was := view;
      assert Holds(Meaning);
      ViewParts(view, known);
      used, sent := 0, [];
      while outgoing != []
        invariant Valid() && Repr == old(Repr) && Taken(answers, used) && |sent| == used
        invariant view == PoppedTimes(was, used) && view.all == was.all && was.sent <= view.sent <= |was.all|
        invariant AreDatagrams(sent, was.all[was.sent..view.sent])
        decreases |outgoing|
      {
        if used == |answers| || answers[used] == Full { return false, used, sent; }
        ghost var n := view.sent;
        var target, bytes := PopHead();
        OneMore(sent, was.all, was.sent, n, view.sent, (target, bytes));
        TakenMore(answers, used);
        sent, used := sent + [(target, bytes)], used + 1;
      }
      return true, used, sent;
    }

    /** One round of a run. What was dealt with before it is in `before`. */
    method ServeOne(op: Op, before: seq<(nat, seq<byte>)>, ghost acts: seq<Act>)
      returns (sent: seq<(nat, seq<byte>)>, fates: seq<Answer>, ghost acts': seq<Act>)
      requires Valid() && (op.Give? ==> Consistent(op.m)) && ActsOk(acts) && view == After(known, acts)
      requires view.sent <= |view.all| && AreDatagrams(before, view.all[..view.sent])
      modifies Repr
      ensures Valid() && fresh(Repr - old(Repr)) && ActsOk(acts') && view == After(known, acts')
      ensures view.sent <= |view.all| && AreDatagrams(before + sent, view.all[..view.sent]) && |fates| == |sent|
      ensures forall dst: nat {:trigger SentTo(acts', dst)} :: SentTo(acts', dst) == SentTo(acts, dst) + OfOp(op, dst)
    {
      ghost var was := view;
      match op
      case Give(m) =>
        AfterSend(known, acts, m);
        QueuedInOrder(was, known, m, 0);
        var r := SendDataToNetwork(m);
        sent, fates, acts' := [], [], acts + [Send(m)];
        assert before + sent == before;
        forall dst: nat ensures SentTo(acts', dst) == SentTo(acts, dst) + OfOp(op, dst) { SendSends(acts, m, dst); }
      case Flush(answers) =>
        var done, used: nat;
        done, used, sent := SendPendingPackets(answers);
        fates := answers[..used];
        MoreDatagrams(before, sent, was.all, was.sent, view.sent);
        PoppedCount(was, used);
        ghost var more := AfterPops(known, acts, was, used);
        acts' := acts + more;
        forall dst: nat ensures SentTo(acts', dst) == SentTo(acts, dst) + OfOp(op, dst) {
          LeavesSendNone(acts, more, dst);
        }
    }

    /** A run of a new queue: `sent` are the packets dealt with and `fates` what became of each. What
        they bring to a node is a prefix of the messages given for it, and all of them when the queue
        is empty. */
    method Serve(ops: seq<Op>) returns (sent: seq<(nat, seq<byte>)>, fates: seq<Answer>)
      requires Valid() && OpsOk(ops) && view == View([], 0, map[])
      modifies Repr
      ensures Valid() && fresh(Repr - old(Repr)) && |fates| == |sent|
      ensures forall dst: nat {:trigger GivenTo(ops, dst)} ::
                AllLegal(GivenTo(ops, dst)) && Found(sent, dst) <= AllBytes(GivenTo(ops, dst))
      ensures outgoing == [] ==> forall dst: nat {:trigger GivenTo(ops, dst)} ::
                AllLegal(GivenTo(ops, dst)) && Found(sent, dst) == AllBytes(GivenTo(ops, dst))
    {
      ghost var acts: seq<Act> := [];
      sent, fates := [], [];
      var k := 0;
      assert ops[..0] == [];
      while k < |ops|
        invariant 0 <= k <= |ops| && Valid() && fresh(Repr - old(Repr)) && |fates| == |sent|
        invariant ActsOk(acts) && view == After(known, acts) && view.sent <= |view.all|
        invariant AreDatagrams(sent, view.all[..view.sent])
        invariant forall dst: nat {:trigger SentTo(acts, dst)} :: SentTo(acts, dst) == GivenTo(ops[..k], dst)
      {
        ghost var was := acts;
        var more, ends: seq<Answer>;
        more, ends, acts := ServeOne(ops[k], sent, acts);
        forall dst: nat ensures SentTo(acts, dst) == GivenTo(ops[..k + 1], dst) {
          assert SentTo(was, dst) == GivenTo(ops[..k], dst);
          GivenNext(ops, k, dst);
        }
        sent, fates, k := sent + more, fates + ends, k + 1;
      }
      assert ops[..k] == ops && Holds(Order);
      forall dst: nat
        ensures AllLegal(GivenTo(ops, dst)) && Found(sent, dst) <= AllBytes(GivenTo(ops, dst))
        ensures outgoing == [] ==> Found(sent, dst) == AllBytes(GivenTo(ops, dst))
      {
        assert SentTo(acts, dst) == GivenTo(ops, dst);
        PacketsBring(known, acts, sent, dst);
      }
    }
  }
}
