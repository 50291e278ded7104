/** The send queue of a TCP client (server.h, tcpclient.cpp): what the socket does not take at once
    waits in buffers. */
module Tcp {
  import opened Sequences
  import opened Wire

  const SOCKET_BUFSIZE := 128 * 1024

  class SocketBuffer {
    const buffer: array<byte>
    var length: nat
    var remaining: nat

    ghost predicate Valid()
      reads this, buffer
    {
      buffer.Length == SOCKET_BUFSIZE && remaining <= length <= SOCKET_BUFSIZE
    }

    /** The bytes that still wait. */
    ghost function Rest(): (s: seq<byte>)
      requires Valid()
      reads this, buffer
    {
      buffer[length - remaining..length]
    }

    constructor (buf: seq<byte>)
      requires |buf| <= SOCKET_BUFSIZE
      ensures Valid() && fresh(buffer) && Rest() == buf
    {
      buffer := new byte[SOCKET_BUFSIZE];
      length, remaining := |buf|, |buf|;
      new;
      forall i | 0 <= i < |buf| { buffer[i] := buf[i]; }
    }

    /** data() and remaining() */
    method Data() returns (s: seq<byte>)
      requires Valid()
      ensures s == Rest()
    {
      s := buffer[length - remaining..length];
    }

    method Copy(buf: seq<byte>)
      requires Valid() && |buf| <= SOCKET_BUFSIZE - length
      modifies this, buffer
      ensures Valid() && Rest() == old(Rest()) + buf && remaining == old(remaining) + |buf|
    {
      ghost var rest, from, to := Rest(), length - remaining, length + |buf|;
      forall i | 0 <= i < |buf| { buffer[length + i] := buf[i]; }
      Extended(buffer[..], from, length, to, rest, buf);
      length, remaining := length + |buf|, remaining + |buf|;
    }

    /** append: what fits goes behind the rest; what does not fit is returned for another buffer. */
    method Append(buf: seq<byte>) returns (more: seq<byte>)
      requires Valid()
      modifies this, buffer
      ensures Valid() && Rest() + more == old(Rest()) + buf && remaining >= old(remaining)
      ensures |more| <= |buf|
    {
      var free := SOCKET_BUFSIZE - length;
      if free >= |buf| {
        Copy(buf);
        more := [];
      } else {
        assert buf == buf[..free] + buf[free..];
        Copy(buf[..free]);
        more := buf[free..];
      }
    }

    method Consume(n: nat)
      requires Valid() && n <= remaining
      modifies this
      ensures Valid() && Rest() == old(Rest())[n..] && remaining == old(remaining) - n
    {
      remaining := remaining - n;
    }
  }

  lemma Extended(b: seq<byte>, from: nat, mid: nat, to: nat, rest: seq<byte>, buf: seq<byte>)
    requires from <= mid <= to <= |b| && rest == b[from..mid] && buf == b[mid..to]
    ensures b[from..to] == rest + buf
  {}

  /** What ::send() does: it takes some of the bytes, takes none because it is full, or fails. */
  datatype Result = Took(n: nat) | Full | Hard

  function Concat(ss: seq<seq<byte>>): seq<byte> {
    if ss == [] then [] else ss[0] + Concat(ss[1..])
  }

  lemma {:induction false} ConcatAppend(ss: seq<seq<byte>>, s: seq<byte>)
    ensures Concat(ss + [s]) == Concat(ss) + s
  {
    if ss == [] {
      assert ss + [s] == [s];
      assert Concat([s]) == s + Concat([s][1..]);
    } else {
      ConcatAppend(ss[1..], s);
      assert (ss + [s])[1..] == ss[1..] + [s];
      Associative(ss[0], Concat(ss[1..]), s);
    }
  }

  function Taken(r: Result, len: nat): nat {
    match r
    case Took(n) => if n < len then n else len
    case _ => 0
  }

  /** Each piece was taken with the answer whose turn it was, and is no longer than that allows. */
  predicate AreTaken(answers: seq<Result>, written: seq<seq<byte>>) {
    && |written| <= |answers|
    && forall k :: 0 <= k < |written| ==> AsSaid(answers[k], written[k])
  }

  predicate AsSaid(r: Result, bytes: seq<byte>) { r.Took? && |bytes| <= r.n }

  /** A piece taken off the front of the first of some sequences. */
  lemma ConcatFront(ss: seq<seq<byte>>, n: nat)
    requires ss != [] && n <= |ss[0]|
    ensures ss[0][..n] + Concat([ss[0][n..]] + ss[1..]) == Concat(ss)
    ensures n == |ss[0]| ==> ss[0] + Concat(ss[1..]) == Concat(ss)
  {
    var rest := [ss[0][n..]] + ss[1..];
    assert rest[1..] == ss[1..];
    assert ss[0][..n] + ss[0][n..] == ss[0];
    Associative(ss[0][..n], ss[0][n..], Concat(ss[1..]));
  }

  /** Something put behind the last of some sequences. */
  lemma {:induction false} ConcatBack(ss: seq<seq<byte>>, last: seq<byte>, more: seq<byte>, buf: seq<byte>)
    requires ss != [] && last + more == ss[|ss| - 1] + buf
    ensures Concat(ss[..|ss| - 1] + [last]) + more == Concat(ss) + buf
  {
    var init := ss[..|ss| - 1];
    ConcatAppend(init, last);
    ConcatAppend(init, ss[|ss| - 1]);
    assert ss == init + [ss[|ss| - 1]];
    Associative(Concat(init), last, more);
    Associative(Concat(init), ss[|ss| - 1], buf);
  }

  /** The two ends of the stream: what was handed to send(), what the socket took, what waits. */
  datatype Stream = Stream(offered: seq<byte>, taken: seq<byte>, waiting: seq<seq<byte>>, broken: bool)

  /** Until the first hard error nothing is lost, doubled or out of order; and no buffer waits empty. */
  ghost predicate Conserved(s: Stream) {
    && (!s.broken ==> s.taken + Concat(s.waiting) == s.offered)
    && (forall k {:trigger s.waiting[k]} :: 0 <= k < |s.waiting| ==> 0 < |s.waiting[k]| <= SOCKET_BUFSIZE)
  }

  /** The socket takes n bytes of what waits first. */
  function Consumed(s: Stream, n: nat): Stream
    requires s.waiting != [] && n <= |s.waiting[0]|
  {
    var w := s.waiting;
    s.(taken := s.taken + w[0][..n], waiting := if n == |w[0]| then w[1..] else [w[0][n..]] + w[1..])
  }

  lemma ConsumedOk(s: Stream, n: nat)
    requires Conserved(s) && s.waiting != [] && n <= |s.waiting[0]|
    ensures Conserved(Consumed(s, n))
  {
    var w := s.waiting;
    ConcatFront(w, n);
    Associative(s.taken, w[0][..n], Concat(if n == |w[0]| then w[1..] else [w[0][n..]] + w[1..]));
  }

  lemma MoreTaken(answers: seq<Result>, written: seq<seq<byte>>, bytes: seq<byte>)
    requires AreTaken(answers, written) && |written| < |answers|
    requires AsSaid(answers[|written|], bytes)
    ensures AreTaken(answers, written + [bytes])
  {
    var more := written + [bytes];
    forall k | 0 <= k < |more| ensures AsSaid(answers[k], more[k]) {
      if k < |written| { assert AsSaid(answers[k], written[k]); }
    }
  }

  /** The last answer let the socket take less than there was. */
  predicate WasPartial(answers: seq<Result>, written: seq<seq<byte>>)
    requires AreTaken(answers, written)
  {
    written != [] && var k := |written| - 1; AsSaid(answers[k], written[k]) && |written[k]| == answers[k].n
  }

  /** The socket took some bytes more, of what waited first. */
  lemma WroteMore(was: Stream, now: Stream, answers: seq<Result>, written: seq<seq<byte>>, bytes: seq<byte>)
    requires now.waiting != [] && |written| < |answers| && answers[|written|].Took?
    requires bytes == now.waiting[0][..Taken(answers[|written|], |now.waiting[0]|)]
    requires now.taken == was.taken + Concat(written) && Concat(written) + Concat(now.waiting) == Concat(was.waiting)
    requires AreTaken(answers, written)
    ensures |bytes| <= |now.waiting[0]| && AreTaken(answers, written + [bytes])
    ensures var s := Consumed(now, |bytes|);
            && s.taken == was.taken + Concat(written + [bytes])
            && Concat(written + [bytes]) + Concat(s.waiting) == Concat(was.waiting)
  {
    MoreTaken(answers, written, bytes);
    ConcatAppend(written, bytes);
    BytesTaken(now, bytes, was.taken, Concat(was.waiting), Concat(written), Concat(written + [bytes]));
  }

  lemma BytesTaken(now: Stream, bytes: seq<byte>, taken: seq<byte>, waiting: seq<byte>,
                   done: seq<byte>, more: seq<byte>)
    requires now.waiting != [] && bytes <= now.waiting[0] && more == done + bytes
    requires now.taken == taken + done && done + Concat(now.waiting) == waiting
    ensures var s := Consumed(now, |bytes|); s.taken == taken + more && more + Concat(s.waiting) == waiting
  {
    var s := Consumed(now, |bytes|);
    Associative(taken, done, bytes);
    ConcatFront(now.waiting, |bytes|);
    Associative(done, bytes, Concat(s.waiting));
  }

  lemma ConsumedPart(s: Stream, n: nat) returns (s': Stream)
    requires Conserved(s) && s.waiting != [] && n < |s.waiting[0]|
    ensures s' == Consumed(s, n) && Conserved(s') && s'.waiting == s.waiting[0 := s.waiting[0][n..]]
  {
    s' := Consumed(s, n);
    ConsumedOk(s, n);
    assert [s.waiting[0][n..]] + s.waiting[1..] == s.waiting[0 := s.waiting[0][n..]];
  }

  /** Something put behind the last of what waits. */
  lemma PlacedOk(s: Stream, last: seq<byte>, placed: seq<byte>, s': Stream)
    requires Conserved(s) && s.waiting != [] && last == s.waiting[|s.waiting| - 1] + placed
    requires 0 < |last| <= SOCKET_BUFSIZE
    requires s' == s.(waiting := s.waiting[|s.waiting| - 1 := last], offered := s.offered + placed)
    ensures Conserved(s')
  {
    var n := |s.waiting| - 1;
    ConcatBack(s.waiting, last, [], placed);
    Associative(s.taken, Concat(s.waiting), placed);
    assert s.waiting[n := last] == s.waiting[..n] + [last];
  }

  /** What can happen to a sender: it is given bytes, or the socket is ready for what waits. */
  datatype Op = Give(buf: seq<byte>, answer: Result) | Flush(answers: seq<Result>)

  function OfOp(op: Op): seq<byte> { if op.Give? then op.buf else [] }

  /** All that send() was given. */
  function Given(ops: seq<Op>): seq<byte>
    decreases |ops|
  {
    if ops == [] then [] else Given(ops[..|ops| - 1]) + OfOp(ops[|ops| - 1])
  }

  lemma GivenNext(ops: seq<Op>, k: nat)
    requires k < |ops|
    ensures Given(ops[..k + 1]) == Given(ops[..k]) + OfOp(ops[k])
  {
    assert ops[..k + 1][..k] == ops[..k];
  }

  lemma {:induction false} GivenPrefix(ops: seq<Op>, k: nat)
    requires k <= |ops|
    ensures Given(ops[..k]) <= Given(ops)
    decreases |ops|
  {
    if k == |ops| {
      assert ops[..k] == ops;
    } else {
      var init := ops[..|ops| - 1];
      GivenPrefix(init, k);
      assert init[..k] == ops[..k];
    }
  }

  lemma {:induction false} ConcatConcat(ss: seq<seq<byte>>, more: seq<seq<byte>>)
    ensures Concat(ss + more) == Concat(ss) + Concat(more)
    decreases |more|
  {
    if more == [] {
      assert ss + more == ss;
    } else {
      var init, s := more[..|more| - 1], more[|more| - 1];
      assert ss + more == (ss + init) + [s] && more == init + [s];
      ConcatConcat(ss, init);
      ConcatAppend(ss + init, s);
      ConcatAppend(init, s);
      Associative(Concat(ss), Concat(init), s);
    }
  }

  datatype Aspect = Buffers | Content

  class Sender {
    var socketQ: seq<SocketBuffer>
    var maxSocketQSize: nat
    ghost var stream: Stream
    ghost var Repr: set<object>

    ghost predicate Holds(a: Aspect)
      reads this, Repr
    {
      match a
      case Buffers =>
        && this in Repr && |socketQ| == |stream.waiting|
        && (forall k {:trigger socketQ[k]} :: 0 <= k < |socketQ| ==>
              && socketQ[k] in Repr && socketQ[k].buffer in Repr && socketQ[k].Valid()
              && socketQ[k].Rest() == stream.waiting[k])
        && (forall j, k {:trigger socketQ[j], socketQ[k]} :: 0 <= j < k < |socketQ| ==>
              socketQ[j] != socketQ[k] && socketQ[j].buffer != socketQ[k].buffer)
      case Content => Conserved(stream)
    }

    ghost predicate Valid()
      reads this, Repr
      ensures Valid() ==> this in Repr && |socketQ| == |stream.waiting|
    {
      assert Holds(Buffers) ==> this in Repr;
      forall a: Aspect {:trigger Holds(a)} :: Holds(a)
    }

    constructor ()
      ensures Valid() && fresh(Repr) && stream == Stream([], [], [], false)
    {
      socketQ, maxSocketQSize, stream, Repr := [], 0, Stream([], [], [], false), {this};
    }

    /** socketQ.push(new SocketBuffer(buf)) */
    method Push(buf: seq<byte>)
      requires Valid() && 0 < |buf| <= SOCKET_BUFSIZE
      modifies this
      ensures Valid() && fresh(Repr - old(Repr))
      ensures stream == old(stream).(waiting := old(stream).waiting + [buf], offered := old(stream).offered + buf)
    {
      assert Holds(Buffers) && Holds(Content);
      var b := new SocketBuffer(buf);
      ConcatAppend(stream.waiting, buf);
      Associative(stream.taken, Concat(stream.waiting), buf);
      socketQ := socketQ + [b];
      stream := stream.(waiting := stream.waiting + [buf], offered := stream.offered + buf);
      Repr := Repr + {b, b.buffer};
      assert Holds(Buffers);
    }

    /** socketQ.current()->append(buf): `more` does not fit. */
    method AppendToLast(buf: seq<byte>) returns (more: seq<byte>)
      requires Valid() && socketQ != [] && |buf| <= SOCKET_BUFSIZE
      modifies Repr
      ensures Valid() && Repr == old(Repr) && |more| <= SOCKET_BUFSIZE
      ensures stream.offered + more == old(stream).offered + buf && stream.taken == old(stream).taken
      ensures stream.broken == old(stream).broken && |stream.waiting| == |old(stream).waiting|
    {
      assert Holds(Buffers) && Holds(Content);
      var n := |socketQ| - 1;
      ghost var was := stream;
      more := socketQ[n].Append(buf);
      ghost var last := socketQ[n].Rest();
      ghost var placed := buf[..|buf| - |more|];
      PlacedPart(was.waiting[n], buf, last, more);
      stream := stream.(waiting := was.waiting[n := last], offered := was.offered + placed);
      PlacedOk(was, last, placed, stream);
      Associative(was.offered, placed, more);
      assert Holds(Buffers);
    }

    /** send: `answer` is that of the socket, which is asked only when nothing waits; `written` is what
        it took. */
    method Send(buf: seq<byte>, answer: Result) returns (ok: bool, written: seq<byte>)
      requires Valid() && |buf| <= SOCKET_BUFSIZE
      modifies Repr
      ensures Valid() && fresh(Repr - old(Repr))
      ensures ok == !(old(stream).waiting == [] && answer == Hard)
      ensures ok ==> stream.offered == old(stream).offered + buf && stream.broken == old(stream).broken
      ensures !ok ==> stream == old(stream).(broken := true)
      ensures written == if old(stream).waiting == [] then buf[..Taken(answer, |buf|)] else []
      ensures stream.taken == old(stream).taken + written
    {
      written := [];
      assert Holds(Buffers);
      if socketQ == [] {
        if answer == Hard {
          Break();
          return false, [];
        }
        var sLen := Taken(answer, |buf|);
        written := buf[..sLen];
        assert buf == buf[..sLen] + buf[sLen..];
        Associative(stream.offered, buf[..sLen], buf[sLen..]);
        Write(buf[..sLen]);
        if sLen < |buf| { Push(buf[sLen..]); }
      } else {
        var more := AppendToLast(buf);
        if |more| > 0 { Push(more); }
      }
      if |socketQ| > maxSocketQSize { Measure(); }
      ok := true;
    }

    method Measure()
      requires Valid()
      modifies this`maxSocketQSize
      ensures Valid() && maxSocketQSize == |socketQ|
    {
      assert Holds(Buffers) && Holds(Content);
      maxSocketQSize := |socketQ|;
    }

    /** The socket takes bytes at once. */
    ghost method Write(bs: seq<byte>)
      requires Valid() && stream.waiting == []
      modifies this`stream
      ensures Valid() && stream == old(stream).(offered := old(stream).offered + bs, taken := old(stream).taken + bs)
    {
      assert Holds(Buffers) && Holds(Content);
      assert stream.taken + [] == stream.taken && stream.taken + bs + [] == stream.taken + bs;
      stream := stream.(offered := stream.offered + bs, taken := stream.taken + bs);
    }

    ghost method Break()
      requires Valid()
      modifies this`stream
      ensures Valid() && stream == old(stream).(broken := true)
    {
      assert Holds(Buffers) && Holds(Content);
      stream := stream.(broken := true);
    }

    /** consume(n), for less than all of the first buffer. */
    method ConsumePart(n: nat)
      requires Valid() && socketQ != [] && stream.waiting != [] && n < |stream.waiting[0]|
      modifies Repr
      ensures Valid() && Repr == old(Repr) && stream == Consumed(old(stream), n)
    {
      assert Holds(Buffers) && Holds(Content);
      ghost var s := ConsumedPart(stream, n);
      socketQ[0].Consume(n);
      stream := s;
      assert Holds(Buffers);
    }

    /** The first buffer is empty, and deleted. */
    method ConsumeAll()
      requires Valid() && socketQ != [] && stream.waiting != []
      modifies Repr
      ensures Valid() && Repr == old(Repr) && stream == Consumed(old(stream), |old(stream).waiting[0]|)
    {
      assert Holds(Buffers) && Holds(Content);
      ConsumedOk(stream, |stream.waiting[0]|);
      stream := Consumed(stream, |stream.waiting[0]|);
      ghost var was := socketQ;
      socketQ := socketQ[1..];
      assert forall k {:trigger socketQ[k]} :: 0 <= k < |socketQ| ==> socketQ[k] == was[k + 1];
      assert Holds(Buffers);
    }

    /** One call of ::send with what waits first, of which the socket takes as much as it said: `bytes`.
        `all` says whether that was all of the buffer. */
    method WriteFirst(n: nat) returns (bytes: seq<byte>, all: bool)
      requires Valid() && socketQ != []
      modifies Repr
      ensures Valid() && Repr == old(Repr) && old(stream).waiting != []
      ensures var first := old(stream).waiting[0];
              && bytes == first[..Taken(Took(n), |first|)] && all == (|bytes| == |first|)
              && stream == Consumed(old(stream), |bytes|)
    {
      assert Holds(Buffers);
      var data := socketQ[0].Data();
      var sLen := Taken(Took(n), |data|);
      bytes, all := data[..sLen], sLen == |data|;
      if all { ConsumeAll(); } else { ConsumePart(sLen); }
    }

    /** sendPendingPackets: `answers` are those of the socket, of which `used` let it take something, and
        `written` is what it took; when they are used up it is full. The result says if the connection
        is lost. */
    method SendPendingPackets(answers: seq<Result>) returns (lost: bool, used: nat, written: seq<seq<byte>>)
      requires Valid()
      modifies Repr
      ensures Valid() && Repr == old(Repr)
      ensures stream.offered == old(stream).offered && stream.broken == (old(stream).broken || lost)
      ensures stream.taken == old(stream).taken + Concat(written) && |written| == used
      ensures AreTaken(answers, written)
      ensures Concat(written) + Concat(stream.waiting) == Concat(old(stream).waiting)
      ensures lost ==> used < |answers| && answers[used] == Hard
      ensures stream.waiting != [] && !lost ==>
                used == |answers| || answers[used] == Full || WasPartial(answers, written)
    {
      used, written := 0, [];
      ghost var was := stream;
      assert was.taken + Concat([]) == was.taken;
      while socketQ != []
        invariant Valid() && Repr == old(Repr) && |written| == used && AreTaken(answers, written)
        invariant stream.offered == was.offered && stream.broken == was.broken
        invariant stream.taken == was.taken + Concat(written)
        invariant Concat(written) + Concat(stream.waiting) == Concat(was.waiting)
        decreases |answers| - used
      {
        if used == |answers| || answers[used] == Full { return false, used, written; }
        if answers[used] == Hard {
          Break();
          return true, used, written;
        }
        ghost var now := stream;
        var bytes, all := WriteFirst(answers[used].n);
        WroteMore(was, now, answers, written, bytes);
        written, used := written + [bytes], used + 1;
        if !all { return false, used, written; }
      }
      return false, used, written;
    }

    /** A run of a new connection: `written` is what the socket took, up to the end of the run or to the
        loss of the connection. It is a prefix of what send() was given, the rest of it waits, and if
        nothing waits it is all of it. */
    method Serve(ops: seq<Op>) returns (ok: bool, written: seq<seq<byte>>)
      requires Valid() && stream == Stream([], [], [], false)
      requires forall k {:trigger ops[k]} :: 0 <= k < |ops| && ops[k].Give? ==> |ops[k].buf| <= SOCKET_BUFSIZE
      modifies Repr
      ensures Valid() && fresh(Repr - old(Repr)) && Concat(written) <= Given(ops)
      ensures ok ==> Concat(written) + Concat(stream.waiting) == Given(ops)
      ensures ok && socketQ == [] ==> Concat(written) == Given(ops)
    {
      written := [];
      var k := 0;
      assert ops[..0] == [];
      while k < |ops|
        invariant 0 <= k <= |ops| && Valid() && fresh(Repr - old(Repr)) && !stream.broken
        invariant stream.taken == Concat(written) && stream.offered == Given(ops[..k])
      {
        GivenNext(ops, k);
        ok, written := ServeOne(ops[k], written);
        if !ok {
          GivenPrefix(ops, k);
          return;
        }
        k := k + 1;
      }
      assert ops[..k] == ops && Holds(Content);
      ok := true;
    }

    method ServeOne(op: Op, before: seq<seq<byte>>) returns (ok: bool, written: seq<seq<byte>>)
      requires Valid() && !stream.broken && stream.taken == Concat(before)
      requires op.Give? ==> |op.buf| <= SOCKET_BUFSIZE
      modifies Repr
      ensures Valid() && fresh(Repr - old(Repr)) && stream.taken == Concat(written)
      ensures ok ==> !stream.broken && stream.offered == old(stream).offered + OfOp(op)
      ensures !ok ==> Concat(written) <= old(stream).offered
    {
      assert Holds(Content);
      ghost var was := stream;
      match op
      case Give(buf, answer) =>
        var bytes: seq<byte>;
        ok, bytes := Send(buf, answer);
        written := before + [bytes];
        ConcatAppend(before, bytes);
      case Flush(answers) =>
        var lost, used, more := SendPendingPackets(answers);
        ok, written := !lost, before + more;
        ConcatConcat(before, more);
        Associative(Concat(before), Concat(more), Concat(stream.waiting));
    }
  }

  /** What Append placed is what it did not return. */
  lemma PlacedPart(rest: seq<byte>, buf: seq<byte>, last: seq<byte>, more: seq<byte>)
    requires last + more == rest + buf && |more| <= |buf|
    ensures last == rest + buf[..|buf| - |more|] && buf[..|buf| - |more|] + more == buf
  {
    var n := |buf| - |more|;
    assert (last + more)[..|last|] == last && (last + more)[|last|..] == more;
    assert (rest + buf)[..|rest| + n] == rest + buf[..n];
    assert (rest + buf)[|rest| + n..] == buf[n..];
  }
}
