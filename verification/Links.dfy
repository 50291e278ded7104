/** Two daemons with a link from one to the other: what a responder sends for a reply slot reaches the
    client of the request, all of it and in order. */
module Links {
  import opened Sequences
  import opened SlotPools
  import opened Acnet
  import opened Daemon
  import opened Invariant
  import opened Registers
  import opened History
  import opened Preservation
  import opened Removal
  import opened Continuity
  import opened Handlers
  import opened Steps
  import opened Repliers
  import opened Guarantees
  import opened Protocol
  import opened Pairs
  import opened Deliveries

  /** Two daemons; of the packets in the log of the first, those before `read` have left the link. */
  datatype Joint = Joint(a: State, b: State, read: nat)

  /** What can happen: an input to one of the daemons, or the next packet of the first leaves the link. */
  datatype Move = AtA(e: Input) | AtB(e: Input) | Arrive

  /** The reply to this node that an entry of the log is, if it is one. */
  function ReplyTo(node: nat, e: Event): Option<Header> {
    match e
    case Sent(h) => if IsReply(h.flags) && h.client == node then Some(h) else None
    case Replied(_, h) => if IsReply(h.flags) && h.client == node then Some(h) else None
    case _ => None
  }

  function Next(cA: Config, cB: Config, x: Joint, m: Move): Joint {
    match m
    case AtA(e) => x.(a := Step(cA, x.a, e))
    case AtB(e) => x.(b := Step(cB, x.b, e))
    case Arrive =>
      if x.read >= |x.a.log| then x
      else
        var g := ReplyTo(cB.node, x.a.log[x.read]);
        x.(b := if g.Some? then Step(cB, x.b, Answered(g.value)) else x.b, read := x.read + 1)
  }

  function After(cA: Config, cB: Config, x: Joint, ms: seq<Move>): Joint
    decreases |ms|
  {
    if ms == [] then x else Next(cA, cB, After(cA, cB, x, ms[..|ms| - 1]), ms[|ms| - 1])
  }

  /** What the client of a request was handed, but for ACNET_PENDs. */
  function Delivered(l: seq<Event>, n: nat): seq<Header> {
    if l == [] then []
    else
      var e := l[|l| - 1];
      Delivered(l[..|l| - 1], n) + (if e.Handed? && e.serial == n && e.h.status != PEND then [e.h] else [])
  }

  /** A reply for request r in the slot with this id, whose owner has this task id. */
  predicate Meant(h: Header, r: Req, id: nat, taskId: nat) {
    h.msgId == id && h.server == r.remNode && h.task == r.taskName && h.taskId == taskId && h.status != PEND
  }

  /** What packets of a log bring to request r, as its client sees it. */
  function Brought(l: seq<Event>, node: nat, r: Req, id: nat, taskId: nat): seq<Header> {
    if l == [] then []
    else Brought(l[..|l| - 1], node, r, id, taskId) + BroughtBy(l[|l| - 1], node, r, id, taskId)
  }

  function BroughtBy(e: Event, node: nat, r: Req, id: nat, taskId: nat): seq<Header> {
    var g := ReplyTo(node, e);
    if g.Some? && Meant(g.value, r, id, taskId) then [ReplyForClient(r, g.value)] else []
  }

  lemma DeliveredNext(l: seq<Event>, e: Event, n: nat)
    ensures Delivered(l + [e], n)
         == Delivered(l, n) + (if e.Handed? && e.serial == n && e.h.status != PEND then [e.h] else [])
  {
    assert (l + [e])[..|l|] == l;
  }

  // ---- The requester ----

  /** A request that stays open is handed nothing by a steady change. */
  lemma {:induction false} SteadyDelivers(l: seq<Event>, s: State, s': State, w: Watch, n: nat)
    requires Keeps(Packets, s, s', w) && w.requests && s.log <= l <= s'.log && !Freed(s'.reqs, n)
    ensures Delivered(l, n) == Delivered(s.log, n)
    decreases |l|
  {
    if |l| == |s.log| {
      assert l == s.log;
    } else {
      var k := |l| - 1;
      assert l[k] == s'.log[k] && Fair(s'.log[k], s, s', w);
      SteadyDelivers(l[..k], s, s', w, n);
      assert l == l[..k] + [l[k]];
    }
  }

  lemma SteadyKeeps(s: State, s': State, w: Watch, j: nat)
    requires Steady(s, s', w) && w.requests && j in s'.reqs.pool.slots
    ensures Delivered(s'.log, s'.reqs.pool.slots[j].serial) == Delivered(s.log, s'.reqs.pool.slots[j].serial)
  {
    SteadyParts(s, s', w);
    assert !Freed(s'.reqs, s'.reqs.pool.slots[j].serial);
    SteadyDelivers(s'.log, s, s', w, s'.reqs.pool.slots[j].serial);
  }

  /** A key that a request does not have. */
  function OtherKey(e: Input): Key { if e.Requested? then (e.h.client + 1, e.h.msgId) else (0, 0) }

  /** An input that is no reply. */
  lemma StepDelivers(c: Config, s: State, e: Input, j: nat)
    requires Inv(c, s, {}) && !e.Answered? && j in Step(c, s, e).reqs.pool.slots
    ensures var s' := Step(c, s, e);
            Delivered(s'.log, s'.reqs.pool.slots[j].serial) == Delivered(s.log, s'.reqs.pool.slots[j].serial)
  {
    var w := Watch(OtherKey(e), true);
    ReqPart(c, s, {});
    StepSteady(c, s, e, w);
    SteadyKeeps(s, Step(c, s, e), w, j);
  }

  /** What a reply brings to request r in slot j. */
  function Brings(c: Config, s: State, h: Header, j: nat, r: Req): seq<Header> {
    if Meant(h, r, c.reqBank + j, InfoOf(s.reg, r.owner).id) then [ReplyForClient(r, h)] else []
  }

  /** A reply that arrives is handed to a unicast request that stays open exactly if it is meant for it. */
  lemma ReplyDelivers(c: Config, s: State, h: Header, j: nat)
    requires Inv(c, s, {}) && StillReq(s, NetReply(c, s, h), j) && !s.reqs.pool.slots[j].mcast
    ensures var r := s.reqs.pool.slots[j];
            Delivered(NetReply(c, s, h).log, r.serial) == Delivered(s.log, r.serial) + Brings(c, s, h, j, r)
  {
    var r, slot := s.reqs.pool.slots[j], Slot(s.reqs.pool, c.reqBank, h.msgId);
    if slot.None? || !ReplyFits(s, s.reqs.pool.slots[slot.value], h) {
      StrayReplyIsCancelled(c, s, h);
      DeliveredNext(s.log, Sent(StrayCancel(h)), r.serial);
      assert !Meant(h, r, c.reqBank + j, InfoOf(s.reg, r.owner).id) by {
        assert c.reqBank + j - c.reqBank == j;
      }
    } else if !Alive(c, s, s.reqs.pool.slots[slot.value].owner) {
      DeadDelivers(c, s, h, j, slot.value);
    } else {
      LiveDelivers(c, s, h, j, slot.value);
    }
  }

  lemma DeadDelivers(c: Config, s: State, h: Header, j: nat, i: nat)
    requires Inv(c, s, {}) && StillReq(s, NetReply(c, s, h), j) && Slot(s.reqs.pool, c.reqBank, h.msgId) == Some(i)
    requires ReplyFits(s, s.reqs.pool.slots[i], h) && !Alive(c, s, s.reqs.pool.slots[i].owner)
    ensures var r := s.reqs.pool.slots[j];
            Delivered(NetReply(c, s, h).log, r.serial) == Delivered(s.log, r.serial) && h.msgId != c.reqBank + j
  {
    var u, s1 := s.reqs.pool.slots[i].owner, Asked(s);
    var w := Watch((0, 0), true);
    ReqPart(c, s, {});
    ReqOwner(c, s, i);
    ClientIsNotInternal(c, s, u);
    AskedInv(c, s, {});
    SameSteady(s, s1, w);
    RemoveTaskSteady(c, s1, u, w);
    SteadyOn(s, s1, RemoveTask(c, s1, u), w);
    SteadyKeeps(s, RemoveTask(c, s1, u), w, j);
    RemoveTaskComplete(c, s1, u);
    RemoveTaskInv(c, s1, u);
    assert RemoveTask(c, s1, u).reqs.pool.slots[j] == s.reqs.pool.slots[j];
  }

  lemma LiveDelivers(c: Config, s: State, h: Header, j: nat, i: nat)
    requires Inv(c, s, {}) && StillReq(s, NetReply(c, s, h), j) && !s.reqs.pool.slots[j].mcast
    requires Slot(s.reqs.pool, c.reqBank, h.msgId) == Some(i)
    requires ReplyFits(s, s.reqs.pool.slots[i], h) && Alive(c, s, s.reqs.pool.slots[i].owner)
    ensures var r := s.reqs.pool.slots[j];
            Delivered(NetReply(c, s, h).log, r.serial) == Delivered(s.log, r.serial) + Brings(c, s, h, j, r)
  {
    var q, n := s.reqs.pool.slots[i], s.reqs.pool.slots[j].serial;
    assert (q.serial == n) == (i == j) by { ReqPart(c, s, {}); }
    if h.status != PEND {
      HandedDelivers(c, s, h, j, i, n);
    }
  }

  lemma HandedDelivers(c: Config, s: State, h: Header, j: nat, i: nat, n: nat)
    requires Inv(c, s, {}) && Slot(s.reqs.pool, c.reqBank, h.msgId) == Some(i) && h.status != PEND
    requires ReplyFits(s, s.reqs.pool.slots[i], h) && Alive(c, s, s.reqs.pool.slots[i].owner)
    requires j in NetReply(c, s, h).reqs.pool.slots && NetReply(c, s, h).reqs.pool.slots[j].serial == n
    ensures var q := s.reqs.pool.slots[i];
            var g := ReplyForClient(q, h);
            Delivered(NetReply(c, s, h).log, n)
            == Delivered(s.log, n) + (if q.serial == n && g.status != PEND then [g] else [])
  {
    var q := s.reqs.pool.slots[i];
    var s1 := Asked(s).(reqs := TouchReq(s.reqs, i, s.now));
    var s2 := Hand(c, s1, q, ReplyForClient(q, h));
    ReqPart(c, s, {});
    DeliveredNext(s.log, Handed(q.serial, Mlt(q.flags), q.mcast, ReplyForClient(q, h), Alive(c, s1, q.owner)), n);
    EndsQuietly(c, s2, h.msgId, Mlt(q.flags) || q.mcast, j, n);
    EndsQuietly(c, s2, h.msgId, !Mlt(q.flags) && (!IsEmr(h) || q.mcast), j, n);
  }

  /** Cancelling some request hands nothing to another one. */
  lemma EndsQuietly(c: Config, s: State, id: nat, xmt: bool, j: nat, n: nat)
    requires ReqBorn(s.reqs.pool.slots, s.reqs.born)
    ensures var s' := CancelReqId(c, s, id, xmt, false);
            j in s'.reqs.pool.slots && s'.reqs.pool.slots[j].serial == n ==> Delivered(s'.log, n) == Delivered(s.log, n)
  {
    var w := Watch((0, 0), true);
    CancelReqIdSteady(c, s, id, xmt, false, w);
    var s' := CancelReqId(c, s, id, xmt, false);
    if j in s'.reqs.pool.slots { SteadyKeeps(s, s', w, j); }
  }

  // ---- The responder ----

  /** What a daemon logs, it has logged for good. */
  lemma LogGrows(c: Config, s: State, e: Input)
    requires Inv(c, s, {})
    ensures s.log <= Step(c, s, e).log
  {
    var w := Watch(OtherKey(e), false);
    ReqPart(c, s, {});
    StepSteady(c, s, e, w);
    SteadyParts(s, Step(c, s, e), w);
  }

  // ---- Runs ----

  /** Replies of this node come over the link only. */
  ghost predicate OverLink(ms: seq<Move>, node: nat) {
    forall k {:trigger ms[k]} :: 0 <= k < |ms| && ms[k].AtB? && ms[k].e.Answered? ==> ms[k].e.h.server != node
  }

  /** Both daemons stay sound, and what left the link was in the log. */
  lemma {:induction false} AfterOk(cA: Config, cB: Config, x: Joint, ms: seq<Move>)
    requires Inv(cA, x.a, {}) && Inv(cB, x.b, {}) && x.read <= |x.a.log|
    ensures var y := After(cA, cB, x, ms);
            && Inv(cA, y.a, {}) && Inv(cB, y.b, {}) && x.read <= y.read <= |y.a.log| && x.a.log <= y.a.log
            && Goes(x.b, y.b) && Goes(x.a, y.a)
    decreases |ms|
  {
    if ms == [] {
      SameFollows(x.a, x.a);
      SameFollows(x.b, x.b);
      FollowsGoes(x.a, x.a);
      FollowsGoes(x.b, x.b);
    } else {
      var y, m := After(cA, cB, x, ms[..|ms| - 1]), ms[|ms| - 1];
      AfterOk(cA, cB, x, ms[..|ms| - 1]);
      NextOk(cA, cB, y, m);
      GoesOn(x.a, y.a, Next(cA, cB, y, m).a);
      GoesOn(x.b, y.b, Next(cA, cB, y, m).b);
    }
  }

  lemma NextOk(cA: Config, cB: Config, x: Joint, m: Move)
    requires Inv(cA, x.a, {}) && Inv(cB, x.b, {}) && x.read <= |x.a.log|
    ensures var y := Next(cA, cB, x, m);
            && Inv(cA, y.a, {}) && Inv(cB, y.b, {}) && x.read <= y.read <= |y.a.log| && x.a.log <= y.a.log
            && Goes(x.b, y.b) && Goes(x.a, y.a)
  {
    SameFollows(x.a, x.a);
    SameFollows(x.b, x.b);
    FollowsGoes(x.a, x.a);
    FollowsGoes(x.b, x.b);
    match m
    case AtA(e) =>
      StepInv(cA, x.a, e);
      StepGoes(cA, x.a, e);
      LogGrows(cA, x.a, e);
    case AtB(e) =>
      StepInv(cB, x.b, e);
      StepGoes(cB, x.b, e);
    case Arrive =>
      if x.read < |x.a.log| {
        var g := ReplyTo(cB.node, x.a.log[x.read]);
        if g.Some? {
          StepInv(cB, x.b, Answered(g.value));
          StepGoes(cB, x.b, Answered(g.value));
        }
      }
  }

  /** A slot that holds a request at the end has held it all along, for the same task id. */
  lemma HeldBefore(c: Config, s0: State, s1: State, s2: State, j: nat)
    requires Inv(c, s0, {}) && Goes(s0, s1) && Goes(s1, s2) && StillReq(s0, s2, j)
    ensures StillReq(s0, s1, j) && StillReq(s1, s2, j) && s1.reqs.pool.slots[j] == s0.reqs.pool.slots[j]
    ensures var u := s0.reqs.pool.slots[j].owner; InfoOf(s1.reg, u).id == InfoOf(s0.reg, u).id
  {
    GoesParts(s0, s1);
    GoesParts(s1, s2);
    SerialBelow(c, s0, j);
    assert StaysReq(s1, s2, j);
    assert StaysReq(s0, s1, j);
  }

  /** Between x and y the client of request j has been handed exactly the replies meant for it that left
      the link, in their order. */
  ghost predicate InOrder(cB: Config, x: Joint, y: Joint, j: nat)
    requires j in x.b.reqs.pool.slots
  {
    var r := x.b.reqs.pool.slots[j];
    && x.read <= y.read <= |y.a.log|
    && Delivered(y.b.log, r.serial)
       == Delivered(x.b.log, r.serial)
          + Brought(y.a.log[x.read..y.read], cB.node, r, cB.reqBank + j, InfoOf(x.b.reg, r.owner).id)
  }

  lemma InOrderOn(cB: Config, x: Joint, y: Joint, z: Joint, j: nat)
    requires j in x.b.reqs.pool.slots && j in y.b.reqs.pool.slots && y.b.reqs.pool.slots[j] == x.b.reqs.pool.slots[j]
    requires var u := x.b.reqs.pool.slots[j].owner; InfoOf(y.b.reg, u).id == InfoOf(x.b.reg, u).id
    requires InOrder(cB, x, y, j) && InOrder(cB, y, z, j) && y.a.log <= z.a.log
    ensures InOrder(cB, x, z, j)
  {
    var r := x.b.reqs.pool.slots[j];
    var id, taskId := cB.reqBank + j, InfoOf(x.b.reg, r.owner).id;
    var l, m := y.a.log[x.read..y.read], z.a.log[y.read..z.read];
    TwoParts(y.a.log, z.a.log, x.read, y.read, z.read);
    BroughtConcat(l, m, cB.node, r, id, taskId);
    Associative(Delivered(x.b.log, r.serial), Brought(l, cB.node, r, id, taskId), Brought(m, cB.node, r, id, taskId));
  }

  /** One move brings the request what leaves the link, and nothing else. */
  lemma MoveDelivers(cA: Config, cB: Config, x: Joint, m: Move, j: nat)
    requires Inv(cA, x.a, {}) && Inv(cB, x.b, {}) && x.read <= |x.a.log|
    requires StillReq(x.b, Next(cA, cB, x, m).b, j) && !x.b.reqs.pool.slots[j].mcast
    requires m.AtB? && m.e.Answered? ==> m.e.h.server != x.b.reqs.pool.slots[j].remNode
    ensures InOrder(cB, x, Next(cA, cB, x, m), j)
  {
    var y := Next(cA, cB, x, m);
    NextOk(cA, cB, x, m);
    match m
    case AtA(e) => NothingBrought(y.a.log, x.read);
    case AtB(e) =>
      NothingBrought(y.a.log, x.read);
      if e.Answered? {
        PacketStep(cB, x.b, e.h);
        ReplyDelivers(cB, x.b, e.h, j);
      } else {
        StepDelivers(cB, x.b, e, j);
      }
    case Arrive =>
      if x.read < |x.a.log| { ArrivalDelivers(cB, x, y, j); } else { NothingBrought(y.a.log, x.read); }
  }

  lemma NothingBrought(l: seq<Event>, n: nat)
    requires n <= |l|
    ensures l[n..n] == []
  {}

  lemma ArrivalDelivers(cB: Config, x: Joint, y: Joint, j: nat)
    requires Inv(cB, x.b, {}) && x.read < |x.a.log| && y.a == x.a && y.read == x.read + 1
    requires var g := ReplyTo(cB.node, x.a.log[x.read]);
             y.b == if g.Some? then Step(cB, x.b, Answered(g.value)) else x.b
    requires StillReq(x.b, y.b, j) && !x.b.reqs.pool.slots[j].mcast
    ensures InOrder(cB, x, y, j)
  {
    var g, l := ReplyTo(cB.node, x.a.log[x.read]), y.a.log[x.read..y.read];
    assert l == [x.a.log[x.read]] && l[..0] == [];
    if g.Some? {
      PacketStep(cB, x.b, g.value);
      ReplyDelivers(cB, x.b, g.value, j);
    }
  }

  lemma {:induction false} BroughtConcat(l: seq<Event>, m: seq<Event>, node: nat, r: Req, id: nat, taskId: nat)
    ensures Brought(l + m, node, r, id, taskId) == Brought(l, node, r, id, taskId) + Brought(m, node, r, id, taskId)
    decreases |m|
  {
    if m == [] {
      assert l + m == l;
    } else {
      assert (l + m)[..|l + m| - 1] == l + m[..|m| - 1];
      BroughtConcat(l, m[..|m| - 1], node, r, id, taskId);
    }
  }

  /** As long as a unicast request is open, its client has been handed exactly the replies meant for it
      that have left the link, in their order, whatever else happened to the two daemons. */
  lemma {:induction false} RepliesInOrder(cA: Config, cB: Config, x: Joint, ms: seq<Move>, j: nat)
    requires Inv(cA, x.a, {}) && Inv(cB, x.b, {}) && x.read <= |x.a.log|
    requires StillReq(x.b, After(cA, cB, x, ms).b, j) && !x.b.reqs.pool.slots[j].mcast
    requires OverLink(ms, x.b.reqs.pool.slots[j].remNode)
    ensures InOrder(cB, x, After(cA, cB, x, ms), j)
    decreases |ms|
  {
    if ms == [] {
      NothingBrought(x.a.log, x.read);
    } else {
      var init, m := ms[..|ms| - 1], ms[|ms| - 1];
      var y := After(cA, cB, x, init);
      var z := Next(cA, cB, y, m);
      AfterOk(cA, cB, x, init);
      NextOk(cA, cB, y, m);
      HeldBefore(cB, x.b, y.b, z.b, j);
      assert OverLink(init, x.b.reqs.pool.slots[j].remNode) by {
        forall k | 0 <= k < |init| ensures init[k] == ms[k] {}
      }
      RepliesInOrder(cA, cB, x, init, j);
      MoveDelivers(cA, cB, y, m, j);
      InOrderOn(cB, x, y, z, j);
    }
  }

  lemma TwoParts(l: seq<Event>, l': seq<Event>, i: nat, j: nat, k: nat)
    requires l <= l' && i <= j <= |l| && j <= k <= |l'|
    ensures l'[i..k] == l[i..j] + l'[j..k]
  {}

  // ---- The replies of one slot ----

  /** What the replies of one allocation of a reply slot look like to the client of request r. */
  function SentFor(l: seq<Event>, serial: nat, r: Req): seq<Header> {
    if l == [] then [] else SentFor(l[..|l| - 1], serial, r) + SentBy(l[|l| - 1], serial, r)
  }

  function SentBy(e: Event, serial: nat, r: Req): seq<Header> {
    if e.Replied? && e.serial == serial && e.h.status != PEND then [ReplyForClient(r, e.h)] else []
  }

  /** Only reply slot i has its key. */
  ghost predicate Alone(s: State, i: nat) {
    i in s.rpys.pool.slots && forall k {:trigger s.rpys.pool.slots[k]} ::
      k in s.rpys.pool.slots && KeyOf(s.rpys.pool.slots[k]) == KeyOf(s.rpys.pool.slots[i]) ==> k == i
  }

  /** The responder receives no other request with the key. */
  ghost predicate NotRepeated(ms: seq<Move>, key: Key) {
    forall k {:trigger ms[k]} :: 0 <= k < |ms| && ms[k].AtA? && ms[k].e.Requested? ==> KeyIn(ms[k].e.h) != key
  }

  lemma {:induction false} ResponderSteady(cA: Config, cB: Config, x: Joint, ms: seq<Move>, key: Key)
    requires Inv(cA, x.a, {}) && Inv(cB, x.b, {}) && x.read <= |x.a.log| && NotRepeated(ms, key)
    ensures Steady(x.a, After(cA, cB, x, ms).a, Watch(key, false))
    decreases |ms|
  {
    var w := Watch(key, false);
    SameSteady(x.a, x.a, w);
    if ms != [] {
      var init, m := ms[..|ms| - 1], ms[|ms| - 1];
      var y := After(cA, cB, x, init);
      assert NotRepeated(init, key) by { forall k | 0 <= k < |init| ensures init[k] == ms[k] {} }
      ResponderSteady(cA, cB, x, init, key);
      AfterOk(cA, cB, x, init);
      if m.AtA? {
        ReqPart(cA, y.a, {});
        StepSteady(cA, y.a, m.e, w);
        SteadyOn(x.a, y.a, Step(cA, y.a, m.e), w);
      }
    }
  }

  /** Every reply with the key is one of slot i. */
  lemma RepliesOfSlot(s: State, s': State, i: nat, k: nat, node: nat)
    requires Alone(s, i) && Keeps(Packets, s, s', Watch(KeyOf(s.rpys.pool.slots[i]), false))
    requires |s.log| <= k < |s'.log|
    ensures var p, g := s.rpys.pool.slots[i], ReplyTo(node, s'.log[k]);
            g.Some? && KeyIn(g.value) == KeyOf(p) ==> s'.log[k] == Replied(p.serial, g.value) && Speaks(g.value, p)
  {
    assert Fair(s'.log[k], s, s', Watch(KeyOf(s.rpys.pool.slots[i]), false));
  }

  /** And every reply of slot i has the key. */
  lemma SlotReplies(c: Config, s: State, s': State, i: nat, k: nat)
    requires Inv(c, s, {}) && Alone(s, i) && Keeps(Packets, s, s', Watch(KeyOf(s.rpys.pool.slots[i]), false))
    requires |s.log| <= k < |s'.log| && s'.log[k].Replied? && s'.log[k].serial == s.rpys.pool.slots[i].serial
    ensures Speaks(s'.log[k].h, s.rpys.pool.slots[i])
  {
    RpyPart(c, s, {});
    assert Fair(s'.log[k], s, s', Watch(KeyOf(s.rpys.pool.slots[i]), false));
  }

  lemma {:induction false} BroughtSame(l: seq<Event>, node: nat, r: Req, id: nat, taskId: nat, serial: nat)
    requires forall k {:trigger l[k]} :: 0 <= k < |l| ==>
               BroughtBy(l[k], node, r, id, taskId) == SentBy(l[k], serial, r)
    ensures Brought(l, node, r, id, taskId) == SentFor(l, serial, r)
    decreases |l|
  {
    if l != [] {
      var init := l[..|l| - 1];
      forall k | 0 <= k < |init| ensures BroughtBy(init[k], node, r, id, taskId) == SentBy(init[k], serial, r) {
        assert init[k] == l[k];
      }
      BroughtSame(init, node, r, id, taskId, serial);
    }
  }

  /** What the packets of the log bring to the request is what was sent for its reply slot. */
  lemma BroughtIsSent(c: Config, s: State, s': State, i: nat, from: nat, n: nat,
                      node: nat, r: Req, id: nat, taskId: nat)
    requires Inv(c, s, {}) && Alone(s, i) && Keeps(Packets, s, s', Watch(KeyOf(s.rpys.pool.slots[i]), false))
    requires |s.log| <= from <= n <= |s'.log|
    requires Paired(s.rpys.pool.slots[i], r, id, taskId) && s.rpys.pool.slots[i].remNode == node
    ensures Brought(s'.log[from..n], node, r, id, taskId) == SentFor(s'.log[from..n], s.rpys.pool.slots[i].serial, r)
  {
    var l, serial := s'.log[from..n], s.rpys.pool.slots[i].serial;
    forall k | 0 <= k < |l| ensures BroughtBy(l[k], node, r, id, taskId) == SentBy(l[k], serial, r) {
      SameBrought(c, s, s', i, from + k, node, r, id, taskId);
      assert l[k] == s'.log[from + k];
    }
    BroughtSame(l, node, r, id, taskId, serial);
  }

  lemma SameBrought(c: Config, s: State, s': State, i: nat, k: nat, node: nat, r: Req, id: nat, taskId: nat)
    requires Inv(c, s, {}) && Alone(s, i) && Keeps(Packets, s, s', Watch(KeyOf(s.rpys.pool.slots[i]), false))
    requires |s.log| <= k < |s'.log|
    requires Paired(s.rpys.pool.slots[i], r, id, taskId) && s.rpys.pool.slots[i].remNode == node
    ensures BroughtBy(s'.log[k], node, r, id, taskId) == SentBy(s'.log[k], s.rpys.pool.slots[i].serial, r)
  {
    RepliesOfSlot(s, s', i, k, node);
    if s'.log[k].Replied? && s'.log[k].serial == s.rpys.pool.slots[i].serial { SlotReplies(c, s, s', i, k); }
  }
  /** A pair of slots, and no packet of the responder under way. As long as the request is open, whatever
      the two daemons do otherwise, its client has been handed exactly what was sent for the reply slot
      and has left the link, all of it once and in the order in which it was sent. */
  lemma PairInOrder(cA: Config, cB: Config, x: Joint, ms: seq<Move>, i: nat, j: nat)
    requires Inv(cA, x.a, {}) && Inv(cB, x.b, {}) && x.read == |x.a.log|
    requires PairedAt(x.a, i, cB, x.b, j) && Alone(x.a, i) && x.a.rpys.pool.slots[i].remNode == cB.node
    requires NotRepeated(ms, KeyOf(x.a.rpys.pool.slots[i])) && OverLink(ms, x.b.reqs.pool.slots[j].remNode)
    requires StillReq(x.b, After(cA, cB, x, ms).b, j)
    ensures var y, r, p := After(cA, cB, x, ms), x.b.reqs.pool.slots[j], x.a.rpys.pool.slots[i];
            && x.read <= y.read <= |y.a.log|
            && Delivered(y.b.log, r.serial)
               == Delivered(x.b.log, r.serial) + SentFor(y.a.log[x.read..y.read], p.serial, r)
  {
    var y, r, p := After(cA, cB, x, ms), x.b.reqs.pool.slots[j], x.a.rpys.pool.slots[i];
    RepliesInOrder(cA, cB, x, ms, j);
    ResponderSteady(cA, cB, x, ms, KeyOf(p));
    SteadyParts(x.a, y.a, Watch(KeyOf(p), false));
    BroughtIsSent(cA, x.a, y.a, i, x.read, y.read, cB.node, r, cB.reqBank + j, InfoOf(x.b.reg, r.owner).id);
  }

  /** And when the reply that ends the request leaves the link, it is the last one its client is handed. */
  lemma ClosingArrives(cA: Config, cB: Config, x: Joint, j: nat, h: Header)
    requires x.read < |x.a.log| && ReplyTo(cB.node, x.a.log[x.read]) == Some(h)
    requires Expected(cB, x.b, h, j) && Alive(cB, Asked(x.b), x.b.reqs.pool.slots[j].owner)
    requires var r := x.b.reqs.pool.slots[j]; !r.mcast && h.status != PEND && (!Mlt(r.flags) || IsEmr(h))
    ensures var y, r := Next(cA, cB, x, Arrive), x.b.reqs.pool.slots[j];
            && j !in y.b.reqs.pool.slots
            && Delivered(y.b.log, r.serial) == Delivered(x.b.log, r.serial) + [ReplyForClient(r, h)]
  {
    var y, r := Next(cA, cB, x, Arrive), x.b.reqs.pool.slots[j];
    var e := Handed(r.serial, Mlt(r.flags), false, ReplyForClient(r, h), true);
    var f := Sent(CancelHeader(cB, x.b, r, h.msgId));
    PacketStep(cB, x.b, h);
    ClosingSays(cB, x.b, h, j);
    DeliveredNext(x.b.log, e, r.serial);
    DeliveredNext(x.b.log + [e], f, r.serial);
  }

  lemma ClosingSays(c: Config, s: State, h: Header, j: nat)
    requires Expected(c, s, h, j) && Alive(c, Asked(s), s.reqs.pool.slots[j].owner)
    requires var r := s.reqs.pool.slots[j]; !r.mcast && h.status != PEND && (!Mlt(r.flags) || IsEmr(h))
    ensures var r, s' := s.reqs.pool.slots[j], NetReply(c, s, h);
            var e, f := Handed(r.serial, Mlt(r.flags), false, ReplyForClient(r, h), true),
                        Sent(CancelHeader(c, s, r, h.msgId));
            j !in s'.reqs.pool.slots && (s'.log == s.log + [e] || s'.log == s.log + [e] + [f])
  {
    ReplyFollowsTables(c, s, h, j);
  }

  // ---- Late replies ----

  /** A reply of an earlier pair arrives when the slot of the request has been allocated again. Nothing in
      it tells the allocations apart: it is taken for a reply to the later request exactly if that one
      went to the same node, for the same task name, from a task with the same id; and if not, it is
      answered with a CANCEL. */
  lemma LateReply(c: Config, s: State, j: nat, p: Rpy, r: Req, taskId: nat, h: Header)
    requires Paired(p, r, c.reqBank + j, taskId) && Speaks(h, p) && h.status != PEND
    requires j in s.reqs.pool.slots && !s.reqs.pool.slots[j].mcast
    requires Alive(c, s, s.reqs.pool.slots[j].owner) && Alive(c, Asked(s), s.reqs.pool.slots[j].owner)
    ensures var q, s' := s.reqs.pool.slots[j], NetReply(c, s, h);
            if q.remNode == r.remNode && q.taskName == r.taskName && InfoOf(s.reg, q.owner).id == taskId then
              |s'.log| > |s.log| && s'.log[|s.log|] == Handed(q.serial, Mlt(q.flags), false, ReplyForClient(q, h), true)
            else s' == Note(s, Sent(StrayCancel(h)))
  {
    assert c.reqBank + j - c.reqBank == j;
    var q := s.reqs.pool.slots[j];
    if ReplyFits(s, q, h) { ReplyFollowsTables(c, s, h, j); } else { StrayReplyIsCancelled(c, s, h); }
  }
}
