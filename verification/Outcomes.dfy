/** What each operation puts on the wire, hands to a client and leaves in its slot: every field of every
    packet, in terms of what the operation was given. */
module Outcomes {
  import opened Sequences
  import opened SlotPools
  import opened Timers
  import opened Acnet
  import opened Daemon
  import opened Invariant
  import opened Registers
  import opened Preservation
  import opened Removal
  import opened Handlers
  import opened Steps
  import opened Guarantees
  import opened Notices
  import opened Protocol

  /** The numbers of the protocol. */
  lemma StatusNumbers()
    ensures PEND == 257 && ENDMULT == 513 && NLM == -511 && NOREMMEM == -767 && TMO == -1535 && BUSY == -2047
    ensures NAME_IN_USE == -6911 && NCR == -7167 && NOTASK == -8447 && DISCONNECTED == -8703
    ensures NODE_DOWN == -10751 && INVARG == -12799 && SUCCESS == 0
  {}

  // ---- Requests ----

  /** A new request: what the slot holds, when it is due, and the packet that leaves. */
  lemma RequestOpens(c: Config, s: State, u: nat, taskName: nat, node: nat, flags: nat, tmo: nat, n: nat)
    requires Inv(c, s, {}) && s.reqs.pool.free != []
    ensures var s', i := SendRequest(c, s, u, taskName, node, flags, tmo, n), s.reqs.pool.free[0];
            && i !in s.reqs.pool.slots
            && s'.reqs.pool.slots == s.reqs.pool.slots[i := s'.reqs.pool.slots[i]]
            && (var r := s'.reqs.pool.slots[i];
                && r.owner == u && r.taskName == taskName && r.lclNode == c.node && r.remNode == node
                && r.flags == flags && r.mcast == (node in c.mcastNodes)
                && r.tmoMs == if tmo < 400 then 400 else if tmo > 390000 then 390000 else tmo)
            && Due(s'.reqs.pool.due, i) == s.now + (if tmo < 400 then 400 else if tmo > 390000 then 390000 else tmo)
            && s'.log == s.log + [Sent(Header(if flags % 2 == 1 then 3 else 2, 0, node, c.node, taskName,
                                              InfoOf(s.reg, u).id, c.reqBank + i, 18 + n + n % 2))]
            && s'.rpys == s.rpys && s'.reg == s.reg
  {
    PaddedIs(n);
    NextSlotIsFree(c, s);
    ReqPart(c, s, {});
    DueIsSet(s.reqs.pool, c.size);
  }

  lemma DueIsSet<T>(p: Pool<T>, size: nat)
    requires PoolOk(p, size) && p.free != []
    ensures p.free[0] < |p.due|
  {
    AllInUse(p, size);
    FirstIsFree(p, size);
    PoolParts(p, size);
  }

  /** Without a free slot nothing is sent. */
  lemma NoSlotNoRequest(c: Config, s: State, u: nat, taskName: nat, node: nat, flags: nat, tmo: nat, n: nat)
    requires s.reqs.pool.free == []
    ensures SendRequest(c, s, u, taskName, node, flags, tmo, n) == s
  {}

  /** A client cancels a request of its own: the slot is free and the node is told; another one's request
      stays as it is. */
  lemma CancelIsSent(c: Config, s: State, u: nat, i: nat)
    requires i in s.reqs.pool.slots
    ensures var s', r := CancelCommand(c, s, u, c.reqBank + i), s.reqs.pool.slots[i];
            if Equals(s.reg, r.owner, u) then
              && s'.reqs.pool.slots == s.reqs.pool.slots - {i} && s'.rpys == s.rpys && s'.reg == s.reg
              && s'.log == s.log + [Sent(Header(0x200, 0, r.remNode, r.lclNode, r.taskName, InfoOf(s.reg, r.owner).id,
                                                c.reqBank + i, 18))]
            else s' == s
  {
    assert c.reqBank + i - c.reqBank == i;
  }

  /** A time-out: a one-shot request gets ACNET_TMO, is cancelled at its node and freed; one for several
      replies gets ACNET_PEND, with the MLT flag, and a new time-out. */
  lemma TimeOutSays(c: Config, s: State, i: nat)
    requires Inv(c, s, {}) && i in s.reqs.pool.slots
    ensures var s', r, id := Expired(c, s, i), s.reqs.pool.slots[i], c.reqBank + i;
            var ok, taskId := Alive(c, s, r.owner), InfoOf(s.reg, r.owner).id;
            if r.flags % 2 == 1 then
              && s'.log == s.log + [Handed(r.serial, true, r.mcast, Header(5, PEND, r.remNode, r.lclNode, r.taskName,
                                                                         taskId, id, 18), ok)]
              && s'.reqs.pool.slots == s.reqs.pool.slots && Due(s'.reqs.pool.due, i) == s.now + r.tmoMs
            else
              && s'.log == s.log + [Handed(r.serial, false, r.mcast, Header(4, TMO, r.remNode, r.lclNode, r.taskName,
                                                                          taskId, id, 18), ok)]
                                 + [Sent(Header(0x200, 0, r.remNode, r.lclNode, r.taskName, taskId, id, 18))]
              && s'.reqs.pool.slots == s.reqs.pool.slots - {i}
  {
    assert c.reqBank + i - c.reqBank == i;
    ReqPart(c, s, {});
    AllInUse(s.reqs.pool, c.size);
  }

  /** A lookup by node finds the lowest slot for it, or there is none. */
  lemma {:induction false} FirstReqIs(p: Pool<Req>, node: nat, from: nat, size: nat)
    ensures var r := FirstReqTo(p, node, from, size);
            if r.Some? then
              && from <= r.value < size && r.value in p.slots && p.slots[r.value].remNode == node
              && forall k :: from <= k < r.value && k in p.slots ==> p.slots[k].remNode != node
            else forall k :: from <= k < size && k in p.slots ==> p.slots[k].remNode != node
    decreases size - from
  {
    if from < size { FirstReqIs(p, node, from + 1, size); }
  }

  lemma {:induction false} FirstRpyIs(p: Pool<Rpy>, node: nat, from: nat, size: nat)
    ensures var r := FirstRpyTo(p, node, from, size);
            if r.Some? then
              && from <= r.value < size && r.value in p.slots && p.slots[r.value].remNode == node
              && forall k :: from <= k < r.value && k in p.slots ==> p.slots[k].remNode != node
            else forall k :: from <= k < size && k in p.slots ==> p.slots[k].remNode != node
    decreases size - from
  {
    if from < size { FirstRpyIs(p, node, from + 1, size); }
  }

  /** A node is gone: the request to it in the lowest slot ends, and its client is handed
      ACNET_DISCONNECTED; without a request to the node nothing happens. */
  lemma NodeGoneEndsRequest(c: Config, s: State, node: nat, i: nat)
    requires Inv(c, s, {}) && i in s.reqs.pool.slots && s.reqs.pool.slots[i].remNode == node
    requires forall k {:trigger s.reqs.pool.slots[k]} ::
               k in s.reqs.pool.slots && s.reqs.pool.slots[k].remNode == node ==> i <= k
    ensures var s', r := CancelReqToNode(c, s, node), s.reqs.pool.slots[i];
            var ok := Alive(c, s, r.owner);
            && s.log + [Handed(r.serial, r.flags % 2 == 1, r.mcast,
                               Header(4, DISCONNECTED, r.remNode, r.lclNode, r.taskName, InfoOf(s.reg, r.owner).id,
                                      c.reqBank + i, 18), ok)] <= s'.log
            && i !in s'.reqs.pool.slots
            && (ok ==> s'.reqs.pool.slots == s.reqs.pool.slots - {i} && |s'.log| == |s.log| + 1)
            && (!ok ==> !Registered(s'.reg, r.owner))
  {
    FirstReqIs(s.reqs.pool, node, 0, c.size);
    ReqPart(c, s, {});
    AllInUse(s.reqs.pool, c.size);
    assert FirstReqTo(s.reqs.pool, node, 0, c.size) == Some(i);
    GoneIs(c, s, i);
  }

  /** The round of the loop for request i, but for the removal of a client that does not answer. */
  function HungUp(c: Config, s: State, i: nat): State
    requires i in s.reqs.pool.slots
  {
    var r := s.reqs.pool.slots[i];
    var s1 := Hand(c, s, r, LocalReply(c, s, r, c.reqBank + i, FLG_RPY, DISCONNECTED));
    s1.(reqs := DropReq(c, s1.reqs, i))
  }

  lemma HungUpIs(c: Config, s: State, i: nat)
    requires i in s.reqs.pool.slots
    ensures var s', r := HungUp(c, s, i), s.reqs.pool.slots[i];
            && s'.log == s.log + [Handed(r.serial, r.flags % 2 == 1, r.mcast,
                                         Header(4, DISCONNECTED, r.remNode, r.lclNode, r.taskName,
                                                InfoOf(s.reg, r.owner).id, c.reqBank + i, 18), Alive(c, s, r.owner))]
            && s'.reqs.pool.slots == s.reqs.pool.slots - {i} && s'.rpys == s.rpys && s'.reg == s.reg
    ensures FirstReqTo(s.reqs.pool, s.reqs.pool.slots[i].remNode, 0, c.size) == Some(i) ==>
              var r := s.reqs.pool.slots[i];
              CancelReqToNode(c, s, r.remNode)
              == if Alive(c, s, r.owner) then HungUp(c, s, i) else RemoveTask(c, HungUp(c, s, i), r.owner)
  {}

  lemma GoneIs(c: Config, s: State, i: nat)
    requires Inv(c, s, {}) && i in s.reqs.pool.slots
    requires FirstReqTo(s.reqs.pool, s.reqs.pool.slots[i].remNode, 0, c.size) == Some(i)
    ensures var r := s.reqs.pool.slots[i];
            var s', ok := CancelReqToNode(c, s, r.remNode), Alive(c, s, r.owner);
            && s.log + [Handed(r.serial, r.flags % 2 == 1, r.mcast,
                               Header(4, DISCONNECTED, r.remNode, r.lclNode, r.taskName, InfoOf(s.reg, r.owner).id,
                                      c.reqBank + i, 18), ok)] <= s'.log
            && i !in s'.reqs.pool.slots
            && (ok ==> s'.reqs.pool.slots == s.reqs.pool.slots - {i} && |s'.log| == |s.log| + 1)
            && (!ok ==> !Registered(s'.reg, r.owner))
  {
    var r, s2 := s.reqs.pool.slots[i], HungUp(c, s, i);
    HungUpIs(c, s, i);
    HandAndDropInv(c, s, {}, i, LocalReply(c, s, r, c.reqBank + i, FLG_RPY, DISCONNECTED));
    ReqOwner(c, s, i);
    if !Alive(c, s, r.owner) {
      ClientIsNotInternal(c, s, r.owner);
      RemoveTaskTells(c, s2, r.owner);
      RemoveTaskInv(c, s2, r.owner);
      RemoveTaskComplete(c, s2, r.owner);
    }
  }

  lemma NoRequestToNode(c: Config, s: State, node: nat)
    requires forall k {:trigger s.reqs.pool.slots[k]} :: k in s.reqs.pool.slots ==> s.reqs.pool.slots[k].remNode != node
    ensures CancelReqToNode(c, s, node) == s
  {}

  lemma NoReplyToNode(c: Config, s: State, node: nat)
    requires forall k {:trigger s.rpys.pool.slots[k]} :: k in s.rpys.pool.slots ==> s.rpys.pool.slots[k].remNode != node
    ensures EndRpyToNode(c, s, node) == s
  {}

  /** And of the replies the one in the lowest slot ends, and its client is told with a CANCEL. */
  lemma NodeGoneEndsReply(c: Config, s: State, node: nat, i: nat)
    requires Inv(c, s, {}) && i in s.rpys.pool.slots && s.rpys.pool.slots[i].remNode == node
    requires forall k {:trigger s.rpys.pool.slots[k]} ::
               k in s.rpys.pool.slots && s.rpys.pool.slots[k].remNode == node ==> i <= k
    ensures var s', r := EndRpyToNode(c, s, node), s.rpys.pool.slots[i];
            var ok := Alive(c, s, r.owner);
            && s.log + [Told(r.owner, Header(0x200, 0, r.lclNode, r.remNode, r.taskName, r.taskId, r.reqId, 18), ok)]
               <= s'.log
            && i !in s'.rpys.pool.slots
            && (ok ==> s'.rpys.pool.slots == s.rpys.pool.slots - {i} && |s'.log| == |s.log| + 1)
            && (!ok ==> !Registered(s'.reg, r.owner))
  {
    FirstRpyIs(s.rpys.pool, node, 0, c.size);
    RpyPart(c, s, {});
    AllInUse(s.rpys.pool, c.size);
    assert FirstRpyTo(s.rpys.pool, node, 0, c.size) == Some(i);
    var r, h := s.rpys.pool.slots[i], ReplyHeader(s.rpys.pool.slots[i], FLG_CAN, SUCCESS, 0);
    var s1 := Tell(c, s, r.owner, h);
    TellInv(c, s, {}, r.owner, h);
    DropRpyInv(c, s1, {}, i);
    var s2 := s1.(rpys := DropRpy(c, s1.rpys, i));
    RpyOwner(c, s, i);
    if !Alive(c, s, r.owner) {
      ClientIsNotInternal(c, s, r.owner);
      RemoveTaskTells(c, s2, r.owner);
      RemoveTaskInv(c, s2, r.owner);
      RemoveTaskComplete(c, s2, r.owner);
    }
  }

  /** So if a node is gone to which both a request and a reply are open, one of each ends. */
  lemma NodeGoneEndsBoth(c: Config, s: State, node: nat, i: nat, j: nat)
    requires Inv(c, s, {}) && i in s.reqs.pool.slots && s.reqs.pool.slots[i].remNode == node
    requires forall k {:trigger s.reqs.pool.slots[k]} ::
               k in s.reqs.pool.slots && s.reqs.pool.slots[k].remNode == node ==> i <= k
    requires j in s.rpys.pool.slots && s.rpys.pool.slots[j].remNode == node
    requires forall k {:trigger s.rpys.pool.slots[k]} ::
               k in s.rpys.pool.slots && s.rpys.pool.slots[k].remNode == node ==> j <= k
    requires Alive(c, s, s.reqs.pool.slots[i].owner) && Alive(c, Asked(s), s.rpys.pool.slots[j].owner)
    ensures var s' := Step(c, s, NodeGone(node));
            && s'.reqs.pool.slots == s.reqs.pool.slots - {i} && s'.rpys.pool.slots == s.rpys.pool.slots - {j}
            && |s'.log| == |s.log| + 2 && s'.reg == s.reg
  {
    LowestTo(c, s, node);
    HungUpIs(c, s, i);
    assert FirstReqTo(s.reqs.pool, node, 0, c.size) == Some(i);
    assert FirstRpyTo(s.rpys.pool, node, 0, c.size) == Some(j);
  }

  /** What a lookup by node finds in the whole pool. */
  lemma LowestTo(c: Config, s: State, node: nat)
    requires Inv(c, s, {})
    ensures forall i: nat {:trigger s.reqs.pool.slots[i]} ::
              i in s.reqs.pool.slots && s.reqs.pool.slots[i].remNode == node
              && (forall k {:trigger s.reqs.pool.slots[k]} ::
                    k in s.reqs.pool.slots && s.reqs.pool.slots[k].remNode == node ==> i <= k) ==>
              FirstReqTo(s.reqs.pool, node, 0, c.size) == Some(i)
    ensures forall i: nat {:trigger s.rpys.pool.slots[i]} ::
              i in s.rpys.pool.slots && s.rpys.pool.slots[i].remNode == node
              && (forall k {:trigger s.rpys.pool.slots[k]} ::
                    k in s.rpys.pool.slots && s.rpys.pool.slots[k].remNode == node ==> i <= k) ==>
              FirstRpyTo(s.rpys.pool, node, 0, c.size) == Some(i)
  {
    FirstReqIs(s.reqs.pool, node, 0, c.size);
    FirstRpyIs(s.rpys.pool, node, 0, c.size);
    ReqPart(c, s, {});
    AllInUse(s.reqs.pool, c.size);
    RpyPart(c, s, {});
    AllInUse(s.rpys.pool, c.size);
  }
}
