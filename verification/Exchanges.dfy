/** What a reply says, from the client that gives it to the client that is handed it: which packet leaves,
    which request it is for, and what the other end gets to see, all in terms of what was asked and given. */
module Exchanges {
  import opened Sequences
  import opened SlotPools
  import opened Timers
  import opened Acnet
  import opened Daemon
  import opened Invariant
  import opened Registers
  import opened Preservation
  import opened Removal
  import opened Handlers
  import opened Steps
  import opened Repliers
  import opened Guarantees
  import opened Notices
  import opened Protocol
  import opened Pairs

  // ---- What leaves the responder ----

  /** A reply to a request for one reply is its last, and so is one that ends a request for several; the
      others carry the MLT flag. */
  function ReplyFlags(flags: nat, emr: bool): nat { if flags % 2 == 1 && !emr then 5 else 4 }

  /** The end of a multiple reply is not said with a zero status. */
  function LastStatus(flags: nat, status: int, emr: bool): int {
    if flags % 2 == 1 && emr && status == 0 then 513 else status
  }

  lemma ReplyPacketIs(r: Rpy, status: int, n: nat, emr: bool)
    ensures XmitHeader(r, status, n, emr)
         == Header(ReplyFlags(r.flags, emr), LastStatus(r.flags, status, emr), r.lclNode, r.remNode, r.taskName,
                   r.taskId, r.reqId, 18 + n + n % 2)
    ensures LastReply(r, emr) <==> r.flags % 2 == 0 || emr
  {
    PaddedIs(n);
  }

  lemma XmitIs(c: Config, s: State, i: nat, status: int, n: nat, emr: bool)
    requires Inv(c, s, {}) && i in s.rpys.pool.slots
    ensures var r, s1 := s.rpys.pool.slots[i], XmitReply(c, s, i, status, n, emr);
            && s1.log == s.log + [Replied(r.serial, XmitHeader(r, status, n, emr))]
            && s1.rpys.pool.slots == s.rpys.pool.slots[i := r.(acked := true)]
            && (!r.mcast ==> Due(s1.rpys.pool.due, i) == s.now + 5000)
            && s1.reqs == s.reqs && s1.reg == s.reg
  {
    XmitReplyAfter(c, s, i, status, n, emr);
    SentReplySlots(s, i);
    BeforeXmitLog(s, i);
    BeforeXmitDue(c, s, i);
  }

  lemma BeforeXmitDue(c: Config, s: State, i: nat)
    requires Inv(c, s, {}) && i in s.rpys.pool.slots
    ensures var s1 := BeforeXmit(s, i);
            (!s.rpys.pool.slots[i].mcast ==> Due(s1.rpys.pool.due, i) == s.now + 5000)
            && s1.reqs == s.reqs && s1.reg == s.reg
  {
    RpyPart(c, s, {});
    AllInUse(s.rpys.pool, c.size);
  }

  /** A client replies: one packet leaves with the status it gave, the length of its data and the
      addresses of the slot. The slot is freed by the last reply; after another one it counts as
      acknowledged, and the next ACNET_PEND is five seconds away. */
  lemma ReplySends(c: Config, s: State, i: nat, u: nat, status: int, n: nat, emr: bool)
    requires Inv(c, s, {}) && i in s.rpys.pool.slots && Equals(s.reg, s.rpys.pool.slots[i].owner, u)
    ensures var r, (s', found) := s.rpys.pool.slots[i], SendReply(c, s, u, c.rpyBank + i, status, n, emr);
            && found
            && s'.log == s.log + [Replied(r.serial, Header(ReplyFlags(r.flags, emr), LastStatus(r.flags, status, emr),
                                                           r.lclNode, r.remNode, r.taskName, r.taskId, r.reqId,
                                                           18 + n + n % 2))]
            && s'.rpys.pool.slots == (if r.flags % 2 == 1 && !emr then s.rpys.pool.slots[i := r.(acked := true)]
                                      else s.rpys.pool.slots - {i})
            && (r.flags % 2 == 1 && !emr && !r.mcast ==> Due(s'.rpys.pool.due, i) == s.now + 5000)
            && s'.reqs == s.reqs && s'.reg == s.reg
  {
    assert c.rpyBank + i - c.rpyBank == i;
    var r := s.rpys.pool.slots[i];
    ReplyPacketIs(r, status, n, emr);
    XmitIs(c, s, i, status, n, emr);
    ReplyAccepted(c, s, u, c.rpyBank + i, i, status, n, emr);
    var s1 := XmitReply(c, s, i, status, n, emr);
    if LastReply(r, emr) {
      EndRpyIdDrops(c, s1, i, c.rpyBank + i, SUCCESS);
      assert s.rpys.pool.slots[i := r.(acked := true)] - {i} == s.rpys.pool.slots - {i};
    }
  }

  /** Nothing is sent for an id that is no reply of the client's. */
  lemma NoReplyIsSent(c: Config, s: State, u: nat, id: nat, status: int, n: nat, emr: bool)
    requires id < c.rpyBank || id - c.rpyBank !in s.rpys.pool.slots
             || !Equals(s.reg, s.rpys.pool.slots[id - c.rpyBank].owner, u)
    ensures SendReply(c, s, u, id, status, n, emr) == (s, false)
  {}

  // ---- Whose reply it is ----

  /** Is this what ends a request for several replies? */
  predicate SaysEnd(flags: nat, status: int) { flags % 2 == 0 || status == 513 || status < 0 }

  /** The status a client gets to see: the end of a unicast request is never a zero status, and a
      multicast request does not end with a reply. */
  function SeenStatus(mult: bool, mcast: bool, flags: nat, status: int): int {
    if !mult || !SaysEnd(flags, status) then status
    else if mcast then (if status == 513 then 0 else status)
    else if status == 0 then 513 else status
  }

  function SeenFlags(mult: bool, mcast: bool, flags: nat, status: int): nat {
    if !mult || !SaysEnd(flags, status) then flags
    else if mcast then flags + 1 - flags % 2
    else flags - flags % 2
  }

  lemma SeenIs(r: Req, h: Header)
    ensures var mult := r.flags % 2 == 1;
            ReplyForClient(r, h) == h.(flags := SeenFlags(mult, r.mcast, h.flags, h.status),
                                       status := SeenStatus(mult, r.mcast, h.flags, h.status))
    ensures IsEmr(h) <==> SaysEnd(h.flags, h.status)
  {}

  /** A reply for the request in slot i, from the point where its client was found alive. */
  lemma ReplyIsHanded(c: Config, s: State, h: Header, i: nat)
    requires Expected(c, s, h, i) && h.status != PEND
    ensures var r, s' := s.reqs.pool.slots[i], NetReply(c, s, h);
            var mult, ok, ends := Mlt(r.flags), Alive(c, Asked(s), r.owner), IsEmr(h);
            && s'.log == s.log + [Handed(r.serial, mult, r.mcast, ReplyForClient(r, h), ok)]
                 + (if (if ok then !mult && (r.mcast || !ends) else mult || r.mcast)
                    then [Sent(CancelHeader(c, s, r, h.msgId))] else [])
            && s'.reqs.pool.slots == (if ok && mult && (r.mcast || !ends) then s.reqs.pool.slots
                                      else s.reqs.pool.slots - {i})
            && s'.rpys == s.rpys && s'.reg == s.reg
  {}

  /** A reply that is no ACNET_PEND is handed to the client of the request it names, exactly if task and
      task id are the request's and, unless the request was multicast, the node as well. The
      node that sent it is then sent nothing but the CANCEL of a request that is over while there is
      more to come. Otherwise nothing happens but that the node is sent a CANCEL. */
  lemma WhoGetsReply(c: Config, s: State, h: Header, i: nat)
    requires i in s.reqs.pool.slots && h.msgId == c.reqBank + i && h.status != 257
    requires Alive(c, s, s.reqs.pool.slots[i].owner)
    ensures var r, s', taskId := s.reqs.pool.slots[i], NetReply(c, s, h), InfoOf(s.reg, s.reqs.pool.slots[i].owner).id;
            var mult, ok, ends := r.flags % 2 == 1, Alive(c, Asked(s), r.owner), SaysEnd(h.flags, h.status);
            if h.task == r.taskName && h.taskId == taskId && (r.mcast || h.server == r.remNode) then
              && s'.log == s.log
                   + [Handed(r.serial, mult, r.mcast, h.(flags := SeenFlags(mult, r.mcast, h.flags, h.status),
                                                         status := SeenStatus(mult, r.mcast, h.flags, h.status)), ok)]
                   + (if (if ok then !mult && (r.mcast || !ends) else mult || r.mcast)
                      then [Sent(Header(0x200, 0, r.remNode, r.lclNode, r.taskName, taskId, h.msgId, 18))] else [])
              && s'.reqs.pool.slots == (if ok && mult && (r.mcast || !ends) then s.reqs.pool.slots
                                        else s.reqs.pool.slots - {i})
              && s'.rpys == s.rpys && s'.reg == s.reg
            else
              s' == s.(log := s.log + [Sent(Header(0x200, 0, h.server, h.client, h.task, h.taskId, h.msgId, 18))])
  {
    assert h.msgId - c.reqBank == i;
    var r := s.reqs.pool.slots[i];
    if ReplyFits(s, r, h) {
      SeenIs(r, h);
      ReplyIsHanded(c, s, h, i);
    } else {
      StrayReplyIsCancelled(c, s, h);
    }
  }

  /** An ACNET_PEND only renews the time-out. */
  lemma PendRenews(c: Config, s: State, h: Header, i: nat)
    requires Inv(c, s, {}) && i in s.reqs.pool.slots && h.msgId == c.reqBank + i && h.status == 257
    requires var r := s.reqs.pool.slots[i];
             Alive(c, s, r.owner) && h.task == r.taskName && h.taskId == InfoOf(s.reg, r.owner).id
             && (r.mcast || h.server == r.remNode)
    ensures var s' := NetReply(c, s, h);
            && s'.log == s.log && s'.reqs.pool.slots == s.reqs.pool.slots && s'.rpys == s.rpys && s'.reg == s.reg
            && Due(s'.reqs.pool.due, i) == s.now + s.reqs.pool.slots[i].tmoMs
  {
    assert h.msgId - c.reqBank == i;
    ReqPart(c, s, {});
    AllInUse(s.reqs.pool, c.size);
  }

  /** So does every reply after which the request is still open. */
  lemma EveryReplyRenews(c: Config, s: State, h: Header, i: nat)
    requires Inv(c, s, {}) && Expected(c, s, h, i) && h.status != PEND
    ensures var s' := NetReply(c, s, h);
            i in s'.reqs.pool.slots ==> Due(s'.reqs.pool.due, i) == s.now + s.reqs.pool.slots[i].tmoMs
  {
    ReqPart(c, s, {});
    AllInUse(s.reqs.pool, c.size);
  }

  /** A reply to a request that is not there is answered with a CANCEL. */
  lemma NoOneGetsReply(c: Config, s: State, h: Header)
    requires h.msgId < c.reqBank || h.msgId - c.reqBank !in s.reqs.pool.slots
    ensures NetReply(c, s, h)
         == s.(log := s.log + [Sent(Header(0x200, 0, h.server, h.client, h.task, h.taskId, h.msgId, 18))])
  {}

  // ---- From one client to the other ----

  /** A reply slot stands for a request slot of another daemon. Replies to a multicast request come from the
      responder's own node, whatever node the request went to. */
  predicate Stands(p: Rpy, node: nat, r: Req, reqId: nat, taskId: nat) {
    && p.reqId == reqId && p.taskId == taskId && p.taskName == r.taskName && p.remNode == r.lclNode
    && p.flags % 2 == r.flags % 2 && p.mcast == r.mcast && p.lclNode == (if r.mcast then node else r.remNode)
  }

  /** A request that is sent and delivered leaves such slots behind, if both daemons know alike whether its
      node is a multicast one. */
  lemma RequestLinksSlots(cB: Config, sB: State, u: nat, taskName: nat, node: nat, flags: nat, tmo: nat, n: nat,
                          cA: Config, sA: State, v: nat)
    requires sB.reqs.pool.free != [] && (node in cB.mcastNodes <==> node in cA.mcastNodes)
    requires Inv(cA, sA, {}) && Delivers(cA, sA, taskName, v)
    ensures var sB' := SendRequest(cB, sB, u, taskName, node, flags, tmo, n);
            var e := sB'.log[|sB'.log| - 1];
            var j, i := sB.reqs.pool.free[0], sA.rpys.pool.free[0];
            e.Sent? && j in sB'.reqs.pool.slots
            && var sA' := NetRequest(cA, sA, e.h);
               i in sA'.rpys.pool.slots && sA'.rpys.pool.slots[i].owner == v
               && Stands(sA'.rpys.pool.slots[i], cA.node, sB'.reqs.pool.slots[j], cB.reqBank + j, InfoOf(sB.reg, u).id)
  {
    var sB' := SendRequest(cB, sB, u, taskName, node, flags, tmo, n);
    var h := RequestIsSent(cB, sB, u, taskName, node, flags, tmo, n, sB');
    RequestIsHeld(cA, sA, v, h, NetRequest(cA, sA, h));
    NewSlotsStand(cB, sB, u, taskName, node, flags, tmo, cA, sA, v, h);
  }

  lemma NewSlotsStand(cB: Config, sB: State, u: nat, taskName: nat, node: nat, flags: nat, tmo: nat,
                      cA: Config, sA: State, v: nat, h: Header)
    requires (node in cB.mcastNodes <==> node in cA.mcastNodes) && h.server == node && h.client == cB.node
    requires h.task == taskName && Mlt(h.flags) == Mlt(flags)
    ensures Stands(NewRpy(cA, sA, v, h), cA.node, NewReq(cB, sB, u, taskName, node, flags, tmo), h.msgId, h.taskId)
    ensures NewRpy(cA, sA, v, h).owner == v
  {}

  /** What the requester's client sees of a reply: the status its sender gave, but for zero where a
      multiple reply ends, and for the end of one where the request is multicast. */
  function ToldStatus(mult: bool, mcast: bool, status: int, emr: bool): int {
    if mult && mcast && status == 513 then 0
    else if mult && !mcast && emr && status == 0 then 513
    else status
  }

  /** And the MLT flag unless this is the end. */
  function ToldFlags(mult: bool, mcast: bool, status: int, emr: bool): nat {
    if mult && (mcast || !(emr || status == 513 || status < 0)) then 5 else 4
  }

  lemma ToldIsSeen(flags: nat, mcast: bool, status: int, emr: bool)
    ensures var mult, f, st := flags % 2 == 1, ReplyFlags(flags, emr), LastStatus(flags, status, emr);
            && SeenFlags(mult, mcast, f, st) == ToldFlags(mult, mcast, status, emr)
            && SeenStatus(mult, mcast, f, st) == ToldStatus(mult, mcast, status, emr)
            && (st == 257 <==> status == 257)
  {}

  /** The header of such a reply, and what is handed over for it. */
  function GivenHeader(p: Rpy, status: int, n: nat, emr: bool): Header {
    Header(ReplyFlags(p.flags, emr), LastStatus(p.flags, status, emr), p.lclNode, p.remNode, p.taskName, p.taskId,
           p.reqId, 18 + n + n % 2)
  }

  function SeenHeader(c: Config, s: State, j: nat, node: nat, status: int, n: nat, emr: bool): Header
    requires j in s.reqs.pool.slots
  {
    var r := s.reqs.pool.slots[j];
    var mult := r.flags % 2 == 1;
    Header(ToldFlags(mult, r.mcast, status, emr), ToldStatus(mult, r.mcast, status, emr),
           if r.mcast then node else r.remNode, r.lclNode, r.taskName, InfoOf(s.reg, r.owner).id, c.reqBank + j,
           18 + n + n % 2)
  }

  lemma GivenIsSent(c: Config, s: State, i: nat, u: nat, status: int, n: nat, emr: bool)
    requires Inv(c, s, {}) && i in s.rpys.pool.slots && Equals(s.reg, s.rpys.pool.slots[i].owner, u)
    ensures var r := s.rpys.pool.slots[i];
            SendReply(c, s, u, c.rpyBank + i, status, n, emr).0.log
            == s.log + [Replied(r.serial, GivenHeader(r, status, n, emr))]
  {
    ReplySends(c, s, i, u, status, n, emr);
  }

  lemma GivenArrives(c: Config, s: State, j: nat, p: Rpy, node: nat, status: int, n: nat, emr: bool)
    requires j in s.reqs.pool.slots && Alive(c, s, s.reqs.pool.slots[j].owner) && status != 257
    requires var r := s.reqs.pool.slots[j]; Stands(p, node, r, c.reqBank + j, InfoOf(s.reg, r.owner).id)
    ensures var r, s' := s.reqs.pool.slots[j], NetReply(c, s, GivenHeader(p, status, n, emr));
            && |s'.log| > |s.log|
            && s'.log[|s.log|] == Handed(r.serial, r.flags % 2 == 1, r.mcast, SeenHeader(c, s, j, node, status, n, emr),
                                         Alive(c, Asked(s), r.owner))
  {
    ToldIsSeen(p.flags, p.mcast, status, emr);
    WhoGetsReply(c, s, GivenHeader(p, status, n, emr), j);
  }

  /** One client replies and the other is handed what it gave: with this status, this flag and the length
      of its data, for the request that the reply slot stands for. */
  lemma GivenIsSeen(cA: Config, sA: State, i: nat, u: nat, cB: Config, sB: State, j: nat,
                    status: int, n: nat, emr: bool)
    requires Inv(cA, sA, {}) && i in sA.rpys.pool.slots && Equals(sA.reg, sA.rpys.pool.slots[i].owner, u)
    requires j in sB.reqs.pool.slots && Alive(cB, sB, sB.reqs.pool.slots[j].owner) && status != 257
    requires var r := sB.reqs.pool.slots[j];
             Stands(sA.rpys.pool.slots[i], cA.node, r, cB.reqBank + j, InfoOf(sB.reg, r.owner).id)
    ensures var sA', r := SendReply(cA, sA, u, cA.rpyBank + i, status, n, emr).0, sB.reqs.pool.slots[j];
            |sA'.log| == |sA.log| + 1 && sA'.log[|sA.log|].Replied?
            && var sB' := NetReply(cB, sB, sA'.log[|sA.log|].h);
               && |sB'.log| > |sB.log|
               && sB'.log[|sB.log|] == Handed(r.serial, r.flags % 2 == 1, r.mcast,
                                              SeenHeader(cB, sB, j, cA.node, status, n, emr),
                                              Alive(cB, Asked(sB), r.owner))
  {
    var p := sA.rpys.pool.slots[i];
    GivenIsSent(cA, sA, i, u, status, n, emr);
    GivenArrives(cB, sB, j, p, cA.node, status, n, emr);
  }

  /** That goes on holding while both slots are held, whatever else happens to the two daemons. */
  lemma StandsOverRuns(cA: Config, sA: State, i: nat, esA: seq<Input>, cB: Config, sB: State, j: nat, esB: seq<Input>)
    requires Inv(cA, sA, {}) && Inv(cB, sB, {})
    requires StillRpy(sA, Run(cA, sA, esA), i) && StillReq(sB, Run(cB, sB, esB), j)
    requires var r := sB.reqs.pool.slots[j];
             Stands(sA.rpys.pool.slots[i], cA.node, r, cB.reqBank + j, InfoOf(sB.reg, r.owner).id)
    ensures var sA', sB' := Run(cA, sA, esA), Run(cB, sB, esB);
            var r := sB'.reqs.pool.slots[j];
            && r == sB.reqs.pool.slots[j] && sA'.rpys.pool.slots[i].owner == sA.rpys.pool.slots[i].owner
            && Stands(sA'.rpys.pool.slots[i], cA.node, r, cB.reqBank + j, InfoOf(sB'.reg, r.owner).id)
  {
    var p, p' := sA.rpys.pool.slots[i], Run(cA, sA, esA).rpys.pool.slots[i];
    RpyStays(cA, sA, esA, i);
    assert p' == p || p' == p.(acked := p'.acked);
    ReqStays(cB, sB, esB, j);
  }
}
