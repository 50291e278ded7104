/** What a reply, a cancel and the end of a reply do, and how two daemons keep in step. */
module Protocol {
  import opened Sequences
  import opened SlotPools
  import opened Timers
  import opened Acnet
  import opened Daemon
  import opened Invariant
  import opened Registers
  import opened History
  import opened Preservation
  import opened Removal
  import opened Handlers
  import opened Steps
  import opened Guarantees
  import opened Notices

  // ---- The tables of handleAcnetReply ----

  /** A Karnaugh map as it is drawn: rows !C!D, !C D, C D, C!D; columns !A!B, !A B, A B, A!B. */
  type Table = seq<seq<bool>>

  predicate Marked(t: Table, A: bool, B: bool, C: bool, D: bool)
    requires |t| == 4 && forall k :: 0 <= k < 4 ==> |t[k]| == 4
  {
    var row := if !C then (if !D then 0 else 1) else if D then 2 else 3;
    t[row][if !A then (if !B then 0 else 1) else if B then 2 else 3]
  }

  const CLEAN_UP: Table := [[true, true, false, false], [false, false, false, false],
                            [false, false, false, false], [true, true, false, true]]
  const SEND_CANCEL: Table := [[true, true, false, false], [false, false, false, false],
                               [false, false, false, false], [false, true, false, false]]
  const ADJUST: Table := [[false, false, false, false], [false, false, false, false],
                          [false, false, true, false], [false, false, true, false]]
  const PASS_ON: Table := [[true, true, true, true], [false, false, false, false],
                           [false, false, false, false], [true, true, true, true]]

  /** The request slot a reply belongs to, and a client that answers when asked the first time. */
  predicate Expected(c: Config, s: State, h: Header, i: nat) {
    && Slot(s.reqs.pool, c.reqBank, h.msgId) == Some(i)
    && i in s.reqs.pool.slots && ReplyFits(s, s.reqs.pool.slots[i], h) && Alive(c, s, s.reqs.pool.slots[i].owner)
  }

  /** handleAcnetReply does what the tables say, when the client can be reached: whether the slot is
      freed, whether the packet is passed on, and whether a CANCEL is sent. */
  lemma ReplyFollowsTables(c: Config, s: State, h: Header, i: nat)
    requires Expected(c, s, h, i) && Alive(c, Asked(s), s.reqs.pool.slots[i].owner)
    ensures var r, s' := s.reqs.pool.slots[i], NetReply(c, s, h);
            var A, B, C, D := Mlt(r.flags), r.mcast, IsEmr(h), h.status == PEND;
            && (i !in s'.reqs.pool.slots <==> Marked(CLEAN_UP, A, B, C, D))
            && s'.log == s.log
                 + (if Marked(PASS_ON, A, B, C, D) then [Handed(r.serial, A, B, ReplyForClient(r, h), true)] else [])
                 + (if Marked(SEND_CANCEL, A, B, C, D) then [Sent(CancelHeader(c, s, r, h.msgId))] else [])
            && s'.rpys == s.rpys && s'.reg == s.reg
  {}

  /** What the client sees: a multicast request stays open whatever is in the reply; the end of a
      unicast one is always marked in the same way; nothing else is changed. */
  lemma ClientSees(r: Req, h: Header)
    ensures var g := ReplyForClient(r, h);
            var A, B, C := Mlt(r.flags), r.mcast, IsEmr(h);
            && (A && B && C <==> Marked(ADJUST, A, B, C, h.status == PEND))
            && (A && B ==> Mlt(g.flags) && g.status != ENDMULT)
            && (A && !B ==> (C <==> !Mlt(g.flags)) && (C ==> g.status != SUCCESS))
            && (h.status != SUCCESS && h.status != ENDMULT ==> g.status == h.status)
            && (!A || !C ==> g == h)
            && g.(flags := h.flags, status := h.status) == h
  {}

  /** The comment above the tables says that a reply with the MLT flag to a one-shot request has
      its header fixed before the client sees it. It has not: the client is handed the packet with the
      flag it came with, and the remote node is sent a CANCEL. */
  lemma OneShotHeaderIsNotFixed(c: Config, s: State, h: Header, i: nat)
    requires Expected(c, s, h, i) && Alive(c, Asked(s), s.reqs.pool.slots[i].owner)
    requires !Mlt(s.reqs.pool.slots[i].flags) && h.status != PEND
    ensures var r, s' := s.reqs.pool.slots[i], NetReply(c, s, h);
            && |s'.log| > |s.log| && s'.log[|s.log|] == Handed(r.serial, false, r.mcast, h, true)
            && (Mlt(h.flags) && !IsEmr(h) ==> s'.log[|s.log| + 1..] == [Sent(CancelHeader(c, s, r, h.msgId))])
  {
    ReplyFollowsTables(c, s, h, i);
  }

  /** A reply that only says ACNET_PEND is not passed on, and the request stays as it was but for
      its time-out. */
  lemma PendIsNotDelivered(c: Config, s: State, h: Header, i: nat)
    requires Expected(c, s, h, i) && h.status == PEND && Inv(c, s, {})
    ensures var s' := NetReply(c, s, h);
            s'.log == s.log && s'.reqs.pool.slots == s.reqs.pool.slots
            && i < |s.reqs.pool.due| && s'.reqs.pool.due == s.reqs.pool.due[i := s.now + s.reqs.pool.slots[i].tmoMs]
  {
    ReqPart(c, s, {});
    AllInUse(s.reqs.pool, c.size);
  }

  /** A reply for a request that is not open is answered with a CANCEL, and changes nothing. */
  lemma StrayReplyIsCancelled(c: Config, s: State, h: Header)
    requires var slot := Slot(s.reqs.pool, c.reqBank, h.msgId);
             slot.None? || !ReplyFits(s, s.reqs.pool.slots[slot.value], h)
    ensures NetReply(c, s, h) == Note(s, Sent(StrayCancel(h)))
  {}

  /** A time-out made up locally ends a one-shot request, with a CANCEL to the remote node; a request
      for multiple replies only gets an ACNET_PEND, which is no end, and stays open with a new time-out.
      If the client does not answer, its task is removed after that, and the request in any case. */
  lemma TimeoutsEndOneShots(c: Config, s: State, i: nat)
    requires Inv(c, s, {}) && i in s.reqs.pool.slots
    ensures var r, s1, s' := s.reqs.pool.slots[i], Expired(c, s, i), ExpireReq(c, s, i);
            var h, ok := s1.log[|s.log|].h, Alive(c, s, r.owner);
            && (if Mlt(r.flags) then
                  && s1.log == s.log + [Handed(r.serial, true, r.mcast, h, ok)] && h.status == PEND && !IsEmr(h)
                  && s1.reqs.pool.slots == s.reqs.pool.slots && Due(s1.reqs.pool.due, i) == s.now + r.tmoMs
                else
                  && s1.log == s.log + [Handed(r.serial, false, r.mcast, h, ok),
                                        Sent(CancelHeader(c, s, r, c.reqBank + i))]
                  && h.status == TMO && s1.reqs.pool.slots == s.reqs.pool.slots - {i})
            && (if ok then s' == s1 else Tells(c, s1, s') && i !in s'.reqs.pool.slots && !Registered(s'.reg, r.owner))
  {
    ExpiredSays(c, s, i);
    ExpireReqParts(c, s, i);
    ExpiredInv(c, s, i);
    var u := s.reqs.pool.slots[i].owner;
    ReqOwner(c, s, i);
    if !Alive(c, s, u) {
      ClientIsNotInternal(c, s, u);
      RemoveTaskTells(c, Expired(c, s, i), u);
      RemoveTaskInv(c, Expired(c, s, i), u);
      RemoveTaskComplete(c, Expired(c, s, i), u);
    }
  }

  lemma ExpiredSays(c: Config, s: State, i: nat)
    requires Inv(c, s, {}) && i in s.reqs.pool.slots
    ensures var r, s1 := s.reqs.pool.slots[i], Expired(c, s, i);
            var h, ok := s1.log[|s.log|].h, Alive(c, s, r.owner);
            if Mlt(r.flags) then
              && s1.log == s.log + [Handed(r.serial, true, r.mcast, h, ok)] && h.status == PEND && !IsEmr(h)
              && s1.reqs.pool.slots == s.reqs.pool.slots && Due(s1.reqs.pool.due, i) == s.now + r.tmoMs
            else
              && s1.log == s.log + [Handed(r.serial, false, r.mcast, h, ok), Sent(CancelHeader(c, s, r, c.reqBank + i))]
              && h.status == TMO && s1.reqs.pool.slots == s.reqs.pool.slots - {i}
  {
    assert c.reqBank + i - c.reqBank == i;
    ReqPart(c, s, {});
    AllInUse(s.reqs.pool, c.size);
  }

  // ---- A request and its reply on two daemons ----

  /** A reply slot of one daemon stands for a request slot of another. */
  predicate Paired(p: Rpy, r: Req, reqId: nat, taskId: nat) {
    && p.reqId == reqId && p.taskId == taskId && p.taskName == r.taskName
    && p.lclNode == r.remNode && p.remNode == r.lclNode
    && Mlt(p.flags) == Mlt(r.flags) && !p.mcast && !r.mcast
  }

  /** A request that one daemon sends and the other delivers to a client leaves a pair of slots behind. */
  lemma RequestMakesPair(cB: Config, sB: State, u: nat, taskName: nat, node: nat, flags: nat, tmo: nat, n: nat,
                         cA: Config, sA: State, v: nat)
    requires sB.reqs.pool.free != [] && node !in cB.mcastNodes && node !in cA.mcastNodes
    requires Inv(cA, sA, {}) && Delivers(cA, sA, taskName, v)
    ensures var sB' := SendRequest(cB, sB, u, taskName, node, flags, tmo, n);
            var e := sB'.log[|sB'.log| - 1];
            var j, i := sB.reqs.pool.free[0], sA.rpys.pool.free[0];
            e.Sent? && j in sB'.reqs.pool.slots
            && var sA' := NetRequest(cA, sA, e.h);
               i in sA'.rpys.pool.slots && sA'.rpys.pool.slots[i].owner == v
               && Paired(sA'.rpys.pool.slots[i], sB'.reqs.pool.slots[j], cB.reqBank + j, InfoOf(sB.reg, u).id)
  {
    var sB' := SendRequest(cB, sB, u, taskName, node, flags, tmo, n);
    var h := RequestIsSent(cB, sB, u, taskName, node, flags, tmo, n, sB');
    RequestIsHeld(cA, sA, v, h, NetRequest(cA, sA, h));
    NewSlotsArePaired(cB, sB, u, taskName, node, flags, tmo, cA, sA, v, h);
  }

  lemma RequestIsSent(c: Config, s: State, u: nat, taskName: nat, node: nat, flags: nat, tmo: nat, n: nat, s': State)
    returns (h: Header)
    requires s.reqs.pool.free != [] && s' == SendRequest(c, s, u, taskName, node, flags, tmo, n)
    ensures |s'.log| > 0 && s'.log[|s'.log| - 1] == Sent(h) && h.server == node && h.client == c.node
    ensures h.task == taskName && h.taskId == InfoOf(s.reg, u).id && h.msgId == c.reqBank + s.reqs.pool.free[0]
    ensures Mlt(h.flags) == Mlt(flags)
    ensures var j, slots := s.reqs.pool.free[0], s'.reqs.pool.slots;
            j in slots && slots[j] == NewReq(c, s, u, taskName, node, flags, tmo)
  {
    h := s'.log[|s'.log| - 1].h;
  }

  lemma RequestIsHeld(c: Config, s: State, u: nat, h: Header, s': State)
    requires Inv(c, s, {}) && Delivers(c, s, h.task, u) && s' == NetRequest(c, s, h)
    ensures s.rpys.pool.free[0] in s'.rpys.pool.slots && s'.rpys.pool.slots[s.rpys.pool.free[0]] == NewRpy(c, s, u, h)
  {
    RequestIsDelivered(c, s, u, h);
  }

  lemma NewSlotsArePaired(cB: Config, sB: State, u: nat, taskName: nat, node: nat, flags: nat, tmo: nat,
                          cA: Config, sA: State, v: nat, h: Header)
    requires node !in cB.mcastNodes && node !in cA.mcastNodes && h.server == node && h.client == cB.node
    requires h.task == taskName && Mlt(h.flags) == Mlt(flags)
    ensures Paired(NewRpy(cA, sA, v, h), NewReq(cB, sB, u, taskName, node, flags, tmo), h.msgId, h.taskId)
    ensures NewRpy(cA, sA, v, h).owner == v
  {}

  /** sendReplyToNetwork frees the slot exactly if the header it sends lacks the MLT flag. */
  lemma SlotFreedByLastHeader(c: Config, s: State, i: nat, u: nat, status: int, n: nat, emr: bool)
    requires Inv(c, s, {}) && i in s.rpys.pool.slots && Equals(s.reg, s.rpys.pool.slots[i].owner, u)
    ensures var r := s.rpys.pool.slots[i];
            var (s', found) := SendReply(c, s, u, c.rpyBank + i, status, n, emr);
            var h := XmitHeader(r, status, n, emr);
            && found && s'.log == s.log + [Replied(r.serial, h)]
            && (i !in s'.rpys.pool.slots <==> !Mlt(h.flags))
            && (Mlt(h.flags) ==> s'.rpys.pool.slots[i] == r.(acked := true))
  {
    assert c.rpyBank + i - c.rpyBank == i;
    var s1 := XmitReply(c, s, i, status, n, emr);
    BeforeXmitInv(c, s, i);
    XmitReplyAfter(c, s, i, status, n, emr);
    BeforeXmitLog(s, i);
    XmitHeaderSays(s.rpys.pool.slots[i], status, n, emr);
    ReplyAccepted(c, s, u, c.rpyBank + i, i, status, n, emr);
    EndRpyIdDrops(c, s1, i, c.rpyBank + i, SUCCESS);
  }

  lemma BeforeXmitLog(s: State, i: nat)
    requires i in s.rpys.pool.slots
    ensures BeforeXmit(s, i).log == s.log
  {}

  /** When does the end of the reply on one daemon agree with the end of the request on the other? */
  predicate Agreeable(multiple: bool, status: int, emr: bool) {
    if emr || !multiple then status != PEND else status != ENDMULT && !Fatal(status)
  }

  /** The header of a reply: it lacks the MLT flag if it is the last; it is an end of multiple reply
      if it is the last or its status says so. */
  lemma XmitHeaderSays(p: Rpy, status: int, n: nat, emr: bool)
    ensures var h := XmitHeader(p, status, n, emr);
            && (Mlt(h.flags) <==> !LastReply(p, emr))
            && (IsEmr(h) <==> LastReply(p, emr) || status == ENDMULT || Fatal(status))
            && (h.status == PEND <==> status == PEND)
            && h.server == p.lclNode && h.client == p.remNode && h.msgId == p.reqId
            && h.task == p.taskName && h.taskId == p.taskId
  {}

  /** A unicast request is over after a reply that is not PEND, if it was to get one reply only or the
      reply is an end of multiple reply; and then no CANCEL is sent unless the reply was one of many. */
  lemma UnicastReplyCloses(c: Config, s: State, h: Header, j: nat)
    requires Expected(c, s, h, j) && Alive(c, Asked(s), s.reqs.pool.slots[j].owner) && !s.reqs.pool.slots[j].mcast
    ensures var r, s' := s.reqs.pool.slots[j], NetReply(c, s, h);
            && (j !in s'.reqs.pool.slots <==> h.status != PEND && (!Mlt(r.flags) || IsEmr(h)))
            && (h.status == PEND ==> s'.log == s.log)
            && (h.status != PEND && (Mlt(r.flags) || IsEmr(h)) ==>
                  s'.log == s.log + [Handed(r.serial, Mlt(r.flags), false, ReplyForClient(r, h), true)])
  {
    ReplyFollowsTables(c, s, h, j);
  }

  /** Two daemons agree on whether a request is over after a reply, exactly if the reply is
      agreeable; and if both end it, no CANCEL is sent. */
  lemma ClosingAgreement(cA: Config, sA: State, i: nat, u: nat, cB: Config, sB: State, j: nat,
                         status: int, n: nat, emr: bool)
    requires Inv(cA, sA, {}) && i in sA.rpys.pool.slots && Equals(sA.reg, sA.rpys.pool.slots[i].owner, u)
    requires j in sB.reqs.pool.slots
    requires var r := sB.reqs.pool.slots[j];
             Paired(sA.rpys.pool.slots[i], r, cB.reqBank + j, InfoOf(sB.reg, r.owner).id)
             && Alive(cB, sB, r.owner) && Alive(cB, Asked(sB), r.owner)
    ensures var p, r := sA.rpys.pool.slots[i], sB.reqs.pool.slots[j];
            var h := XmitHeader(p, status, n, emr);
            var sA', sB' := SendReply(cA, sA, u, cA.rpyBank + i, status, n, emr).0, NetReply(cB, sB, h);
            var over, closed := i !in sA'.rpys.pool.slots, j !in sB'.reqs.pool.slots;
            && ((over <==> closed) <==> Agreeable(Mlt(p.flags), status, emr))
            && (over && closed ==>
                  sB'.log == sB.log + [Handed(r.serial, Mlt(r.flags), false, ReplyForClient(r, h), true)])
            && (over && !closed ==> status == PEND && sB'.log == sB.log)
            && (!over && closed ==> Mlt(h.flags) && (status == ENDMULT || Fatal(status)))
  {
    var p := sA.rpys.pool.slots[i];
    XmitHeaderSays(p, status, n, emr);
    SlotFreedByLastHeader(cA, sA, i, u, status, n, emr);
    assert cB.reqBank + j - cB.reqBank == j;
    UnicastReplyCloses(cB, sB, XmitHeader(p, status, n, emr), j);
  }

  /** The two last replies that a request gets whose client went away (see BusyIsAnsweredTwice), when they
      arrive at the requester of a unicast request: the first ends it, and its client sees
      ACNET_DISCONNECTED; the second is answered with a CANCEL, and no client sees ACNET_BUSY. */
  lemma BusyIsNotSeen(c: Config, s: State, h: Header, j: nat, s1: State)
    requires Expected(c, s, ErrorReply(h, DISCONNECTED), j) && Alive(c, Asked(s), s.reqs.pool.slots[j].owner)
    requires !s.reqs.pool.slots[j].mcast && s1 == NetReply(c, s, ErrorReply(h, DISCONNECTED))
    ensures var r, g := s.reqs.pool.slots[j], ErrorReply(h, BUSY);
            && j !in s1.reqs.pool.slots
            && s1.log == s.log + [Handed(r.serial, Mlt(r.flags), false, ErrorReply(h, DISCONNECTED), true)]
            && NetReply(c, s1, g) == Note(s1, Sent(StrayCancel(g)))
  {
    var g := ErrorReply(h, DISCONNECTED);
    UnicastReplyCloses(c, s, g, j);
    assert g.flags == FLG_RPY && ClearMlt(FLG_RPY) == FLG_RPY;
    StrayReplyIsCancelled(c, s1, ErrorReply(h, BUSY));
  }

  // ---- CANCEL packets ----

  /** The CANCEL names reply i in every respect. */
  predicate Names(h: Header, p: Rpy) {
    h.client == p.remNode && h.msgId == p.reqId && h.task == p.taskName && h.taskId == p.taskId
  }

  lemma CancelFrees(c: Config, s: State, h: Header, i: nat)
    requires Inv(c, s, {}) && i in s.rpys.pool.slots && Names(h, s.rpys.pool.slots[i])
    requires FindLink(s.rpys.links, h.client, h.msgId) == Some(i)
    ensures forall k :: k in NetCancel(c, s, h).rpys.pool.slots ==> k in s.rpys.pool.slots && k != i
    ensures Alive(c, s, s.rpys.pool.slots[i].owner) ==> NetCancel(c, s, h).rpys == DropRpy(c, s.rpys, i)
  {
    var s3 := CancelIs(c, s, h, i);
  }

  /** How handleAcnetCancel ends a reply: the slot goes, and then its client, if it does not answer. */
  lemma CancelIs(c: Config, s: State, h: Header, i: nat) returns (s3: State)
    requires Inv(c, s, {}) && Cancels(s, h, i)
    ensures Inv(c, s3, {}) && s3.rpys == DropRpy(c, s.rpys, i) && s3.reg == s.reg
    ensures var u := s.rpys.pool.slots[i].owner;
            if Alive(c, s, u) then NetCancel(c, s, h) == s3
            else NetCancel(c, s, h) == RemoveTask(c, s3, u) && Shrinks(s3, NetCancel(c, s, h))
                 && Inv(c, NetCancel(c, s, h), {})
  {
    var r := s.rpys.pool.slots[i];
    RpyOwner(c, s, i);
    DecPendingInv(c, s, r.owner);
    var s1 := if r.acked then s else DecPending(s, r.owner);
    EndRpyIdInv(c, s1, {}, c.rpyBank + i, SUCCESS);
    var s2 := EndRpyId(c, s1, c.rpyBank + i, SUCCESS);
    var g := h.(status := AsStatus(c.rpyBank + i));
    TellInv(c, s2, {}, r.owner, g);
    NetCancelIs(c, s, h, i, s2);
    EndedSame(c, s, i, s1, s2);
    s3 := Tell(c, s2, r.owner, g);
    if !Alive(c, s2, r.owner) { RemoveDeadOwnerInv(c, s2, s3, r.owner); }
  }

  lemma EndedSame(c: Config, s: State, i: nat, s1: State, s2: State)
    requires i in s.rpys.pool.slots
    requires s1 == (if s.rpys.pool.slots[i].acked then s else DecPending(s, s.rpys.pool.slots[i].owner))
    requires s2 == EndRpyId(c, s1, c.rpyBank + i, SUCCESS)
    ensures s2.rpys == DropRpy(c, s.rpys, i) && s2.reg == s.reg
    ensures Alive(c, s2, s.rpys.pool.slots[i].owner) == Alive(c, s, s.rpys.pool.slots[i].owner)
  {
    assert c.rpyBank + i - c.rpyBank == i;
    assert s1.now == s.now && s1.asked == s.asked && s1.reg == s.reg && s1.rpys == s.rpys;
  }

  lemma {:induction false} ErasedNotFound(links: seq<Link>, node: nat, reqId: nat)
    ensures FindLink(EraseKey(links, node, reqId), node, reqId) == None
  {
    if links != [] { ErasedNotFound(links[1..], node, reqId); }
  }

  /** After handleAcnetCancel ended a reply, its key is in activeMap no more; so the loop there has
      no second round. */
  lemma CancelErasesKey(c: Config, s: State, h: Header, i: nat)
    requires Inv(c, s, {}) && FindLink(s.rpys.links, h.client, h.msgId) == Some(i)
    requires i in s.rpys.pool.slots && Names(h, s.rpys.pool.slots[i])
    ensures FindLink(NetCancel(c, s, h).rpys.links, h.client, h.msgId) == None
  {
    var s3 := CancelIs(c, s, h, i);
    ErasedNotFound(s.rpys.links, h.client, h.msgId);
    FindLinkFinds(s3.rpys.links, h.client, h.msgId);
    FindLinkFinds(NetCancel(c, s, h).rpys.links, h.client, h.msgId);
  }

  /** handleAcnetCancel takes no slot into use. */
  lemma CancelAddsNone(c: Config, s: State, h: Header)
    requires Inv(c, s, {})
    ensures forall i :: i in NetCancel(c, s, h).rpys.pool.slots ==> i in s.rpys.pool.slots
  {
    var found := FindLink(s.rpys.links, h.client, h.msgId);
    if found.Some? {
      FoundIsInUse(c, s, h.client, h.msgId, found.value);
      if Names(h, s.rpys.pool.slots[found.value]) { CancelFrees(c, s, h, found.value); }
    }
  }

  /** Does a reply in use have this key? */
  ghost predicate KeyInUse(slots: map<nat, Rpy>, node: nat, reqId: nat) {
    exists i {:trigger slots[i]} :: i in slots && KeyOf(slots[i]) == (node, reqId)
  }

  /** A CANCEL is to end what the client asked for. It ends one reply; no reply with its key is left
      exactly if there was no other. And once the key is erased, no CANCEL finds the others. */
  lemma CancelEndsOneReply(c: Config, s: State, h: Header, i: nat)
    requires Inv(c, s, {}) && i in s.rpys.pool.slots && Names(h, s.rpys.pool.slots[i])
    requires FindLink(s.rpys.links, h.client, h.msgId) == Some(i) && Alive(c, s, s.rpys.pool.slots[i].owner)
    ensures var p := NetCancel(c, s, h).rpys;
            && p.pool.slots == s.rpys.pool.slots - {i}
            && FindLink(p.links, h.client, h.msgId) == None
            && (!KeyInUse(p.pool.slots, h.client, h.msgId)
                <==> forall j :: SameKey(s.rpys.pool.slots, i, j) ==> j == i)
  {
    CancelFrees(c, s, h, i);
    ErasedNotFound(s.rpys.links, h.client, h.msgId);
    var slots := s.rpys.pool.slots;
    var rest := slots - {i};
    assert KeyInUse(rest, h.client, h.msgId) ==> exists j :: SameKey(slots, i, j) && j != i by {
      if KeyInUse(rest, h.client, h.msgId) {
        var j :| j in rest && KeyOf(rest[j]) == (h.client, h.msgId);
        assert SameKey(slots, i, j);
      }
    }
    forall j | SameKey(slots, i, j) && j != i ensures KeyInUse(rest, h.client, h.msgId) {
      assert rest[j] == slots[j];
    }
  }

  /** A request that comes twice and is cancelled once leaves a reply that no CANCEL can end: the
      first CANCEL ends the first reply and hides the second. */
  lemma RepeatedRequestOutlivesCancel(c: Config, s: State, u: nat, h: Header, g: Header,
                                      s1: State, s2: State, s3: State)
    requires Sound(c) && Reachable(c, s) && FindLink(s.rpys.links, h.client, h.msgId) == None
    requires s1 == Step(c, s, Requested(h)) && s2 == Step(c, s1, Requested(h)) && s3 == Step(c, s2, Cancelled(g))
    requires Delivers(c, s, h.task, u) && Delivers(c, s1, h.task, u) && Alive(c, s2, u) && h.server !in c.mcastNodes
    requires g.client == h.client && g.msgId == h.msgId && g.task == h.task && g.taskId == h.taskId
    ensures var i, j := s.rpys.pool.free[0], s1.rpys.pool.free[0];
            && Reachable(c, s3) && i !in s3.rpys.pool.slots && j in s3.rpys.pool.slots
            && KeyOf(s3.rpys.pool.slots[j]) == (g.client, g.msgId)
            && Hidden(s3.rpys.pool.slots[j], s3.rpys.ended) && Step(c, s3, Cancelled(g)) == s3
  {
    ReachableStep(c, s, Requested(h));
    ReachableStep(c, s1, Requested(h));
    ReachableStep(c, s2, Cancelled(g));
    PacketStep(c, s, h);
    PacketStep(c, s1, h);
    PacketStep(c, s2, g);
    PacketStep(c, s3, g);
    SecondOutlives(c, s, u, h, g, s1, s2, s3);
  }

  lemma SecondOutlives(c: Config, s: State, u: nat, h: Header, g: Header, s1: State, s2: State, s3: State)
    requires Sound(c) && Reachable(c, s) && Reachable(c, s1) && Reachable(c, s2) && Reachable(c, s3)
    requires s1 == NetRequest(c, s, h) && s2 == NetRequest(c, s1, h) && s3 == NetCancel(c, s2, g)
    requires Delivers(c, s, h.task, u) && Delivers(c, s1, h.task, u) && Alive(c, s2, u)
    requires h.server !in c.mcastNodes && FindLink(s.rpys.links, h.client, h.msgId) == None
    requires g.client == h.client && g.msgId == h.msgId && g.task == h.task && g.taskId == h.taskId
    ensures var i, j := s.rpys.pool.free[0], s1.rpys.pool.free[0];
            && i !in s3.rpys.pool.slots && j in s3.rpys.pool.slots
            && KeyOf(s3.rpys.pool.slots[j]) == (g.client, g.msgId)
            && Hidden(s3.rpys.pool.slots[j], s3.rpys.ended) && NetCancel(c, s3, g) == s3
  {
    ReachableInv(c, s);
    ReachableInv(c, s1);
    ReachableInv(c, s2);
    ReachableInv(c, s3);
    TwiceDelivered(c, s, u, h, s1, s2);
    NewRpySays(c, s, u, h);
    NewRpySays(c, s1, u, h);
    SecondIsHidden(c, s2, g, s.rpys.pool.free[0], s1.rpys.pool.free[0], s3);
  }

  lemma NewRpySays(c: Config, s: State, u: nat, h: Header)
    ensures var p := NewRpy(c, s, u, h); Names(h, p) && KeyOf(p) == (h.client, h.msgId) && p.owner == u
  {}

  /** A CANCEL ends the reply it finds, and none finds the others with the key. */
  lemma SecondIsHidden(c: Config, s: State, g: Header, i: nat, j: nat, s': State)
    requires Inv(c, s, {}) && s' == NetCancel(c, s, g) && Inv(c, s', {})
    requires FindLink(s.rpys.links, g.client, g.msgId) == Some(i) && i != j
    requires i in s.rpys.pool.slots && Names(g, s.rpys.pool.slots[i]) && Alive(c, s, s.rpys.pool.slots[i].owner)
    requires j in s.rpys.pool.slots && KeyOf(s.rpys.pool.slots[j]) == (g.client, g.msgId)
    ensures i !in s'.rpys.pool.slots && j in s'.rpys.pool.slots && s'.rpys.pool.slots[j] == s.rpys.pool.slots[j]
    ensures Hidden(s'.rpys.pool.slots[j], s'.rpys.ended) && NetCancel(c, s', g) == s'
  {
    CancelEndsOneReply(c, s, g, i);
    HiddenIfNotFound(c, s', j);
  }

  lemma TwiceDelivered(c: Config, s: State, u: nat, h: Header, s1: State, s2: State)
    requires Inv(c, s, {}) && s1 == NetRequest(c, s, h) && Inv(c, s1, {}) && s2 == NetRequest(c, s1, h)
    requires Delivers(c, s, h.task, u) && Delivers(c, s1, h.task, u)
    requires h.server !in c.mcastNodes && FindLink(s.rpys.links, h.client, h.msgId) == None
    ensures var i, j, slots := s.rpys.pool.free[0], s1.rpys.pool.free[0], s2.rpys.pool.slots;
            && i != j && i in slots && j in slots && slots[i] == NewRpy(c, s, u, h) && slots[j] == NewRpy(c, s1, u, h)
            && FindLink(s2.rpys.links, h.client, h.msgId) == Some(i)
  {
    RequestIsDelivered(c, s, u, h);
    RequestIsDelivered(c, s1, u, h);
    var i, j := s.rpys.pool.free[0], s1.rpys.pool.free[0];
    FoundStays(s.rpys.links, Link(h.client, h.msgId, i), h.client, h.msgId);
    FoundStays(s1.rpys.links, Link(h.client, h.msgId, j), h.client, h.msgId);
  }

  /** A reply in use whose key leads nowhere is hidden. */
  lemma HiddenIfNotFound(c: Config, s: State, j: nat)
    requires Inv(c, s, {}) && j in s.rpys.pool.slots
    requires FindLink(s.rpys.links, s.rpys.pool.slots[j].remNode, s.rpys.pool.slots[j].reqId) == None
    ensures Hidden(s.rpys.pool.slots[j], s.rpys.ended)
  {
    LinksInOrder(c, s);
    FindLinkFinds(s.rpys.links, s.rpys.pool.slots[j].remNode, s.rpys.pool.slots[j].reqId);
    assert !Linked(s.rpys.links, s.rpys.pool.slots, j);
  }

  lemma {:induction false} FoundStays(links: seq<Link>, l: Link, node: nat, reqId: nat)
    ensures FindLink(links, node, reqId).Some? ==> FindLink(links + [l], node, reqId) == FindLink(links, node, reqId)
    ensures FindLink(links, node, reqId).None? && l.node == node && l.reqId == reqId ==>
              FindLink(links + [l], node, reqId) == Some(l.slot)
  {
    if links == [] {
      assert links + [l] == [l];
    } else {
      assert (links + [l])[1..] == links[1..] + [l];
      FoundStays(links[1..], l, node, reqId);
    }
  }

  // ---- A reply whose request is gone ----

  /** Does the client of the reply that is found for a key answer? */
  predicate FoundAnswers(c: Config, s: State, node: nat, reqId: nat) {
    var found := FindLink(s.rpys.links, node, reqId);
    found.Some? && found.value in s.rpys.pool.slots ==> Alive(c, s, s.rpys.pool.slots[found.value].owner)
  }

  /** A CANCEL that names a reply in use ends it exactly if the reply is the first of its key. */
  lemma CancelEndsFirst(c: Config, s: State, h: Header, i: nat)
    requires Inv(c, s, {}) && i in s.rpys.pool.slots && Names(h, s.rpys.pool.slots[i])
    requires FoundAnswers(c, s, h.client, h.msgId)
    ensures i !in NetCancel(c, s, h).rpys.pool.slots <==> FirstOfKey(s.rpys.pool.slots, s.rpys.ended, i)
  {
    RepliesAreFound(c, s, i);
    var found := FindLink(s.rpys.links, h.client, h.msgId);
    if found.Some? {
      FoundIsInUse(c, s, h.client, h.msgId, found.value);
      if Names(h, s.rpys.pool.slots[found.value]) { CancelFrees(c, s, h, found.value); }
    }
  }

  /** What a reply that is not the last leaves as it was. */
  lemma SentReplyKeeps(c: Config, s: State, i: nat, u: nat, status: int, n: nat, emr: bool)
    requires Inv(c, s, {}) && i in s.rpys.pool.slots && Equals(s.reg, s.rpys.pool.slots[i].owner, u)
    requires !LastReply(s.rpys.pool.slots[i], emr)
    ensures var s' := SendReply(c, s, u, c.rpyBank + i, status, n, emr).0;
            && Inv(c, s', {}) && s'.rpys.links == s.rpys.links && s'.rpys.ended == s.rpys.ended
            && s'.rpys.pool.slots == s.rpys.pool.slots[i := s.rpys.pool.slots[i].(acked := true)]
  {
    assert c.rpyBank + i - c.rpyBank == i;
    ReplyAccepted(c, s, u, c.rpyBank + i, i, status, n, emr);
    XmitReplyInv(c, s, i, status, n, emr);
    SentReplySlots(s, i);
  }

  lemma SentReplySlots(s: State, i: nat)
    requires i in s.rpys.pool.slots
    ensures var q := BeforeXmit(s, i).rpys;
            && q.links == s.rpys.links && q.ended == s.rpys.ended
            && q.pool.slots == s.rpys.pool.slots[i := s.rpys.pool.slots[i].(acked := true)]
  {
    assert s.rpys.pool.slots[i].acked ==> s.rpys.pool.slots[i].(acked := true) == s.rpys.pool.slots[i];
  }

  lemma AckedStaysFirst(slots: map<nat, Rpy>, ended: map<Key, nat>, i: nat, j: nat)
    requires i in slots
    ensures FirstOfKey(slots[i := slots[i].(acked := true)], ended, j) <==> FirstOfKey(slots, ended, j)
  {
    var m := slots[i := slots[i].(acked := true)];
    forall k ensures SameKey(m, j, k) <==> SameKey(slots, j, k) {}
    forall k | k in slots ensures Hidden(m[k], ended) <==> Hidden(slots[k], ended) {}
    if FirstOfKey(m, ended, j) {
      forall k | SameKey(slots, j, k) && !Hidden(slots[k], ended) ensures slots[j].serial <= slots[k].serial {
        assert SameKey(m, j, k) && !Hidden(m[k], ended);
      }
    }
  }

  /** If the request is over and the reply slot is still in use, the next reply is answered with a
      CANCEL. That frees the slot exactly if this was the last reply anyway, or the reply is the first
      of its key; a reply whose key another one ended with since, or an older one has, stays half open. */
  lemma HalfOpenHeals(cA: Config, sA: State, i: nat, u: nat, cB: Config, sB: State, status: int, n: nat, emr: bool)
    requires Inv(cA, sA, {}) && i in sA.rpys.pool.slots && Equals(sA.reg, sA.rpys.pool.slots[i].owner, u)
    requires var p := sA.rpys.pool.slots[i];
             Slot(sB.reqs.pool, cB.reqBank, p.reqId) == None
             && FoundAnswers(cA, SendReply(cA, sA, u, cA.rpyBank + i, status, n, emr).0, p.remNode, p.reqId)
    ensures var p := sA.rpys.pool.slots[i];
            var h, sA' := XmitHeader(p, status, n, emr), SendReply(cA, sA, u, cA.rpyBank + i, status, n, emr).0;
            && NetReply(cB, sB, h) == Note(sB, Sent(StrayCancel(h)))
            && (i !in NetCancel(cA, sA', StrayCancel(h)).rpys.pool.slots
                <==> LastReply(p, emr) || FirstOfKey(sA.rpys.pool.slots, sA.rpys.ended, i))
  {
    var p := sA.rpys.pool.slots[i];
    var h, sA' := XmitHeader(p, status, n, emr), SendReply(cA, sA, u, cA.rpyBank + i, status, n, emr).0;
    XmitHeaderSays(p, status, n, emr);
    StrayReplyIsCancelled(cB, sB, h);
    if LastReply(p, emr) {
      LastStaysFree(cA, sA, i, u, status, n, emr, sA', StrayCancel(h));
    } else {
      KeptReplyHeals(cA, sA, i, u, status, n, emr, sA', StrayCancel(h));
    }
  }

  lemma LastStaysFree(c: Config, s: State, i: nat, u: nat, status: int, n: nat, emr: bool, s': State, g: Header)
    requires Inv(c, s, {}) && i in s.rpys.pool.slots && Equals(s.reg, s.rpys.pool.slots[i].owner, u)
    requires s' == SendReply(c, s, u, c.rpyBank + i, status, n, emr).0 && LastReply(s.rpys.pool.slots[i], emr)
    ensures i !in NetCancel(c, s', g).rpys.pool.slots
  {
    XmitHeaderSays(s.rpys.pool.slots[i], status, n, emr);
    SlotFreedByLastHeader(c, s, i, u, status, n, emr);
    SendReplyInv(c, s, u, c.rpyBank + i, status, n, emr);
    CancelAddsNone(c, s', g);
  }

  lemma KeptReplyHeals(c: Config, s: State, i: nat, u: nat, status: int, n: nat, emr: bool, s': State, g: Header)
    requires Inv(c, s, {}) && i in s.rpys.pool.slots && Equals(s.reg, s.rpys.pool.slots[i].owner, u)
    requires s' == SendReply(c, s, u, c.rpyBank + i, status, n, emr).0 && !LastReply(s.rpys.pool.slots[i], emr)
    requires Names(g, s.rpys.pool.slots[i]) && FoundAnswers(c, s', g.client, g.msgId)
    ensures i !in NetCancel(c, s', g).rpys.pool.slots <==> FirstOfKey(s.rpys.pool.slots, s.rpys.ended, i)
  {
    SentReplyKeeps(c, s, i, u, status, n, emr);
    AckedStaysFirst(s.rpys.pool.slots, s.rpys.ended, i, i);
    CancelEndsFirst(c, s', g, i);
  }
}
