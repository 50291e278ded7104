/** Every handler of the daemon keeps the invariant: packets from the network, commands of
    clients, time-outs (main.cpp, exttask.cpp, reqinfo.cpp, rpyinfo.cpp). */
module Handlers {
  import opened Sequences
  import opened SlotPools
  import opened Timers
  import opened Acnet
  import opened Daemon
  import opened Invariant
  import opened Registers
  import opened History
  import opened Preservation
  import opened Removal

  /** What most handlers leave alone. */
  ghost predicate SameTasks(s: State, s': State) {
    s'.reg == s.reg && s'.now == s.now && s'.live.Keys == s.live.Keys
  }

  // ---- Single operations ----

  lemma LiveInv(c: Config, s: State, u: nat, l: Live)
    requires Inv(c, s, {}) && u in s.reg.infos
    ensures Inv(c, s.(live := s.live[u := l]), {})
  {
    Facets(c, s, {});
    Whole(c, s.(live := s.live[u := l]), {});
  }

  lemma IsObject(c: Config, s: State, u: nat)
    requires Inv(c, s, {}) && (u in s.live || u in s.reqs.ids || u in s.rpys.ids || u in s.reg.infos)
    ensures u in s.live && u in s.reqs.ids && u in s.rpys.ids && u in s.reg.infos
  {
    Facets(c, s, {});
  }

  lemma DecPendingInv(c: Config, s: State, u: nat)
    requires Inv(c, s, {})
    ensures Inv(c, DecPending(s, u), {})
    ensures DecPending(s, u).(live := s.live) == s && DecPending(s, u).live.Keys == s.live.Keys
  {
    if LiveOf(s, u).pending > 0 {
      IsObject(c, s, u);
      LiveInv(c, s, u, LiveOf(s, u).(pending := LiveOf(s, u).pending - 1));
    }
  }

  lemma IncPendingInv(c: Config, s: State, u: nat)
    requires Inv(c, s, {})
    ensures Inv(c, IncPending(s, u), {})
    ensures IncPending(s, u).(live := s.live) == s && IncPending(s, u).live.Keys == s.live.Keys
  {
    if LiveOf(s, u).pending < 256 && External(s.reg, u) {
      IsObject(c, s, u);
      LiveInv(c, s, u, LiveOf(s, u).(pending := LiveOf(s, u).pending + 1));
    }
  }

  lemma TouchReqInv(c: Config, s: State, i: nat)
    requires Inv(c, s, {})
    ensures Inv(c, s.(reqs := TouchReq(s.reqs, i, s.now)), {})
  {
    Facets(c, s, {});
    TouchReqOk(c, s.reqs, i, s.now);
    MovesSelf(s);
    QuietReqsInv(c, s, {}, TouchReq(s.reqs, i, s.now));
  }

  lemma TouchRpyInv(c: Config, s: State, i: nat)
    requires Inv(c, s, {})
    ensures Inv(c, s.(rpys := TouchRpy(s.rpys, i, s.now)), {})
  {
    Facets(c, s, {});
    TouchRpyOk(c, s.rpys, i, s.now);
    MovesSelf(s);
    QuietRpysInv(c, s, {}, TouchRpy(s.rpys, i, s.now));
  }

  lemma MarkAckedInv(c: Config, s: State, i: nat)
    requires Inv(c, s, {}) && i in s.rpys.pool.slots
    ensures Inv(c, s.(rpys := MarkAcked(s.rpys, i)), {})
  {
    Facets(c, s, {});
    MarkAckedOk(c, s.rpys, i);
    MovesSelf(s);
    QuietRpysInv(c, s, {}, MarkAcked(s.rpys, i));
  }

  lemma PlusQuiet(removed: seq<nat>, ids: Ids, u: nat, id: nat)
    requires Quiet(removed, ids) && u !in removed
    ensures Quiet(removed, Plus(ids, u, id)) && Plus(ids, u, id).Keys == ids.Keys
  {
    forall k | 0 <= k < |removed| ensures IdsOf(Plus(ids, u, id), removed[k]) == {} {
      assert IdsOf(ids, removed[k]) == {};
    }
  }

  lemma NotRemoved(g: Registry, u: nat)
    requires PlacesOk(g, {}) && Registered(g, u)
    ensures u !in g.removed
  {
    assert forall k :: 0 <= k < |g.removed| ==> g.removed[k] != u;
  }

  lemma EnrolReqMoves(c: Config, q: ReqSide, r: Req, i: nat, t: int)
    requires q.pool.free != [] && i == q.pool.free[0] && r.serial == |q.born|
    ensures ReqMoves(q, EnrolReq(c, q, r, i, t))
  {}

  lemma EnrolRpyMoves(c: Config, p: RpySide, r: Rpy, i: nat, t: int)
    requires p.pool.free != [] && i == p.pool.free[0] && r.serial == |p.born|
    ensures RpyMoves(p, EnrolRpy(c, p, r, i, t))
  {}

  /** A registered task may be given a new id. */
  lemma EnrolQuiet(c: Config, s: State, u: nat, id: nat)
    requires Inv(c, s, {}) && Registered(s.reg, u)
    ensures u in s.reqs.ids && Quiet(s.reg.removed, Plus(s.reqs.ids, u, id))
            && Plus(s.reqs.ids, u, id).Keys == s.reqs.ids.Keys
    ensures u in s.rpys.ids && Quiet(s.reg.removed, Plus(s.rpys.ids, u, id))
            && Plus(s.rpys.ids, u, id).Keys == s.rpys.ids.Keys
  {
    RegPart(c, s, {});
    Facets(c, s, {});
    NotRemoved(s.reg, u);
    PlusQuiet(s.reg.removed, s.reqs.ids, u, id);
    PlusQuiet(s.reg.removed, s.rpys.ids, u, id);
  }

  lemma EnrolReqInv(c: Config, s: State, r: Req, i: nat, t: int)
    requires Inv(c, s, {}) && Registered(s.reg, r.owner)
    requires s.reqs.pool.free != [] && i == s.reqs.pool.free[0] && r.serial == |s.reqs.born|
    requires MIN_TIMEOUT_MS <= r.tmoMs <= REQUEST_TIMEOUT * 1000
    ensures Inv(c, s.(reqs := EnrolReq(c, s.reqs, r, i, t)), {})
  {
    Facets(c, s, {});
    EnrolQuiet(c, s, r.owner, c.reqBank + i);
    EnrolReqOk(c, s.reqs, r, i, t);
    EnrolReqMoves(c, s.reqs, r, i, t);
    QuietReqsInv(c, s, {}, EnrolReq(c, s.reqs, r, i, t));
  }

  lemma EnrolRpyInv(c: Config, s: State, r: Rpy, i: nat, t: int)
    requires Inv(c, s, {}) && Registered(s.reg, r.owner)
    requires s.rpys.pool.free != [] && i == s.rpys.pool.free[0] && r.serial == |s.rpys.born|
    ensures Inv(c, s.(rpys := EnrolRpy(c, s.rpys, r, i, t)), {})
  {
    var p := EnrolRpy(c, s.rpys, r, i, t);
    EnrolQuiet(c, s, r.owner, c.rpyBank + i);
    EnrolRpyMoves(c, s.rpys, r, i, t);
    assert p.ids == Plus(s.rpys.ids, r.owner, c.rpyBank + i);
    EnrolledInv(c, s, r, i, t, p);
  }

  lemma EnrolledInv(c: Config, s: State, r: Rpy, i: nat, t: int, p: RpySide)
    requires Inv(c, s, {}) && r.owner in s.rpys.ids
    requires s.rpys.pool.free != [] && i == s.rpys.pool.free[0] && r.serial == |s.rpys.born|
    requires p == EnrolRpy(c, s.rpys, r, i, t) && RpyMoves(s.rpys, p)
    requires p.ids.Keys == s.rpys.ids.Keys && Quiet(s.reg.removed, p.ids)
    ensures Inv(c, s.(rpys := p), {})
  {
    Facets(c, s, {});
    EnrolRpyOk(c, s.rpys, r, i, t);
    QuietRpysInv(c, s, {}, p);
  }

  /** A reply is handed over and the request cancelled at once. */
  lemma HandThenCancelInv(c: Config, s: State, i: nat, h: Header, xmt: bool)
    requires Inv(c, s, {}) && i in s.reqs.pool.slots
    ensures var s2 := CancelReqId(c, Hand(c, s, s.reqs.pool.slots[i], h), c.reqBank + i, xmt, false);
            Inv(c, s2, {}) && SameTasks(s, s2) && s2.rpys == s.rpys && s2.reqs == DropReq(c, s.reqs, i)
  {
    HandAndDropInv(c, s, {}, i, h);
    var r := s.reqs.pool.slots[i];
    assert c.reqBank + i - c.reqBank == i;
    if xmt {
      var s1 := Hand(c, s, r, h);
      NoteInv(c, s1.(reqs := DropReq(c, s1.reqs, i)), {}, Sent(CancelHeader(c, s1, r, c.reqBank + i)));
    }
  }

  /** A reply is handed over and the request stays open. */
  lemma HandInv(c: Config, s: State, i: nat, h: Header)
    requires Inv(c, s, {}) && i in s.reqs.pool.slots
    requires Mlt(s.reqs.pool.slots[i].flags)
    requires s.reqs.pool.slots[i].mcast || !IsEmr(h) || !Alive(c, s, s.reqs.pool.slots[i].owner)
    ensures Inv(c, Hand(c, s, s.reqs.pool.slots[i], h), {})
  {
    var r := s.reqs.pool.slots[i];
    AskedInv(c, s, {});
    HeldReq(c, s, i);
    NoteInv(c, Asked(s), {}, Handed(r.serial, Mlt(r.flags), r.mcast, h, Alive(c, s, r.owner)));
  }

  lemma HeldReq(c: Config, s: State, i: nat)
    requires Inv(c, s, {}) && i in s.reqs.pool.slots
    ensures HoldsReq(s.reqs, s.reqs.pool.slots[i].serial) && s.reqs.born[s.reqs.pool.slots[i].serial] == i
  {
    ReqPart(c, s, {});
  }

  lemma HeldRpy(c: Config, s: State, i: nat)
    requires Inv(c, s, {}) && i in s.rpys.pool.slots
    ensures HoldsRpy(s.rpys, s.rpys.pool.slots[i].serial)
  {
    RpyPart(c, s, {});
  }

  /** The owner of a slot, when it no longer answers, can be removed. */
  lemma RemoveDeadOwnerInv(c: Config, s: State, s': State, u: nat)
    requires Inv(c, s, {}) && Registered(s.reg, u) && !Alive(c, s, u)
    requires Inv(c, s', {}) && s'.reg == s.reg
    ensures Inv(c, RemoveTask(c, s', u), {}) && Shrinks(s', RemoveTask(c, s', u))
    ensures Ages(s'.reg, RemoveTask(c, s', u).reg)
  {
    RegPart(c, s, {});
    RemoveTaskInv(c, s', u);
    ShrinksAges(s', RemoveTask(c, s', u));
  }

  // ---- Sending replies ----

  /** xmitReply up to the point where the packet is sent. */
  function BeforeXmit(s: State, i: nat): State
    requires i in s.rpys.pool.slots
  {
    var r := s.rpys.pool.slots[i];
    var s1 := if r.acked then s else DecPending(s.(rpys := MarkAcked(s.rpys, i)), r.owner);
    s1.(rpys := TouchRpy(s1.rpys, i, s.now))
  }

  lemma BeforeXmitInv(c: Config, s: State, i: nat)
    requires Inv(c, s, {}) && i in s.rpys.pool.slots
    ensures Inv(c, BeforeXmit(s, i), {}) && SameTasks(s, BeforeXmit(s, i)) && BeforeXmit(s, i).reqs == s.reqs
    ensures i in BeforeXmit(s, i).rpys.pool.slots
    ensures BeforeXmit(s, i).rpys.pool.slots[i] == s.rpys.pool.slots[i].(acked := true)
  {
    var r := s.rpys.pool.slots[i];
    var s1 := if r.acked then s else DecPending(s.(rpys := MarkAcked(s.rpys, i)), r.owner);
    if !r.acked {
      MarkAckedInv(c, s, i);
      DecPendingInv(c, s.(rpys := MarkAcked(s.rpys, i)), r.owner);
    }
    TouchRpyInv(c, s1, i);
  }

  lemma XmitReplyAfter(c: Config, s: State, i: nat, status: int, n: nat, emr: bool)
    requires i in s.rpys.pool.slots
    ensures XmitReply(c, s, i, status, n, emr)
         == var r := s.rpys.pool.slots[i]; Note(BeforeXmit(s, i), Replied(r.serial, XmitHeader(r, status, n, emr)))
  {}

  /** A reply that does not end the request, or that only tells the client to keep waiting. */
  lemma XmitReplyInv(c: Config, s: State, i: nat, status: int, n: nat, emr: bool)
    requires Inv(c, s, {}) && i in s.rpys.pool.slots
    requires !LastReply(s.rpys.pool.slots[i], emr) || (!emr && status == PEND)
    ensures var s1 := XmitReply(c, s, i, status, n, emr);
            Inv(c, s1, {}) && SameTasks(s, s1) && s1.reqs == s.reqs && s1.rpys == BeforeXmit(s, i).rpys
  {
    BeforeXmitInv(c, s, i);
    XmitReplyAfter(c, s, i, status, n, emr);
    HeldRpy(c, BeforeXmit(s, i), i);
    var r := s.rpys.pool.slots[i];
    NoteInv(c, BeforeXmit(s, i), {}, Replied(r.serial, XmitHeader(r, status, n, emr)));
  }

  /** The last reply, and the end of the slot. */
  lemma LastReplyInv(c: Config, s: State, i: nat, status: int, n: nat, emr: bool)
    requires Inv(c, s, {}) && i in s.rpys.pool.slots
    ensures var s1 := EndRpyId(c, XmitReply(c, s, i, status, n, emr), c.rpyBank + i, SUCCESS);
            Inv(c, s1, {}) && SameTasks(s, s1) && s1.reqs == s.reqs && s1.rpys == DropRpy(c, BeforeXmit(s, i).rpys, i)
  {
    BeforeXmitInv(c, s, i);
    XmitReplyAfter(c, s, i, status, n, emr);
    assert c.rpyBank + i - c.rpyBank == i;
    ReplyAndDropInv(c, BeforeXmit(s, i), {}, i, XmitHeader(s.rpys.pool.slots[i], status, n, emr));
  }

  lemma SendReplyInv(c: Config, s: State, u: nat, id: nat, status: int, n: nat, emr: bool)
    requires Inv(c, s, {})
    ensures var s1 := SendReply(c, s, u, id, status, n, emr).0; Inv(c, s1, {}) && SameTasks(s, s1)
  {
    var slot := Slot(s.rpys.pool, c.rpyBank, id);
    if slot.Some? && Equals(s.reg, s.rpys.pool.slots[slot.value].owner, u) {
      AcceptedReplyInv(c, s, u, id, slot.value, status, n, emr);
    } else {
      ReplyRefused(c, s, u, id, status, n, emr);
    }
  }

  lemma ReplyRefused(c: Config, s: State, u: nat, id: nat, status: int, n: nat, emr: bool)
    requires var slot := Slot(s.rpys.pool, c.rpyBank, id);
             slot.Some? ==> !Equals(s.reg, s.rpys.pool.slots[slot.value].owner, u)
    ensures SendReply(c, s, u, id, status, n, emr) == (s, false)
  {}

  lemma AcceptedReplyInv(c: Config, s: State, u: nat, id: nat, i: nat, status: int, n: nat, emr: bool)
    requires Inv(c, s, {})
    requires Slot(s.rpys.pool, c.rpyBank, id) == Some(i) && Equals(s.reg, s.rpys.pool.slots[i].owner, u)
    ensures var s1 := SendReply(c, s, u, id, status, n, emr).0; Inv(c, s1, {}) && SameTasks(s, s1)
  {
    ReplyAccepted(c, s, u, id, i, status, n, emr);
    LastReplyInv(c, s, i, status, n, emr);
    if !LastReply(s.rpys.pool.slots[i], emr) {
      XmitReplyInv(c, s, i, status, n, emr);
    }
  }

  lemma ReplyAccepted(c: Config, s: State, u: nat, id: nat, i: nat, status: int, n: nat, emr: bool)
    requires Slot(s.rpys.pool, c.rpyBank, id) == Some(i) && Equals(s.reg, s.rpys.pool.slots[i].owner, u)
    ensures id == c.rpyBank + i
    ensures SendReply(c, s, u, id, status, n, emr).1
    ensures SendReply(c, s, u, id, status, n, emr).0
         == var s1 := XmitReply(c, s, i, status, n, emr);
            if LastReply(s.rpys.pool.slots[i], emr) then EndRpyId(c, s1, id, SUCCESS) else s1
  {}

  // ---- Packets from the network ----

  lemma NextSlotIsFree(c: Config, s: State)
    requires Inv(c, s, {})
    ensures s.reqs.pool.free != [] ==> s.reqs.pool.free[0] !in s.reqs.pool.slots
    ensures s.rpys.pool.free != [] ==> s.rpys.pool.free[0] !in s.rpys.pool.slots
  {
    if s.reqs.pool.free != [] {
      ReqPart(c, s, {});
      FirstIsFree(s.reqs.pool, c.size);
    }
    if s.rpys.pool.free != [] {
      RpyPart(c, s, {});
      FirstIsFree(s.rpys.pool, c.size);
    }
  }

  lemma NetReplyInv(c: Config, s: State, h: Header)
    requires Inv(c, s, {})
    ensures Inv(c, NetReply(c, s, h), {}) && Ages(s.reg, NetReply(c, s, h).reg)
  {
    match Slot(s.reqs.pool, c.reqBank, h.msgId)
    case None => NoteInv(c, s, {}, Sent(StrayCancel(h)));
    case Some(i) =>
      var r := s.reqs.pool.slots[i];
      AskedInv(c, s, {});
      ReqOwner(c, s, i);
      if !ReplyFits(s, r, h) {
        NoteInv(c, s, {}, Sent(StrayCancel(h)));
      } else if !Alive(c, s, r.owner) {
        RemoveDeadOwnerInv(c, s, Asked(s), r.owner);
      } else {
        TouchReqInv(c, Asked(s), i);
        if h.status != PEND {
          FitReplyInv(c, Asked(s).(reqs := TouchReq(s.reqs, i, s.now)), i, h);
        }
      }
  }

  /** A reply that belongs to a live request is handed over, and the request perhaps closed. */
  lemma FitReplyInv(c: Config, s1: State, i: nat, h: Header)
    requires Inv(c, s1, {}) && i in s1.reqs.pool.slots && h.msgId == c.reqBank + i
    ensures var r := s1.reqs.pool.slots[i];
            var s2, mult, emr := Hand(c, s1, r, ReplyForClient(r, h)), Mlt(r.flags), IsEmr(h);
            && (!Alive(c, s1, r.owner) ==> Inv(c, CancelReqId(c, s2, h.msgId, mult || r.mcast, false), {}))
            && (!mult || (!r.mcast && emr) ==>
                  Inv(c, CancelReqId(c, s2, h.msgId, !mult && (!emr || r.mcast), false), {}))
            && (!(!mult || (!r.mcast && emr)) ==> Inv(c, s2, {}))
  {
    var r := s1.reqs.pool.slots[i];
    HandThenCancelInv(c, s1, i, ReplyForClient(r, h), Mlt(r.flags) || r.mcast);
    HandThenCancelInv(c, s1, i, ReplyForClient(r, h), !Mlt(r.flags) && (!IsEmr(h) || r.mcast));
    if Mlt(r.flags) && (r.mcast || !IsEmr(h)) {
      HandInv(c, s1, i, ReplyForClient(r, h));
    }
  }

  /** The reply that a CANCEL finds, if it names it too. */
  predicate Cancels(s: State, h: Header, i: nat) {
    && FindLink(s.rpys.links, h.client, h.msgId) == Some(i) && i in s.rpys.pool.slots
    && var r := s.rpys.pool.slots[i]; h.task == r.taskName && h.client == r.remNode && h.taskId == r.taskId
  }

  /** What handleAcnetCancel does to it: first the reply ends, then its client is told. */
  lemma NetCancelIs(c: Config, s: State, h: Header, i: nat, s2: State)
    requires Cancels(s, h, i)
    requires var r := s.rpys.pool.slots[i];
             s2 == EndRpyId(c, if r.acked then s else DecPending(s, r.owner), c.rpyBank + i, SUCCESS)
    ensures var u := s.rpys.pool.slots[i].owner;
            var s3 := Tell(c, s2, u, h.(status := AsStatus(c.rpyBank + i)));
            NetCancel(c, s, h) == if Alive(c, s2, u) then s3 else RemoveTask(c, s3, u)
  {}

  lemma NetCancelInv(c: Config, s: State, h: Header)
    requires Inv(c, s, {})
    ensures Inv(c, NetCancel(c, s, h), {}) && Ages(s.reg, NetCancel(c, s, h).reg)
  {
    var slot := FindLink(s.rpys.links, h.client, h.msgId);
    if slot.Some? && Cancels(s, h, slot.value) {
      CancelledInv(c, s, h, slot.value);
    } else {
      CancelsNone(c, s, h);
    }
  }

  lemma CancelsNone(c: Config, s: State, h: Header)
    requires var slot := FindLink(s.rpys.links, h.client, h.msgId); slot.Some? ==> !Cancels(s, h, slot.value)
    ensures NetCancel(c, s, h) == s
  {}

  lemma CancelledInv(c: Config, s: State, h: Header, i: nat)
    requires Inv(c, s, {}) && Cancels(s, h, i)
    ensures Inv(c, NetCancel(c, s, h), {}) && Ages(s.reg, NetCancel(c, s, h).reg)
  {
    var r := s.rpys.pool.slots[i];
    RpyOwner(c, s, i);
    DecPendingInv(c, s, r.owner);
    var s1 := if r.acked then s else DecPending(s, r.owner);
    EndRpyIdInv(c, s1, {}, c.rpyBank + i, SUCCESS);
    var s2 := EndRpyId(c, s1, c.rpyBank + i, SUCCESS);
    var g := h.(status := AsStatus(c.rpyBank + i));
    TellInv(c, s2, {}, r.owner, g);
    NetCancelIs(c, s, h, i, s2);
    if !Alive(c, s2, r.owner) {
      RemoveDeadOwnerInv(c, s2, Tell(c, s2, r.owner, g), r.owner);
    }
  }

  lemma OfferedInv(c: Config, s: State, u: nat, h: Header)
    requires Inv(c, s, {}) && Registered(s.reg, u) && s.rpys.pool.free != []
    ensures Inv(c, Offered(c, s, u, h), {})
  {
    EnrolRpyInv(c, s, NewRpy(c, s, u, h), s.rpys.pool.free[0], s.now + REPLY_DELAY * 1000);
  }

  lemma OfferedSame(c: Config, s: State, u: nat, h: Header)
    requires s.rpys.pool.free != []
    ensures var s1 := Offered(c, s, u, h); SameTasks(s, s1) && s1.reqs == s.reqs && s1.live == s.live
    ensures s.rpys.pool.free[0] in Offered(c, s, u, h).rpys.pool.slots
  {}

  lemma HandOverIs(c: Config, s: State, u: nat, h: Header, i: nat, s1: State)
    requires s1 == Tell(c, s, u, h.(status := AsStatus(c.rpyBank + i)))
    ensures HandOver(c, s, u, h, i)
         == if !External(s.reg, u) then (AnswerAtOnce(c, s1, i), SUCCESS)
            else if Alive(c, s, u) then (s1, SUCCESS)
            else (EndRpyId(c, s1, c.rpyBank + i, DISCONNECTED), BUSY)
  {}

  /** The internal task's reply is a last reply, and the slot is free again. */
  lemma AnswerAtOnceInv(c: Config, s: State, i: nat)
    requires Inv(c, s, {})
    ensures var s' := AnswerAtOnce(c, s, i);
            Inv(c, s', {}) && SameTasks(s, s') && s'.reqs == s.reqs && s'.live == s.live
    ensures i in s.rpys.pool.slots ==> AnswerAtOnce(c, s, i).rpys == DropRpy(c, s.rpys, i)
  {
    assert c.rpyBank + i - c.rpyBank == i;
    if i in s.rpys.pool.slots {
      var a := AnswerOf(c, s.asked);
      ReplyAndDropInv(c, s, {}, i, ReplyHeader(s.rpys.pool.slots[i], FLG_RPY, a.status, a.n));
    }
  }

  lemma HandOverInv(c: Config, s: State, u: nat, h: Header, i: nat)
    requires Inv(c, s, {})
    ensures var s' := HandOver(c, s, u, h, i).0; Inv(c, s', {}) && SameTasks(s, s') && s'.reqs == s.reqs
  {
    var s1 := Tell(c, s, u, h.(status := AsStatus(c.rpyBank + i)));
    TellInv(c, s, {}, u, h.(status := AsStatus(c.rpyBank + i)));
    AnswerAtOnceInv(c, s1, i);
    EndRpyIdInv(c, s1, {}, c.rpyBank + i, DISCONNECTED);
  }

  lemma DeliverCountedInv(c: Config, s: State, u: nat, h: Header)
    requires Inv(c, s, {}) && Registered(s.reg, u)
    ensures var s' := DeliverCounted(c, s, u, h).0; Inv(c, s', {}) && SameTasks(s, s') && s'.reqs == s.reqs
  {
    if s.rpys.pool.free == [] {
      DecPendingInv(c, s, u);
    } else {
      var i := s.rpys.pool.free[0];
      OfferedInv(c, s, u, h);
      OfferedSame(c, s, u, h);
      HandOverInv(c, Offered(c, s, u, h), u, h, i);
      DecPendingInv(c, HandOver(c, Offered(c, s, u, h), u, h, i).0, u);
    }
  }

  lemma DeliverInv(c: Config, s: State, u: nat, h: Header)
    requires Inv(c, s, {}) && Registered(s.reg, u)
    ensures var s' := Deliver(c, s, u, h).0; Inv(c, s', {}) && SameTasks(s, s') && s'.reqs == s.reqs
  {
    IncPendingInv(c, s, u);
    DeliverCountedInv(c, IncPending(s, u), u, h);
  }

  lemma SentInv(c: Config, s: State, h: Header)
    requires Inv(c, s, {})
    ensures Inv(c, Note(s, Sent(h)), {})
  {
    NoteInv(c, s, {}, Sent(h));
  }

  ghost predicate AllRegistered(g: Registry, us: seq<nat>) {
    forall k {:trigger us[k]} :: 0 <= k < |us| ==> Registered(g, us[k])
  }

  lemma DeliverToInv(c: Config, s: State, u: nat, h: Header)
    requires Inv(c, s, {}) && Registered(s.reg, u)
    ensures var (s', alive) := DeliverTo(c, s, u, h);
            Inv(c, s', {}) && SameTasks(s, s') && s'.reqs == s.reqs && (!alive ==> External(s.reg, u))
  {
    AskedInv(c, s, {});
    var s1 := Asked(s);
    if Alive(c, s, u) {
      DeliverInv(c, s1, u, h);
      var (s2, result) := if AcceptsRequests(s1, u) then Deliver(c, s1, u, h) else (s1, NCR);
      SentInv(c, s2, ErrorReply(h, result));
    }
  }

  lemma {:induction false} DeliverAllInv(c: Config, s: State, us: seq<nat>, h: Header)
    requires Inv(c, s, {}) && AllRegistered(s.reg, us)
    ensures var (s', found, dead) := DeliverAll(c, s, us, h);
            && Inv(c, s', {}) && SameTasks(s, s') && s'.reqs == s.reqs
            && (dead.Some? ==> dead.value in us && External(s.reg, dead.value))
    decreases |us|
  {
    if us != [] {
      var init := us[..|us| - 1];
      DeliverAllInv(c, s, init, h);
      DeliverToInv(c, DeliverAll(c, s, init, h).0, us[|us| - 1], h);
    }
  }

  lemma TasksOfRegistered(c: Config, s: State, handle: nat)
    requires Inv(c, s, {})
    ensures AllRegistered(s.reg, TasksOf(s.reg.active, handle))
  {
    var us := TasksOf(s.reg.active, handle);
    TasksOfMembers(s.reg.active, handle);
    forall k | 0 <= k < |us| ensures Registered(s.reg, us[k]) {
      assert us[k] in us;
      var j :| 0 <= j < |s.reg.active| && s.reg.active[j] == Entry(handle, us[k]);
      ListedIsRegistered(c, s, j);
    }
  }

  lemma NetRequestInv(c: Config, s: State, h: Header)
    requires Inv(c, s, {})
    ensures Inv(c, NetRequest(c, s, h), {}) && Ages(s.reg, NetRequest(c, s, h).reg)
  {
    var us := TasksOf(s.reg.active, h.task);
    SentInv(c, s, ErrorReply(h, NOTASK));
    if us != [] {
      TasksOfRegistered(c, s, h.task);
      DeliverAllInv(c, s, us, h);
      var (s1, found, dead) := DeliverAll(c, s, us, h);
      SentInv(c, s1, ErrorReply(h, NOTASK));
      if dead.Some? {
        RemoveClientInv(c, s, if !found && h.server !in c.mcastNodes then Note(s1, Sent(ErrorReply(h, NOTASK))) else s1,
                        us, dead.value);
      }
    }
  }

  lemma RemoveClientInv(c: Config, s: State, s': State, us: seq<nat>, u: nat)
    requires Inv(c, s, {}) && AllRegistered(s.reg, us) && u in us && External(s.reg, u)
    requires Inv(c, s', {}) && s'.reg == s.reg
    ensures Inv(c, RemoveTask(c, s', u), {}) && Ages(s.reg, RemoveTask(c, s', u).reg)
  {
    RegPart(c, s, {});
    var k :| 0 <= k < |us| && us[k] == u;
    RemoveTaskInv(c, s', u);
    ShrinksAges(s', RemoveTask(c, s', u));
  }

  // ---- Nodes that went away ----

  lemma CancelReqToNodeInv(c: Config, s: State, node: nat)
    requires Inv(c, s, {})
    ensures Inv(c, CancelReqToNode(c, s, node), {}) && Ages(s.reg, CancelReqToNode(c, s, node).reg)
  {
    match FirstReqTo(s.reqs.pool, node, 0, c.size)
    case None =>
    case Some(i) =>
      var r := s.reqs.pool.slots[i];
      var h := LocalReply(c, s, r, c.reqBank + i, FLG_RPY, DISCONNECTED);
      HandAndDropInv(c, s, {}, i, h);
      var s1 := Hand(c, s, r, h);
      ReqOwner(c, s, i);
      if !Alive(c, s, r.owner) {
        RemoveDeadOwnerInv(c, s, s1.(reqs := DropReq(c, s1.reqs, i)), r.owner);
      }
  }

  lemma EndRpyToNodeInv(c: Config, s: State, node: nat)
    requires Inv(c, s, {})
    ensures Inv(c, EndRpyToNode(c, s, node), {}) && Ages(s.reg, EndRpyToNode(c, s, node).reg)
  {
    match FirstRpyTo(s.rpys.pool, node, 0, c.size)
    case None =>
    case Some(i) =>
      var r := s.rpys.pool.slots[i];
      var h := ReplyHeader(r, FLG_CAN, SUCCESS, 0);
      TellInv(c, s, {}, r.owner, h);
      var s1 := Tell(c, s, r.owner, h);
      DropRpyInv(c, s1, {}, i);
      RpyOwner(c, s, i);
      if !Alive(c, s, r.owner) {
        RemoveDeadOwnerInv(c, s, s1.(rpys := DropRpy(c, s1.rpys, i)), r.owner);
      }
  }

  // ---- Commands of clients ----

  lemma SendRequestInv(c: Config, s: State, u: nat, taskName: nat, node: nat, flags: nat, tmo: nat, n: nat)
    requires Inv(c, s, {}) && Registered(s.reg, u)
    ensures var s1 := SendRequest(c, s, u, taskName, node, flags, tmo, n); Inv(c, s1, {}) && SameTasks(s, s1)
  {
    if s.reqs.pool.free != [] {
      var i := s.reqs.pool.free[0];
      var r := NewReq(c, s, u, taskName, node, flags, tmo);
      EnrolReqInv(c, s, r, i, s.now + r.tmoMs);
      SentInv(c, Opened(c, s, r), RequestHeader(c, s, u, taskName, node, flags, i, n));
    }
  }

  lemma AckCommandInv(c: Config, s: State, u: nat, id: nat)
    requires Inv(c, s, {})
    ensures Inv(c, AckCommand(c, s, u, id), {}) && SameTasks(s, AckCommand(c, s, u, id))
  {
    var slot := Slot(s.rpys.pool, c.rpyBank, id);
    if slot.Some? {
      DecPendingInv(c, s, u);
      MarkAckedInv(c, DecPending(s, u), slot.value);
      MarkAckedInv(c, s, slot.value);
    }
  }

  lemma BlockInv(c: Config, s: State, u: nat)
    requires Inv(c, s, {}) && Registered(s.reg, u)
    ensures var s1 := DrainRpys(c, SetReceiving(s, u, false), u, DISCONNECTED);
            Inv(c, s1, {}) && SameTasks(s, s1) && IdsOf(s1.rpys.ids, u) == {}
  {
    IsObject(c, s, u);
    LiveInv(c, s, u, LiveOf(s, u).(receiving := false));
    DrainRpysInv(c, SetReceiving(s, u, false), {}, u, DISCONNECTED);
  }

  // ---- New tasks and new names ----

  lemma AdmitQuiet(removed: seq<nat>, ids: Ids, u: nat)
    requires Quiet(removed, ids)
    ensures Quiet(removed, ids[u := {}])
  {
    forall k | 0 <= k < |removed| ensures IdsOf(ids[u := {}], removed[k]) == {} {
      assert IdsOf(ids, removed[k]) == {};
    }
  }

  /** A new task has no requests. */
  lemma AdmitReqs(c: Config, q: ReqSide, u: nat)
    requires ReqOk(c, q) && u !in q.ids
    ensures ReqOk(c, q.(ids := q.ids[u := {}])) && ReqMoves(q, q.(ids := q.ids[u := {}]))
  {
    ReqParts(c, q);
    ReqWhole(c, q.(ids := q.ids[u := {}]));
  }

  lemma AdmitRpys(c: Config, p: RpySide, u: nat)
    requires RpyOk(c, p) && u !in p.ids
    ensures RpyOk(c, p.(ids := p.ids[u := {}])) && RpyMoves(p, p.(ids := p.ids[u := {}]))
  {
    RpyParts(c, p);
    RpyWhole(c, p.(ids := p.ids[u := {}]));
  }

  lemma NewObject(c: Config, s: State)
    requires Inv(c, s, {})
    ensures s.reg.nextObj !in s.reg.infos && s.reg.nextObj !in s.reqs.ids && s.reg.nextObj !in s.rpys.ids
  {
    RegPart(c, s, {});
    forall u | u in s.reg.infos ensures u < s.reg.nextObj { assert s.reg.infos[u] == s.reg.infos[u]; }
  }

  lemma AdmittedSides(c: Config, s: State, u: nat)
    requires Inv(c, s, {}) && u !in s.reqs.ids && u !in s.rpys.ids
    ensures var q, p := s.reqs.(ids := s.reqs.ids[u := {}]), s.rpys.(ids := s.rpys.ids[u := {}]);
            && ReqOk(c, q) && RpyOk(c, p) && Hist(s.log, q, p)
            && Quiet(s.reg.removed, q.ids) && Quiet(s.reg.removed, p.ids)
  {
    Facets(c, s, {});
    AdmitReqs(c, s.reqs, u);
    AdmitRpys(c, s.rpys, u);
    AdmitQuiet(s.reg.removed, s.reqs.ids, u);
    AdmitQuiet(s.reg.removed, s.rpys.ids, u);
    Quietly(s.log, s.reqs, s.rpys, s.reqs.(ids := s.reqs.ids[u := {}]), s.rpys.(ids := s.rpys.ids[u := {}]));
  }

  lemma AdmitInv(c: Config, s: State, i: Info)
    requires Inv(c, s, {}) && MayEnter(c, s.reg, i)
    ensures Inv(c, Admit(s, i), {}) && Ages(s.reg, Admit(s, i).reg)
  {
    NewObject(c, s);
    AdmittedSides(c, s, s.reg.nextObj);
    AdmittedReg(c, s, i);
    AdmitAges(s, i);
    Whole(c, Admit(s, i), {});
  }

  lemma AdmittedReg(c: Config, s: State, i: Info)
    requires Inv(c, s, {}) && MayEnter(c, s.reg, i)
    ensures Sound(c) && RegOk(c, Enlist(s.reg, i), {}) && Known(Admit(s, i)) && i.id !in s.reg.tasks
    ensures Enlist(s.reg, i).removed == s.reg.removed
  {
    Facets(c, s, {});
    EnlistOk(c, s.reg, i);
  }

  lemma AdmitAges(s: State, i: Info)
    requires i.id !in s.reg.tasks
    ensures Ages(s.reg, Admit(s, i).reg)
  {}

  /** The task that connects gets an id and a name that no one else has. */
  lemma MayConnect(c: Config, s: State, name: nat, cmdPort: nat, i: Info, ext: bool)
    requires Inv(c, s, {}) && i.handle == name && i.cmdPort == cmdPort && !i.kind.Internal? && i.pid != c.ownPid
    requires FindClient(s.reg, name, cmdPort, 0) == None
    requires NextFreeId(s.reg.tasks, if ext then 256 else 0, if ext then c.maxTasks else 256) == Some(i.id)
    requires name in c.mcastHandles || TasksOf(s.reg.active, name) == []
    ensures MayEnter(c, s.reg, i)
  {
    assert Sound(c) by { RegPart(c, s, {}); }
    FindClientOk(s.reg, name, cmdPort, 0);
    var from, max := if ext then 256 else 0, if ext then c.maxTasks else 256;
    NextFreeIdOk(s.reg.tasks, from, max);
    if name !in c.mcastHandles { NoneOfHandle(s.reg.active, name); }
  }

  lemma NoneOfHandle(active: seq<Entry>, handle: nat)
    requires TasksOf(active, handle) == []
    ensures forall k {:trigger active[k]} :: 0 <= k < |active| ==> active[k].handle != handle
  {
    TasksOfMembers(active, handle);
    forall k | 0 <= k < |active| ensures active[k].handle != handle {
      assert active[k] == Entry(active[k].handle, active[k].obj);
      assert active[k].obj !in TasksOf(active, handle);
    }
  }

  lemma ConnectInv(c: Config, s: State, cmd: ConnectCmd)
    requires Inv(c, s, {}) && cmd.pid != c.ownPid
    ensures Inv(c, Connect(c, s, cmd).0, {}) && Ages(s.reg, Connect(c, s, cmd).0.reg)
  {
    RemoveInactiveInv(c, s);
    var s1 := RemoveInactive(c, s);
    var name := ClientName(c, cmd);
    var slot := NextFreeId(s1.reg.tasks, if cmd.ext then 256 else 0, if cmd.ext then c.maxTasks else 256);
    AskedInv(c, s1, {});
    if FindClient(s1.reg, name, cmd.cmdPort, 0).None? && slot.Some? {
      var kind := if name in c.mcastHandles then Multicast else if cmd.tcp then Remote else Local;
      var i := Info(slot.value, name, kind, cmd.pid, cmd.cmdPort, cmd.dataPort);
      if name in c.mcastHandles {
        MayConnect(c, Asked(s1), name, cmd.cmdPort, i, cmd.ext);
        AdmitInv(c, Asked(s1), i);
        AgesOn(s.reg, s1.reg, Admit(Asked(s1), i).reg);
      } else if TasksOf(s1.reg.active, name) == [] {
        MayConnect(c, s1, name, cmd.cmdPort, i, cmd.ext);
        AdmitInv(c, s1, i);
        AgesOn(s.reg, s1.reg, Admit(s1, i).reg);
      }
    }
  }

  /** Where rename finds the task. */
  lemma RenameFinds(c: Config, s: State, u: nat) returns (k: nat)
    requires Inv(c, s, {}) && Registered(s.reg, u)
    ensures FindEntry(s.reg, s.reg.infos[u].handle, u, 0) == Some(k)
    ensures k < |s.reg.active| && s.reg.active[k] == Entry(s.reg.infos[u].handle, u)
  {
    RegPart(c, s, {});
    k := FindsItself(c, s.reg, u);
  }

  lemma RelistInv(c: Config, s: State, u: nat, k: nat, handle: nat)
    requires Inv(c, s, {}) && Registered(s.reg, u) && u != 0
    requires FindEntry(s.reg, s.reg.infos[u].handle, u, 0) == Some(k)
    requires forall j {:trigger s.reg.active[j]} :: 0 <= j < |s.reg.active| ==> s.reg.active[j].handle != handle
    ensures Inv(c, s.(reg := Relist(s.reg, u, k, handle)), {})
  {
    var k' := RenameFinds(c, s, u);
    Facets(c, s, {});
    RelistOk(c, s.reg, u, k, handle);
    NewRegInv(c, s, {}, Relist(s.reg, u, k, handle), {});
  }
}
