/** Which packets every step adds to the log. A request that stays open is handed nothing but what a reply
    from the network brings, and ACNET_PEND; and the replies that leave are those of the slots. */
module Deliveries {
  import opened Sequences
  import opened SlotPools
  import opened Timers
  import opened Acnet
  import opened Daemon
  import opened Invariant
  import opened History
  import opened Continuity
  import opened Handlers
  import opened Steps
  import opened Repliers

  /** What is watched: the replies with a key, and, unless the step is a reply from the network, the
      requests. */
  datatype Watch = Watch(key: Key, requests: bool)

  function KeyIn(h: Header): Key { (h.client, h.msgId) }

  /** The header is that of a reply from this slot. */
  predicate Speaks(h: Header, r: Rpy) {
    && IsReply(h.flags) && h.server == r.lclNode && h.client == r.remNode && h.msgId == r.reqId
    && h.task == r.taskName && h.taskId == r.taskId
  }

  /** No slot holds allocation n any more. */
  ghost predicate Freed(q: ReqSide, n: nat) {
    n < |q.born| && forall i {:trigger q.pool.slots[i]} :: i in q.pool.slots ==> q.pool.slots[i].serial != n
  }

  /** A packet that needs no reply from the network, nor a request with the key. */
  ghost predicate Innocent(e: Event, s: State, w: Watch) {
    match e
    case Handed(_, _, _, h, _) => h.status == PEND || !w.requests
    case Replied(n, h) =>
      || (exists i {:trigger s.rpys.pool.slots[i]} ::
            i in s.rpys.pool.slots && s.rpys.pool.slots[i].serial == n && Speaks(h, s.rpys.pool.slots[i]))
      || (n >= |s.rpys.born| && KeyIn(h) != w.key)
    case Sent(h) => !IsReply(h.flags) || KeyIn(h) != w.key
    case Told(_, _, _) => true
  }

  /** A packet that left between s and s'. */
  ghost predicate Fair(e: Event, s: State, s': State, w: Watch) {
    Innocent(e, s, w) || (e.Handed? && Freed(s'.reqs, e.serial))
  }

  /** Between s and s' only such packets left, requests were at most freed or new, and so were replies,
      none of the new ones with the key. */
  datatype Aspect = Packets | Requests | Replies

  ghost predicate Keeps(a: Aspect, s: State, s': State, w: Watch) {
    match a
    case Packets =>
      && s.log <= s'.log
      && (forall k {:trigger s'.log[k]} :: |s.log| <= k < |s'.log| ==> Fair(s'.log[k], s, s', w))
    case Requests =>
      ReqMoves(s.reqs, s'.reqs)
      && (ReqBorn(s.reqs.pool.slots, s.reqs.born) ==> ReqBorn(s'.reqs.pool.slots, s'.reqs.born))
    case Replies =>
      && RpyMoves(s.rpys, s'.rpys)
      && (forall i {:trigger s'.rpys.pool.slots[i]} :: i in s'.rpys.pool.slots ==>
            KeyOf(s'.rpys.pool.slots[i]) != w.key || Kept(s.rpys.pool.slots, s'.rpys.pool.slots, i))
  }

  /** The slot holds what it held, but for the acknowledgement. */
  predicate Kept(slots: map<nat, Rpy>, slots': map<nat, Rpy>, i: nat) {
    i in slots && i in slots' && slots'[i].(acked := true) == slots[i].(acked := true)
  }

  ghost predicate Steady(s: State, s': State, w: Watch) {
    forall a: Aspect {:trigger Keeps(a, s, s', w)} :: Keeps(a, s, s', w)
  }

  lemma SteadyParts(s: State, s': State, w: Watch)
    requires Steady(s, s', w)
    ensures Keeps(Packets, s, s', w) && Keeps(Requests, s, s', w) && Keeps(Replies, s, s', w)
  {}

  lemma FreedStays(q: ReqSide, q': ReqSide, n: nat)
    requires Freed(q, n) && ReqMoves(q, q')
    ensures Freed(q', n)
  {
    forall i | i in q'.pool.slots ensures q'.pool.slots[i].serial != n {
      assert q'.pool.slots[i].serial >= |q.born| || q'.pool.slots[i] == q.pool.slots[i];
    }
  }

  lemma InnocentBefore(e: Event, s0: State, s1: State, w: Watch)
    requires Innocent(e, s1, w) && Keeps(Replies, s0, s1, w)
    ensures Innocent(e, s0, w)
  {
    if e.Replied? && !(e.serial >= |s1.rpys.born| && KeyIn(e.h) != w.key) {
      var slots := s1.rpys.pool.slots;
      var i :| i in slots && slots[i].serial == e.serial && Speaks(e.h, slots[i]);
      var r := slots[i];
      if r.serial < |s0.rpys.born| || KeyOf(r) == w.key {
        assert Kept(s0.rpys.pool.slots, s1.rpys.pool.slots, i);
        var r0 := s0.rpys.pool.slots[i];
        assert r == r0 || r == r0.(acked := r.acked);
      }
    }
  }

  lemma RequestsOn(s0: State, s1: State, s2: State, w: Watch)
    requires Keeps(Requests, s0, s1, w) && Keeps(Requests, s1, s2, w)
    ensures Keeps(Requests, s0, s2, w)
  {
    var q0, q1, q2 := s0.reqs, s1.reqs, s2.reqs;
    forall i | i in q2.pool.slots
      ensures q2.pool.slots[i].serial >= |q0.born| || (i in q0.pool.slots && q2.pool.slots[i] == q0.pool.slots[i])
    {
      assert q2.pool.slots[i].serial >= |q1.born| || q2.pool.slots[i] == q1.pool.slots[i];
    }
  }

  lemma RepliesOn(s0: State, s1: State, s2: State, w: Watch)
    requires Keeps(Replies, s0, s1, w) && Keeps(Replies, s1, s2, w)
    ensures Keeps(Replies, s0, s2, w)
  {
    var q0, q1, q2 := s0.rpys, s1.rpys, s2.rpys;
    forall i | i in q2.pool.slots
      ensures q2.pool.slots[i].serial >= |q0.born|
              || (i in q0.pool.slots && q2.pool.slots[i].(acked := true) == q0.pool.slots[i].(acked := true))
      ensures KeyOf(q2.pool.slots[i]) != w.key || Kept(q0.pool.slots, q2.pool.slots, i)
    {
      var r := q2.pool.slots[i];
      if r.serial < |q1.born| || KeyOf(r) == w.key {
        assert Kept(q1.pool.slots, q2.pool.slots, i);
        var r1 := q1.pool.slots[i];
        assert r == r1 || r == r1.(acked := r.acked);
      }
    }
  }

  lemma PacketsOn(s0: State, s1: State, s2: State, w: Watch)
    requires Keeps(Packets, s0, s1, w) && Keeps(Packets, s1, s2, w)
    requires Keeps(Replies, s0, s1, w) && Keeps(Requests, s1, s2, w)
    ensures Keeps(Packets, s0, s2, w)
  {
    forall k | |s0.log| <= k < |s2.log| ensures Fair(s2.log[k], s0, s2, w) {
      var e := s2.log[k];
      if k < |s1.log| {
        assert e == s1.log[k];
        if e.Handed? && Freed(s1.reqs, e.serial) { FreedStays(s1.reqs, s2.reqs, e.serial); }
      } else if Innocent(e, s1, w) {
        InnocentBefore(e, s0, s1, w);
      }
    }
  }

  lemma SteadyOn(s0: State, s1: State, s2: State, w: Watch)
    requires Steady(s0, s1, w) && Steady(s1, s2, w)
    ensures Steady(s0, s2, w)
  {
    SteadyParts(s0, s1, w);
    SteadyParts(s1, s2, w);
    PacketsOn(s0, s1, s2, w);
    RequestsOn(s0, s1, s2, w);
    RepliesOn(s0, s1, s2, w);
  }

  /** No packet leaves, and slots are at most freed. */
  lemma SilentSteady(s: State, s': State, w: Watch)
    requires s'.log == s.log && s'.reqs.born == s.reqs.born && s'.rpys.born == s.rpys.born
    requires FewerReqs(s.reqs.pool.slots, s'.reqs.pool.slots)
    requires FewerRpys(s.rpys.pool.slots, s'.rpys.pool.slots)
    ensures Steady(s, s', w)
  {
    assert Keeps(Packets, s, s', w) && Keeps(Requests, s, s', w);
    forall i | i in s'.rpys.pool.slots ensures Kept(s.rpys.pool.slots, s'.rpys.pool.slots, i) {
      assert s'.rpys.pool.slots[i].(acked := true) == s.rpys.pool.slots[i].(acked := true);
    }
    assert Keeps(Replies, s, s', w);
  }

  lemma SameSteady(s: State, s': State, w: Watch)
    requires s'.log == s.log && s'.rpys.born == s.rpys.born && s'.rpys.pool.slots == s.rpys.pool.slots
    requires s'.reqs.born == s.reqs.born && s'.reqs.pool.slots == s.reqs.pool.slots
    ensures Steady(s, s', w)
  {
    SilentSteady(s, s', w);
  }

  /** One packet leaves. */
  lemma NoteSteady(s: State, e: Event, w: Watch)
    requires Innocent(e, s, w)
    ensures Steady(s, Note(s, e), w)
  {
    var s' := Note(s, e);
    assert Keeps(Packets, s, s', w) && Keeps(Requests, s, s', w) && Keeps(Replies, s, s', w);
  }

  lemma TellSteady(c: Config, s: State, u: nat, h: Header, w: Watch)
    ensures Steady(s, Tell(c, s, u, h), w)
  {
    SameSteady(s, Asked(s), w);
    NoteSteady(Asked(s), Told(u, h, Alive(c, s, u)), w);
    SteadyOn(s, Asked(s), Tell(c, s, u, h), w);
  }

  /** A request is handed a packet and freed. */
  lemma HandSteady(c: Config, s: State, r: Req, h: Header, s': State, w: Watch)
    requires Steady(Hand(c, s, r, h), s', w) && Freed(s'.reqs, r.serial)
    ensures Steady(s, s', w)
  {
    var s1 := Hand(c, s, r, h);
    SteadyParts(s1, s', w);
    SameSteady(s, s.(asked := s1.asked), w);
    SteadyParts(s, s.(asked := s1.asked), w);
    assert Keeps(Requests, s, s', w) && Keeps(Replies, s, s', w);
    forall k | |s.log| <= k < |s'.log| ensures Fair(s'.log[k], s, s', w) {
      if k == |s.log| {
        assert s'.log[k] == s1.log[k];
      } else {
        assert Fair(s'.log[k], s1, s', w);
        assert Innocent(s'.log[k], s1, w) == Innocent(s'.log[k], s, w);
      }
    }
    assert Keeps(Packets, s, s', w);
  }

  // ---- Requests that end ----

  lemma DropReqFrees(c: Config, q: ReqSide, i: nat)
    requires i in q.pool.slots && ReqBorn(q.pool.slots, q.born)
    ensures Freed(DropReq(c, q, i), q.pool.slots[i].serial)
  {
    var q' := DropReq(c, q, i);
    forall k | k in q'.pool.slots ensures q'.pool.slots[k].serial != q.pool.slots[i].serial {
      assert q'.pool.slots[k] == q.pool.slots[k];
    }
  }

  lemma DropReqSteady(c: Config, s: State, i: nat, w: Watch)
    requires i in s.reqs.pool.slots
    ensures Steady(s, s.(reqs := DropReq(c, s.reqs, i)), w)
  {
    SilentSteady(s, s.(reqs := DropReq(c, s.reqs, i)), w);
  }

  lemma CancelReqIdSteady(c: Config, s: State, id: nat, xmt: bool, last: bool, w: Watch)
    requires ReqBorn(s.reqs.pool.slots, s.reqs.born)
    ensures Steady(s, CancelReqId(c, s, id, xmt, last), w)
    ensures ReqBorn(CancelReqId(c, s, id, xmt, last).reqs.pool.slots, CancelReqId(c, s, id, xmt, last).reqs.born)
    ensures var slot := Slot(s.reqs.pool, c.reqBank, id);
            slot.Some? ==> Freed(CancelReqId(c, s, id, xmt, last).reqs, s.reqs.pool.slots[slot.value].serial)
  {
    SameSteady(s, s, w);
    match Slot(s.reqs.pool, c.reqBank, id)
    case None =>
    case Some(i) =>
      var r, s' := s.reqs.pool.slots[i], CancelReqId(c, s, id, xmt, last);
      var s1 := if xmt then Note(s, Sent(CancelHeader(c, s, r, id))) else s;
      if xmt { NoteSteady(s, Sent(CancelHeader(c, s, r, id)), w); }
      DropReqFrees(c, s1.reqs, i);
      if xmt && last {
        var h := LocalReply(c, s, r, id, FLG_RPY, DISCONNECTED);
        DropReqSteady(c, Hand(c, s1, r, h), i, w);
        HandSteady(c, s1, r, h, s', w);
      } else {
        DropReqSteady(c, s1, i, w);
      }
      SteadyOn(s, s1, s', w);
      SteadyParts(s, s', w);
  }

  lemma SteadyBorn(s: State, s': State, w: Watch)
    requires Steady(s, s', w) && ReqBorn(s.reqs.pool.slots, s.reqs.born)
    ensures ReqBorn(s'.reqs.pool.slots, s'.reqs.born)
  {
    SteadyParts(s, s', w);
  }

  lemma {:induction false} DrainReqsSteady(c: Config, s: State, u: nat, last: bool, w: Watch)
    requires ReqBorn(s.reqs.pool.slots, s.reqs.born)
    ensures Steady(s, DrainReqs(c, s, u, last), w)
    decreases |IdsOf(s.reqs.ids, u)|
  {
    var ids := IdsOf(s.reqs.ids, u);
    if ids == {} {
      SameSteady(s, s, w);
    } else {
      var s1 := CancelReqId(c, s, Min(ids), true, last);
      CancelReqIdSteady(c, s, Min(ids), true, last, w);
      if |IdsOf(s1.reqs.ids, u)| < |ids| {
        DrainReqsSteady(c, s1, u, last, w);
        SteadyOn(s, s1, DrainReqs(c, s1, u, last), w);
      }
    }
  }

  lemma ExpireReqSteady(c: Config, s: State, i: nat, w: Watch)
    requires i in s.reqs.pool.slots && ReqBorn(s.reqs.pool.slots, s.reqs.born)
    ensures Steady(s, ExpireReq(c, s, i), w)
  {
    var u := s.reqs.pool.slots[i].owner;
    ExpireReqParts(c, s, i);
    ExpiredSteady(c, s, i, w);
    SteadyBorn(s, Expired(c, s, i), w);
    if !Alive(c, s, u) {
      RemoveTaskSteady(c, Expired(c, s, i), u, w);
      SteadyOn(s, Expired(c, s, i), RemoveTask(c, Expired(c, s, i), u), w);
    }
  }

  /** A time-out ends the request, or only says ACNET_PEND. */
  lemma ExpiredSteady(c: Config, s: State, i: nat, w: Watch)
    requires i in s.reqs.pool.slots && ReqBorn(s.reqs.pool.slots, s.reqs.born)
    ensures Steady(s, Expired(c, s, i), w)
  {
    var r, id := s.reqs.pool.slots[i], c.reqBank + i;
    assert id - c.reqBank == i;
    if Mlt(r.flags) {
      var h := LocalReply(c, s, r, id, FLG_RPY + FLG_MLT, PEND);
      var s1 := Hand(c, s, r, h);
      SameSteady(s, Asked(s), w);
      NoteSteady(Asked(s), Handed(r.serial, true, r.mcast, h, Alive(c, s, r.owner)), w);
      SteadyOn(s, Asked(s), s1, w);
      SameSteady(s1, Expired(c, s, i), w);
      SteadyOn(s, s1, Expired(c, s, i), w);
    } else {
      var h := LocalReply(c, s, r, id, FLG_RPY, TMO);
      CancelReqIdSteady(c, Hand(c, s, r, h), id, true, false, w);
      HandSteady(c, s, r, h, Expired(c, s, i), w);
    }
  }

  lemma {:induction false} ReqTimeoutsSteady(c: Config, s: State, w: Watch)
    requires ReqBorn(s.reqs.pool.slots, s.reqs.born)
    ensures Steady(s, ReqTimeouts(c, s).0, w)
    decreases Overdue(s.reqs.pool.order, s.reqs.pool.due, s.now)
  {
    var p := s.reqs.pool;
    SameSteady(s, s, w);
    if p.order != [] && p.order[0] in p.slots && Due(p.due, p.order[0]) <= s.now {
      var s1 := ExpireReq(c, s, p.order[0]);
      ExpireReqSteady(c, s, p.order[0], w);
      SteadyBorn(s, s1, w);
      if Overdue(s1.reqs.pool.order, s1.reqs.pool.due, s1.now) < Overdue(p.order, p.due, s.now) {
        ReqTimeoutsSteady(c, s1, w);
        SteadyOn(s, s1, ReqTimeouts(c, s1).0, w);
      }
    }
  }

  lemma CancelReqToNodeSteady(c: Config, s: State, node: nat, w: Watch)
    requires ReqBorn(s.reqs.pool.slots, s.reqs.born)
    ensures Steady(s, CancelReqToNode(c, s, node), w)
  {
    match FirstReqTo(s.reqs.pool, node, 0, c.size)
    case None => SameSteady(s, s, w);
    case Some(i) =>
      var r := s.reqs.pool.slots[i];
      var h := LocalReply(c, s, r, c.reqBank + i, FLG_RPY, DISCONNECTED);
      var s1 := Hand(c, s, r, h);
      var s2 := s1.(reqs := DropReq(c, s1.reqs, i));
      DropReqFrees(c, s1.reqs, i);
      DropReqSteady(c, s1, i, w);
      HandSteady(c, s, r, h, s2, w);
      SteadyBorn(s, s2, w);
      RemoveTaskSteady(c, s2, r.owner, w);
      SteadyOn(s, s2, RemoveTask(c, s2, r.owner), w);
  }

  // ---- Replies ----

  lemma DropRpySteady(c: Config, s: State, i: nat, w: Watch)
    requires i in s.rpys.pool.slots
    ensures Steady(s, s.(rpys := DropRpy(c, s.rpys, i)), w)
  {
    SilentSteady(s, s.(rpys := DropRpy(c, s.rpys, i)), w);
  }

  /** A reply from a slot in use. */
  lemma RepliedSteady(s: State, i: nat, h: Header, w: Watch)
    requires i in s.rpys.pool.slots && Speaks(h, s.rpys.pool.slots[i])
    ensures Steady(s, Note(s, Replied(s.rpys.pool.slots[i].serial, h)), w)
  {
    NoteSteady(s, Replied(s.rpys.pool.slots[i].serial, h), w);
  }

  lemma EndRpyIdSteady(c: Config, s: State, id: nat, status: int, w: Watch)
    ensures Steady(s, EndRpyId(c, s, id, status), w)
  {
    SameSteady(s, s, w);
    match Slot(s.rpys.pool, c.rpyBank, id)
    case None =>
    case Some(i) =>
      var r := s.rpys.pool.slots[i];
      var h := ReplyHeader(r, FLG_RPY, status, 0);
      var s1 := if status != SUCCESS && (!r.mcast || !Mlt(r.flags)) then Note(s, Replied(r.serial, h)) else s;
      RepliedSteady(s, i, h, w);
      var s2 := if status != SUCCESS then Tell(c, s1, r.owner, GoneHeader(c, s, r, i)) else s1;
      SameSteady(s1, s1, w);
      TellSteady(c, s1, r.owner, GoneHeader(c, s, r, i), w);
      SteadyOn(s, s1, s2, w);
      DropRpySteady(c, s2, i, w);
      SteadyOn(s, s2, EndRpyId(c, s, id, status), w);
  }

  lemma {:induction false} DrainRpysSteady(c: Config, s: State, u: nat, status: int, w: Watch)
    ensures Steady(s, DrainRpys(c, s, u, status), w)
    decreases |IdsOf(s.rpys.ids, u)|
  {
    var ids := IdsOf(s.rpys.ids, u);
    if ids == {} {
      SameSteady(s, s, w);
    } else {
      var s1 := EndRpyId(c, s, Min(ids), status);
      EndRpyIdSteady(c, s, Min(ids), status, w);
      if |IdsOf(s1.rpys.ids, u)| < |ids| {
        DrainRpysSteady(c, s1, u, status, w);
        SteadyOn(s, s1, DrainRpys(c, s1, u, status), w);
      }
    }
  }

  lemma XmitReplySteady(c: Config, s: State, i: nat, status: int, n: nat, emr: bool, w: Watch)
    requires i in s.rpys.pool.slots
    ensures Steady(s, XmitReply(c, s, i, status, n, emr), w)
  {
    var r, s1 := s.rpys.pool.slots[i], BeforeXmit(s, i);
    XmitReplyAfter(c, s, i, status, n, emr);
    BeforeXmitSteady(s, i, w);
    XmitHeaderSpeaks(r, status, n, emr);
    RepliedSteady(s1, i, XmitHeader(r, status, n, emr), w);
    SteadyOn(s, s1, XmitReply(c, s, i, status, n, emr), w);
  }

  lemma BeforeXmitSteady(s: State, i: nat, w: Watch)
    requires i in s.rpys.pool.slots
    ensures var r, s1 := s.rpys.pool.slots[i], BeforeXmit(s, i);
            && Steady(s, s1, w) && i in s1.rpys.pool.slots && s1.rpys.pool.slots[i] == r.(acked := true)
  {
    var r, s1 := s.rpys.pool.slots[i], BeforeXmit(s, i);
    assert r.acked ==> r == r.(acked := true);
    SilentSteady(s, s1, w);
  }

  lemma XmitHeaderSpeaks(r: Rpy, status: int, n: nat, emr: bool)
    ensures Speaks(XmitHeader(r, status, n, emr), r.(acked := true))
  {}

  lemma SendReplySteady(c: Config, s: State, u: nat, id: nat, status: int, n: nat, emr: bool, w: Watch)
    ensures Steady(s, SendReply(c, s, u, id, status, n, emr).0, w)
  {
    SameSteady(s, s, w);
    var slot := Slot(s.rpys.pool, c.rpyBank, id);
    if slot.Some? {
      var s1 := XmitReply(c, s, slot.value, status, n, emr);
      XmitReplySteady(c, s, slot.value, status, n, emr, w);
      EndRpyIdSteady(c, s1, id, SUCCESS, w);
      SteadyOn(s, s1, EndRpyId(c, s1, id, SUCCESS), w);
    }
  }

  lemma {:induction false} RpyPendsSteady(c: Config, s: State, w: Watch)
    ensures Steady(s, RpyPends(c, s).0, w)
    decreases Overdue(s.rpys.pool.order, s.rpys.pool.due, s.now)
  {
    var p := s.rpys.pool;
    SameSteady(s, s, w);
    if p.order != [] && p.order[0] in p.slots && Due(p.due, p.order[0]) <= s.now {
      var s1 := XmitReply(c, s, p.order[0], PEND, 0, false);
      XmitReplySteady(c, s, p.order[0], PEND, 0, false, w);
      if Overdue(s1.rpys.pool.order, s1.rpys.pool.due, s1.now) < Overdue(p.order, p.due, s.now) {
        RpyPendsSteady(c, s1, w);
        SteadyOn(s, s1, RpyPends(c, s1).0, w);
      }
    }
  }

  lemma EndRpyToNodeSteady(c: Config, s: State, node: nat, w: Watch)
    requires ReqBorn(s.reqs.pool.slots, s.reqs.born)
    ensures Steady(s, EndRpyToNode(c, s, node), w)
  {
    match FirstRpyTo(s.rpys.pool, node, 0, c.size)
    case None => SameSteady(s, s, w);
    case Some(i) =>
      var r := s.rpys.pool.slots[i];
      var s1 := Tell(c, s, r.owner, ReplyHeader(r, FLG_CAN, SUCCESS, 0));
      var s2 := s1.(rpys := DropRpy(c, s1.rpys, i));
      TellSteady(c, s, r.owner, ReplyHeader(r, FLG_CAN, SUCCESS, 0), w);
      DropRpySteady(c, s1, i, w);
      SteadyOn(s, s1, s2, w);
      SteadyBorn(s, s2, w);
      RemoveTaskSteady(c, s2, r.owner, w);
      SteadyOn(s, s2, RemoveTask(c, s2, r.owner), w);
  }

  // ---- Removal ----

  lemma RemoveOnlySteady(c: Config, s: State, u: nat, status: int, last: bool, w: Watch)
    requires ReqBorn(s.reqs.pool.slots, s.reqs.born)
    ensures Steady(s, RemoveOnly(c, s, u, status, last), w)
  {
    var s0 := s.(reg := Unregister(s.reg, u));
    var s1 := DrainReqs(c, s0, u, last);
    var s2 := DrainRpys(c, s1, u, status);
    SameSteady(s, s0, w);
    DrainReqsSteady(c, s0, u, last, w);
    SteadyOn(s, s0, s1, w);
    DrainRpysSteady(c, s1, u, status, w);
    SteadyOn(s, s1, s2, w);
    SameSteady(s2, RemoveOnly(c, s, u, status, last), w);
    SteadyOn(s, s2, RemoveOnly(c, s, u, status, last), w);
  }

  lemma {:induction false} RemovePidSteady(c: Config, s: State, pid: nat, from: nat, w: Watch)
    requires ReqBorn(s.reqs.pool.slots, s.reqs.born)
    ensures Steady(s, RemovePid(c, s, pid, from), w)
    decreases c.maxTasks - from
  {
    SameSteady(s, s, w);
    if from < c.maxTasks {
      var here := from in s.reg.tasks && InfoOf(s.reg, s.reg.tasks[from]).pid == pid;
      var s1 := if here then RemoveOnly(c, s, s.reg.tasks[from], DISCONNECTED, false) else s;
      if here { RemoveOnlySteady(c, s, s.reg.tasks[from], DISCONNECTED, false, w); }
      SteadyBorn(s, s1, w);
      RemovePidSteady(c, s1, pid, from + 1, w);
      SteadyOn(s, s1, RemovePid(c, s1, pid, from + 1), w);
    }
  }

  lemma RemoveTaskSteady(c: Config, s: State, u: nat, w: Watch)
    requires ReqBorn(s.reqs.pool.slots, s.reqs.born)
    ensures Steady(s, RemoveTask(c, s, u), w)
  {
    var pid := InfoOf(s.reg, u).pid;
    if pid == 0 { RemoveOnlySteady(c, s, u, DISCONNECTED, false, w); } else { RemovePidSteady(c, s, pid, 0, w); }
  }

  lemma {:induction false} RemoveDeadSteady(c: Config, s: State, from: nat, w: Watch)
    requires ReqBorn(s.reqs.pool.slots, s.reqs.born)
    ensures Steady(s, RemoveDead(c, s, from), w)
    decreases c.maxTasks - from
  {
    if from >= c.maxTasks {
      SameSteady(s, s, w);
    } else if from !in s.reg.tasks {
      RemoveDeadSteady(c, s, from + 1, w);
    } else {
      var s1, u := Asked(s), s.reg.tasks[from];
      var s2 := if Alive(c, s, u) then s1 else RemoveTask(c, s1, u);
      SameSteady(s, s1, w);
      SameSteady(s1, s1, w);
      RemoveTaskSteady(c, s1, u, w);
      SteadyOn(s, s1, s2, w);
      SteadyBorn(s, s2, w);
      RemoveDeadSteady(c, s2, from + 1, w);
      SteadyOn(s, s2, RemoveDead(c, s2, from + 1), w);
    }
  }

  lemma RemoveInactiveSteady(c: Config, s: State, w: Watch)
    requires ReqBorn(s.reqs.pool.slots, s.reqs.born)
    ensures Steady(s, RemoveInactive(c, s), w)
  {
    var s1 := RemoveDead(c, s, 0);
    RemoveDeadSteady(c, s, 0, w);
    SameSteady(s1, Purge(s1), w);
    SteadyOn(s, s1, Purge(s1), w);
  }

  // ---- Packets ----

  lemma NetCancelSteady(c: Config, s: State, h: Header, w: Watch)
    requires ReqBorn(s.reqs.pool.slots, s.reqs.born)
    ensures Steady(s, NetCancel(c, s, h), w)
  {
    var slot := FindLink(s.rpys.links, h.client, h.msgId);
    if slot.Some? && Cancels(s, h, slot.value) {
      CancelledSteady(c, s, h, slot.value, w);
    } else {
      CancelsNone(c, s, h);
      SameSteady(s, s, w);
    }
  }

  lemma CancelledSteady(c: Config, s: State, h: Header, i: nat, w: Watch)
    requires ReqBorn(s.reqs.pool.slots, s.reqs.born) && Cancels(s, h, i)
    ensures Steady(s, NetCancel(c, s, h), w)
  {
    var r := s.rpys.pool.slots[i];
    var s1 := if r.acked then s else DecPending(s, r.owner);
    var s2 := EndRpyId(c, s1, c.rpyBank + i, SUCCESS);
    var g := h.(status := AsStatus(c.rpyBank + i));
    var s3 := Tell(c, s2, r.owner, g);
    SameSteady(s, s1, w);
    EndRpyIdSteady(c, s1, c.rpyBank + i, SUCCESS, w);
    SteadyOn(s, s1, s2, w);
    TellSteady(c, s2, r.owner, g, w);
    SteadyOn(s, s2, s3, w);
    SteadyBorn(s, s3, w);
    RemoveTaskSteady(c, s3, r.owner, w);
    SteadyOn(s, s3, RemoveTask(c, s3, r.owner), w);
    NetCancelIs(c, s, h, i, s2);
  }

  /** A new reply slot, for a request without the key. */
  lemma OfferedSteady(c: Config, s: State, u: nat, h: Header, w: Watch)
    requires s.rpys.pool.free != [] && KeyIn(h) != w.key
    ensures Steady(s, Offered(c, s, u, h), w)
  {
    var s', j := Offered(c, s, u, h), s.rpys.pool.free[0];
    OfferedSlots(c, s, u, h);
    OfferedBorn(c, s, u, h);
    assert Keeps(Packets, s, s', w) && Keeps(Requests, s, s', w);
    forall i | i in s'.rpys.pool.slots && i != j ensures s'.rpys.pool.slots[i] == s.rpys.pool.slots[i] {}
    assert Keeps(Replies, s, s', w);
  }

  lemma OfferedBorn(c: Config, s: State, u: nat, h: Header)
    requires s.rpys.pool.free != []
    ensures Offered(c, s, u, h).rpys.born == s.rpys.born + [s.rpys.pool.free[0]] && Offered(c, s, u, h).log == s.log
    ensures NewRpy(c, s, u, h).serial == |s.rpys.born| && KeyOf(NewRpy(c, s, u, h)) == KeyIn(h)
  {}

  lemma AnswerAtOnceSteady(c: Config, s: State, i: nat, w: Watch)
    ensures Steady(s, AnswerAtOnce(c, s, i), w)
  {
    SameSteady(s, s, w);
    if i in s.rpys.pool.slots {
      var r, a := s.rpys.pool.slots[i], AnswerOf(c, s.asked);
      var h := ReplyHeader(r, FLG_RPY, a.status, a.n);
      var s1 := Note(s, Replied(r.serial, h));
      RepliedSteady(s, i, h, w);
      EndRpyIdSteady(c, s1, c.rpyBank + i, SUCCESS, w);
      SteadyOn(s, s1, EndRpyId(c, s1, c.rpyBank + i, SUCCESS), w);
    }
  }

  lemma HandOverSteady(c: Config, s: State, u: nat, h: Header, i: nat, w: Watch)
    ensures Steady(s, HandOver(c, s, u, h, i).0, w)
  {
    var s1 := Tell(c, s, u, h.(status := AsStatus(c.rpyBank + i)));
    HandOverIs(c, s, u, h, i, s1);
    TellSteady(c, s, u, h.(status := AsStatus(c.rpyBank + i)), w);
    AnswerAtOnceSteady(c, s1, i, w);
    EndRpyIdSteady(c, s1, c.rpyBank + i, DISCONNECTED, w);
    SteadyOn(s, s1, AnswerAtOnce(c, s1, i), w);
    SteadyOn(s, s1, EndRpyId(c, s1, c.rpyBank + i, DISCONNECTED), w);
  }

  lemma DeliverCountedSteady(c: Config, s: State, u: nat, h: Header, w: Watch)
    requires KeyIn(h) != w.key
    ensures Steady(s, DeliverCounted(c, s, u, h).0, w)
  {
    if s.rpys.pool.free == [] {
      SameSteady(s, DecPending(s, u), w);
    } else {
      var s1 := Offered(c, s, u, h);
      var s2 := HandOver(c, s1, u, h, s.rpys.pool.free[0]).0;
      OfferedSteady(c, s, u, h, w);
      HandOverSteady(c, s1, u, h, s.rpys.pool.free[0], w);
      SteadyOn(s, s1, s2, w);
      SameSteady(s2, DecPending(s2, u), w);
      SteadyOn(s, s2, DecPending(s2, u), w);
    }
  }

  lemma ErrorSteady(s: State, h: Header, status: int, w: Watch)
    requires KeyIn(h) != w.key
    ensures Steady(s, Note(s, Sent(ErrorReply(h, status))), w)
  {
    NoteSteady(s, Sent(ErrorReply(h, status)), w);
  }

  lemma DeliverToSteady(c: Config, s: State, u: nat, h: Header, w: Watch)
    requires KeyIn(h) != w.key
    ensures Steady(s, DeliverTo(c, s, u, h).0, w)
  {
    var s1 := Asked(s);
    SameSteady(s, s1, w);
    if Alive(c, s, u) {
      var (s2, result) := if AcceptsRequests(s1, u) then Deliver(c, s1, u, h) else (s1, NCR);
      if AcceptsRequests(s1, u) {
        SameSteady(s, IncPending(s1, u), w);
        DeliverCountedSteady(c, IncPending(s1, u), u, h, w);
        SteadyOn(s, IncPending(s1, u), s2, w);
      }
      ErrorSteady(s2, h, result, w);
      SteadyOn(s, s2, Note(s2, Sent(ErrorReply(h, result))), w);
    }
  }

  lemma {:induction false} DeliverAllSteady(c: Config, s: State, us: seq<nat>, h: Header, w: Watch)
    requires KeyIn(h) != w.key
    ensures Steady(s, DeliverAll(c, s, us, h).0, w)
    decreases |us|
  {
    if us == [] {
      SameSteady(s, s, w);
    } else {
      var s1 := DeliverAll(c, s, us[..|us| - 1], h).0;
      DeliverAllSteady(c, s, us[..|us| - 1], h, w);
      DeliverToSteady(c, s1, us[|us| - 1], h, w);
      SteadyOn(s, s1, DeliverTo(c, s1, us[|us| - 1], h).0, w);
    }
  }

  lemma NetRequestSteady(c: Config, s: State, h: Header, w: Watch)
    requires ReqBorn(s.reqs.pool.slots, s.reqs.born) && KeyIn(h) != w.key
    ensures Steady(s, NetRequest(c, s, h), w)
  {
    var us, mcast := TasksOf(s.reg.active, h.task), h.server in c.mcastNodes;
    if us == [] {
      SameSteady(s, s, w);
      ErrorSteady(s, h, NOTASK, w);
    } else {
      var (s1, found, dead) := DeliverAll(c, s, us, h);
      var s2 := if !found && !mcast then Note(s1, Sent(ErrorReply(h, NOTASK))) else s1;
      DeliverAllSteady(c, s, us, h, w);
      ErrorSteady(s1, h, NOTASK, w);
      SteadyOn(s, s1, Note(s1, Sent(ErrorReply(h, NOTASK))), w);
      SteadyBorn(s, s2, w);
      if dead.Some? {
        RemoveTaskSteady(c, s2, dead.value, w);
        SteadyOn(s, s2, RemoveTask(c, s2, dead.value), w);
      }
    }
  }

  /** A reply from the network may hand a packet to a request that stays open, and does nothing else. */
  lemma NetReplySteady(c: Config, s: State, h: Header, w: Watch)
    requires ReqBorn(s.reqs.pool.slots, s.reqs.born) && !w.requests
    ensures Steady(s, NetReply(c, s, h), w)
  {
    NoteSteady(s, Sent(StrayCancel(h)), w);
    var slot := Slot(s.reqs.pool, c.reqBank, h.msgId);
    if slot.Some? && ReplyFits(s, s.reqs.pool.slots[slot.value], h) {
      var u := s.reqs.pool.slots[slot.value].owner;
      SameSteady(s, Asked(s), w);
      RemoveTaskSteady(c, Asked(s), u, w);
      SteadyOn(s, Asked(s), RemoveTask(c, Asked(s), u), w);
      if Alive(c, s, u) { LiveReplySteady(c, s, h, slot.value, w); }
    }
  }

  lemma LiveReplySteady(c: Config, s: State, h: Header, i: nat, w: Watch)
    requires ReqBorn(s.reqs.pool.slots, s.reqs.born) && !w.requests
    requires Slot(s.reqs.pool, c.reqBank, h.msgId) == Some(i) && ReplyFits(s, s.reqs.pool.slots[i], h)
    requires Alive(c, s, s.reqs.pool.slots[i].owner)
    ensures Steady(s, NetReply(c, s, h), w)
  {
    var r := s.reqs.pool.slots[i];
    var s1 := Asked(s).(reqs := TouchReq(s.reqs, i, s.now));
    var s2 := Hand(c, s1, r, ReplyForClient(r, h));
    SameSteady(s, s1, w);
    SameSteady(s1, Asked(s1), w);
    NoteSteady(Asked(s1), Handed(r.serial, Mlt(r.flags), r.mcast, ReplyForClient(r, h), Alive(c, s1, r.owner)), w);
    SteadyOn(s1, Asked(s1), s2, w);
    SteadyOn(s, s1, s2, w);
    CancelReqIdSteady(c, s2, h.msgId, Mlt(r.flags) || r.mcast, false, w);
    CancelReqIdSteady(c, s2, h.msgId, !Mlt(r.flags) && (!IsEmr(h) || r.mcast), false, w);
    SteadyOn(s, s2, CancelReqId(c, s2, h.msgId, Mlt(r.flags) || r.mcast, false), w);
    SteadyOn(s, s2, CancelReqId(c, s2, h.msgId, !Mlt(r.flags) && (!IsEmr(h) || r.mcast), false), w);
  }

  // ---- Commands ----

  lemma ConnectSteady(c: Config, s: State, cmd: ConnectCmd, w: Watch)
    requires ReqBorn(s.reqs.pool.slots, s.reqs.born)
    ensures Steady(s, Connect(c, s, cmd).0, w)
  {
    if cmd.dataPort == 0 {
      SameSteady(s, s, w);
    } else {
      var s1 := RemoveInactive(c, s);
      RemoveInactiveSteady(c, s, w);
      var i := ConnectNamedIs(c, s1, ClientName(c, cmd), cmd);
      SameSteady(s1, ConnectNamed(c, s1, ClientName(c, cmd), cmd).0, w);
      SteadyOn(s, s1, Connect(c, s, cmd).0, w);
    }
  }

  lemma RenameSteady(c: Config, s: State, u: nat, handle: nat, w: Watch)
    requires ReqBorn(s.reqs.pool.slots, s.reqs.born)
    ensures Steady(s, Rename(c, s, u, handle).0, w)
  {
    var holders := TasksOf(s.reg.active, handle);
    SameSteady(s, s, w);
    SameSteady(s, Asked(s), w);
    if handle in c.mcastHandles || (holders != [] && Alive(c, s, holders[0])) {
    } else {
      var s1 := if holders != [] then RemoveTask(c, Asked(s), holders[0]) else s;
      if holders != [] {
        RemoveTaskSteady(c, Asked(s), holders[0], w);
        SteadyOn(s, Asked(s), s1, w);
      }
      var found := FindEntry(s1.reg, InfoOf(s1.reg, u).handle, u, 0);
      if found.Some? {
        var s2 := s1.(reg := Relist(s1.reg, u, found.value, handle));
        SameSteady(s1, s2, w);
        SteadyOn(s, s1, s2, w);
      }
    }
  }

  lemma OpenedSteady(c: Config, s: State, r: Req, w: Watch)
    requires s.reqs.pool.free != [] && r.serial == |s.reqs.born|
    ensures Steady(s, Opened(c, s, r), w)
  {
    var s', j := Opened(c, s, r), s.reqs.pool.free[0];
    assert s'.reqs.pool.slots == s.reqs.pool.slots[j := r] && s'.reqs.born == s.reqs.born + [j];
    assert Keeps(Packets, s, s', w);
    assert Keeps(Requests, s, s', w);
    assert Keeps(Replies, s, s', w);
  }

  lemma SendRequestSteady(c: Config, s: State, u: nat, taskName: nat, node: nat, flags: nat, tmo: nat, n: nat, w: Watch)
    ensures Steady(s, SendRequest(c, s, u, taskName, node, flags, tmo, n), w)
  {
    SameSteady(s, s, w);
    if s.reqs.pool.free != [] {
      var r := NewReq(c, s, u, taskName, node, flags, tmo);
      var s1, h := Opened(c, s, r), RequestHeader(c, s, u, taskName, node, flags, s.reqs.pool.free[0], n);
      OpenedSteady(c, s, r, w);
      NoteSteady(s1, Sent(h), w);
      SteadyOn(s, s1, Note(s1, Sent(h)), w);
    }
  }

  lemma AckCommandSteady(c: Config, s: State, u: nat, id: nat, w: Watch)
    ensures Steady(s, AckCommand(c, s, u, id), w)
  {
    SameSteady(s, s, w);
    var slot := Slot(s.rpys.pool, c.rpyBank, id);
    if slot.Some? {
      var s1 := if s.rpys.pool.slots[slot.value].acked then s else DecPending(s, u);
      SilentSteady(s, s1.(rpys := MarkAcked(s1.rpys, slot.value)), w);
    }
  }

  lemma CancelCommandSteady(c: Config, s: State, u: nat, id: nat, w: Watch)
    requires ReqBorn(s.reqs.pool.slots, s.reqs.born)
    ensures Steady(s, CancelCommand(c, s, u, id), w)
  {
    SameSteady(s, s, w);
    CancelReqIdSteady(c, s, id, true, false, w);
  }

  lemma BlockSteady(c: Config, s: State, u: nat, w: Watch)
    ensures Steady(s, DrainRpys(c, SetReceiving(s, u, false), u, DISCONNECTED), w)
  {
    var s1 := SetReceiving(s, u, false);
    SameSteady(s, s1, w);
    DrainRpysSteady(c, s1, u, DISCONNECTED, w);
    SteadyOn(s, s1, DrainRpys(c, s1, u, DISCONNECTED), w);
  }

  lemma ObeySteady(c: Config, s: State, u: nat, cmd: Command, w: Watch)
    requires ReqBorn(s.reqs.pool.slots, s.reqs.born)
    ensures Steady(s, Obey(c, s, u, cmd), w)
  {
    SameSteady(s, s, w);
    match cmd
    case RenameTo(handle) => RenameSteady(c, s, u, handle, w);
    case Request(taskName, node, flags, tmo, n) => SendRequestSteady(c, s, u, taskName, node, flags, tmo, n, w);
    case Cancel(id) => CancelCommandSteady(c, s, u, id, w);
    case Reply(id, status, n, emr) => SendReplySteady(c, s, u, id, status, n, emr, w);
    case Ignore(id) => EndRpyIdSteady(c, s, id, SUCCESS, w);
    case AckRequest(id) => AckCommandSteady(c, s, u, id, w);
    case Receive => SameSteady(s, SetReceiving(s, u, true), w);
    case Block => BlockSteady(c, s, u, w);
    case _ =>
  }

  lemma ClientCommandSteady(c: Config, s: State, u: nat, cmd: Command, w: Watch)
    requires ReqBorn(s.reqs.pool.slots, s.reqs.born)
    ensures Steady(s, ClientCommand(c, s, u, cmd), w)
  {
    var s1 := s.(live := s.live[u := LiveOf(s, u).(lastCommand := s.now)]);
    SameSteady(s, s1, w);
    CommandIs(c, s, u, cmd, s1);
    if cmd.Disconnect? || cmd.DisconnectSingle? {
      SameSteady(s, Asked(s1), w);
      RemoveTaskSteady(c, Asked(s1), u, w);
      RemoveOnlySteady(c, Asked(s1), u, DISCONNECTED, false, w);
      SteadyOn(s, Asked(s1), ClientCommand(c, s, u, cmd), w);
    } else {
      var s2 := Obey(c, s1, u, cmd);
      ObeySteady(c, s1, u, cmd, w);
      SteadyOn(s, s1, s2, w);
      SteadyBorn(s, s2, w);
      AckSteady(c, s2, u, w);
      SteadyOn(s, s2, Ack(c, s2, u), w);
    }
  }

  lemma AckSteady(c: Config, s: State, u: nat, w: Watch)
    requires ReqBorn(s.reqs.pool.slots, s.reqs.born)
    ensures Steady(s, Ack(c, s, u), w)
  {
    SameSteady(s, Asked(s), w);
    RemoveTaskSteady(c, Asked(s), u, w);
    SteadyOn(s, Asked(s), RemoveTask(c, Asked(s), u), w);
  }

  // ---- Steps ----

  /** The inputs that may bring what is watched: a request with the key, and any reply. */
  predicate Expects(e: Input, w: Watch) {
    (e.Requested? && KeyIn(e.h) == w.key) || (e.Answered? && w.requests)
  }

  lemma StepSteady(c: Config, s: State, e: Input, w: Watch)
    requires ReqBorn(s.reqs.pool.slots, s.reqs.born) && !Expects(e, w)
    ensures Steady(s, Step(c, s, e), w)
  {
    SameSteady(s, s, w);
    match e
    case Tick(t) => SameSteady(s, s.(now := t), w);
    case Connecting(cmd) => ConnectSteady(c, s, cmd, w);
    case Commanded(u, cmd) => ClientCommandSteady(c, s, u, cmd, w);
    case Requested(h) => NetRequestSteady(c, s, h, w);
    case Answered(h) => NetReplySteady(c, s, h, w);
    case Cancelled(h) => NetCancelSteady(c, s, h, w);
    case NodeGone(node) => NodeGoneSteady(c, s, node, w);
    case RunTimeouts => ReqTimeoutsSteady(c, s, w);
    case RunPends => RpyPendsSteady(c, s, w);
    case CheckTasks => RemoveInactiveSteady(c, s, w);
  }

  lemma NodeGoneSteady(c: Config, s: State, node: nat, w: Watch)
    requires ReqBorn(s.reqs.pool.slots, s.reqs.born)
    ensures Steady(s, EndRpyToNode(c, CancelReqToNode(c, s, node), node), w)
  {
    var s1 := CancelReqToNode(c, s, node);
    CancelReqToNodeSteady(c, s, node, w);
    SteadyBorn(s, s1, w);
    EndRpyToNodeSteady(c, s1, node, w);
    SteadyOn(s, s1, EndRpyToNode(c, s1, node), w);
  }
}
