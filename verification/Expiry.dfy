/** When time-outs come: not before they are due, and then once. */
module Expiry {
  import opened Sequences
  import opened SlotPools
  import opened Timers
  import opened Acnet
  import opened Daemon
  import opened Invariant
  import opened Registers
  import opened Preservation
  import opened Removal
  import opened Handlers
  import opened Steps
  import opened Guarantees
  import opened Protocol
  import opened Outcomes
  import opened Exchanges

  // ---- What a removal has to say ----

  /** The packets of a removal: the CANCELs of its requests, the last replies ACNET_DISCONNECTED, and CANCELs
      to its clients. No client is handed a reply. */
  predicate Farewell(e: Event) {
    match e
    case Sent(h) => h.flags == 0x200 && h.status == 0
    case Replied(_, h) => h.flags == 4 && h.status == -8703
    case Told(_, h, _) => h.flags == 0x200
    case Handed(_, _, _, _, _) => false
  }

  ghost predicate Farewells(l: seq<Event>, l': seq<Event>) {
    l <= l' && forall k {:trigger l'[k]} :: |l| <= k < |l'| ==> Farewell(l'[k])
  }

  lemma FarewellsOn(l0: seq<Event>, l1: seq<Event>, l2: seq<Event>)
    requires Farewells(l0, l1) && Farewells(l1, l2)
    ensures Farewells(l0, l2)
  {
    assert forall k {:trigger l2[k]} :: 0 <= k < |l1| ==> l2[k] == l1[k];
  }

  lemma CancelReqIdFarewell(c: Config, s: State, id: nat, xmt: bool)
    ensures Farewells(s.log, CancelReqId(c, s, id, xmt, false).log)
  {}

  lemma EndRpyIdFarewell(c: Config, s: State, id: nat)
    ensures Farewells(s.log, EndRpyId(c, s, id, DISCONNECTED).log)
  {}

  lemma {:induction false} DrainReqsFarewell(c: Config, s: State, u: nat)
    ensures Farewells(s.log, DrainReqs(c, s, u, false).log)
    decreases |IdsOf(s.reqs.ids, u)|
  {
    var ids := IdsOf(s.reqs.ids, u);
    if ids != {} {
      var s1 := CancelReqId(c, s, Min(ids), true, false);
      CancelReqIdFarewell(c, s, Min(ids), true);
      if |IdsOf(s1.reqs.ids, u)| < |ids| {
        DrainReqsFarewell(c, s1, u);
        FarewellsOn(s.log, s1.log, DrainReqs(c, s1, u, false).log);
      }
    }
  }

  lemma {:induction false} DrainRpysFarewell(c: Config, s: State, u: nat)
    ensures Farewells(s.log, DrainRpys(c, s, u, DISCONNECTED).log)
    decreases |IdsOf(s.rpys.ids, u)|
  {
    var ids := IdsOf(s.rpys.ids, u);
    if ids != {} {
      var s1 := EndRpyId(c, s, Min(ids), DISCONNECTED);
      EndRpyIdFarewell(c, s, Min(ids));
      if |IdsOf(s1.rpys.ids, u)| < |ids| {
        DrainRpysFarewell(c, s1, u);
        FarewellsOn(s.log, s1.log, DrainRpys(c, s1, u, DISCONNECTED).log);
      }
    }
  }

  lemma RemoveOnlyFarewell(c: Config, s: State, u: nat)
    ensures Farewells(s.log, RemoveOnly(c, s, u, DISCONNECTED, false).log)
  {
    var s0 := s.(reg := Unregister(s.reg, u));
    var s1 := DrainReqs(c, s0, u, false);
    DrainReqsFarewell(c, s0, u);
    DrainRpysFarewell(c, s1, u);
    FarewellsOn(s.log, s1.log, DrainRpys(c, s1, u, DISCONNECTED).log);
  }

  lemma {:induction false} RemovePidFarewell(c: Config, s: State, pid: nat, from: nat)
    ensures Farewells(s.log, RemovePid(c, s, pid, from).log)
    decreases c.maxTasks - from
  {
    if from < c.maxTasks {
      var here := from in s.reg.tasks && InfoOf(s.reg, s.reg.tasks[from]).pid == pid;
      var s1 := if here then RemoveOnly(c, s, s.reg.tasks[from], DISCONNECTED, false) else s;
      if here { RemoveOnlyFarewell(c, s, s.reg.tasks[from]); }
      RemovePidFarewell(c, s1, pid, from + 1);
      FarewellsOn(s.log, s1.log, RemovePid(c, s1, pid, from + 1).log);
    }
  }

  /** Whoever removeTask removes, it sends nothing else. */
  lemma RemoveTaskFarewell(c: Config, s: State, u: nat)
    ensures Farewells(s.log, RemoveTask(c, s, u).log)
  {
    var pid := InfoOf(s.reg, u).pid;
    if pid == 0 { RemoveOnlyFarewell(c, s, u); } else { RemovePidFarewell(c, s, pid, 0); }
  }

  /** So a reply whose client is gone is handed to no one: the client is removed, and its request with it. */
  lemma ReplyMeetsTheGone(c: Config, s: State, h: Header, i: nat)
    requires Inv(c, s, {}) && i in s.reqs.pool.slots && h.msgId == c.reqBank + i
    requires var r := s.reqs.pool.slots[i];
             !Alive(c, s, r.owner) && h.task == r.taskName && h.taskId == InfoOf(s.reg, r.owner).id
             && (r.mcast || h.server == r.remNode)
    ensures var r, s' := s.reqs.pool.slots[i], NetReply(c, s, h);
            Farewells(s.log, s'.log) && i !in s'.reqs.pool.slots && !Registered(s'.reg, r.owner)
  {
    var u := s.reqs.pool.slots[i].owner;
    assert h.msgId - c.reqBank == i;
    ReqOwner(c, s, i);
    ClientIsNotInternal(c, s, u);
    AskedInv(c, s, {});
    RemoveTaskFarewell(c, Asked(s), u);
    RemoveTaskInv(c, Asked(s), u);
    RemoveTaskComplete(c, Asked(s), u);
  }

  // ---- Not before they are due ----

  /** Between l and l' the client of request allocation n was handed nothing. */
  ghost predicate Silent(l: seq<Event>, l': seq<Event>, n: nat) {
    l <= l' && forall k {:trigger l'[k]} :: |l| <= k < |l'| && l'[k].Handed? ==> l'[k].serial != n
  }

  lemma SilentOn(l0: seq<Event>, l1: seq<Event>, l2: seq<Event>, n: nat)
    requires Silent(l0, l1, n) && Silent(l1, l2, n)
    ensures Silent(l0, l2, n)
  {
    assert forall k {:trigger l2[k]} :: 0 <= k < |l1| ==> l2[k] == l1[k];
  }

  lemma FarewellsSilent(l: seq<Event>, l': seq<Event>, n: nat)
    requires Farewells(l, l')
    ensures Silent(l, l', n)
  {}

  /** The packet of a time-out. */
  function TimeOutHeader(c: Config, s: State, i: nat): Header
    requires i in s.reqs.pool.slots
  {
    var r := s.reqs.pool.slots[i];
    var mult := r.flags % 2 == 1;
    Header(if mult then 5 else 4, if mult then 257 else -1535, r.remNode, r.lclNode, r.taskName,
           InfoOf(s.reg, r.owner).id, c.reqBank + i, 18)
  }

  /** What one round of the time-out loop does for slot i: its client is handed that packet, and nobody
      else is handed anything. */
  lemma RoundHands(c: Config, s: State, i: nat)
    requires Inv(c, s, {}) && i in s.reqs.pool.slots
    ensures var s', r := ExpireReq(c, s, i), s.reqs.pool.slots[i];
            && |s'.log| > |s.log|
            && s'.log[|s.log|] == Handed(r.serial, r.flags % 2 == 1, r.mcast, TimeOutHeader(c, s, i),
                                         Alive(c, s, r.owner))
            && s.log + [s'.log[|s.log|]] <= s'.log && Farewells(s.log + [s'.log[|s.log|]], s'.log)
  {
    TimeOutSays(c, s, i);
    ExpireReqParts(c, s, i);
    var r, s1, s' := s.reqs.pool.slots[i], Expired(c, s, i), ExpireReq(c, s, i);
    var l := s.log + [s1.log[|s.log|]];
    assert l <= s1.log && Farewells(l, s1.log);
    if !Alive(c, s, r.owner) {
      RemoveTaskFarewell(c, s1, r.owner);
      FarewellsOn(l, s1.log, s'.log);
    }
  }

  /** And the slots that are left hold what they held, and none of them became due. */
  lemma RoundKeeps(c: Config, s: State, i: nat)
    requires Inv(c, s, {}) && i in s.reqs.pool.slots
    ensures var q, q' := s.reqs.pool, ExpireReq(c, s, i).reqs.pool;
            && (forall x {:trigger x in q'.slots} :: x in q'.slots ==> x in q.slots && q'.slots[x] == q.slots[x])
            && (forall x {:trigger x in q'.slots} :: x in q'.slots && Due(q'.due, x) <= s.now ==>
                  x != i && Due(q.due, x) <= s.now)
            && (forall x {:trigger Due(q'.due, x)} :: x in q'.slots && x != i ==> Due(q'.due, x) == Due(q.due, x))
    ensures ExpireReq(c, s, i).now == s.now && ExpireReq(c, s, i).reg.infos == s.reg.infos
    ensures forall x {:trigger x in s.reqs.pool.slots} :: x in s.reqs.pool.slots && x != i ==>
              x in ExpireReq(c, s, i).reqs.pool.slots || !Registered(ExpireReq(c, s, i).reg, s.reqs.pool.slots[x].owner)
  {
    ExpireReqParts(c, s, i);
    ExpiredInv(c, s, i);
    ExpiredLater(c, s, i);
    ReqOwner(c, s, i);
    var u, s1, s' := s.reqs.pool.slots[i].owner, Expired(c, s, i), ExpireReq(c, s, i);
    if !Alive(c, s, u) {
      RemoveDeadOwnerInv(c, s, s1, u);
    }
  }

  lemma RoundIsSilent(c: Config, s: State, j: nat, n: nat)
    requires Inv(c, s, {}) && j in s.reqs.pool.slots && s.reqs.pool.slots[j].serial != n
    ensures Silent(s.log, ExpireReq(c, s, j).log, n)
  {
    var s1 := ExpireReq(c, s, j);
    RoundHands(c, s, j);
    var l := s.log + [s1.log[|s.log|]];
    FarewellsSilent(l, s1.log, n);
    SilentOn(s.log, l, s1.log, n);
  }

  /** The time-out loop hands nothing to the client of a request that is not due. */
  lemma {:induction false} TimeoutsNotEarly(c: Config, s: State, n: nat)
    requires Inv(c, s, {})
    requires forall x {:trigger x in s.reqs.pool.slots} ::
               x in s.reqs.pool.slots && s.reqs.pool.slots[x].serial == n ==> Due(s.reqs.pool.due, x) > s.now
    ensures Silent(s.log, ReqTimeouts(c, s).0.log, n)
    decreases Overdue(s.reqs.pool.order, s.reqs.pool.due, s.now)
  {
    ReqOrder(c, s);
    var p := s.reqs.pool;
    if p.order != [] && Due(p.due, p.order[0]) <= s.now {
      var i := p.order[0];
      assert i in p.order;
      var s1 := ExpireReq(c, s, i);
      ExpireReqInv(c, s, i);
      RoundIsSilent(c, s, i, n);
      RoundKeeps(c, s, i);
      TimeoutsNotEarly(c, s1, n);
      SilentOn(s.log, s1.log, ReqTimeouts(c, s1).0.log, n);
    }
  }

  /** A request that was sent with a time-out of `tmo` milliseconds is not timed out before they have passed;
      less than 400 count as 400, and more than 390000 as 390000. */
  lemma RequestHasItsTime(c: Config, s: State, u: nat, taskName: nat, node: nat, flags: nat, tmo: nat, n: nat, t: int,
                          s1: State, s2: State)
    requires Inv(c, s, {}) && Inv(c, s1, {}) && s.reqs.pool.free != []
    requires s1 == SendRequest(c, s, u, taskName, node, flags, tmo, n) && s2 == Step(c, s1, Tick(t))
    requires t < s.now + (if tmo < 400 then 400 else if tmo > 390000 then 390000 else tmo)
    ensures Silent(s2.log, Step(c, s2, RunTimeouts).log, s1.reqs.pool.slots[s.reqs.pool.free[0]].serial)
  {
    var i := s.reqs.pool.free[0];
    RequestOpens(c, s, u, taskName, node, flags, tmo, n);
    ReqPart(c, s1, {});
    TickInv(c, s1, t);
    assert i in s1.reqs.pool.slots;
    assert s2.now == t && s2.reqs == s1.reqs;
    TimeoutsNotEarly(c, s2, s1.reqs.pool.slots[i].serial);
  }

  // ---- And then once ----

  /** Between l and l' the client of request allocation n was handed packet h, and nothing else. */
  ghost predicate HandedOnce(l: seq<Event>, l': seq<Event>, n: nat, h: Header) {
    && l <= l'
    && (exists k {:trigger l'[k]} :: |l| <= k < |l'| && l'[k].Handed? && l'[k].serial == n && l'[k].h == h
                                     && Silent(l, l'[..k], n) && Silent(l'[..k + 1], l', n))
  }

  lemma FirstHands(l: seq<Event>, e: Event, l1: seq<Event>, l': seq<Event>)
    requires e.Handed? && l + [e] <= l1 && Silent(l + [e], l1, e.serial) && Silent(l1, l', e.serial)
    ensures HandedOnce(l, l', e.serial, e.h)
  {
    SilentOn(l + [e], l1, l', e.serial);
    assert l'[..|l|] == l && l'[..|l| + 1] == l + [e] && l'[|l|] == e;
  }

  lemma LaterHands(l: seq<Event>, l1: seq<Event>, l': seq<Event>, n: nat, h: Header)
    requires Silent(l, l1, n) && HandedOnce(l1, l', n, h)
    ensures HandedOnce(l, l', n, h)
  {
    var k :| |l1| <= k < |l'| && l'[k].Handed? && l'[k].serial == n && l'[k].h == h
             && Silent(l1, l'[..k], n) && Silent(l'[..k + 1], l', n);
    SilentOn(l, l1, l'[..k], n);
  }

  /** The loop takes the head of the list first. */
  lemma HeadGoesFirst(c: Config, s: State, i: nat) returns (j: nat, s1: State)
    requires Inv(c, s, {}) && i in s.reqs.pool.slots && Due(s.reqs.pool.due, i) <= s.now
    ensures j in s.reqs.pool.slots && Due(s.reqs.pool.due, j) <= s.now && s1 == ExpireReq(c, s, j)
    ensures Inv(c, s1, {}) && ReqTimeouts(c, s) == ReqTimeouts(c, s1) && s1.now == s.now
    ensures Overdue(s1.reqs.pool.order, s1.reqs.pool.due, s1.now) < Overdue(s.reqs.pool.order, s.reqs.pool.due, s.now)
  {
    ReqOrder(c, s);
    var p := s.reqs.pool;
    assert i in p.order;
    OldestIsMinimum(p.order, p.due, i);
    j := p.order[0];
    assert j in p.order;
    s1 := ExpireReq(c, s, j);
    ExpireReqInv(c, s, j);
  }

  lemma FirstIsTimedOut(c: Config, s: State, i: nat, l: seq<Event>)
    requires Inv(c, s, {}) && i in s.reqs.pool.slots
    requires Silent(ExpireReq(c, s, i).log, l, s.reqs.pool.slots[i].serial)
    ensures HandedOnce(s.log, l, s.reqs.pool.slots[i].serial, TimeOutHeader(c, s, i))
  {
    var s1 := ExpireReq(c, s, i);
    RoundHands(c, s, i);
    FarewellsSilent(s.log + [s1.log[|s.log|]], s1.log, s.reqs.pool.slots[i].serial);
    FirstHands(s.log, s1.log[|s.log|], s1.log, l);
  }

  /** Slot i is not the one of the round: it is as it was, or its client is removed for good. */
  lemma OthersWait(c: Config, s: State, j: nat, i: nat)
    requires Inv(c, s, {}) && i in s.reqs.pool.slots && j in s.reqs.pool.slots && i != j
    ensures var s1 := ExpireReq(c, s, j);
            if i in s1.reqs.pool.slots then
              && s1.reqs.pool.slots[i] == s.reqs.pool.slots[i] && TimeOutHeader(c, s1, i) == TimeOutHeader(c, s, i)
              && Due(s1.reqs.pool.due, i) == Due(s.reqs.pool.due, i)
            else !Registered(s1.reg, s.reqs.pool.slots[i].owner) && s.reqs.pool.slots[i].owner < s1.reg.nextObj
    ensures s.reqs.pool.slots[i].serial != s.reqs.pool.slots[j].serial
  {
    RoundKeeps(c, s, j);
    ReqPart(c, s, {});
    ReqOwner(c, s, i);
    OwnerIsOld(c, s, i);
    ExpireReqNext(c, s, j);
  }

  lemma OwnerIsOld(c: Config, s: State, i: nat)
    requires Inv(c, s, {}) && i in s.reqs.pool.slots
    ensures s.reqs.pool.slots[i].owner < s.reg.nextObj
  {
    ReqOwner(c, s, i);
    RegPart(c, s, {});
  }

  /** No object is made in the loop. */
  lemma ExpireReqNext(c: Config, s: State, j: nat)
    requires Inv(c, s, {}) && j in s.reqs.pool.slots
    ensures ExpireReq(c, s, j).reg.nextObj == s.reg.nextObj
  {
    ExpireReqParts(c, s, j);
    ExpiredInv(c, s, j);
    ReqOwner(c, s, j);
    var u := s.reqs.pool.slots[j].owner;
    if !Alive(c, s, u) { RemoveDeadOwnerInv(c, s, Expired(c, s, j), u); }
  }

  /** The request that the loop has just timed out is not timed out again. */
  lemma NotAgain(c: Config, s: State, i: nat)
    requires Inv(c, s, {}) && i in s.reqs.pool.slots && Inv(c, ExpireReq(c, s, i), {})
    ensures var s1 := ExpireReq(c, s, i); Silent(s1.log, ReqTimeouts(c, s1).0.log, s.reqs.pool.slots[i].serial)
  {
    RoundKeeps(c, s, i);
    ReqPart(c, s, {});
    TimeoutsNotEarly(c, ExpireReq(c, s, i), s.reqs.pool.slots[i].serial);
  }

  /** Every request that is due is timed out once by the loop, unless its client is removed in the course
      of it, because it or another of its process does not answer. */
  lemma {:induction false} TimeoutsComeOnce(c: Config, s: State, i: nat)
    requires Inv(c, s, {}) && i in s.reqs.pool.slots && Due(s.reqs.pool.due, i) <= s.now
    ensures var r, s' := s.reqs.pool.slots[i], ReqTimeouts(c, s).0;
            HandedOnce(s.log, s'.log, r.serial, TimeOutHeader(c, s, i)) || !Registered(s'.reg, r.owner)
    decreases Overdue(s.reqs.pool.order, s.reqs.pool.due, s.now)
  {
    var n := s.reqs.pool.slots[i].serial;
    var j, s1 := HeadGoesFirst(c, s, i);
    if j == i {
      NotAgain(c, s, i);
      FirstIsTimedOut(c, s, i, ReqTimeouts(c, s1).0.log);
    } else {
      OthersWait(c, s, j, i);
      if i in s1.reqs.pool.slots {
        RoundIsSilent(c, s, j, n);
        TimeoutsComeOnce(c, s1, i);
        if HandedOnce(s1.log, ReqTimeouts(c, s1).0.log, n, TimeOutHeader(c, s1, i)) {
          LaterHands(s.log, s1.log, ReqTimeouts(c, s1).0.log, n, TimeOutHeader(c, s, i));
        }
      } else {
        ReqTimeoutsInv(c, s1);
      }
    }
  }

  // ---- ACNET_PENDs to the other side ----

  /** Between l and l' nothing was sent for reply allocation n. */
  ghost predicate Unsaid(l: seq<Event>, l': seq<Event>, n: nat) {
    l <= l' && forall k {:trigger l'[k]} :: |l| <= k < |l'| && l'[k].Replied? ==> l'[k].serial != n
  }

  lemma UnsaidOn(l0: seq<Event>, l1: seq<Event>, l2: seq<Event>, n: nat)
    requires Unsaid(l0, l1, n) && Unsaid(l1, l2, n)
    ensures Unsaid(l0, l2, n)
  {
    assert forall k {:trigger l2[k]} :: 0 <= k < |l1| ==> l2[k] == l1[k];
  }

  /** Between l and l' packet h was sent for reply allocation n, and nothing else. */
  ghost predicate SaidOnce(l: seq<Event>, l': seq<Event>, n: nat, h: Header) {
    && l <= l'
    && (exists k {:trigger l'[k]} :: |l| <= k < |l'| && l'[k] == Replied(n, h)
                                     && Unsaid(l, l'[..k], n) && Unsaid(l'[..k + 1], l', n))
  }

  function PendHeader(r: Rpy): Header {
    Header(if r.flags % 2 == 1 then 5 else 4, 257, r.lclNode, r.remNode, r.taskName, r.taskId, r.reqId, 18)
  }

  /** One round of the loop. */
  lemma PendIsSent(c: Config, s: State, j: nat) returns (s1: State)
    requires Inv(c, s, {}) && j in s.rpys.pool.order && Due(s.rpys.pool.due, j) <= s.now
    ensures j in s.rpys.pool.slots && s1 == XmitReply(c, s, j, PEND, 0, false) && Inv(c, s1, {}) && s1.now == s.now
    ensures Overdue(s1.rpys.pool.order, s1.rpys.pool.due, s1.now) < Overdue(s.rpys.pool.order, s.rpys.pool.due, s.now)
    ensures var r := s.rpys.pool.slots[j];
            && s1.log == s.log + [Replied(r.serial, PendHeader(r))]
            && s1.rpys.pool.slots == s.rpys.pool.slots[j := r.(acked := true)]
    ensures forall x {:trigger Due(s1.rpys.pool.due, x)} :: x in s.rpys.pool.slots ==>
              Due(s1.rpys.pool.due, x) == if x == j then s.now + 5000 else Due(s.rpys.pool.due, x)
  {
    PendRound(c, s, j);
    RpyOrder(c, s);
    s1 := XmitReply(c, s, j, PEND, 0, false);
    XmitIs(c, s, j, PEND, 0, false);
    ReplyPacketIs(s.rpys.pool.slots[j], PEND, 0, false);
    PendLater(s, j);
    XmitReplyInv(c, s, j, PEND, 0, false);
  }

  lemma SerialsDiffer(c: Config, s: State, i: nat, j: nat)
    requires Inv(c, s, {}) && i in s.rpys.pool.slots && j in s.rpys.pool.slots && i != j
    ensures s.rpys.pool.slots[i].serial != s.rpys.pool.slots[j].serial
  {
    RpyPart(c, s, {});
  }

  /** Nothing is sent for a reply to a multicast request, or one that is not due. */
  lemma {:induction false} PendsNotEarly(c: Config, s: State, i: nat)
    requires Inv(c, s, {}) && i in s.rpys.pool.slots
    requires s.rpys.pool.slots[i].mcast || Due(s.rpys.pool.due, i) > s.now
    ensures Unsaid(s.log, RpyPends(c, s).0.log, s.rpys.pool.slots[i].serial)
    decreases Overdue(s.rpys.pool.order, s.rpys.pool.due, s.now)
  {
    var p := s.rpys.pool;
    RpyOrder(c, s);
    if p.order != [] && p.order[0] in p.slots && Due(p.due, p.order[0]) <= s.now {
      assert p.order[0] in p.order;
      var s1 := PendIsSent(c, s, p.order[0]);
      SerialsDiffer(c, s, i, p.order[0]);
      PendsNotEarly(c, s1, i);
      UnsaidOn(s.log, s1.log, RpyPends(c, s1).0.log, p.slots[i].serial);
    }
  }

  lemma FirstSays(l: seq<Event>, n: nat, h: Header, l': seq<Event>)
    requires Unsaid(l + [Replied(n, h)], l', n)
    ensures SaidOnce(l, l', n, h)
  {
    assert l'[..|l|] == l && l'[..|l| + 1] == l + [Replied(n, h)] && l'[|l|] == Replied(n, h);
  }

  lemma LaterSays(l: seq<Event>, l1: seq<Event>, l': seq<Event>, n: nat, h: Header)
    requires Unsaid(l, l1, n) && SaidOnce(l1, l', n, h)
    ensures SaidOnce(l, l', n, h)
  {
    var k :| |l1| <= k < |l'| && l'[k] == Replied(n, h) && Unsaid(l1, l'[..k], n) && Unsaid(l'[..k + 1], l', n);
    UnsaidOn(l, l1, l'[..k], n);
  }

  /** Every reply to a unicast request that is due sends its requester one ACNET_PEND. */
  lemma {:induction false} PendsComeOnce(c: Config, s: State, i: nat)
    requires Inv(c, s, {}) && i in s.rpys.pool.slots && !s.rpys.pool.slots[i].mcast
    requires Due(s.rpys.pool.due, i) <= s.now
    ensures var r := s.rpys.pool.slots[i]; SaidOnce(s.log, RpyPends(c, s).0.log, r.serial, PendHeader(r))
    decreases Overdue(s.rpys.pool.order, s.rpys.pool.due, s.now)
  {
    var p, r := s.rpys.pool, s.rpys.pool.slots[i];
    RpyOrder(c, s);
    assert i in p.order;
    OldestIsMinimum(p.order, p.due, i);
    var j := p.order[0];
    assert j in p.order;
    var s1 := PendIsSent(c, s, j);
    var l := RpyPends(c, s1).0.log;
    if j == i {
      PendsNotEarly(c, s1, i);
      FirstSays(s.log, r.serial, PendHeader(r), l);
    } else {
      SerialsDiffer(c, s, i, j);
      PendsComeOnce(c, s1, i);
      LaterSays(s.log, s1.log, l, r.serial, PendHeader(r));
    }
  }
}
