/** Whoever owes a reply accepts requests: what handleAcnetCancel asserts of the task it tells. And what
    an allocation of a slot keeps, every step keeps. */
module Repliers {
  import opened Sequences
  import opened SlotPools
  import opened Timers
  import opened Acnet
  import opened Daemon
  import opened Invariant
  import opened Registers
  import opened Preservation
  import opened Removal
  import opened Continuity
  import opened Handlers
  import opened Steps
  import opened Guarantees

  ghost predicate Willing(s: State) {
    forall i {:trigger s.rpys.pool.slots[i]} :: i in s.rpys.pool.slots ==>
      AcceptsRequests(s, s.rpys.pool.slots[i].owner)
  }

  /** From s to s' no task changed its mind and no slot was taken into use. */
  datatype Lasting = Contents | Minds | Debts

  ghost predicate Lasts(f: Lasting, s: State, s': State) {
    match f
    case Contents => Continues(s, s')
    case Minds => forall u: nat {:trigger AcceptsRequests(s', u)} :: AcceptsRequests(s', u) == AcceptsRequests(s, u)
    case Debts => forall i {:trigger s'.rpys.pool.slots[i]} :: i in s'.rpys.pool.slots ==>
                    i in s.rpys.pool.slots && s'.rpys.pool.slots[i].owner == s.rpys.pool.slots[i].owner
  }

  ghost predicate Follows(s: State, s': State) {
    forall f: Lasting {:trigger Lasts(f, s, s')} :: Lasts(f, s, s')
  }

  lemma FollowsOn(s0: State, s1: State, s2: State)
    requires Follows(s0, s1) && Follows(s1, s2)
    ensures Follows(s0, s2)
  {
    assert Lasts(Contents, s0, s1) && Lasts(Contents, s1, s2);
    assert Lasts(Minds, s0, s1) && Lasts(Minds, s1, s2);
    assert Lasts(Debts, s0, s1) && Lasts(Debts, s1, s2);
    ContinuesOn(s0, s1, s2);
    assert Lasts(Contents, s0, s2);
    assert Lasts(Minds, s0, s2) by {
      forall u: nat ensures AcceptsRequests(s2, u) == AcceptsRequests(s0, u) {
        assert AcceptsRequests(s1, u) == AcceptsRequests(s0, u);
      }
    }
    assert Lasts(Debts, s0, s2) by {
      forall i | i in s2.rpys.pool.slots
        ensures i in s0.rpys.pool.slots && s2.rpys.pool.slots[i].owner == s0.rpys.pool.slots[i].owner
      {
        assert s2.rpys.pool.slots[i].owner == s1.rpys.pool.slots[i].owner;
      }
    }
  }

  /** What every step does: if those who owed a reply accepted requests, those who owe one now do. */
  datatype Gain = Same | Readiness

  ghost predicate Gains(f: Gain, s: State, s': State) {
    match f
    case Same => Continues(s, s')
    case Readiness => Willing(s) ==> Willing(s')
  }

  ghost predicate Goes(s: State, s': State) {
    forall f: Gain {:trigger Gains(f, s, s')} :: Gains(f, s, s')
  }

  lemma GoesWhole(s: State, s': State)
    requires Continues(s, s') && (Willing(s) ==> Willing(s'))
    ensures Goes(s, s')
  {}

  lemma GoesParts(s: State, s': State)
    requires Goes(s, s')
    ensures Continues(s, s') && (Willing(s) ==> Willing(s'))
  {
    assert Gains(Same, s, s') && Gains(Readiness, s, s');
  }

  lemma GoesOn(s0: State, s1: State, s2: State)
    requires Goes(s0, s1) && Goes(s1, s2)
    ensures Goes(s0, s2)
  {
    GoesParts(s0, s1);
    GoesParts(s1, s2);
    ContinuesOn(s0, s1, s2);
    GoesWhole(s0, s2);
  }

  lemma FollowsGoes(s: State, s': State)
    requires Follows(s, s')
    ensures Goes(s, s')
  {
    assert Lasts(Contents, s, s') && Lasts(Minds, s, s') && Lasts(Debts, s, s');
    GoesWhole(s, s');
  }

  // ---- Steps that give no one a reply to send ----

  /** The slots in use are some of those before, the replies perhaps acknowledged. */
  lemma FewerFollow(s: State, s': State)
    requires s'.reg.infos == s.reg.infos && s'.live == s.live
    requires s'.reqs.born == s.reqs.born && s'.rpys.born == s.rpys.born
    requires FewerReqs(s.reqs.pool.slots, s'.reqs.pool.slots)
    requires FewerRpys(s.rpys.pool.slots, s'.rpys.pool.slots)
    requires forall l :: l in s'.rpys.links ==> l in s.rpys.links
    ensures Follows(s, s')
  {
    FewerContinue(s, s');
    assert Lasts(Contents, s, s');
    forall i | i in s'.rpys.pool.slots ensures s'.rpys.pool.slots[i].owner == s.rpys.pool.slots[i].owner {
      assert s'.rpys.pool.slots[i].(acked := true).owner == s.rpys.pool.slots[i].(acked := true).owner;
    }
  }

  lemma SameFollows(s: State, s': State)
    requires s'.reg.infos == s.reg.infos && s'.live == s.live && s'.rpys == s.rpys && s'.reqs.born == s.reqs.born
    requires FewerReqs(s.reqs.pool.slots, s'.reqs.pool.slots)
    ensures Follows(s, s')
  {
    FewerFollow(s, s');
  }

  lemma ShrinksFollows(s: State, s': State)
    requires Shrinks(s, s')
    ensures Follows(s, s')
  {
    FewerFollow(s, s');
  }

  lemma LiveFollows(s: State, u: nat, l: Live)
    requires l.receiving == LiveOf(s, u).receiving
    ensures Follows(s, s.(live := s.live[u := l]))
  {
    SameContinues(s, s.(live := s.live[u := l]));
    assert Lasts(Contents, s, s.(live := s.live[u := l]));
  }

  lemma DecPendingFollows(s: State, u: nat)
    ensures Follows(s, DecPending(s, u))
  {
    if LiveOf(s, u).pending > 0 { LiveFollows(s, u, LiveOf(s, u).(pending := LiveOf(s, u).pending - 1)); }
  }

  lemma IncPendingFollows(s: State, u: nat)
    ensures Follows(s, IncPending(s, u))
  {
    LiveFollows(s, u, LiveOf(s, u).(pending := LiveOf(s, u).pending + 1));
  }

  lemma DropRpyFollows(c: Config, s: State, s': State, i: nat)
    requires i in s.rpys.pool.slots && s'.rpys == DropRpy(c, s.rpys, i)
    requires s'.reg == s.reg && s'.live == s.live && s'.reqs == s.reqs
    ensures Follows(s, s')
  {
    EraseKeyMembers(s.rpys.links, s.rpys.pool.slots[i].remNode, s.rpys.pool.slots[i].reqId);
    FewerFollow(s, s');
  }

  lemma EndRpyIdFollows(c: Config, s: State, id: nat, status: int)
    ensures Follows(s, EndRpyId(c, s, id, status))
  {
    match Slot(s.rpys.pool, c.rpyBank, id)
    case None => SameFollows(s, s);
    case Some(i) => DropRpyFollows(c, s, EndRpyId(c, s, id, status), i);
  }

  lemma BeforeXmitFollows(s: State, i: nat)
    requires i in s.rpys.pool.slots
    ensures Follows(s, BeforeXmit(s, i))
  {
    var r, s1 := s.rpys.pool.slots[i], s.(rpys := MarkAcked(s.rpys, i));
    FewerFollow(s, s1);
    DecPendingFollows(s1, r.owner);
    FollowsOn(s, s1, DecPending(s1, r.owner));
    var s2 := if r.acked then s else DecPending(s1, r.owner);
    FewerFollow(s2, BeforeXmit(s, i));
    FollowsOn(s, s2, BeforeXmit(s, i));
  }

  lemma XmitReplyFollows(c: Config, s: State, i: nat, status: int, n: nat, emr: bool)
    requires i in s.rpys.pool.slots
    ensures Follows(s, XmitReply(c, s, i, status, n, emr))
  {
    BeforeXmitFollows(s, i);
    XmitReplyAfter(c, s, i, status, n, emr);
    SameFollows(BeforeXmit(s, i), XmitReply(c, s, i, status, n, emr));
    FollowsOn(s, BeforeXmit(s, i), XmitReply(c, s, i, status, n, emr));
  }

  lemma SendReplyFollows(c: Config, s: State, u: nat, id: nat, status: int, n: nat, emr: bool)
    ensures Follows(s, SendReply(c, s, u, id, status, n, emr).0)
  {
    var slot := Slot(s.rpys.pool, c.rpyBank, id);
    if slot.Some? {
      var s1 := XmitReply(c, s, slot.value, status, n, emr);
      XmitReplyFollows(c, s, slot.value, status, n, emr);
      EndRpyIdFollows(c, s1, id, SUCCESS);
      FollowsOn(s, s1, EndRpyId(c, s1, id, SUCCESS));
    }
  }

  lemma AckCommandFollows(c: Config, s: State, u: nat, id: nat)
    ensures Follows(s, AckCommand(c, s, u, id))
  {
    var slot := Slot(s.rpys.pool, c.rpyBank, id);
    DecPendingFollows(s, u);
    if slot.Some? {
      var s1 := if s.rpys.pool.slots[slot.value].acked then s else DecPending(s, u);
      FewerFollow(s1, s1.(rpys := MarkAcked(s1.rpys, slot.value)));
      FollowsOn(s, s1, s1.(rpys := MarkAcked(s1.rpys, slot.value)));
    }
  }

  lemma {:induction false} RpyPendsFollow(c: Config, s: State)
    ensures Follows(s, RpyPends(c, s).0)
    decreases Overdue(s.rpys.pool.order, s.rpys.pool.due, s.now)
  {
    var p := s.rpys.pool;
    if p.order != [] && p.order[0] in p.slots && Due(p.due, p.order[0]) <= s.now {
      var s1 := XmitReply(c, s, p.order[0], PEND, 0, false);
      XmitReplyFollows(c, s, p.order[0], PEND, 0, false);
      if Overdue(s1.rpys.pool.order, s1.rpys.pool.due, s1.now) < Overdue(p.order, p.due, s.now) {
        RpyPendsFollow(c, s1);
        FollowsOn(s, s1, RpyPends(c, s1).0);
      }
    }
  }

  // ---- Removal ----

  lemma RemoveFollows(c: Config, s: State, s1: State, u: nat)
    requires Inv(c, s1, {}) && MayGo(s1.reg, u) && Follows(s, s1)
    ensures Follows(s, RemoveTask(c, s1, u))
  {
    RemoveTaskInv(c, s1, u);
    ShrinksFollows(s1, RemoveTask(c, s1, u));
    FollowsOn(s, s1, RemoveTask(c, s1, u));
  }

  /** Whoever does not answer is a client, which may be removed. */
  lemma DeadMayGo(c: Config, s: State, u: nat)
    requires Inv(c, s, {}) && Registered(s.reg, u) && External(s.reg, u)
    ensures MayGo(s.reg, u)
  {
    ClientIsNotInternal(c, s, u);
  }

  lemma PurgeGoes(c: Config, s: State)
    requires Inv(c, s, {})
    ensures Goes(s, Purge(s))
  {
    var s' := Purge(s);
    PlacesKnown(c, s);
    forall i ensures StaysReq(s, s', i) {
      if i in s'.reqs.pool.slots {
        ReqOwner(c, s, i);
        NotRemoved(s.reg, s.reqs.pool.slots[i].owner);
      }
    }
    forall i | i in s'.rpys.pool.slots && Willing(s) ensures AcceptsRequests(s', s'.rpys.pool.slots[i].owner) {
      var u := s.rpys.pool.slots[i].owner;
      RpyOwner(c, s, i);
      NotRemoved(s.reg, u);
      assert AcceptsRequests(s, u);
    }
    GoesWhole(s, s');
  }

  lemma PlacesKnown(c: Config, s: State)
    requires Inv(c, s, {})
    ensures PlacesOk(s.reg, {})
  {
    RegPart(c, s, {});
  }

  lemma RemoveInactiveGoes(c: Config, s: State)
    requires Inv(c, s, {})
    ensures Goes(s, RemoveInactive(c, s))
  {
    var s1 := RemoveDead(c, s, 0);
    RemoveDeadInv(c, s, 0);
    ShrinksFollows(s, s1);
    FollowsGoes(s, s1);
    PurgeGoes(c, s1);
    GoesOn(s, s1, Purge(s1));
  }

  // ---- Packets ----

  lemma NetReplyFollows(c: Config, s: State, h: Header)
    requires Inv(c, s, {})
    ensures Follows(s, NetReply(c, s, h))
  {
    var slot := Slot(s.reqs.pool, c.reqBank, h.msgId);
    if slot.Some? && ReplyFits(s, s.reqs.pool.slots[slot.value], h)
        && !Alive(c, s, s.reqs.pool.slots[slot.value].owner) {
      var u := s.reqs.pool.slots[slot.value].owner;
      AskedInv(c, s, {});
      ReqOwner(c, s, slot.value);
      SameFollows(s, Asked(s));
      DeadMayGo(c, s, u);
      RemoveFollows(c, s, Asked(s), u);
    } else {
      NetReplySame(c, s, h);
      SameFollows(s, NetReply(c, s, h));
    }
  }

  /** Unless the owner of the request is dead, a reply at most ends its request. */
  lemma NetReplySame(c: Config, s: State, h: Header)
    requires var slot := Slot(s.reqs.pool, c.reqBank, h.msgId);
             slot.Some? && ReplyFits(s, s.reqs.pool.slots[slot.value], h) ==>
                 Alive(c, s, s.reqs.pool.slots[slot.value].owner)
    ensures var s' := NetReply(c, s, h);
            && s'.reg == s.reg && s'.live == s.live && s'.rpys == s.rpys && s'.reqs.born == s.reqs.born
            && FewerReqs(s.reqs.pool.slots, s'.reqs.pool.slots)
  {}

  lemma NetCancelFollows(c: Config, s: State, h: Header)
    requires Inv(c, s, {})
    ensures Follows(s, NetCancel(c, s, h))
  {
    var slot := FindLink(s.rpys.links, h.client, h.msgId);
    if slot.Some? && Cancels(s, h, slot.value) {
      CancelledFollows(c, s, h, slot.value);
    } else {
      CancelsNone(c, s, h);
      SameFollows(s, s);
    }
  }

  lemma CancelledFollows(c: Config, s: State, h: Header, i: nat)
    requires Inv(c, s, {}) && Cancels(s, h, i)
    ensures Follows(s, NetCancel(c, s, h))
  {
    var r := s.rpys.pool.slots[i];
    RpyOwner(c, s, i);
    DecPendingInv(c, s, r.owner);
    DecPendingFollows(s, r.owner);
    SameFollows(s, s);
    var s1 := if r.acked then s else DecPending(s, r.owner);
    EndRpyIdInv(c, s1, {}, c.rpyBank + i, SUCCESS);
    EndRpyIdFollows(c, s1, c.rpyBank + i, SUCCESS);
    var s2 := EndRpyId(c, s1, c.rpyBank + i, SUCCESS);
    var g := h.(status := AsStatus(c.rpyBank + i));
    TellInv(c, s2, {}, r.owner, g);
    SameFollows(s2, Tell(c, s2, r.owner, g));
    FollowsOn(s, s1, s2);
    FollowsOn(s, s2, Tell(c, s2, r.owner, g));
    NetCancelIs(c, s, h, i, s2);
    if !Alive(c, s2, r.owner) {
      DeadMayGo(c, s2, r.owner);
      RemoveFollows(c, s, Tell(c, s2, r.owner, g), r.owner);
    }
  }

  lemma OfferedSlots(c: Config, s: State, u: nat, h: Header)
    requires s.rpys.pool.free != []
    ensures var s1, i := Offered(c, s, u, h), s.rpys.pool.free[0];
            && s1.reg == s.reg && s1.live == s.live && s1.reqs == s.reqs
            && s1.rpys.pool.slots == s.rpys.pool.slots[i := NewRpy(c, s, u, h)]
            && s1.rpys.links == s.rpys.links + [Link(h.client, h.msgId, i)] && |s1.rpys.born| == |s.rpys.born| + 1
  {}

  lemma OfferedGoes(c: Config, s: State, u: nat, h: Header)
    requires AcceptsRequests(s, u) && s.rpys.pool.free != []
    ensures Goes(s, Offered(c, s, u, h))
  {
    var s1, j := Offered(c, s, u, h), s.rpys.pool.free[0];
    OfferedSlots(c, s, u, h);
    forall i ensures StaysRpy(s, s1, i) {
      if i in s1.rpys.pool.slots && i != j { assert s1.rpys.pool.slots[i] == s.rpys.pool.slots[i]; }
    }
    forall i | i in s1.rpys.pool.slots && Willing(s) ensures AcceptsRequests(s1, s1.rpys.pool.slots[i].owner) {
      assert AcceptsRequests(s, s1.rpys.pool.slots[i].owner);
    }
    GoesWhole(s, s1);
  }

  /** The internal task's reply ends at once. */
  lemma AnsweredFollows(c: Config, s: State, i: nat)
    ensures Follows(s, AnswerAtOnce(c, s, i))
  {
    SameFollows(s, s);
    if i in s.rpys.pool.slots {
      var r, a := s.rpys.pool.slots[i], AnswerOf(c, s.asked);
      var s1 := Note(s, Replied(r.serial, ReplyHeader(r, FLG_RPY, a.status, a.n)));
      SameFollows(s, s1);
      EndRpyIdFollows(c, s1, c.rpyBank + i, SUCCESS);
      FollowsOn(s, s1, EndRpyId(c, s1, c.rpyBank + i, SUCCESS));
    }
  }

  lemma HandOverFollows(c: Config, s: State, u: nat, h: Header, i: nat)
    ensures Follows(s, HandOver(c, s, u, h, i).0)
  {
    var s1 := Tell(c, s, u, h.(status := AsStatus(c.rpyBank + i)));
    SameFollows(s, s1);
    AnsweredFollows(c, s1, i);
    EndRpyIdFollows(c, s1, c.rpyBank + i, DISCONNECTED);
    FollowsOn(s, s1, AnswerAtOnce(c, s1, i));
    FollowsOn(s, s1, EndRpyId(c, s1, c.rpyBank + i, DISCONNECTED));
  }

  lemma OfferGoes(c: Config, s: State, u: nat, h: Header)
    requires AcceptsRequests(s, u) && s.rpys.pool.free != []
    ensures Goes(s, DeliverCounted(c, s, u, h).0)
  {
    var s1 := Offered(c, s, u, h);
    var s2 := HandOver(c, s1, u, h, s.rpys.pool.free[0]).0;
    OfferedGoes(c, s, u, h);
    HandOverFollows(c, s1, u, h, s.rpys.pool.free[0]);
    DecPendingFollows(s2, u);
    FollowsOn(s1, s2, DecPending(s2, u));
    FollowsGoes(s1, s2);
    FollowsGoes(s1, DecPending(s2, u));
    GoesOn(s, s1, s2);
    GoesOn(s, s1, DecPending(s2, u));
  }

  lemma DeliverCountedGoes(c: Config, s: State, u: nat, h: Header)
    requires AcceptsRequests(s, u)
    ensures Goes(s, DeliverCounted(c, s, u, h).0)
  {
    if s.rpys.pool.free != [] {
      OfferGoes(c, s, u, h);
    } else {
      DecPendingFollows(s, u);
      FollowsGoes(s, DecPending(s, u));
    }
  }

  lemma DeliverToGoes(c: Config, s: State, u: nat, h: Header)
    ensures Goes(s, DeliverTo(c, s, u, h).0)
  {
    var s1, s' := Asked(s), DeliverTo(c, s, u, h).0;
    SameFollows(s, s1);
    if Alive(c, s, u) && AcceptsRequests(s1, u) {
      var s2 := IncPending(s1, u);
      IncPendingFollows(s1, u);
      FollowsOn(s, s1, s2);
      FollowsGoes(s, s2);
      DeliverCountedGoes(c, s2, u, h);
      var (s3, result) := DeliverCounted(c, s2, u, h);
      GoesOn(s, s2, s3);
      SameFollows(s3, s');
      FollowsGoes(s3, s');
      GoesOn(s, s3, s');
    } else {
      SameFollows(s, s');
      FollowsGoes(s, s');
    }
  }

  lemma {:induction false} DeliverAllGoes(c: Config, s: State, us: seq<nat>, h: Header)
    ensures Goes(s, DeliverAll(c, s, us, h).0)
    decreases |us|
  {
    if us != [] {
      var s1 := DeliverAll(c, s, us[..|us| - 1], h).0;
      DeliverAllGoes(c, s, us[..|us| - 1], h);
      DeliverToGoes(c, s1, us[|us| - 1], h);
      GoesOn(s, s1, DeliverAll(c, s, us, h).0);
    } else {
      SameFollows(s, s);
      FollowsGoes(s, s);
    }
  }

  lemma NetRequestGoes(c: Config, s: State, h: Header)
    requires Inv(c, s, {})
    ensures Goes(s, NetRequest(c, s, h))
  {
    var us := TasksOf(s.reg.active, h.task);
    if us == [] {
      SameFollows(s, NetRequest(c, s, h));
      FollowsGoes(s, NetRequest(c, s, h));
    } else {
      TasksOfRegistered(c, s, h.task);
      DeliverAllInv(c, s, us, h);
      DeliverAllGoes(c, s, us, h);
      var (s1, found, dead) := DeliverAll(c, s, us, h);
      SentInv(c, s1, ErrorReply(h, NOTASK));
      var s2 := if !found && h.server !in c.mcastNodes then Note(s1, Sent(ErrorReply(h, NOTASK))) else s1;
      SameFollows(s1, s2);
      if dead.Some? {
        var k :| 0 <= k < |us| && us[k] == dead.value;
        DeadMayGo(c, s, dead.value);
        RemoveFollows(c, s1, s2, dead.value);
      }
      FollowsGoes(s1, NetRequest(c, s, h));
      GoesOn(s, s1, NetRequest(c, s, h));
    }
  }

  lemma CancelReqToNodeFollows(c: Config, s: State, node: nat)
    requires Inv(c, s, {})
    ensures Follows(s, CancelReqToNode(c, s, node))
  {
    match FirstReqTo(s.reqs.pool, node, 0, c.size)
    case None => SameFollows(s, s);
    case Some(i) =>
      var r := s.reqs.pool.slots[i];
      var h := LocalReply(c, s, r, c.reqBank + i, FLG_RPY, DISCONNECTED);
      HandAndDropInv(c, s, {}, i, h);
      var s1 := Hand(c, s, r, h);
      var s2 := s1.(reqs := DropReq(c, s1.reqs, i));
      ReqOwner(c, s, i);
      SameFollows(s, s2);
      if !Alive(c, s, r.owner) {
        DeadMayGo(c, s, r.owner);
        RemoveFollows(c, s, s2, r.owner);
      }
  }

  lemma EndRpyToNodeFollows(c: Config, s: State, node: nat)
    requires Inv(c, s, {})
    ensures Follows(s, EndRpyToNode(c, s, node))
  {
    match FirstRpyTo(s.rpys.pool, node, 0, c.size)
    case None => SameFollows(s, s);
    case Some(i) =>
      var r := s.rpys.pool.slots[i];
      var h := ReplyHeader(r, FLG_CAN, SUCCESS, 0);
      TellInv(c, s, {}, r.owner, h);
      var s1 := Tell(c, s, r.owner, h);
      SameFollows(s, s1);
      DropRpyInv(c, s1, {}, i);
      var s2 := s1.(rpys := DropRpy(c, s1.rpys, i));
      DropRpyFollows(c, s1, s2, i);
      FollowsOn(s, s1, s2);
      RpyOwner(c, s, i);
      if !Alive(c, s, r.owner) {
        DeadMayGo(c, s, r.owner);
        RemoveFollows(c, s, s2, r.owner);
      }
  }

  lemma {:induction false} ReqTimeoutsFollow(c: Config, s: State)
    requires Inv(c, s, {})
    ensures Follows(s, ReqTimeouts(c, s).0)
    decreases Overdue(s.reqs.pool.order, s.reqs.pool.due, s.now)
  {
    var p := s.reqs.pool;
    SameFollows(s, s);
    if p.order != [] && p.order[0] in p.slots && Due(p.due, p.order[0]) <= s.now {
      var i := p.order[0];
      ExpireReqFollows(c, s, i);
      ExpireReqInv(c, s, i);
      var s1 := ExpireReq(c, s, i);
      ReqTimeoutsFollow(c, s1);
      FollowsOn(s, s1, ReqTimeouts(c, s1).0);
    }
  }

  lemma ExpireReqFollows(c: Config, s: State, i: nat)
    requires Inv(c, s, {}) && i in s.reqs.pool.slots
    ensures Follows(s, ExpireReq(c, s, i))
  {
    ExpireReqParts(c, s, i);
    ExpiredInv(c, s, i);
    SameFollows(s, Expired(c, s, i));
    var u := s.reqs.pool.slots[i].owner;
    ReqOwner(c, s, i);
    if !Alive(c, s, u) {
      DeadMayGo(c, s, u);
      RemoveFollows(c, s, Expired(c, s, i), u);
    }
  }

  // ---- Commands ----

  lemma AdmitGoes(c: Config, s: State, i: Info)
    requires Inv(c, s, {})
    ensures Goes(s, Admit(s, i))
  {
    var s' := Admit(s, i);
    NewObject(c, s);
    forall k ensures StaysReq(s, s', k) {
      if k in s.reqs.pool.slots { ReqOwner(c, s, k); }
    }
    forall k | k in s'.rpys.pool.slots && Willing(s) ensures AcceptsRequests(s', s'.rpys.pool.slots[k].owner) {
      RpyOwner(c, s, k);
      assert AcceptsRequests(s, s.rpys.pool.slots[k].owner);
    }
    GoesWhole(s, s');
  }

  lemma ConnectGoes(c: Config, s: State, cmd: ConnectCmd)
    requires Inv(c, s, {})
    ensures Goes(s, Connect(c, s, cmd).0)
  {
    if cmd.dataPort == 0 {
      SameFollows(s, s);
      FollowsGoes(s, s);
    } else {
      var s1 := RemoveInactive(c, s);
      RemoveInactiveInv(c, s);
      RemoveInactiveGoes(c, s);
      ConnectNamedGoes(c, s1, ClientName(c, cmd), cmd);
      GoesOn(s, s1, Connect(c, s, cmd).0);
    }
  }

  /** Whatever comes of it, at most one task is new. */
  lemma ConnectNamedIs(c: Config, s: State, name: nat, cmd: ConnectCmd) returns (i: Info)
    ensures ConnectNamed(c, s, name, cmd).0 in {s, Asked(s), Admit(s, i), Admit(Asked(s), i)}
  {
    var slot := NextFreeId(s.reg.tasks, if cmd.ext then 256 else 0, if cmd.ext then c.maxTasks else 256);
    var kind := if name in c.mcastHandles then Multicast else if cmd.tcp then Remote else Local;
    i := Info(if slot.Some? then slot.value else 0, name, kind, cmd.pid, cmd.cmdPort, cmd.dataPort);
  }

  lemma ConnectNamedGoes(c: Config, s: State, name: nat, cmd: ConnectCmd)
    requires Inv(c, s, {})
    ensures Goes(s, ConnectNamed(c, s, name, cmd).0)
  {
    var i := ConnectNamedIs(c, s, name, cmd);
    var s1 := Asked(s);
    AskedInv(c, s, {});
    SameFollows(s, s);
    SameFollows(s, s1);
    FollowsGoes(s, s);
    FollowsGoes(s, s1);
    AdmitGoes(c, s, i);
    AdmitGoes(c, s1, i);
    GoesOn(s, s1, Admit(s1, i));
  }

  lemma RelistFollows(s: State, u: nat, k: nat, handle: nat)
    requires k < |s.reg.active| && u in s.reg.infos
    ensures Follows(s, s.(reg := Relist(s.reg, u, k, handle)))
  {
    var s' := s.(reg := Relist(s.reg, u, k, handle));
    forall i ensures StaysReq(s, s', i) {}
    forall i ensures StaysRpy(s, s', i) {}
    assert Lasts(Contents, s, s');
  }

  lemma RenameFollows(c: Config, s: State, u: nat, handle: nat)
    requires Inv(c, s, {}) && Registered(s.reg, u) && u != 0 && Fresh(s, u)
    ensures Follows(s, Rename(c, s, u, handle).0)
  {
    var holders := TasksOf(s.reg.active, handle);
    SameFollows(s, s);
    SameFollows(s, Asked(s));
    TasksOfRegistered(c, s, handle);
    if handle in c.mcastHandles || (holders != [] && Alive(c, s, holders[0])) {
    } else {
      var s1 := if holders != [] then RemoveTask(c, Asked(s), holders[0]) else s;
      if holders != [] {
        OtherGone(c, s, u, holders[0]);
        ShrinksFollows(s, s1);
      }
      var found := FindEntry(s1.reg, InfoOf(s1.reg, u).handle, u, 0);
      if found.Some? {
        RelistFollows(s1, u, found.value, handle);
        FollowsOn(s, s1, Rename(c, s, u, handle).0);
      }
    }
  }

  lemma ReceiveGoes(s: State, u: nat)
    ensures Goes(s, SetReceiving(s, u, true))
  {
    var s' := SetReceiving(s, u, true);
    SameContinues(s, s');
    forall i | i in s'.rpys.pool.slots && Willing(s) ensures AcceptsRequests(s', s'.rpys.pool.slots[i].owner) {
      assert AcceptsRequests(s, s.rpys.pool.slots[i].owner);
    }
    GoesWhole(s, s');
  }

  /** Who blocks requests owes no reply afterwards. */
  lemma BlockGoes(c: Config, s: State, u: nat)
    requires Inv(c, s, {}) && Registered(s.reg, u)
    ensures Goes(s, DrainRpys(c, SetReceiving(s, u, false), u, DISCONNECTED))
  {
    IsObject(c, s, u);
    LiveInv(c, s, u, LiveOf(s, u).(receiving := false));
    var s1 := SetReceiving(s, u, false);
    DrainRpysInv(c, s1, {}, u, DISCONNECTED);
    var s' := DrainRpys(c, s1, u, DISCONNECTED);
    FewerContinue(s, s');
    forall i | i in s'.rpys.pool.slots && Willing(s) ensures AcceptsRequests(s', s'.rpys.pool.slots[i].owner) {
      assert s'.rpys.pool.slots[i] == s.rpys.pool.slots[i];
      assert AcceptsRequests(s, s.rpys.pool.slots[i].owner);
    }
    GoesWhole(s, s');
  }

  /** A new request is a new allocation. */
  lemma SendRequestGoes(c: Config, s: State, u: nat, taskName: nat, node: nat, flags: nat, tmo: nat, n: nat)
    ensures Goes(s, SendRequest(c, s, u, taskName, node, flags, tmo, n))
  {
    var s' := SendRequest(c, s, u, taskName, node, flags, tmo, n);
    SameFollows(s, s);
    FollowsGoes(s, s);
    if s.reqs.pool.free != [] {
      var r := NewReq(c, s, u, taskName, node, flags, tmo);
      assert s'.reqs.pool.slots == s.reqs.pool.slots[s.reqs.pool.free[0] := r];
      forall i ensures StaysReq(s, s', i) {
        if i in s'.reqs.pool.slots && i != s.reqs.pool.free[0] {
          assert s'.reqs.pool.slots[i] == s.reqs.pool.slots[i];
        }
      }
      forall i ensures StaysRpy(s, s', i) {}
      if Willing(s) {
        forall i | i in s'.rpys.pool.slots ensures AcceptsRequests(s', s'.rpys.pool.slots[i].owner) {
          assert AcceptsRequests(s, s.rpys.pool.slots[i].owner);
        }
      }
      GoesWhole(s, s');
    }
  }

  lemma ObeyGoes(c: Config, s: State, u: nat, cmd: Command)
    requires Inv(c, s, {}) && Registered(s.reg, u) && u != 0 && Fresh(s, u)
    ensures Goes(s, Obey(c, s, u, cmd))
  {
    match cmd
    case Request(taskName, node, flags, tmo, n) => SendRequestGoes(c, s, u, taskName, node, flags, tmo, n);
    case Receive | Block => MindGoes(c, s, u, cmd);
    case _ =>
      ObeyFollows(c, s, u, cmd);
      FollowsGoes(s, Obey(c, s, u, cmd));
  }

  lemma MindGoes(c: Config, s: State, u: nat, cmd: Command)
    requires Inv(c, s, {}) && Registered(s.reg, u) && (cmd.Receive? || cmd.Block?)
    ensures Goes(s, Obey(c, s, u, cmd))
  {
    SameFollows(s, s);
    FollowsGoes(s, s);
    ReceiveGoes(s, u);
    BlockGoes(c, s, u);
  }

  lemma ObeyFollows(c: Config, s: State, u: nat, cmd: Command)
    requires Inv(c, s, {}) && Registered(s.reg, u) && u != 0 && Fresh(s, u)
    requires !cmd.Request? && !cmd.Receive? && !cmd.Block?
    ensures Follows(s, Obey(c, s, u, cmd))
  {
    SameFollows(s, s);
    match cmd
    case RenameTo(handle) => RenameFollows(c, s, u, handle);
    case Cancel(id) => CancelCommandFollows(c, s, u, id);
    case Reply(id, status, n, emr) => SendReplyFollows(c, s, u, id, status, n, emr);
    case Ignore(id) => EndRpyIdFollows(c, s, id, SUCCESS);
    case AckRequest(id) => AckCommandFollows(c, s, u, id);
    case _ =>
  }

  lemma CancelReqIdFollows(c: Config, s: State, id: nat, xmt: bool, last: bool)
    ensures Follows(s, CancelReqId(c, s, id, xmt, last))
  {
    SameFollows(s, CancelReqId(c, s, id, xmt, last));
  }

  lemma CancelCommandFollows(c: Config, s: State, u: nat, id: nat)
    ensures Follows(s, CancelCommand(c, s, u, id))
  {
    SameFollows(s, s);
    CancelReqIdFollows(c, s, id, true, false);
  }

  lemma ClientCommandGoes(c: Config, s: State, u: nat, cmd: Command)
    requires Inv(c, s, {}) && Registered(s.reg, u) && External(s.reg, u)
    ensures Goes(s, ClientCommand(c, s, u, cmd))
  {
    ClientIsNotInternal(c, s, u);
    var l := LiveOf(s, u).(lastCommand := s.now);
    LiveInv(c, s, u, l);
    LiveFollows(s, u, l);
    var s1 := s.(live := s.live[u := l]);
    FollowsGoes(s, s1);
    CommandIs(c, s, u, cmd, s1);
    if cmd.Disconnect? || cmd.DisconnectSingle? {
      DisconnectFollows(c, s1, u);
      FollowsGoes(s1, RemoveTask(c, Asked(s1), u));
      FollowsGoes(s1, RemoveOnly(c, Asked(s1), u, DISCONNECTED, false));
      GoesOn(s, s1, ClientCommand(c, s, u, cmd));
    } else {
      var s2 := Obey(c, s1, u, cmd);
      ObeyInv(c, s1, u, cmd);
      ObeyGoes(c, s1, u, cmd);
      GoesOn(s, s1, s2);
      AckFollows(c, s2, u);
      FollowsGoes(s2, Ack(c, s2, u));
      GoesOn(s, s2, Ack(c, s2, u));
    }
  }

  lemma DisconnectFollows(c: Config, s: State, u: nat)
    requires Inv(c, s, {}) && Registered(s.reg, u) && u != 0
    ensures Follows(s, RemoveTask(c, Asked(s), u))
    ensures Follows(s, RemoveOnly(c, Asked(s), u, DISCONNECTED, false))
  {
    var s1 := Asked(s);
    AskedInv(c, s, {});
    SameFollows(s, s1);
    RemoveFollows(c, s, s1, u);
    RemoveOnlyShrinks(c, s1, u, DISCONNECTED, false);
    ShrinksFollows(s1, RemoveOnly(c, s1, u, DISCONNECTED, false));
    FollowsOn(s, s1, RemoveOnly(c, s1, u, DISCONNECTED, false));
  }

  lemma AckFollows(c: Config, s: State, u: nat)
    requires Inv(c, s, {}) && MayGo(s.reg, u)
    ensures Follows(s, Ack(c, s, u))
  {
    AskedInv(c, s, {});
    SameFollows(s, Asked(s));
    if !Alive(c, s, u) { RemoveFollows(c, s, Asked(s), u); }
  }

  // ---- Runs ----

  lemma StepGoes(c: Config, s: State, e: Input)
    requires Inv(c, s, {})
    ensures Goes(s, Step(c, s, e))
  {
    SameFollows(s, s);
    FollowsGoes(s, s);
    match e
    case Connecting(cmd) => ConnectGoes(c, s, cmd);
    case Commanded(u, cmd) => if External(s.reg, u) && Registered(s.reg, u) { ClientCommandGoes(c, s, u, cmd); }
    case Requested(h) => NetRequestGoes(c, s, h);
    case CheckTasks => RemoveInactiveGoes(c, s);
    case _ =>
      StepFollows(c, s, e);
      FollowsGoes(s, Step(c, s, e));
  }

  /** The inputs with which no task comes, changes its mind or gets a reply to send. */
  lemma StepFollows(c: Config, s: State, e: Input)
    requires Inv(c, s, {}) && !e.Connecting? && !e.Commanded? && !e.Requested? && !e.CheckTasks?
    ensures Follows(s, Step(c, s, e))
  {
    match e
    case Tick(t) => SameFollows(s, s.(now := t));
    case Answered(h) => NetReplyFollows(c, s, h);
    case Cancelled(h) => NetCancelFollows(c, s, h);
    case NodeGone(node) => NodeGoneFollows(c, s, node);
    case RunTimeouts => ReqTimeoutsFollow(c, s);
    case RunPends => RpyPendsFollow(c, s);
  }

  lemma NodeGoneFollows(c: Config, s: State, node: nat)
    requires Inv(c, s, {})
    ensures Follows(s, EndRpyToNode(c, CancelReqToNode(c, s, node), node))
  {
    var s1 := CancelReqToNode(c, s, node);
    CancelReqToNodeInv(c, s, node);
    CancelReqToNodeFollows(c, s, node);
    EndRpyToNodeFollows(c, s1, node);
    FollowsOn(s, s1, EndRpyToNode(c, s1, node));
  }

  lemma {:induction false} RunGoes(c: Config, s: State, es: seq<Input>)
    requires Inv(c, s, {})
    ensures Inv(c, Run(c, s, es), {}) && Goes(s, Run(c, s, es))
    decreases |es|
  {
    if es != [] {
      var s1 := Run(c, s, es[..|es| - 1]);
      RunGoes(c, s, es[..|es| - 1]);
      StepInv(c, s1, es[|es| - 1]);
      StepGoes(c, s1, es[|es| - 1]);
      GoesOn(s, s1, Run(c, s, es));
    } else {
      SameFollows(s, s);
      FollowsGoes(s, s);
    }
  }

  /** In every reachable state whoever owes a reply accepts requests. */
  lemma RepliersAccept(c: Config, s: State)
    requires Sound(c) && Reachable(c, s)
    ensures Willing(s)
  {
    var now, es :| s == Run(c, Initial(c, now), es);
    InitialInv(c, now);
    RunGoes(c, Initial(c, now), es);
    GoesParts(Initial(c, now), s);
  }

  /** In every reachable state, the task of the reply that a CANCEL finds accepts requests: the
      assertion of handleAcnetCancel holds. */
  lemma CancelledTaskAccepts(c: Config, s: State, h: Header, i: nat)
    requires Sound(c) && Reachable(c, s) && FindLink(s.rpys.links, h.client, h.msgId) == Some(i)
    ensures i in s.rpys.pool.slots && AcceptsRequests(s, s.rpys.pool.slots[i].owner)
  {
    ReachableInv(c, s);
    RepliersAccept(c, s);
    FoundIsInUse(c, s, h.client, h.msgId, i);
  }
}
