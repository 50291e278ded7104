/** Who is told what: the peers of a task that goes away, and the sender of a request that cannot be
    delivered. */
module Notices {
  import opened Sequences
  import opened SlotPools
  import opened Acnet
  import opened Daemon
  import opened Invariant
  import opened Preservation
  import opened Removal
  import opened Handlers

  /** Did packet e leave between the time the log was l and the time it was l'? */
  ghost predicate Left(e: Event, l: seq<Event>, l': seq<Event>) {
    l <= l' && exists k {:trigger l'[k]} :: |l| <= k < |l'| && l'[k] == e
  }

  lemma LeftInBetween(e: Event, l0: seq<Event>, l1: seq<Event>, l2: seq<Event>)
    requires l0 <= l1 && l1 <= l2 && (Left(e, l0, l1) || Left(e, l1, l2))
    ensures Left(e, l0, l2)
  {
    if Left(e, l0, l1) {
      var k :| |l0| <= k < |l1| && l1[k] == e;
      assert l2[k] == e;
    }
  }

  lemma {:induction false} DrainReqsLog(c: Config, s: State, u: nat, last: bool)
    ensures s.log <= DrainReqs(c, s, u, last).log
    decreases |IdsOf(s.reqs.ids, u)|
  {
    var ids := IdsOf(s.reqs.ids, u);
    if ids != {} {
      var s1 := CancelReqId(c, s, Min(ids), true, last);
      assert s.log <= s1.log;
      if |IdsOf(s1.reqs.ids, u)| < |ids| { DrainReqsLog(c, s1, u, last); }
    }
  }

  lemma {:induction false} DrainRpysLog(c: Config, s: State, u: nat, status: int)
    ensures s.log <= DrainRpys(c, s, u, status).log
    decreases |IdsOf(s.rpys.ids, u)|
  {
    var ids := IdsOf(s.rpys.ids, u);
    if ids != {} {
      var s1 := EndRpyId(c, s, Min(ids), status);
      assert s.log <= s1.log;
      if |IdsOf(s1.rpys.ids, u)| < |ids| { DrainRpysLog(c, s1, u, status); }
    }
  }

  // ---- Requests of a task that goes away ----

  /** The node that request i was sent to gets a CANCEL that names it. */
  ghost predicate CancelLeft(c: Config, s: State, i: nat, l: seq<Event>, l': seq<Event>) {
    i in s.reqs.pool.slots && Left(Sent(CancelHeader(c, s, s.reqs.pool.slots[i], c.reqBank + i)), l, l')
  }

  lemma CancelReqIdTells(c: Config, s: State, i: nat, id: nat, last: bool)
    requires i in s.reqs.pool.slots && id == c.reqBank + i
    ensures CancelLeft(c, s, i, s.log, CancelReqId(c, s, id, true, last).log)
  {
    var l := CancelReqId(c, s, id, true, last).log;
    assert id - c.reqBank == i;
    assert l[|s.log|] == Sent(CancelHeader(c, s, s.reqs.pool.slots[i], c.reqBank + i));
  }

  /** The first round of the loop cancels the lowest id; request j of the task is that one or is
      still there for the rounds that follow. */
  lemma FirstCancelled(c: Config, s: State, limbo: set<nat>, u: nat, last: bool, j: nat) returns (i: nat, s1: State)
    requires Inv(c, s, limbo) && u in s.reqs.ids && j in s.reqs.pool.slots && s.reqs.pool.slots[j].owner == u
    ensures IdsOf(s.reqs.ids, u) != {} && s1 == CancelReqId(c, s, Min(IdsOf(s.reqs.ids, u)), true, last)
    ensures Inv(c, s1, limbo) && |IdsOf(s1.reqs.ids, u)| < |IdsOf(s.reqs.ids, u)| && u in s1.reqs.ids
    ensures s.log <= s1.log && s1.reg == s.reg
    ensures CancelLeft(c, s, i, s.log, s1.log) && Min(IdsOf(s.reqs.ids, u)) == c.reqBank + i
    ensures j != i ==> j in s1.reqs.pool.slots && s1.reqs.pool.slots[j] == s.reqs.pool.slots[j]
  {
    if IdsOf(s.reqs.ids, u) == {} { NoneOwned(c, s, limbo, u); }
    var id := Min(IdsOf(s.reqs.ids, u));
    OwnRequest(c, s, limbo, u, id);
    var i0;
    i0, s1 := DrainReqsStep(c, s, limbo, u, last);
    i := id - c.reqBank;
    CancelReqIdTells(c, s, i, id, last);
  }

  lemma {:induction false} DrainReqsTells(c: Config, s: State, limbo: set<nat>, u: nat, last: bool, j: nat)
    requires Inv(c, s, limbo) && u in s.reqs.ids && j in s.reqs.pool.slots && s.reqs.pool.slots[j].owner == u
    ensures CancelLeft(c, s, j, s.log, DrainReqs(c, s, u, last).log)
    decreases |IdsOf(s.reqs.ids, u)|
  {
    var i, s1 := FirstCancelled(c, s, limbo, u, last, j);
    var s2 := DrainReqs(c, s1, u, last);
    DrainReqsLog(c, s1, u, last);
    if j != i { DrainReqsTells(c, s1, limbo, u, last, j); }
    LeftInBetween(Sent(CancelHeader(c, s, s.reqs.pool.slots[j], c.reqBank + j)), s.log, s1.log, s2.log);
  }

  // ---- Replies of a task that goes away or blocks requests ----

  /** What the two sides of reply i hear when it is ended with an error: the requester gets the
      status in a last reply, unless it was multicast for multiple replies; the replier gets a CANCEL
      with the reply's id. */
  ghost predicate EndLeft(c: Config, s: State, i: nat, status: int, l: seq<Event>, l': seq<Event>) {
    && i in s.rpys.pool.slots
    && var r := s.rpys.pool.slots[i];
    && (!r.mcast || !Mlt(r.flags) ==> Left(Replied(r.serial, ReplyHeader(r, FLG_RPY, status, 0)), l, l'))
    && (exists ok: bool :: Left(Told(r.owner, GoneHeader(c, s, r, i), ok), l, l'))
  }

  lemma EndRpyIdTells(c: Config, s: State, i: nat, id: nat, status: int)
    requires i in s.rpys.pool.slots && id == c.rpyBank + i && status != SUCCESS
    ensures EndLeft(c, s, i, status, s.log, EndRpyId(c, s, id, status).log)
  {
    var r, l := s.rpys.pool.slots[i], EndRpyId(c, s, id, status).log;
    assert id - c.rpyBank == i;
    var e := l[|l| - 1];
    assert e == Told(r.owner, GoneHeader(c, s, r, i), e.ok);
    assert Left(Told(r.owner, GoneHeader(c, s, r, i), e.ok), s.log, l);
    if !r.mcast || !Mlt(r.flags) { assert l[|s.log|] == Replied(r.serial, ReplyHeader(r, FLG_RPY, status, 0)); }
  }

  lemma EndLeftInBetween(c: Config, s: State, i: nat, status: int, l0: seq<Event>, l1: seq<Event>, l2: seq<Event>)
    requires l0 <= l1 && l1 <= l2 && (EndLeft(c, s, i, status, l0, l1) || EndLeft(c, s, i, status, l1, l2))
    ensures EndLeft(c, s, i, status, l0, l2)
  {
    var r := s.rpys.pool.slots[i];
    var h := GoneHeader(c, s, r, i);
    if !r.mcast || !Mlt(r.flags) { LeftInBetween(Replied(r.serial, ReplyHeader(r, FLG_RPY, status, 0)), l0, l1, l2); }
    var ok :| Left(Told(r.owner, h, ok), l0, l1) || Left(Told(r.owner, h, ok), l1, l2);
    LeftInBetween(Told(r.owner, h, ok), l0, l1, l2);
  }

  lemma FirstEnded(c: Config, s: State, limbo: set<nat>, u: nat, status: int, j: nat) returns (i: nat, s1: State)
    requires Inv(c, s, limbo) && u in s.rpys.ids && j in s.rpys.pool.slots && s.rpys.pool.slots[j].owner == u
    requires status != SUCCESS
    ensures IdsOf(s.rpys.ids, u) != {} && s1 == EndRpyId(c, s, Min(IdsOf(s.rpys.ids, u)), status)
    ensures Inv(c, s1, limbo) && |IdsOf(s1.rpys.ids, u)| < |IdsOf(s.rpys.ids, u)| && u in s1.rpys.ids
    ensures s.log <= s1.log && s1.reg == s.reg
    ensures EndLeft(c, s, i, status, s.log, s1.log)
    ensures j != i ==> j in s1.rpys.pool.slots && s1.rpys.pool.slots[j] == s.rpys.pool.slots[j]
  {
    if IdsOf(s.rpys.ids, u) == {} { NoReplyOwned(c, s, limbo, u); }
    var id := Min(IdsOf(s.rpys.ids, u));
    OwnReply(c, s, limbo, u, id);
    var i0;
    i0, s1 := DrainRpysStep(c, s, limbo, u, status);
    i := id - c.rpyBank;
    EndRpyIdTells(c, s, i, id, status);
  }

  lemma SameEndSlot(c: Config, s: State, s1: State, i: nat, status: int, l: seq<Event>, l': seq<Event>)
    requires EndLeft(c, s1, i, status, l, l') && i in s.rpys.pool.slots
    requires s1.reg.infos == s.reg.infos && s1.rpys.pool.slots[i] == s.rpys.pool.slots[i]
    ensures EndLeft(c, s, i, status, l, l')
  {
    var r := s.rpys.pool.slots[i];
    var ok :| Left(Told(r.owner, GoneHeader(c, s1, r, i), ok), l, l');
    assert Left(Told(r.owner, GoneHeader(c, s, r, i), ok), l, l');
  }

  lemma {:induction false} DrainRpysTells(c: Config, s: State, limbo: set<nat>, u: nat, status: int, j: nat)
    requires Inv(c, s, limbo) && u in s.rpys.ids && j in s.rpys.pool.slots && s.rpys.pool.slots[j].owner == u
    requires status != SUCCESS
    ensures EndLeft(c, s, j, status, s.log, DrainRpys(c, s, u, status).log)
    decreases |IdsOf(s.rpys.ids, u)|
  {
    var i, s1 := FirstEnded(c, s, limbo, u, status, j);
    var l := DrainRpys(c, s1, u, status).log;
    DrainRpysLog(c, s1, u, status);
    if j != i {
      DrainRpysTells(c, s1, limbo, u, status, j);
      SameEndSlot(c, s, s1, j, status, s1.log, l);
    }
    EndLeftInBetween(c, s, j, status, s.log, s1.log, l);
  }

  // ---- Removal ----

  /** The two loops of removeOnlyThisTask: the requests go first, and the replies are as they were. */
  lemma RemovalRounds(c: Config, s: State, u: nat, last: bool) returns (s0: State, s1: State)
    requires Inv(c, s, {}) && Registered(s.reg, u) && u != 0
    ensures s0 == s.(reg := Unregister(s.reg, u)) && s1 == DrainReqs(c, s0, u, last)
    ensures Inv(c, s0, {u}) && Inv(c, s1, {u}) && u in s0.reqs.ids && u in s1.rpys.ids
    ensures s0.reg.infos == s.reg.infos && s1.reg == s0.reg && s1.rpys == s.rpys
  {
    UnregisterInv(c, s, u);
    RegPart(c, s, {});
    s0 := s.(reg := Unregister(s.reg, u));
    DrainReqsInv(c, s0, {u}, u, last);
    s1 := DrainReqs(c, s0, u, last);
  }

  /** When a task is removed, the node it sent a request to gets a CANCEL, for each request. */
  lemma RemovalCancelsRequests(c: Config, s: State, u: nat, status: int, last: bool, i: nat)
    requires Inv(c, s, {}) && Registered(s.reg, u) && u != 0
    requires i in s.reqs.pool.slots && s.reqs.pool.slots[i].owner == u
    ensures CancelLeft(c, s, i, s.log, RemoveOnly(c, s, u, status, last).log)
  {
    var s0, s1 := RemovalRounds(c, s, u, last);
    var e := Sent(CancelHeader(c, s0, s.reqs.pool.slots[i], c.reqBank + i));
    DrainReqsTells(c, s0, {u}, u, last, i);
    DrainRpysLog(c, s1, u, status);
    LeftInBetween(e, s.log, s1.log, DrainRpys(c, s1, u, status).log);
    assert e == Sent(CancelHeader(c, s, s.reqs.pool.slots[i], c.reqBank + i));
  }

  /** When a task is removed, whoever waits for a reply from it gets the status as a last reply, for
      each reply. */
  lemma RemovalEndsReplies(c: Config, s: State, u: nat, status: int, last: bool, i: nat)
    requires Inv(c, s, {}) && Registered(s.reg, u) && u != 0 && status != SUCCESS
    requires i in s.rpys.pool.slots && s.rpys.pool.slots[i].owner == u
    ensures EndLeft(c, s, i, status, s.log, RemoveOnly(c, s, u, status, last).log)
  {
    var s0, s1 := RemovalRounds(c, s, u, last);
    var l := DrainRpys(c, s1, u, status).log;
    DrainReqsLog(c, s0, u, last);
    DrainRpysLog(c, s1, u, status);
    DrainRpysTells(c, s1, {u}, u, status, i);
    EndLeftInBetween(c, s1, i, status, s.log, s1.log, l);
    SameEndSlot(c, s, s1, i, status, s.log, l);
  }

  // ---- Several tasks ----

  /** From s to s' slots were freed and whoever had to do with them was told: a CANCEL for each
      request, and ACNET_DISCONNECTED and a CANCEL for each reply. */
  ghost predicate Tells(c: Config, s: State, s': State) {
    && s.log <= s'.log
    && (forall i {:trigger i in s'.reqs.pool.slots} :: i in s.reqs.pool.slots ==>
          i in s'.reqs.pool.slots || CancelLeft(c, s, i, s.log, s'.log))
    && (forall i {:trigger i in s'.rpys.pool.slots} :: i in s.rpys.pool.slots ==>
          i in s'.rpys.pool.slots || EndLeft(c, s, i, DISCONNECTED, s.log, s'.log))
  }

  lemma CancelLeftLater(c: Config, s: State, s1: State, s2: State, i: nat)
    requires Shrinks(s, s1) && s.log <= s1.log && s1.log <= s2.log
    requires CancelLeft(c, s, i, s.log, s1.log) || (i in s.reqs.pool.slots && CancelLeft(c, s1, i, s1.log, s2.log))
    ensures CancelLeft(c, s, i, s.log, s2.log)
  {
    var e := Sent(CancelHeader(c, s, s.reqs.pool.slots[i], c.reqBank + i));
    assert i in s1.reqs.pool.slots ==> s1.reqs.pool.slots[i] == s.reqs.pool.slots[i];
    LeftInBetween(e, s.log, s1.log, s2.log);
  }

  lemma EndLeftLater(c: Config, s: State, s1: State, s2: State, i: nat)
    requires Shrinks(s, s1) && s.log <= s1.log && s1.log <= s2.log
    requires EndLeft(c, s, i, DISCONNECTED, s.log, s1.log)
             || (i in s.rpys.pool.slots && EndLeft(c, s1, i, DISCONNECTED, s1.log, s2.log))
    ensures EndLeft(c, s, i, DISCONNECTED, s.log, s2.log)
  {
    if EndLeft(c, s1, i, DISCONNECTED, s1.log, s2.log) {
      assert s1.rpys.pool.slots[i] == s.rpys.pool.slots[i];
      SameEndSlot(c, s, s1, i, DISCONNECTED, s1.log, s2.log);
    }
    EndLeftInBetween(c, s, i, DISCONNECTED, s.log, s1.log, s2.log);
  }

  lemma TellsOn(c: Config, s: State, s1: State, s2: State)
    requires Tells(c, s, s1) && Tells(c, s1, s2) && Shrinks(s, s1)
    ensures Tells(c, s, s2)
  {
    forall i | i in s.reqs.pool.slots && i !in s2.reqs.pool.slots ensures CancelLeft(c, s, i, s.log, s2.log) {
      assert i in s1.reqs.pool.slots || CancelLeft(c, s, i, s.log, s1.log);
      CancelLeftLater(c, s, s1, s2, i);
    }
    forall i | i in s.rpys.pool.slots && i !in s2.rpys.pool.slots
      ensures EndLeft(c, s, i, DISCONNECTED, s.log, s2.log)
    {
      assert i in s1.rpys.pool.slots || EndLeft(c, s, i, DISCONNECTED, s.log, s1.log);
      EndLeftLater(c, s, s1, s2, i);
    }
  }

  lemma TellsMore(c: Config, s: State, s1: State, s': State)
    requires Tells(c, s1, s') && s.log <= s1.log && s1.(log := s.log, asked := s.asked) == s
    ensures Tells(c, s, s')
  {
    forall i | i in s.reqs.pool.slots && i !in s'.reqs.pool.slots ensures CancelLeft(c, s, i, s.log, s'.log) {
      LeftInBetween(Sent(CancelHeader(c, s, s.reqs.pool.slots[i], c.reqBank + i)), s.log, s1.log, s'.log);
    }
    forall i | i in s.rpys.pool.slots && i !in s'.rpys.pool.slots
      ensures EndLeft(c, s, i, DISCONNECTED, s.log, s'.log)
    {
      SameEndSlot(c, s, s1, i, DISCONNECTED, s1.log, s'.log);
      EndLeftInBetween(c, s, i, DISCONNECTED, s.log, s1.log, s'.log);
    }
  }

  lemma RemoveOnlyTells(c: Config, s: State, u: nat, last: bool)
    requires Inv(c, s, {}) && Registered(s.reg, u) && u != 0
    ensures Tells(c, s, RemoveOnly(c, s, u, DISCONNECTED, last))
  {
    var s' := RemoveOnly(c, s, u, DISCONNECTED, last);
    var s0, s1 := RemovalRounds(c, s, u, last);
    DrainReqsLog(c, s0, u, last);
    DrainRpysLog(c, s1, u, DISCONNECTED);
    RemoveOnlyInv(c, s, u, DISCONNECTED, last);
    forall i | i in s.reqs.pool.slots && i !in s'.reqs.pool.slots ensures CancelLeft(c, s, i, s.log, s'.log) {
      RemovalCancelsRequests(c, s, u, DISCONNECTED, last, i);
    }
    forall i | i in s.rpys.pool.slots && i !in s'.rpys.pool.slots
      ensures EndLeft(c, s, i, DISCONNECTED, s.log, s'.log)
    {
      RemovalEndsReplies(c, s, u, DISCONNECTED, last, i);
    }
  }

  lemma TellsSelf(c: Config, s: State)
    ensures Tells(c, s, s)
  {}

  lemma {:induction false} RemovePidTells(c: Config, s: State, pid: nat, from: nat)
    requires Inv(c, s, {}) && pid != c.ownPid
    ensures Tells(c, s, RemovePid(c, s, pid, from))
    decreases c.maxTasks - from
  {
    if from < c.maxTasks {
      if from in s.reg.tasks && InfoOf(s.reg, s.reg.tasks[from]).pid == pid {
        var u := s.reg.tasks[from];
        NotInternal(c, s, pid, from);
        var s1 := RemoveOnly(c, s, u, DISCONNECTED, false);
        RemoveOnlyShrinks(c, s, u, DISCONNECTED, false);
        RemoveOnlyTells(c, s, u, false);
        RemovePidTells(c, s1, pid, from + 1);
        TellsOn(c, s, s1, RemovePid(c, s1, pid, from + 1));
      } else {
        RemovePidTells(c, s, pid, from + 1);
      }
    } else {
      TellsSelf(c, s);
    }
  }

  /** removeTask tells everyone the tasks it removes had to do with. */
  lemma RemoveTaskTells(c: Config, s: State, u: nat)
    requires Inv(c, s, {}) && u in s.reg.infos && u != 0 && (Registered(s.reg, u) || InfoOf(s.reg, u).pid != 0)
    ensures Tells(c, s, RemoveTask(c, s, u))
  {
    PidOfClient(c, s, u);
    if InfoOf(s.reg, u).pid == 0 {
      RemoveOnlyTells(c, s, u, false);
    } else {
      RemovePidTells(c, s, InfoOf(s.reg, u).pid, 0);
    }
  }

  lemma {:induction false} RemoveDeadTells(c: Config, s: State, from: nat)
    requires Inv(c, s, {})
    ensures Tells(c, s, RemoveDead(c, s, from))
    decreases c.maxTasks - from
  {
    if from >= c.maxTasks {
      TellsSelf(c, s);
    } else if from !in s.reg.tasks {
      RemoveDeadTells(c, s, from + 1);
    } else {
      var s1, u := Asked(s), s.reg.tasks[from];
      AskedInv(c, s, {});
      if Alive(c, s, u) {
        RemoveDeadTells(c, s1, from + 1);
      } else {
        DeadIsClient(c, s, from);
        var s2 := RemoveTask(c, s1, u);
        RemoveTaskInv(c, s1, u);
        RemoveTaskTells(c, s1, u);
        RemoveDeadTells(c, s2, from + 1);
        TellsOn(c, s1, s2, RemoveDead(c, s2, from + 1));
      }
      TellsMore(c, s, s1, RemoveDead(c, s, from));
    }
  }

  /** removeInactiveTasks likewise. */
  lemma RemoveInactiveTells(c: Config, s: State)
    requires Inv(c, s, {})
    ensures Tells(c, s, RemoveInactive(c, s))
  {
    RemoveDeadTells(c, s, 0);
  }

  // ---- Requests that arrive ----

  /** Why a request to a live task fails, if it does. */
  function Refusal(c: Config, s: State, u: nat): int {
    if !AcceptsRequests(s, u) then NCR
    else if s.rpys.pool.free == [] then NOREMMEM
    else if !Alive(c, Asked(s), u) then BUSY
    else SUCCESS
  }

  /** Is u the one task of the handle, a client that is there and takes requests? */
  predicate Delivers(c: Config, s: State, handle: nat, u: nat) {
    TasksOf(s.reg.active, handle) == [u] && External(s.reg, u) && Alive(c, s, u) && Refusal(c, s, u) == SUCCESS
  }

  /** With one task, the loop of handleAcnetRequest has one round. */
  lemma OneTask(c: Config, s: State, u: nat, h: Header)
    requires TasksOf(s.reg.active, h.task) == [u] && Alive(c, s, u)
    ensures NetRequest(c, s, h) == DeliverTo(c, s, u, h).0
  {
    assert [u][..0] == [];
    assert DeliverAll(c, s, [], h) == (s, false, None);
    assert DeliverAll(c, s, [u], h) == (DeliverTo(c, s, u, h).0, true, None);
  }

  /** What an offer puts in the reply pool. */
  ghost predicate Fills(p: RpySide, r: Rpy, p': RpySide)
    requires p.pool.free != []
  {
    var i := p.pool.free[0];
    && p'.pool.slots == p.pool.slots[i := r] && p'.ended == p.ended
    && p'.links == p.links + [Link(r.remNode, r.reqId, i)]
  }

  lemma OfferedFills(c: Config, s: State, u: nat, h: Header)
    requires s.rpys.pool.free != []
    ensures var s1 := Offered(c, s, u, h);
            && Fills(s.rpys, NewRpy(c, s, u, h), s1.rpys)
            && s1.log == s.log && s1.reg == s.reg && s1.reqs == s.reqs && s1.asked == s.asked
            && Alive(c, s1, u) == Alive(c, s, u)
  {}

  /** A request handed to a client that is there. */
  lemma OfferAccepted(c: Config, s: State, u: nat, h: Header)
    requires s.rpys.pool.free != [] && External(s.reg, u) && Alive(c, s, u)
    ensures var (s', result), i := DeliverCounted(c, s, u, h), s.rpys.pool.free[0];
            && result == SUCCESS && s'.log == s.log + [Told(u, h.(status := AsStatus(c.rpyBank + i)), true)]
            && Fills(s.rpys, NewRpy(c, s, u, h), s'.rpys) && s'.reqs == s.reqs && s'.reg == s.reg
  {
    OfferedFills(c, s, u, h);
    HandedOver(c, Offered(c, s, u, h), u, h, s.rpys.pool.free[0]);
  }

  lemma HandedOver(c: Config, s: State, u: nat, h: Header, i: nat)
    requires External(s.reg, u) && Alive(c, s, u)
    ensures HandOver(c, s, u, h, i)
         == (Note(Asked(s), Told(u, h.(status := AsStatus(c.rpyBank + i)), true)), SUCCESS)
  {}

  /** A request handed to a client that is not there: the slot is free again. */
  lemma NotHandedOver(c: Config, s: State, u: nat, h: Header, i: nat)
    requires i in s.rpys.pool.slots && !Alive(c, s, u)
    ensures var (s', result) := HandOver(c, s, u, h, i);
            && result == BUSY && s.log <= s'.log && s'.rpys.pool.slots == s.rpys.pool.slots - {i}
            && s'.reqs == s.reqs && s'.reg == s.reg
  {
    EndRpyIdDrops(c, Tell(c, s, u, h.(status := AsStatus(c.rpyBank + i))), i, c.rpyBank + i, DISCONNECTED);
  }

  lemma OfferFailed(c: Config, s: State, u: nat, h: Header)
    requires s.rpys.pool.free != [] && !Alive(c, s, u) && s.rpys.pool.free[0] !in s.rpys.pool.slots
    ensures var (s', result) := DeliverCounted(c, s, u, h);
            && result == BUSY && s.log <= s'.log && s'.rpys.pool.slots == s.rpys.pool.slots
            && s'.reqs == s.reqs && s'.reg == s.reg
  {
    var i := s.rpys.pool.free[0];
    OfferedFills(c, s, u, h);
    NotHandedOver(c, Offered(c, s, u, h), u, h, i);
    PutAndTaken(s.rpys.pool.slots, i, NewRpy(c, s, u, h));
  }

  /** A request handed to the internal task, which answers at once. */
  lemma HandedInside(c: Config, s: State, u: nat, h: Header, i: nat)
    requires i in s.rpys.pool.slots && !External(s.reg, u)
    ensures var (s', result), r, a := HandOver(c, s, u, h, i), s.rpys.pool.slots[i], AnswerOf(c, s.asked + 1);
            && result == SUCCESS && s'.rpys.pool.slots == s.rpys.pool.slots - {i}
            && s'.reqs == s.reqs && s'.reg == s.reg
            && s'.log == s.log + [Told(u, h.(status := AsStatus(c.rpyBank + i)), true),
                                  Replied(r.serial, ReplyHeader(r, FLG_RPY, a.status, a.n))]
  {
    var s1 := Tell(c, s, u, h.(status := AsStatus(c.rpyBank + i)));
    var r, a := s.rpys.pool.slots[i], AnswerOf(c, s.asked + 1);
    EndRpyIdDrops(c, Note(s1, Replied(r.serial, ReplyHeader(r, FLG_RPY, a.status, a.n))), i, c.rpyBank + i, SUCCESS);
  }

  lemma PutAndTaken(slots: map<nat, Rpy>, i: nat, r: Rpy)
    requires i !in slots
    ensures slots[i := r] - {i} == slots
  {}

  lemma EndRpyIdDrops(c: Config, s: State, i: nat, id: nat, status: int)
    requires i in s.rpys.pool.slots && id == c.rpyBank + i
    ensures var s' := EndRpyId(c, s, id, status);
            && s.log <= s'.log && s'.rpys.pool.slots == s.rpys.pool.slots - {i} && s'.reqs == s.reqs && s'.reg == s.reg
            && (status == SUCCESS ==> s'.log == s.log)
  {
    assert id - c.rpyBank == i;
  }

  /** A request to the one task of a handle, which is there and accepts requests. */
  lemma DeliveryIs(c: Config, s: State, u: nat, h: Header, s1: State)
    requires TasksOf(s.reg.active, h.task) == [u] && Alive(c, s, u) && AcceptsRequests(s, u)
    requires s1 == IncPending(Asked(s), u)
    ensures var (s', result) := DeliverCounted(c, s1, u, h);
            NetRequest(c, s, h) == if result != SUCCESS && h.server !in c.mcastNodes
                                   then Note(s', Sent(ErrorReply(h, result))) else s'
  {
    OneTask(c, s, u, h);
  }

  lemma Delivered(c: Config, s: State, u: nat, h: Header, s1: State, s': State)
    requires TasksOf(s.reg.active, h.task) == [u] && Alive(c, s, u) && AcceptsRequests(s, u)
    requires s1 == IncPending(Asked(s), u) && DeliverCounted(c, s1, u, h) == (s', SUCCESS)
    ensures NetRequest(c, s, h) == s'
  {
    DeliveryIs(c, s, u, h, s1);
  }

  /** Counting a request as pending changes nothing else. */
  lemma CountedSame(c: Config, s: State, u: nat, h: Header, s1: State)
    requires s1 == IncPending(Asked(s), u)
    ensures s1.rpys == s.rpys && s1.reqs == s.reqs && s1.reg == s.reg && s1.log == s.log && s1.asked == s.asked + 1
    ensures Alive(c, s1, u) == Alive(c, Asked(s), u) && NewRpy(c, s1, u, h) == NewRpy(c, s, u, h)
  {}

  /** A client that is there, accepts requests and has a reply slot to be had is given the request,
      with the id of a new slot that remembers who asked; nothing goes back to the sender. */
  lemma RequestIsDelivered(c: Config, s: State, u: nat, h: Header)
    requires Inv(c, s, {}) && Delivers(c, s, h.task, u)
    ensures var s', i := NetRequest(c, s, h), s.rpys.pool.free[0];
            && s'.log == s.log + [Told(u, h.(status := AsStatus(c.rpyBank + i)), true)]
            && i !in s.rpys.pool.slots && Fills(s.rpys, NewRpy(c, s, u, h), s'.rpys)
            && s'.reqs == s.reqs && s'.reg == s.reg
  {
    var s1 := IncPending(Asked(s), u);
    var s' := DeliverCounted(c, s1, u, h).0;
    NextSlotIsFree(c, s);
    CountedAccepted(c, s, u, h, s1, s');
    Delivered(c, s, u, h, s1, s');
  }

  lemma CountedAccepted(c: Config, s: State, u: nat, h: Header, s1: State, s': State)
    requires s.rpys.pool.free != [] && External(s.reg, u) && Alive(c, Asked(s), u)
    requires s1 == IncPending(Asked(s), u) && s' == DeliverCounted(c, s1, u, h).0
    ensures DeliverCounted(c, s1, u, h).1 == SUCCESS
    ensures s'.log == s.log + [Told(u, h.(status := AsStatus(c.rpyBank + s.rpys.pool.free[0])), true)]
    ensures Fills(s.rpys, NewRpy(c, s, u, h), s'.rpys) && s'.reqs == s.reqs && s'.reg == s.reg
  {
    CountedSame(c, s, u, h, s1);
    OfferAccepted(c, s1, u, h);
  }

  lemma OfferAnswered(c: Config, s: State, u: nat, h: Header)
    requires s.rpys.pool.free != [] && !External(s.reg, u) && s.rpys.pool.free[0] !in s.rpys.pool.slots
    ensures var (s', result), i, a := DeliverCounted(c, s, u, h), s.rpys.pool.free[0], AnswerOf(c, s.asked + 1);
            && result == SUCCESS && s'.rpys.pool.slots == s.rpys.pool.slots && s'.reqs == s.reqs && s'.reg == s.reg
            && s'.log == s.log + [Told(u, h.(status := AsStatus(c.rpyBank + i)), true),
                                  Replied(|s.rpys.born|, ReplyHeader(NewRpy(c, s, u, h), FLG_RPY, a.status, a.n))]
  {
    var i := s.rpys.pool.free[0];
    OfferedFills(c, s, u, h);
    HandedInside(c, Offered(c, s, u, h), u, h, i);
    PutAndTaken(s.rpys.pool.slots, i, NewRpy(c, s, u, h));
  }

  /** A request to the internal task is answered at once, with a last reply to its sender, and no slot
      stays in use for it. */
  lemma InternalTaskAnswers(c: Config, s: State, u: nat, h: Header)
    requires Inv(c, s, {}) && TasksOf(s.reg.active, h.task) == [u] && !External(s.reg, u) && u in s.reg.infos
    requires s.rpys.pool.free != []
    ensures var s', i, a := NetRequest(c, s, h), s.rpys.pool.free[0], AnswerOf(c, s.asked + 2);
            && s'.log == s.log + [Told(u, h.(status := AsStatus(c.rpyBank + i)), true),
                                  Replied(|s.rpys.born|, ReplyHeader(NewRpy(c, s, u, h), FLG_RPY, a.status, a.n))]
            && s'.rpys.pool.slots == s.rpys.pool.slots && s'.reqs == s.reqs && s'.reg == s.reg
  {
    var s1 := IncPending(Asked(s), u);
    var s' := DeliverCounted(c, s1, u, h).0;
    NextSlotIsFree(c, s);
    CountedAnswered(c, s, u, h, s1, s');
    Delivered(c, s, u, h, s1, s');
  }

  lemma CountedAnswered(c: Config, s: State, u: nat, h: Header, s1: State, s': State)
    requires s.rpys.pool.free != [] && !External(s.reg, u) && s.rpys.pool.free[0] !in s.rpys.pool.slots
    requires s1 == IncPending(Asked(s), u) && s' == DeliverCounted(c, s1, u, h).0
    ensures DeliverCounted(c, s1, u, h).1 == SUCCESS
    ensures s'.rpys.pool.slots == s.rpys.pool.slots && s'.reqs == s.reqs && s'.reg == s.reg
    ensures var i, a := s.rpys.pool.free[0], AnswerOf(c, s.asked + 2);
            s'.log == s.log + [Told(u, h.(status := AsStatus(c.rpyBank + i)), true),
                               Replied(|s.rpys.born|, ReplyHeader(NewRpy(c, s, u, h), FLG_RPY, a.status, a.n))]
  {
    CountedSame(c, s, u, h, s1);
    OfferAnswered(c, s1, u, h);
  }

  /** The sender of a unicast request to a live task that cannot take it is sent the reason, and no
      reply slot is left. If the client went away in between it is not the only answer, nor the first
      (see BusyIsAnsweredTwice). */
  lemma RequestIsRefused(c: Config, s: State, u: nat, h: Header)
    requires Inv(c, s, {}) && TasksOf(s.reg.active, h.task) == [u] && Alive(c, s, u) && Refusal(c, s, u) != SUCCESS
    requires h.server !in c.mcastNodes
    ensures var s' := NetRequest(c, s, h);
            && s.log < s'.log && s'.log[|s'.log| - 1] == Sent(ErrorReply(h, Refusal(c, s, u)))
            && s'.rpys.pool.slots == s.rpys.pool.slots && s'.reqs == s.reqs && s'.reg == s.reg
  {
    var s1 := IncPending(Asked(s), u);
    if AcceptsRequests(s, u) {
      NextSlotIsFree(c, s);
      DeliveryIs(c, s, u, h, s1);
      CountedSame(c, s, u, h, s1);
      if s.rpys.pool.free != [] { OfferFailed(c, s1, u, h); }
    } else {
      OneTask(c, s, u, h);
    }
  }

  // ---- How often a request is answered ----

  /** A packet that ends the request with this header, where the request came from. */
  predicate Ends(e: Event, h: Header) {
    match e
    case Sent(g) => IsReply(g.flags) && !Mlt(g.flags) && g.client == h.client && g.msgId == h.msgId
    case Replied(_, g) => IsReply(g.flags) && !Mlt(g.flags) && g.client == h.client && g.msgId == h.msgId
    case _ => false
  }

  /** How many packets in the log end the request. */
  function Endings(l: seq<Event>, h: Header): nat {
    if l == [] then 0 else Endings(l[..|l| - 1], h) + (if Ends(l[|l| - 1], h) then 1 else 0)
  }

  lemma EndingsNext(l: seq<Event>, e: Event, h: Header)
    ensures Endings(l + [e], h) == Endings(l, h) + (if Ends(e, h) then 1 else 0)
  {
    assert (l + [e])[..|l|] == l;
  }

  /** What endRpyId with an error tells whom, of a reply to a unicast request. */
  lemma EndRpyIdSays(c: Config, s: State, i: nat, id: nat, status: int)
    requires i in s.rpys.pool.slots && id == c.rpyBank + i && status != SUCCESS && !s.rpys.pool.slots[i].mcast
    ensures var r := s.rpys.pool.slots[i];
            EndRpyId(c, s, id, status).log
            == s.log + [Replied(r.serial, ReplyHeader(r, FLG_RPY, status, 0))]
                     + [Told(r.owner, GoneHeader(c, s, r, i), Alive(c, s, r.owner))]
  {
    assert id - c.rpyBank == i;
  }

  /** What a client that went away in between is told, and what its sender is sent, for the slot the
      request had got. */
  function Withdrawn(c: Config, s: State, u: nat, h: Header): seq<Event>
    requires s.rpys.pool.free != []
  {
    var i := s.rpys.pool.free[0];
    [Told(u, h.(status := AsStatus(c.rpyBank + i)), false), Replied(|s.rpys.born|, ErrorReply(h, DISCONNECTED)),
     Told(u, GoneHeader(c, s, NewRpy(c, s, u, h), i), Alive(c, Asked(s), u))]
  }

  lemma BusySays(c: Config, s: State, u: nat, h: Header)
    requires s.rpys.pool.free != [] && External(s.reg, u) && !Alive(c, s, u) && h.server !in c.mcastNodes
    ensures DeliverCounted(c, s, u, h).1 == BUSY
    ensures DeliverCounted(c, s, u, h).0.log == s.log + Withdrawn(c, s, u, h)
  {
    var i := s.rpys.pool.free[0];
    OfferedFills(c, s, u, h);
    var s0 := Offered(c, s, u, h);
    var s1 := Tell(c, s0, u, h.(status := AsStatus(c.rpyBank + i)));
    EndRpyIdSays(c, s1, i, c.rpyBank + i, DISCONNECTED);
    assert ReplyHeader(NewRpy(c, s, u, h), FLG_RPY, DISCONNECTED, 0) == ErrorReply(h, DISCONNECTED);
  }

  /** Counting the request as pending changes nothing of that. */
  lemma WithdrawnSame(c: Config, s: State, u: nat, h: Header, s1: State)
    requires s.rpys.pool.free != [] && s1 == IncPending(Asked(s), u)
    ensures s1.rpys == s.rpys && Withdrawn(c, s1, u, h) == Withdrawn(c, Asked(s), u, h)
  {
    CountedSame(c, s, u, h, s1);
    assert Alive(c, Asked(s1), u) == Alive(c, Asked(Asked(s)), u);
  }

  /** If the client turns out to be gone when it is to be given a unicast request, its sender is sent two
      last replies: first ACNET_DISCONNECTED, for the slot the request had got, and then ACNET_BUSY. */
  lemma BusyIsAnsweredTwice(c: Config, s: State, u: nat, h: Header)
    requires TasksOf(s.reg.active, h.task) == [u] && External(s.reg, u) && Alive(c, s, u)
    requires Refusal(c, s, u) == BUSY && h.server !in c.mcastNodes
    ensures var l := Withdrawn(c, Asked(s), u, h);
            && l[1] == Replied(|s.rpys.born|, ErrorReply(h, DISCONNECTED)) && l[0].Told? && l[2].Told?
            && NetRequest(c, s, h).log == s.log + l + [Sent(ErrorReply(h, BUSY))]
  {
    var s1 := IncPending(Asked(s), u);
    BusyRound(c, s, u, h, s1);
    DeliveryIs(c, s, u, h, s1);
  }

  lemma BusyRound(c: Config, s: State, u: nat, h: Header, s1: State)
    requires External(s.reg, u) && Refusal(c, s, u) == BUSY && h.server !in c.mcastNodes
    requires s1 == IncPending(Asked(s), u)
    ensures var (s', result) := DeliverCounted(c, s1, u, h);
            result == BUSY && s'.log == s.log + Withdrawn(c, Asked(s), u, h)
  {
    CountedSame(c, s, u, h, s1);
    WithdrawnSame(c, s, u, h, s1);
    BusySays(c, s1, u, h);
  }

  /** How many last replies one round of the loop sends. */
  function Answers(c: Config, s: State, u: nat): nat {
    if !Alive(c, s, u) then 0
    else if Refusal(c, s, u) == BUSY then 2
    else if Refusal(c, s, u) != SUCCESS || !External(s.reg, u) then 1
    else 0
  }

  lemma RoundAnswers(c: Config, s: State, u: nat, h: Header)
    requires Inv(c, s, {}) && h.server !in c.mcastNodes
    ensures Endings(DeliverTo(c, s, u, h).0.log, h) == Endings(s.log, h) + Answers(c, s, u)
  {
    var s1 := IncPending(Asked(s), u);
    if Alive(c, s, u) {
      RoundIs(c, s, u, h, s1);
      if !AcceptsRequests(s, u) {
        EndingsNext(s.log, Sent(ErrorReply(h, NCR)), h);
      } else {
        CountedAnswers(c, s, u, h, s1, DeliverCounted(c, s1, u, h).0, DeliverCounted(c, s1, u, h).1);
      }
    }
  }

  lemma RoundIs(c: Config, s: State, u: nat, h: Header, s1: State)
    requires Alive(c, s, u) && h.server !in c.mcastNodes && s1 == IncPending(Asked(s), u)
    ensures var (s2, result) := if AcceptsRequests(s, u) then DeliverCounted(c, s1, u, h) else (Asked(s), NCR);
            DeliverTo(c, s, u, h).0 == if result != SUCCESS then Note(s2, Sent(ErrorReply(h, result))) else s2
  {}

  lemma CountedAnswers(c: Config, s: State, u: nat, h: Header, s1: State, s': State, result: int)
    requires Inv(c, s, {}) && h.server !in c.mcastNodes && Alive(c, s, u) && AcceptsRequests(s, u)
    requires s1 == IncPending(Asked(s), u) && (s', result) == DeliverCounted(c, s1, u, h)
    ensures Endings(if result != SUCCESS then s'.log + [Sent(ErrorReply(h, result))] else s'.log, h)
         == Endings(s.log, h) + Answers(c, s, u)
  {
    if s.rpys.pool.free == [] {
      CountedSame(c, s, u, h, s1);
      EndingsNext(s.log, Sent(ErrorReply(h, NOREMMEM)), h);
    } else if !External(s.reg, u) {
      InternalAnswers(c, s, u, h, s1, s', result);
    } else {
      ClientAnswers(c, s, u, h, s1, s', result);
    }
  }

  lemma InternalAnswers(c: Config, s: State, u: nat, h: Header, s1: State, s': State, result: int)
    requires Inv(c, s, {}) && s.rpys.pool.free != [] && !External(s.reg, u)
    requires s1 == IncPending(Asked(s), u) && (s', result) == DeliverCounted(c, s1, u, h)
    ensures result == SUCCESS && Endings(s'.log, h) == Endings(s.log, h) + 1
  {
    NextSlotIsFree(c, s);
    CountedAnswered(c, s, u, h, s1, s');
    InsideAnswers(c, s, u, h, s.log);
  }

  lemma ClientAnswers(c: Config, s: State, u: nat, h: Header, s1: State, s': State, result: int)
    requires h.server !in c.mcastNodes && AcceptsRequests(s, u) && s.rpys.pool.free != [] && External(s.reg, u)
    requires s1 == IncPending(Asked(s), u) && (s', result) == DeliverCounted(c, s1, u, h)
    ensures Endings(if result != SUCCESS then s'.log + [Sent(ErrorReply(h, result))] else s'.log, h)
         == Endings(s.log, h) + (if Alive(c, Asked(s), u) then 0 else 2)
  {
    if Alive(c, Asked(s), u) {
      CountedAccepted(c, s, u, h, s1, s');
      EndingsNext(s.log, Told(u, h.(status := AsStatus(c.rpyBank + s.rpys.pool.free[0])), true), h);
    } else {
      BusyRound(c, s, u, h, s1);
      BusyAnswers(c, Asked(s), u, h, s.log);
    }
  }

  lemma InsideAnswers(c: Config, s: State, u: nat, h: Header, l: seq<Event>)
    requires s.rpys.pool.free != []
    ensures var i, a := s.rpys.pool.free[0], AnswerOf(c, s.asked + 2);
            Endings(l + [Told(u, h.(status := AsStatus(c.rpyBank + i)), true),
                         Replied(|s.rpys.born|, ReplyHeader(NewRpy(c, s, u, h), FLG_RPY, a.status, a.n))], h)
            == Endings(l, h) + 1
  {
    var i, a := s.rpys.pool.free[0], AnswerOf(c, s.asked + 2);
    var e1 := Told(u, h.(status := AsStatus(c.rpyBank + i)), true);
    var e2 := Replied(|s.rpys.born|, ReplyHeader(NewRpy(c, s, u, h), FLG_RPY, a.status, a.n));
    EndingsNext(l, e1, h);
    EndingsNext(l + [e1], e2, h);
    assert l + [e1, e2] == l + [e1] + [e2];
  }

  lemma BusyAnswers(c: Config, s: State, u: nat, h: Header, l: seq<Event>)
    requires s.rpys.pool.free != []
    ensures Endings(l + Withdrawn(c, s, u, h) + [Sent(ErrorReply(h, BUSY))], h) == Endings(l, h) + 2
  {
    var w := Withdrawn(c, s, u, h);
    SecondEnds(l, w[0], w[1], w[2], h);
    assert w == [w[0], w[1], w[2]];
    EndingsNext(l + w, Sent(ErrorReply(h, BUSY)), h);
  }

  lemma SecondEnds(l: seq<Event>, e1: Event, e2: Event, e3: Event, h: Header)
    requires !Ends(e1, h) && Ends(e2, h) && !Ends(e3, h)
    ensures Endings(l + [e1, e2, e3], h) == Endings(l, h) + 1
  {
    EndingsNext(l, e1, h);
    EndingsNext(l + [e1], e2, h);
    EndingsNext(l + [e1] + [e2], e3, h);
    assert l + [e1, e2, e3] == l + [e1] + [e2] + [e3];
  }

  /** So with one live client, a unicast request is answered at most once exactly if the client was not
      gone when it was to be given it. */
  lemma AnsweredOnce(c: Config, s: State, u: nat, h: Header)
    requires Inv(c, s, {}) && TasksOf(s.reg.active, h.task) == [u] && Alive(c, s, u) && h.server !in c.mcastNodes
    ensures var n := Endings(NetRequest(c, s, h).log, h) - Endings(s.log, h);
            n == Answers(c, s, u) && (n <= 1 <==> Refusal(c, s, u) != BUSY)
  {
    OneTask(c, s, u, h);
    RoundAnswers(c, s, u, h);
  }

  /** How many last replies the loop sends for all tasks of a handle, each in the state the ones before
      it have left. */
  function AllAnswers(c: Config, s: State, us: seq<nat>, h: Header): nat {
    if us == [] then 0
    else
      var init := us[..|us| - 1];
      AllAnswers(c, s, init, h) + Answers(c, DeliverAll(c, s, init, h).0, us[|us| - 1])
  }

  /** With several tasks under a handle, every live one that refuses a unicast request answers it. */
  lemma {:induction false} EveryRefusalAnswers(c: Config, s: State, us: seq<nat>, h: Header)
    requires Inv(c, s, {}) && AllRegistered(s.reg, us) && h.server !in c.mcastNodes
    ensures Endings(DeliverAll(c, s, us, h).0.log, h) == Endings(s.log, h) + AllAnswers(c, s, us, h)
    decreases |us|
  {
    if us != [] {
      var init := us[..|us| - 1];
      assert AllRegistered(s.reg, init);
      EveryRefusalAnswers(c, s, init, h);
      DeliverAllInv(c, s, init, h);
      RoundAnswers(c, DeliverAll(c, s, init, h).0, us[|us| - 1], h);
    }
  }

  /** A unicast request to a handle without a task, or whose one task is dead, is answered with
      ACNET_NOTASK; a dead task is removed, and everyone it had to do with is told. */
  lemma RequestWithoutTask(c: Config, s: State, h: Header)
    requires Inv(c, s, {}) && h.server !in c.mcastNodes
    requires var us := TasksOf(s.reg.active, h.task); us == [] || (|us| == 1 && !Alive(c, s, us[0]))
    ensures var us, s1, s' := TasksOf(s.reg.active, h.task), Note(s, Sent(ErrorReply(h, NOTASK))), NetRequest(c, s, h);
            if us == [] then s' == s1
            else s' == RemoveTask(c, Asked(s1), us[0]) && Tells(c, Asked(s1), s') && !Registered(s'.reg, us[0])
  {
    var us := TasksOf(s.reg.active, h.task);
    if us != [] {
      var u, s1 := us[0], Asked(Note(s, Sent(ErrorReply(h, NOTASK))));
      OneDeadTask(c, s, u, h);
      TasksOfRegistered(c, s, h.task);
      assert us[0] == u;
      SentInv(c, s, ErrorReply(h, NOTASK));
      AskedInv(c, Note(s, Sent(ErrorReply(h, NOTASK))), {});
      ClientTells(c, s, s1, u);
    }
  }

  lemma OneDeadTask(c: Config, s: State, u: nat, h: Header)
    requires TasksOf(s.reg.active, h.task) == [u] && !Alive(c, s, u) && h.server !in c.mcastNodes
    ensures NetRequest(c, s, h) == RemoveTask(c, Asked(Note(s, Sent(ErrorReply(h, NOTASK)))), u)
  {
    assert [u][..0] == [];
    assert DeliverAll(c, s, [], h) == (s, false, None);
    assert DeliverAll(c, s, [u], h) == (Asked(s), false, Some(u));
  }

  /** Removing a client that was registered in s. */
  lemma ClientTells(c: Config, s: State, s1: State, u: nat)
    requires Inv(c, s, {}) && Registered(s.reg, u) && External(s.reg, u) && Inv(c, s1, {}) && s1.reg == s.reg
    ensures Tells(c, s1, RemoveTask(c, s1, u)) && !Registered(RemoveTask(c, s1, u).reg, u)
  {
    RegPart(c, s, {});
    RemoveTaskTells(c, s1, u);
    RemoveTaskInv(c, s1, u);
    RemoveTaskComplete(c, s1, u);
  }

  /** Between l and l' the request was handed to one of some tasks, or its sender was told of an error. */
  ghost predicate Reacted(h: Header, us: seq<nat>, l: seq<Event>, l': seq<Event>) {
    || (exists why: int {:trigger ErrorReply(h, why)} :: why != SUCCESS && Left(Sent(ErrorReply(h, why)), l, l'))
    || (exists u: nat, id: nat {:trigger Told(u, h.(status := AsStatus(id)), true)} ::
          u in us && Left(Told(u, h.(status := AsStatus(id)), true), l, l'))
  }

  lemma ReactedInBetween(h: Header, us: seq<nat>, vs: seq<nat>, l0: seq<Event>, l1: seq<Event>, l2: seq<Event>)
    requires l0 <= l1 && l1 <= l2 && (Reacted(h, us, l0, l1) || Reacted(h, us, l1, l2))
    requires forall u :: u in us ==> u in vs
    ensures Reacted(h, vs, l0, l2)
  {
    if why: int :| why != SUCCESS
                   && (Left(Sent(ErrorReply(h, why)), l0, l1) || Left(Sent(ErrorReply(h, why)), l1, l2)) {
      LeftInBetween(Sent(ErrorReply(h, why)), l0, l1, l2);
    } else {
      var u: nat, id: nat :| u in us && (Left(Told(u, h.(status := AsStatus(id)), true), l0, l1)
                                         || Left(Told(u, h.(status := AsStatus(id)), true), l1, l2));
      LeftInBetween(Told(u, h.(status := AsStatus(id)), true), l0, l1, l2);
    }
  }

  lemma HandOverReacts(c: Config, s: State, u: nat, h: Header, i: nat)
    ensures var (s', result) := HandOver(c, s, u, h, i);
            s.log <= s'.log && (result == SUCCESS ==> Reacted(h, [u], s.log, s'.log))
  {
    var (s', result) := HandOver(c, s, u, h, i);
    if result == SUCCESS {
      assert s'.log[|s.log|] == Told(u, h.(status := AsStatus(c.rpyBank + i)), true);
      assert Left(Told(u, h.(status := AsStatus(c.rpyBank + i)), true), s.log, s'.log);
    }
  }

  lemma OfferReacts(c: Config, s: State, u: nat, h: Header)
    ensures var (s', result) := DeliverCounted(c, s, u, h);
            s.log <= s'.log && (result == SUCCESS ==> Reacted(h, [u], s.log, s'.log))
  {
    if s.rpys.pool.free != [] {
      OfferedFills(c, s, u, h);
      HandOverReacts(c, Offered(c, s, u, h), u, h, s.rpys.pool.free[0]);
    }
  }

  lemma DeliverToReacts(c: Config, s: State, u: nat, h: Header)
    requires h.server !in c.mcastNodes
    ensures var (s', alive) := DeliverTo(c, s, u, h); s.log <= s'.log && (alive ==> Reacted(h, [u], s.log, s'.log))
  {
    var s1, s' := Asked(s), DeliverTo(c, s, u, h).0;
    if Alive(c, s, u) {
      var (s2, result) := if AcceptsRequests(s1, u) then Deliver(c, s1, u, h) else (s1, NCR);
      if AcceptsRequests(s1, u) { OfferReacts(c, IncPending(s1, u), u, h); }
      if result != SUCCESS {
        assert s'.log[|s2.log|] == Sent(ErrorReply(h, result));
        assert Left(Sent(ErrorReply(h, result)), s.log, s'.log);
      }
    }
  }

  lemma {:induction false} DeliverAllReacts(c: Config, s: State, us: seq<nat>, h: Header)
    requires h.server !in c.mcastNodes
    ensures var (s', found, dead) := DeliverAll(c, s, us, h);
            s.log <= s'.log && (found ==> Reacted(h, us, s.log, s'.log))
    decreases |us|
  {
    if us != [] {
      var init, u := us[..|us| - 1], us[|us| - 1];
      var (s1, found, dead) := DeliverAll(c, s, init, h);
      var (s2, alive) := DeliverTo(c, s1, u, h);
      DeliverAllReacts(c, s, init, h);
      DeliverToReacts(c, s1, u, h);
      if found { ReactedInBetween(h, init, us, s.log, s1.log, s2.log); }
      if alive { ReactedInBetween(h, [u], us, s.log, s1.log, s2.log); }
    }
  }

  /** No unicast request is lost: whatever tasks the handle has, the request is handed to one of them or
      its sender is told of an error. */
  lemma NoRequestIsLost(c: Config, s: State, h: Header)
    requires Inv(c, s, {}) && h.server !in c.mcastNodes
    ensures Reacted(h, TasksOf(s.reg.active, h.task), s.log, NetRequest(c, s, h).log)
  {
    var us, l := TasksOf(s.reg.active, h.task), NetRequest(c, s, h).log;
    if us == [] {
      assert l[|s.log|] == Sent(ErrorReply(h, NOTASK));
      assert Left(Sent(ErrorReply(h, NOTASK)), s.log, l);
    } else {
      var (s1, found, dead) := DeliverAll(c, s, us, h);
      var s2 := if !found then Note(s1, Sent(ErrorReply(h, NOTASK))) else s1;
      DeliverAllReacts(c, s, us, h);
      if !found {
        assert s2.log[|s1.log|] == Sent(ErrorReply(h, NOTASK));
        assert Left(Sent(ErrorReply(h, NOTASK)), s.log, s2.log);
      }
      AfterDelivery(c, s, us, h, s1, s2);
      ReactedInBetween(h, us, us, s.log, s2.log, l);
    }
  }

  /** Removing a dead task after the loop only adds packets. */
  lemma AfterDelivery(c: Config, s: State, us: seq<nat>, h: Header, s1: State, s2: State)
    requires Inv(c, s, {}) && us == TasksOf(s.reg.active, h.task) && us != [] && h.server !in c.mcastNodes
    requires s1 == DeliverAll(c, s, us, h).0
    requires s2 == if !DeliverAll(c, s, us, h).1 then Note(s1, Sent(ErrorReply(h, NOTASK))) else s1
    ensures s2.log <= NetRequest(c, s, h).log
  {
    TasksOfRegistered(c, s, h.task);
    DeliverAllInv(c, s, us, h);
    SentInv(c, s1, ErrorReply(h, NOTASK));
    var dead := DeliverAll(c, s, us, h).2;
    if dead.Some? {
      var k :| 0 <= k < |us| && us[k] == dead.value;
      ClientTells(c, s, s2, dead.value);
    }
  }
}
