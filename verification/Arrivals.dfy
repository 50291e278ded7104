/** What becomes of a request and of a CANCEL at the daemon where they arrive: every field of the slot that is
    filled and of every packet that leaves. */
module Arrivals {
  import opened Sequences
  import opened SlotPools
  import opened Timers
  import opened Acnet
  import opened Daemon
  import opened Invariant
  import opened Registers
  import opened Preservation
  import opened Removal
  import opened Handlers
  import opened Steps
  import opened Guarantees
  import opened Notices
  import opened Protocol
  import opened Exchanges
  import opened Expiry

  /** An id as a client finds it in the status field: 16 bits read as a signed number. */
  function Signed(id: nat): int { if id < 32768 then id else id - 65536 }

  // ---- Requests that are delivered ----

  lemma HandOverEnds(c: Config, s: State, u: nat, h: Header)
    requires s.rpys.pool.free != [] && External(s.reg, u) && Alive(c, s, u)
    ensures DeliverCounted(c, s, u, h)
         == (Note(Asked(Offered(c, s, u, h)), Told(u, h.(status := AsStatus(c.rpyBank + s.rpys.pool.free[0])), true)),
             SUCCESS)
  {
    OfferedFills(c, s, u, h);
    HandedOver(c, Offered(c, s, u, h), u, h, s.rpys.pool.free[0]);
  }

  /** The slot of a request that was offered. */
  lemma OfferedSlot(c: Config, s: State, u: nat, h: Header)
    requires Inv(c, s, {}) && s.rpys.pool.free != []
    ensures var s', i, mcast := Offered(c, s, u, h), s.rpys.pool.free[0], h.server in c.mcastNodes;
            && s'.rpys.pool.slots == s.rpys.pool.slots[i := Rpy(|s.rpys.born|, u, h.msgId, h.taskId, h.task,
                                                                if mcast then c.node else h.server, h.client, h.flags,
                                                                mcast, false)]
            && (!mcast ==> Due(s'.rpys.pool.due, i) == s.now + 5000)
            && s'.live == s.live && s'.reg == s.reg && s'.reqs == s.reqs && s'.log == s.log
  {
    RpyPart(c, s, {});
    AllInUse(s.rpys.pool, c.size);
    FirstIsFree(s.rpys.pool, c.size);
  }

  lemma Counted(c: Config, s: State, u: nat) returns (s1: State)
    requires Inv(c, s, {}) && External(s.reg, u)
    ensures s1 == IncPending(Asked(s), u) && Inv(c, s1, {})
    ensures s1 == s.(asked := s.asked + 1, live := s1.live)
    ensures var l := LiveOf(s, u); LiveOf(s1, u) == l.(pending := if l.pending < 256 then l.pending + 1 else l.pending)
  {
    AskedInv(c, s, {});
    s1 := IncPending(Asked(s), u);
    IncPendingInv(c, Asked(s), u);
  }

  /** A client that takes requests is given the request with the id of a new slot; the slot remembers the
      request, and the next ACNET_PEND for it is five seconds away, unless it is multicast. The client has one
      more request pending, up to 256. */
  lemma RequestFillsSlot(c: Config, s: State, u: nat, h: Header)
    requires Inv(c, s, {}) && TasksOf(s.reg.active, h.task) == [u] && u in s.reg.infos && s.rpys.pool.free != []
    requires (s.reg.infos[u].kind == Local || s.reg.infos[u].kind == Remote) && LiveOf(s, u).receiving
    requires Alive(c, s, u) && Alive(c, Asked(s), u)
    ensures var s', i, mcast, l := NetRequest(c, s, h), s.rpys.pool.free[0], h.server in c.mcastNodes, LiveOf(s, u);
            && s'.log == s.log + [Told(u, h.(status := Signed(c.rpyBank + i)), true)]
            && s'.rpys.pool.slots == s.rpys.pool.slots[i := Rpy(|s.rpys.born|, u, h.msgId, h.taskId, h.task,
                                                                if mcast then c.node else h.server, h.client, h.flags,
                                                                mcast, false)]
            && (!mcast ==> Due(s'.rpys.pool.due, i) == s.now + 5000)
            && LiveOf(s', u) == l.(pending := if l.pending < 256 then l.pending + 1 else l.pending)
            && s'.reg == s.reg && s'.reqs == s.reqs
  {
    var s1 := Counted(c, s, u);
    HandOverEnds(c, s1, u, h);
    Delivered(c, s, u, h, s1, DeliverCounted(c, s1, u, h).0);
    OfferedSlot(c, s1, u, h);
  }

  // ---- Requests that are refused ----

  /** What a refused request is answered with. */
  function RefusedWith(h: Header, status: int): Event {
    Sent(Header(4, status, h.server, h.client, h.task, h.taskId, h.msgId, 18))
  }

  /** A client that shares its handle in a multicast group, or does not take requests, is given none: the
      answer to a unicast request is ACNET_NCR. */
  lemma RequestMeetsNoTaker(c: Config, s: State, u: nat, h: Header)
    requires TasksOf(s.reg.active, h.task) == [u] && External(s.reg, u) && Alive(c, s, u)
    requires s.reg.infos[u].kind == Multicast || !LiveOf(s, u).receiving
    ensures NetRequest(c, s, h)
         == s.(asked := s.asked + 1, log := s.log + (if h.server in c.mcastNodes then [] else [RefusedWith(h, -7167)]))
  {
    OneTask(c, s, u, h);
  }

  /** Without a free reply slot the answer is ACNET_NOREMMEM. The request was counted as pending before that
      was found out, and is discounted after: a client with 256 pending has one less on its count then. */
  lemma RequestMeetsFullPool(c: Config, s: State, u: nat, h: Header)
    requires TasksOf(s.reg.active, h.task) == [u] && u in s.reg.infos && s.rpys.pool.free == []
    requires (s.reg.infos[u].kind == Local || s.reg.infos[u].kind == Remote) && LiveOf(s, u).receiving && Alive(c, s, u)
    ensures var s', l := NetRequest(c, s, h), LiveOf(s, u);
            && s'.log == s.log + (if h.server in c.mcastNodes then [] else [RefusedWith(h, -767)])
            && LiveOf(s', u) == l.(pending := if l.pending < 256 then l.pending else l.pending - 1)
            && s'.rpys == s.rpys && s'.reqs == s.reqs && s'.reg == s.reg
  {
    DeliveryIs(c, s, u, h, IncPending(Asked(s), u));
  }

  /** Without a task of that name the answer is ACNET_NOTASK. */
  lemma RequestMeetsNobody(c: Config, s: State, h: Header)
    requires TasksOf(s.reg.active, h.task) == []
    ensures NetRequest(c, s, h)
         == s.(log := s.log + (if h.server in c.mcastNodes then [] else [RefusedWith(h, -8447)]))
  {}

  /** A client that went away in between: it is told of the request and of its end, and the sender gets
      ACNET_DISCONNECTED and then ACNET_BUSY. */
  lemma RequestMeetsTheGone(c: Config, s: State, u: nat, h: Header)
    requires TasksOf(s.reg.active, h.task) == [u] && External(s.reg, u) && s.rpys.pool.free != []
    requires (s.reg.infos[u].kind == Local || s.reg.infos[u].kind == Remote) && LiveOf(s, u).receiving
    requires Alive(c, s, u) && !Alive(c, Asked(s), u) && h.server !in c.mcastNodes
    ensures var id := c.rpyBank + s.rpys.pool.free[0];
            NetRequest(c, s, h).log
            == s.log + [Told(u, h.(status := Signed(id)), false),
                        Replied(|s.rpys.born|, Header(4, -8703, h.server, h.client, h.task, h.taskId, h.msgId, 18)),
                        Told(u, Header(0x200, Signed(id), h.server, h.client, h.task, InfoOf(s.reg, u).id, h.msgId, 18),
                             Alive(c, Asked(Asked(s)), u))]
                     + [RefusedWith(h, -2047)]
  {
    BusyIsAnsweredTwice(c, s, u, h);
  }

  /** The internal task answers at once, with a last reply. */
  lemma InternalAnswerSays(c: Config, s: State, u: nat, h: Header)
    requires Inv(c, s, {}) && TasksOf(s.reg.active, h.task) == [u] && !External(s.reg, u) && u in s.reg.infos
    requires s.rpys.pool.free != []
    ensures var a := AnswerOf(c, s.asked + 2);
            var node := if h.server in c.mcastNodes then c.node else h.server;
            NetRequest(c, s, h).log
            == s.log + [Told(u, h.(status := Signed(c.rpyBank + s.rpys.pool.free[0])), true),
                        Replied(|s.rpys.born|, Header(4, a.status, node, h.client, h.task, h.taskId, h.msgId,
                                                      18 + a.n + a.n % 2))]
  {
    InternalTaskAnswers(c, s, u, h);
    PaddedIs(AnswerOf(c, s.asked + 2).n);
  }

  /** No packet between l and l' was sent but CANCELs, and replies of a reply slot. */
  ghost predicate NoneSent(l: seq<Event>, l': seq<Event>) {
    l <= l' && forall k {:trigger l'[k]} :: |l| <= k < |l'| && l'[k].Sent? ==> l'[k].h.flags == 0x200
  }

  lemma NoneSentOn(l0: seq<Event>, l1: seq<Event>, l2: seq<Event>)
    requires NoneSent(l0, l1) && NoneSent(l1, l2)
    ensures NoneSent(l0, l2)
  {
    assert forall k {:trigger l2[k]} :: 0 <= k < |l1| ==> l2[k] == l1[k];
  }

  lemma HandOverSendsNone(c: Config, s: State, u: nat, h: Header, i: nat)
    ensures NoneSent(s.log, HandOver(c, s, u, h, i).0.log)
  {}

  lemma RoundSendsNone(c: Config, s: State, u: nat, h: Header)
    requires h.server in c.mcastNodes
    ensures NoneSent(s.log, DeliverTo(c, s, u, h).0.log)
  {
    var s1 := IncPending(Asked(s), u);
    if s1.rpys.pool.free != [] {
      OfferedFills(c, s1, u, h);
      HandOverSendsNone(c, Offered(c, s1, u, h), u, h, s1.rpys.pool.free[0]);
    }
  }

  lemma {:induction false} RoundsSendNone(c: Config, s: State, us: seq<nat>, h: Header)
    requires h.server in c.mcastNodes
    ensures NoneSent(s.log, DeliverAll(c, s, us, h).0.log)
    decreases |us|
  {
    if us != [] {
      var s1 := DeliverAll(c, s, us[..|us| - 1], h).0;
      RoundsSendNone(c, s, us[..|us| - 1], h);
      RoundSendsNone(c, s1, us[|us| - 1], h);
      NoneSentOn(s.log, s1.log, DeliverAll(c, s, us, h).0.log);
    }
  }

  /** Whatever tasks a handle has, a multicast request is not refused by the daemon: others may answer it. */
  lemma MulticastIsNotRefused(c: Config, s: State, h: Header)
    requires h.server in c.mcastNodes
    ensures NoneSent(s.log, NetRequest(c, s, h).log)
  {
    var us := TasksOf(s.reg.active, h.task);
    if us != [] {
      var (s1, found, dead) := DeliverAll(c, s, us, h);
      RoundsSendNone(c, s, us, h);
      if dead.Some? {
        RemoveTaskFarewell(c, s1, dead.value);
        NoneSentOn(s.log, s1.log, RemoveTask(c, s1, dead.value).log);
      }
    }
  }

  /** Is the task at position k found alive when it is its turn? */
  predicate AliveAt(c: Config, s: State, us: seq<nat>, h: Header, k: nat)
    requires k < |us|
  {
    Alive(c, DeliverAll(c, s, us[..k], h).0, us[k])
  }

  lemma RoundSees(c: Config, s: State, u: nat, h: Header)
    ensures DeliverTo(c, s, u, h).1 == Alive(c, s, u)
  {}

  lemma LastRound(c: Config, s: State, us: seq<nat>, h: Header)
    requires us != []
    ensures var n := |us| - 1;
            DeliverAll(c, s, us, h).2 == if AliveAt(c, s, us, h, n) then DeliverAll(c, s, us[..n], h).2 else Some(us[n])
  {
    RoundSees(c, DeliverAll(c, s, us[..|us| - 1], h).0, us[|us| - 1], h);
  }

  lemma AliveBefore(c: Config, s: State, us: seq<nat>, n: nat, h: Header, k: nat)
    requires k < n <= |us|
    ensures AliveAt(c, s, us, h, k) == AliveAt(c, s, us[..n], h, k)
  {
    assert us[..n][..k] == us[..k];
  }

  /** Of some tasks, the one at position k is the last that was found dead, or none was. */
  ghost predicate LastDead(c: Config, s: State, us: seq<nat>, h: Header, dead: Option<nat>, k: nat) {
    if dead.None? then forall j: nat {:trigger AliveAt(c, s, us, h, j)} :: j < |us| ==> AliveAt(c, s, us, h, j)
    else
      && k < |us| && us[k] == dead.value && !AliveAt(c, s, us, h, k)
      && forall j: nat {:trigger AliveAt(c, s, us, h, j)} :: k < j < |us| ==> AliveAt(c, s, us, h, j)
  }

  lemma LastDeadOn(c: Config, s: State, us: seq<nat>, h: Header, dead: Option<nat>, k0: nat) returns (k: nat)
    requires us != [] && LastDead(c, s, us[..|us| - 1], h, dead, k0)
    ensures LastDead(c, s, us, h, if AliveAt(c, s, us, h, |us| - 1) then dead else Some(us[|us| - 1]), k)
  {
    var n := |us| - 1;
    forall j: nat {:trigger AliveAt(c, s, us, h, j)} | j < n
      ensures AliveAt(c, s, us, h, j) == AliveAt(c, s, us[..n], h, j)
    {
      AliveBefore(c, s, us, n, h, j);
    }
    k := if AliveAt(c, s, us, h, n) then k0 else n;
  }

  /** The loop remembers the last one. */
  lemma {:induction false} LastDeadIsKept(c: Config, s: State, us: seq<nat>, h: Header) returns (k: nat)
    ensures LastDead(c, s, us, h, DeliverAll(c, s, us, h).2, k)
    decreases |us|
  {
    k := 0;
    if us != [] {
      LastRound(c, s, us, h);
      k := LastDeadIsKept(c, s, us[..|us| - 1], h);
      k := LastDeadOn(c, s, us, h, DeliverAll(c, s, us[..|us| - 1], h).2, k);
    }
  }

  /** Was any of the tasks found alive? */
  ghost predicate SomeAlive(c: Config, s: State, us: seq<nat>, h: Header) {
    exists k: nat {:trigger AliveAt(c, s, us, h, k)} :: k < |us| && AliveAt(c, s, us, h, k)
  }

  lemma SomeAliveOn(c: Config, s: State, us: seq<nat>, h: Header)
    requires us != []
    ensures var n := |us| - 1; SomeAlive(c, s, us, h) <==> SomeAlive(c, s, us[..n], h) || AliveAt(c, s, us, h, n)
  {
    var n := |us| - 1;
    forall j: nat {:trigger AliveAt(c, s, us, h, j)} | j < n
      ensures AliveAt(c, s, us, h, j) == AliveAt(c, s, us[..n], h, j)
    {
      AliveBefore(c, s, us, n, h, j);
    }
    if SomeAlive(c, s, us[..n], h) {
      var k: nat :| k < n && AliveAt(c, s, us[..n], h, k);
      assert AliveAt(c, s, us, h, k);
    }
  }

  lemma FoundRound(c: Config, s: State, us: seq<nat>, h: Header)
    requires us != []
    ensures var n := |us| - 1;
            DeliverAll(c, s, us, h).1 <==> DeliverAll(c, s, us[..n], h).1 || AliveAt(c, s, us, h, n)
  {
    RoundSees(c, DeliverAll(c, s, us[..|us| - 1], h).0, us[|us| - 1], h);
  }

  lemma {:induction false} FoundIsSome(c: Config, s: State, us: seq<nat>, h: Header)
    ensures DeliverAll(c, s, us, h).1 <==> SomeAlive(c, s, us, h)
    decreases |us|
  {
    if us != [] {
      FoundRound(c, s, us, h);
      SomeAliveOn(c, s, us, h);
      FoundIsSome(c, s, us[..|us| - 1], h);
    }
  }

  /** A unicast request is answered with ACNET_NOTASK exactly if none of the tasks of its handle is found alive;
      otherwise the packets are those of the tasks, and of the removal of a dead one. */
  lemma NoTaskIfNoneAlive(c: Config, s: State, h: Header)
    requires h.server !in c.mcastNodes && TasksOf(s.reg.active, h.task) != []
    ensures var us, s' := TasksOf(s.reg.active, h.task), NetRequest(c, s, h);
            var l := DeliverAll(c, s, us, h).0.log;
            Farewells(if SomeAlive(c, s, us, h) then l else l + [RefusedWith(h, -8447)], s'.log)
  {
    var us := TasksOf(s.reg.active, h.task);
    var (s1, found, dead) := DeliverAll(c, s, us, h);
    FoundIsSome(c, s, us, h);
    if dead.Some? {
      RemoveTaskFarewell(c, if found then s1 else Note(s1, Sent(ErrorReply(h, NOTASK))), dead.value);
    }
  }

  /** The last task found dead is removed; others that are dead wait for the next request. */
  lemma LastDeadGoes(c: Config, s: State, h: Header, k: nat)
    requires Inv(c, s, {})
    requires var us := TasksOf(s.reg.active, h.task);
             k < |us| && !AliveAt(c, s, us, h, k)
             && forall j: nat {:trigger AliveAt(c, s, us, h, j)} :: k < j < |us| ==> AliveAt(c, s, us, h, j)
    ensures !Registered(NetRequest(c, s, h).reg, TasksOf(s.reg.active, h.task)[k])
  {
    var us := TasksOf(s.reg.active, h.task);
    var (s1, found, dead) := DeliverAll(c, s, us, h);
    var i := LastDeadIsKept(c, s, us, h);
    assert dead.Some? && i == k;
    TasksOfRegistered(c, s, h.task);
    DeliverAllInv(c, s, us, h);
    SentInv(c, s1, ErrorReply(h, NOTASK));
    ClientTells(c, s, s1, us[k]);
    ClientTells(c, s, Note(s1, Sent(ErrorReply(h, NOTASK))), us[k]);
  }

  // ---- CANCELs ----

  /** A CANCEL that names the reply which is found for its key ends it: the slot is free, its client is given
      the CANCEL with the id of the slot, and a request that was not yet acknowledged is no longer pending. */
  lemma CancelEnds(c: Config, s: State, h: Header, i: nat)
    requires i in s.rpys.pool.slots && FindLink(s.rpys.links, h.client, h.msgId) == Some(i)
    requires var r := s.rpys.pool.slots[i];
             h.task == r.taskName && h.client == r.remNode && h.taskId == r.taskId && Alive(c, s, r.owner)
    ensures var r, s' := s.rpys.pool.slots[i], NetCancel(c, s, h);
            var l := LiveOf(s, r.owner);
            && s'.log == s.log + [Told(r.owner, h.(status := Signed(c.rpyBank + i)), true)]
            && s'.rpys.pool.slots == s.rpys.pool.slots - {i}
            && LiveOf(s', r.owner) == l.(pending := if r.acked || l.pending == 0 then l.pending else l.pending - 1)
            && s'.reqs == s.reqs && s'.reg == s.reg
  {
    assert c.rpyBank + i - c.rpyBank == i;
  }

  /** If the client does not answer, it is told and then removed. */
  lemma CancelMeetsTheGone(c: Config, s: State, h: Header, i: nat)
    requires Inv(c, s, {}) && i in s.rpys.pool.slots && FindLink(s.rpys.links, h.client, h.msgId) == Some(i)
    requires Names(h, s.rpys.pool.slots[i]) && !Alive(c, s, s.rpys.pool.slots[i].owner)
    ensures var r, s' := s.rpys.pool.slots[i], NetCancel(c, s, h);
            i !in s'.rpys.pool.slots && !Registered(s'.reg, r.owner)
  {
    var u := s.rpys.pool.slots[i].owner;
    CancelFrees(c, s, h, i);
    RpyOwner(c, s, i);
    ClientIsNotInternal(c, s, u);
    var s3 := CancelIs(c, s, h, i);
    RemoveTaskComplete(c, s3, u);
  }

  /** Any other CANCEL changes nothing. */
  lemma CancelIsIgnored(c: Config, s: State, h: Header)
    requires var found := FindLink(s.rpys.links, h.client, h.msgId);
             found.None? || found.value !in s.rpys.pool.slots
             || (var r := s.rpys.pool.slots[found.value];
                 h.task != r.taskName || h.client != r.remNode || h.taskId != r.taskId)
    ensures NetCancel(c, s, h) == s
  {}

  // ---- Replies that end ----

  /** A reply that is ended with an error: the requester gets the error as a last reply, unless it asked a
      multicast node for several; the client is told with a CANCEL. Ended without an error, no one is. */
  lemma EndSays(c: Config, s: State, i: nat, status: int)
    requires i in s.rpys.pool.slots
    ensures var r, s' := s.rpys.pool.slots[i], EndRpyId(c, s, c.rpyBank + i, status);
            && s'.rpys.pool.slots == s.rpys.pool.slots - {i}
            && s'.reqs == s.reqs && s'.reg == s.reg && s'.live == s.live
            && s'.log == s.log
                 + (if status != 0 && (!r.mcast || r.flags % 2 == 0)
                    then [Replied(r.serial, Header(4, status, r.lclNode, r.remNode, r.taskName, r.taskId, r.reqId, 18))]
                    else [])
                 + (if status != 0
                    then [Told(r.owner, Header(0x200, Signed(c.rpyBank + i), r.lclNode, r.remNode, r.taskName,
                                               InfoOf(s.reg, r.owner).id, r.reqId, 18), Alive(c, s, r.owner))]
                    else [])
  {
    assert c.rpyBank + i - c.rpyBank == i;
  }
}
