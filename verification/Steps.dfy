/** Time-outs, renaming, client commands, and so every step of a daemon keep the invariant. */
module Steps {
  import opened Sequences
  import opened SlotPools
  import opened Timers
  import opened Acnet
  import opened Daemon
  import opened Invariant
  import opened Registers
  import opened History
  import opened Preservation
  import opened Removal
  import opened Handlers

  // ---- Time-outs ----

  /** The slots on a timer list that are due. */
  ghost function DueNow(order: seq<nat>, due: seq<int>, now: int): set<nat> {
    set x | x in order && Due(due, x) <= now
  }

  lemma {:induction false} OverdueCounts(order: seq<nat>, due: seq<int>, now: int)
    requires Distinct(order)
    ensures Overdue(order, due, now) == |DueNow(order, due, now)|
  {
    if order == [] {
      assert DueNow(order, due, now) == {};
    } else {
      var rest := order[1..];
      OverdueCounts(rest, due, now);
      assert order == [order[0]] + rest;
      assert order[0] !in rest;
      assert DueNow(order, due, now) ==
             (if Due(due, order[0]) <= now then {order[0]} else {}) + DueNow(rest, due, now);
    }
  }

  lemma FewerOverdue(order: seq<nat>, due: seq<int>, order': seq<nat>, due': seq<int>, now: int, i: nat)
    requires Distinct(order) && Distinct(order') && i in order && Due(due, i) <= now
    requires forall x {:trigger x in order'} :: x in order' && Due(due', x) <= now ==>
               x != i && x in order && Due(due, x) <= now
    ensures Overdue(order', due', now) < Overdue(order, due, now)
  {
    OverdueCounts(order, due, now);
    OverdueCounts(order', due', now);
    var a, b := DueNow(order, due, now), DueNow(order', due', now);
    assert i in a && b <= a - {i};
    SubsetSize(b, a - {i});
  }

  /** The state of ExpireReq before a dead owner is removed. */
  function Expired(c: Config, s: State, i: nat): State
    requires i in s.reqs.pool.slots
  {
    var r, id := s.reqs.pool.slots[i], c.reqBank + i;
    var mult := Mlt(r.flags);
    var h := LocalReply(c, s, r, id, if mult then FLG_RPY + FLG_MLT else FLG_RPY, if mult then PEND else TMO);
    var s1 := Hand(c, s, r, h);
    if mult then s1.(reqs := TouchReq(s1.reqs, i, s1.now)) else CancelReqId(c, s1, id, true, false)
  }

  lemma ExpireReqParts(c: Config, s: State, i: nat)
    requires i in s.reqs.pool.slots
    ensures ExpireReq(c, s, i) == if Alive(c, s, s.reqs.pool.slots[i].owner) then Expired(c, s, i)
                                  else RemoveTask(c, Expired(c, s, i), s.reqs.pool.slots[i].owner)
  {}

  lemma ExpiredInv(c: Config, s: State, i: nat)
    requires Inv(c, s, {}) && i in s.reqs.pool.slots
    ensures var s1 := Expired(c, s, i);
            && Inv(c, s1, {}) && SameTasks(s, s1)
            && s1.reqs == if Mlt(s.reqs.pool.slots[i].flags) then TouchReq(s.reqs, i, s.now) else DropReq(c, s.reqs, i)
  {
    var r, id := s.reqs.pool.slots[i], c.reqBank + i;
    if Mlt(r.flags) {
      var h := LocalReply(c, s, r, id, FLG_RPY + FLG_MLT, PEND);
      HandInv(c, s, i, h);
      TouchReqInv(c, Hand(c, s, r, h), i);
    } else {
      HandThenCancelInv(c, s, i, LocalReply(c, s, r, id, FLG_RPY, TMO), true);
    }
  }

  /** After slot i expired, it is no longer due, and nothing else became due. */
  lemma ExpiredLater(c: Config, s: State, i: nat)
    requires Inv(c, s, {}) && i in s.reqs.pool.slots
    ensures var q := Expired(c, s, i).reqs;
            forall x {:trigger x in q.pool.slots} :: x in q.pool.slots && Due(q.pool.due, x) <= s.now ==>
              x != i && x in s.reqs.pool.slots && Due(s.reqs.pool.due, x) <= s.now
  {
    ExpiredInv(c, s, i);
    ReqPart(c, s, {});
    assert s.reqs.pool.slots[i].tmoMs >= MIN_TIMEOUT_MS;
    InUse(s.reqs.pool, c.size, i);
  }

  lemma ReqOrder(c: Config, s: State)
    requires Inv(c, s, {})
    ensures Distinct(s.reqs.pool.order) && Ascending(s.reqs.pool.order, s.reqs.pool.due)
    ensures forall x :: x in s.reqs.pool.order <==> x in s.reqs.pool.slots
  {
    ReqPart(c, s, {});
    PoolParts(s.reqs.pool, c.size);
  }

  /** Each round of the time-out loop leaves fewer requests due. */
  lemma ExpireReqInv(c: Config, s: State, i: nat)
    requires Inv(c, s, {}) && i in s.reqs.pool.slots && Due(s.reqs.pool.due, i) <= s.now
    ensures var s' := ExpireReq(c, s, i);
            && Inv(c, s', {}) && s'.now == s.now && Ages(s.reg, s'.reg)
            && Overdue(s'.reqs.pool.order, s'.reqs.pool.due, s.now) < Overdue(s.reqs.pool.order, s.reqs.pool.due, s.now)
  {
    ExpireReqParts(c, s, i);
    ExpiredInv(c, s, i);
    ExpiredLater(c, s, i);
    var u, s1, s' := s.reqs.pool.slots[i].owner, Expired(c, s, i), ExpireReq(c, s, i);
    ReqOwner(c, s, i);
    if !Alive(c, s, u) {
      RemoveDeadOwnerInv(c, s, s1, u);
      assert s1.reg == s.reg;
      assert forall x :: x in s'.reqs.pool.slots ==> x in s1.reqs.pool.slots;
    }
    ReqOrder(c, s);
    ReqOrder(c, s');
    FewerOverdue(s.reqs.pool.order, s.reqs.pool.due, s'.reqs.pool.order, s'.reqs.pool.due, s.now, i);
  }

  /** t is the time left until the first of some slots is due; -1 if there are none. */
  ghost predicate TimeToNext(t: int, slots: set<nat>, due: seq<int>, now: int) {
    if slots == {} then t == -1
    else
      && t > 0 && (exists i :: i in slots && Due(due, i) == now + t)
      && forall i :: i in slots ==> Due(due, i) >= now + t
  }

  lemma FirstIsNext(order: seq<nat>, due: seq<int>, now: int)
    requires order != [] && Ascending(order, due) && Due(due, order[0]) > now
    ensures TimeToNext(Due(due, order[0]) - now, Elements(order), due, now)
  {
    assert order[0] in Elements(order);
    forall x | x in Elements(order) ensures Due(due, x) >= Due(due, order[0]) { OldestIsMinimum(order, due, x); }
  }

  /** sendRequestTimeoutsAndGetNextTimeout ends, and says how long to wait for the next one. */
  lemma {:induction false} ReqTimeoutsInv(c: Config, s: State)
    requires Inv(c, s, {})
    ensures var (s', t) := ReqTimeouts(c, s);
            && Inv(c, s', {}) && s'.now == s.now && Ages(s.reg, s'.reg)
            && TimeToNext(t, s'.reqs.pool.slots.Keys, s'.reqs.pool.due, s'.now)
    decreases Overdue(s.reqs.pool.order, s.reqs.pool.due, s.now)
  {
    ReqOrder(c, s);
    var p := s.reqs.pool;
    assert Elements(p.order) == p.slots.Keys;
    if p.order != [] {
      assert p.order[0] in p.order;
      if Due(p.due, p.order[0]) > s.now {
        FirstIsNext(p.order, p.due, s.now);
      } else {
        ExpireReqInv(c, s, p.order[0]);
        ReqTimeoutsInv(c, ExpireReq(c, s, p.order[0]));
        AgesOn(s.reg, ExpireReq(c, s, p.order[0]).reg, ReqTimeouts(c, s).0.reg);
      }
    }
  }

  lemma RpyOrder(c: Config, s: State)
    requires Inv(c, s, {})
    ensures Distinct(s.rpys.pool.order) && Ascending(s.rpys.pool.order, s.rpys.pool.due)
    ensures forall x :: x in s.rpys.pool.order <==> x in s.rpys.pool.slots && !s.rpys.pool.slots[x].mcast
    ensures forall x :: x in s.rpys.pool.slots ==> x < |s.rpys.pool.due|
  {
    RpyPart(c, s, {});
    PoolParts(s.rpys.pool, c.size);
    AllInUse(s.rpys.pool, c.size);
  }

  /** The replies that are kept alive with ACNET_PEND. */
  ghost function Unicast(p: Pool<Rpy>): set<nat> {
    set i | i in p.slots && !p.slots[i].mcast
  }

  lemma PendLater(s: State, i: nat)
    requires i in s.rpys.pool.slots && !s.rpys.pool.slots[i].mcast && i < |s.rpys.pool.due|
    ensures BeforeXmit(s, i).rpys.pool.due == s.rpys.pool.due[i := s.now + REPLY_DELAY * 1000]
    ensures forall x :: x in BeforeXmit(s, i).rpys.pool.slots <==> x in s.rpys.pool.slots
    ensures forall x :: x in s.rpys.pool.slots ==>
              BeforeXmit(s, i).rpys.pool.slots[x].mcast == s.rpys.pool.slots[x].mcast
  {
    var r := s.rpys.pool.slots[i];
    assert BeforeXmit(s, i).rpys.pool.slots
        == if r.acked then s.rpys.pool.slots else s.rpys.pool.slots[i := r.(acked := true)];
  }

  lemma PendRound(c: Config, s: State, i: nat)
    requires Inv(c, s, {}) && i in s.rpys.pool.order && Due(s.rpys.pool.due, i) <= s.now
    ensures i in s.rpys.pool.slots
    ensures var s' := XmitReply(c, s, i, PEND, 0, false);
            && Inv(c, s', {}) && s'.now == s.now && s'.reg == s.reg
            && Overdue(s'.rpys.pool.order, s'.rpys.pool.due, s.now) < Overdue(s.rpys.pool.order, s.rpys.pool.due, s.now)
  {
    RpyOrder(c, s);
    var s' := XmitReply(c, s, i, PEND, 0, false);
    XmitReplyInv(c, s, i, PEND, 0, false);
    PendLater(s, i);
    RpyOrder(c, s');
    FewerOverdue(s.rpys.pool.order, s.rpys.pool.due, s'.rpys.pool.order, s'.rpys.pool.due, s.now, i);
  }

  /** sendReplyPendsAndGetNextTimeout likewise, for the replies to unicast requests. */
  lemma {:induction false} RpyPendsInv(c: Config, s: State)
    requires Inv(c, s, {})
    ensures var (s', t) := RpyPends(c, s);
            && Inv(c, s', {}) && s'.now == s.now && s'.reg == s.reg
            && TimeToNext(t, Unicast(s'.rpys.pool), s'.rpys.pool.due, s'.now)
    decreases Overdue(s.rpys.pool.order, s.rpys.pool.due, s.now)
  {
    RpyOrder(c, s);
    var p := s.rpys.pool;
    assert Elements(p.order) == Unicast(p);
    if p.order != [] {
      assert p.order[0] in p.order;
      if Due(p.due, p.order[0]) > s.now {
        FirstIsNext(p.order, p.due, s.now);
      } else {
        PendRound(c, s, p.order[0]);
        RpyPendsInv(c, XmitReply(c, s, p.order[0], PEND, 0, false));
      }
    }
  }

  // ---- Renaming ----

  lemma EqualsSymmetric(g: Registry, u: nat, v: nat)
    ensures Equals(g, u, v) == Equals(g, v, u)
  {}

  /** An entry under the handle of u that equals u is u. */
  lemma OnlyItself(c: Config, s: State, u: nat, e: Entry)
    requires Inv(c, s, {}) && Registered(s.reg, u) && e in s.reg.active
    ensures e.handle == s.reg.infos[u].handle && Equals(s.reg, e.obj, u) ==> e.obj == u
  {
    RegPart(c, s, {});
    var k := RenameFinds(c, s, u);
    var j :| 0 <= j < |s.reg.active| && s.reg.active[j] == e;
    EqualsSymmetric(s.reg, e.obj, u);
    assert j == k || s.reg.active[j].handle != s.reg.active[k].handle || !Equals(s.reg, e.obj, u);
  }

  /** Once u is no longer registered, rename does not find it, nor anyone in its place. */
  lemma RenameMisses(c: Config, s: State, s1: State, u: nat)
    requires Inv(c, s, {}) && Registered(s.reg, u) && Inv(c, s1, {}) && Shrinks(s, s1) && !Registered(s1.reg, u)
    ensures FindEntry(s1.reg, s.reg.infos[u].handle, u, 0) == None
  {
    FindEntryFirst(s1.reg, s.reg.infos[u].handle, u, 0);
    forall k | 0 <= k < |s1.reg.active|
      ensures !(s1.reg.active[k].handle == s.reg.infos[u].handle && Equals(s1.reg, s1.reg.active[k].obj, u))
    {
      var e := s1.reg.active[k];
      ListedIsRegistered(c, s1, k);
      assert e in s1.reg.active;
      EqualsUnder(s.reg, s1.reg, e.obj, u);
      OnlyItself(c, s, u, e);
    }
  }

  lemma EqualsUnder(g: Registry, g': Registry, u: nat, v: nat)
    requires g.infos == g'.infos
    ensures Equals(g, u, v) == Equals(g', u, v)
  {}

  /** When the one holder of a handle is removed, the handle is free. */
  lemma HandleFreed(c: Config, s: State, s1: State, handle: nat, u: nat)
    requires Inv(c, s, {}) && handle !in c.mcastHandles && Entry(handle, u) in s.reg.active
    requires Inv(c, s1, {}) && Shrinks(s, s1) && !Registered(s1.reg, u)
    ensures forall j {:trigger s1.reg.active[j]} :: 0 <= j < |s1.reg.active| ==> s1.reg.active[j].handle != handle
  {
    forall j | 0 <= j < |s1.reg.active| ensures s1.reg.active[j].handle != handle {
      var e := s1.reg.active[j];
      ListedIsRegistered(c, s1, j);
      assert e in s.reg.active;
      OneHolder(c, s, e, Entry(handle, u));
    }
  }

  lemma OneHolder(c: Config, s: State, e: Entry, f: Entry)
    requires Inv(c, s, {}) && e in s.reg.active && f in s.reg.active && f.handle !in c.mcastHandles
    ensures e.handle == f.handle ==> e == f
  {
    RegPart(c, s, {});
    var j :| 0 <= j < |s.reg.active| && s.reg.active[j] == e;
    var k :| 0 <= k < |s.reg.active| && s.reg.active[k] == f;
    assert j == k || s.reg.active[j].handle != s.reg.active[k].handle;
  }

  /** A client without a pid that has just sent a command. */
  predicate Fresh(s: State, u: nat) {
    InfoOf(s.reg, u).pid == 0 ==> s.now - LiveOf(s, u).lastCommand < 30000
  }

  /** Where removeTask may be called for u: it is registered, or it has a pid, by which nothing is found. */
  predicate MayGo(g: Registry, u: nat) {
    u in g.infos && u != 0 && (Registered(g, u) || g.infos[u].pid != 0)
  }

  /** Removing someone else who is dead does not take u with it, unless u has a pid. */
  lemma OtherGone(c: Config, s: State, u: nat, v: nat)
    requires Inv(c, s, {}) && Registered(s.reg, u) && u != 0 && Fresh(s, u)
    requires Registered(s.reg, v) && !Alive(c, s, v)
    ensures var s1 := RemoveTask(c, Asked(s), v);
            Inv(c, s1, {}) && Shrinks(s, s1) && MayGo(s1.reg, u) && !Registered(s1.reg, v)
  {
    var s0 := Asked(s);
    AskedInv(c, s, {});
    ClientIsNotInternal(c, s, v);
    RemoveTaskInv(c, s0, v);
    RemoveTaskComplete(c, s0, v);
    ShrinksSelf(c, s, s0);
    ShrinksAgain(s, s0, RemoveTask(c, s0, v));
    FreshStays(c, s, u, v, RemoveTask(c, s0, v));
  }

  lemma FreshStays(c: Config, s: State, u: nat, v: nat, s': State)
    requires Registered(s.reg, u) && u != 0 && Fresh(s, u) && Shrinks(s, s')
    requires Registered(s.reg, v) && !Alive(c, s, v)
    requires var pid := s.reg.infos[v].pid;
             if pid == 0 then s'.reg.tasks == s.reg.tasks - {s.reg.infos[v].id} else WithoutPid(s.reg, s'.reg, pid, 0)
    ensures MayGo(s'.reg, u)
  {
    if s.reg.infos[u].pid == 0 { assert s.reg.infos[u].id in s'.reg.tasks; }
  }

  lemma RenameTo(c: Config, s: State, s1: State, u: nat, handle: nat)
    requires Inv(c, s1, {}) && MayGo(s1.reg, u)
    requires Registered(s1.reg, u) ==>
               forall j {:trigger s1.reg.active[j]} :: 0 <= j < |s1.reg.active| ==> s1.reg.active[j].handle != handle
    requires !Registered(s1.reg, u) ==> FindEntry(s1.reg, InfoOf(s1.reg, u).handle, u, 0) == None
    ensures var found := FindEntry(s1.reg, InfoOf(s1.reg, u).handle, u, 0);
            found.Some? ==> var s' := s1.(reg := Relist(s1.reg, u, found.value, handle));
                             Inv(c, s', {}) && MayGo(s'.reg, u) && Ages(s1.reg, s'.reg)
  {
    if Registered(s1.reg, u) {
      var k := RenameFinds(c, s1, u);
      RelistInv(c, s1, u, k, handle);
    }
  }

  lemma RenameInv(c: Config, s: State, u: nat, handle: nat)
    requires Inv(c, s, {}) && Registered(s.reg, u) && u != 0 && Fresh(s, u)
    ensures var s' := Rename(c, s, u, handle).0; Inv(c, s', {}) && MayGo(s'.reg, u) && Ages(s.reg, s'.reg)
  {
    AskedInv(c, s, {});
    var holders := TasksOf(s.reg.active, handle);
    TasksOfMembers(s.reg.active, handle);
    TasksOfRegistered(c, s, handle);
    if handle in c.mcastHandles {
    } else if holders == [] {
      assert forall e :: e in s.reg.active ==> e == Entry(e.handle, e.obj);
      RenameTo(c, s, s, u, handle);
    } else if !Alive(c, s, holders[0]) {
      var v, s1 := holders[0], RemoveTask(c, Asked(s), holders[0]);
      OtherGone(c, s, u, v);
      assert v in holders;
      HandleFreed(c, s, s1, handle, v);
      if !Registered(s1.reg, u) { RenameMisses(c, s, s1, u); }
      RenameTo(c, s, s1, u, handle);
      ShrinksAges(s, s1);
      var found := FindEntry(s1.reg, InfoOf(s1.reg, u).handle, u, 0);
      if found.Some? { AgesOn(s.reg, s1.reg, Relist(s1.reg, u, found.value, handle)); }
    }
  }

  // ---- Commands ----

  lemma AckInv(c: Config, s: State, u: nat)
    requires Inv(c, s, {}) && MayGo(s.reg, u)
    ensures Inv(c, Ack(c, s, u), {}) && Ages(s.reg, Ack(c, s, u).reg)
  {
    AskedInv(c, s, {});
    if !Alive(c, s, u) {
      RemoveTaskInv(c, Asked(s), u);
      ShrinksAges(Asked(s), Ack(c, s, u));
    }
  }

  lemma CancelCommandInv(c: Config, s: State, u: nat, id: nat)
    requires Inv(c, s, {})
    ensures Inv(c, CancelCommand(c, s, u, id), {}) && CancelCommand(c, s, u, id).reg == s.reg
  {
    CancelReqIdInv(c, s, {}, id, true, false);
  }

  lemma SetReceivingInv(c: Config, s: State, u: nat, on: bool)
    requires Inv(c, s, {}) && u in s.reg.infos
    ensures Inv(c, SetReceiving(s, u, on), {})
  {
    LiveInv(c, s, u, LiveOf(s, u).(receiving := on));
  }

  lemma ObeyInv(c: Config, s: State, u: nat, cmd: Command)
    requires Inv(c, s, {}) && Registered(s.reg, u) && u != 0 && Fresh(s, u)
    ensures Inv(c, Obey(c, s, u, cmd), {}) && MayGo(Obey(c, s, u, cmd).reg, u)
    ensures Ages(s.reg, Obey(c, s, u, cmd).reg)
  {
    match cmd
    case RenameTo(handle) => RenameInv(c, s, u, handle);
    case Request(taskName, node, flags, tmo, n) => SendRequestInv(c, s, u, taskName, node, flags, tmo, n);
    case Cancel(id) => CancelCommandInv(c, s, u, id);
    case Reply(id, status, n, emr) => SendReplyInv(c, s, u, id, status, n, emr);
    case Ignore(id) => EndRpyIdInv(c, s, {}, id, SUCCESS);
    case AckRequest(id) => AckCommandInv(c, s, u, id);
    case Receive => SetReceivingInv(c, s, u, true);
    case Block => BlockInv(c, s, u);
    case _ =>
  }

  lemma ClientCommandInv(c: Config, s: State, u: nat, cmd: Command)
    requires Inv(c, s, {}) && Registered(s.reg, u) && External(s.reg, u)
    ensures Inv(c, ClientCommand(c, s, u, cmd), {}) && Ages(s.reg, ClientCommand(c, s, u, cmd).reg)
  {
    ClientIsNotInternal(c, s, u);
    LiveInv(c, s, u, LiveOf(s, u).(lastCommand := s.now));
    var s1 := s.(live := s.live[u := LiveOf(s, u).(lastCommand := s.now)]);
    AskedInv(c, s1, {});
    match cmd
    case Disconnect =>
      RemoveTaskInv(c, Asked(s1), u);
      ShrinksAges(Asked(s1), RemoveTask(c, Asked(s1), u));
    case DisconnectSingle =>
      RemoveOnlyShrinks(c, Asked(s1), u, DISCONNECTED, false);
      ShrinksAges(Asked(s1), RemoveOnly(c, Asked(s1), u, DISCONNECTED, false));
    case _ =>
      ObeyInv(c, s1, u, cmd);
      AckInv(c, Obey(c, s1, u, cmd), u);
      AgesOn(s1.reg, Obey(c, s1, u, cmd).reg, Ack(c, Obey(c, s1, u, cmd), u).reg);
  }

  lemma ClientIsNotInternal(c: Config, s: State, u: nat)
    requires Inv(c, s, {}) && External(s.reg, u)
    ensures u != 0
  {
    RegPart(c, s, {});
  }

  lemma CommandIs(c: Config, s: State, u: nat, cmd: Command, s1: State)
    requires s1 == s.(live := s.live[u := LiveOf(s, u).(lastCommand := s.now)])
    ensures ClientCommand(c, s, u, cmd)
         == if cmd.Disconnect? then RemoveTask(c, Asked(s1), u)
            else if cmd.DisconnectSingle? then RemoveOnly(c, Asked(s1), u, DISCONNECTED, false)
            else Ack(c, Obey(c, s1, u, cmd), u)
  {}

  // ---- Steps and runs ----

  lemma PacketStep(c: Config, s: State, h: Header)
    ensures Step(c, s, Requested(h)) == NetRequest(c, s, h) && Step(c, s, Cancelled(h)) == NetCancel(c, s, h)
    ensures Step(c, s, Answered(h)) == NetReply(c, s, h)
  {}

  lemma TimerStep(c: Config, s: State)
    ensures Step(c, s, RunTimeouts) == ReqTimeouts(c, s).0 && Step(c, s, RunPends) == RpyPends(c, s).0
    ensures Step(c, s, CheckTasks) == RemoveInactive(c, s)
  {}

  lemma TickInv(c: Config, s: State, t: int)
    requires Inv(c, s, {})
    ensures Inv(c, s.(now := t), {})
  {
    Facets(c, s, {});
    Whole(c, s.(now := t), {});
  }

  lemma NodeGoneInv(c: Config, s: State, node: nat)
    requires Inv(c, s, {})
    ensures var s' := EndRpyToNode(c, CancelReqToNode(c, s, node), node); Inv(c, s', {}) && Ages(s.reg, s'.reg)
  {
    var s1 := CancelReqToNode(c, s, node);
    CancelReqToNodeInv(c, s, node);
    EndRpyToNodeInv(c, s1, node);
    AgesOn(s.reg, s1.reg, EndRpyToNode(c, s1, node).reg);
  }

  /** Whatever happens to a daemon, the invariant stays. */
  lemma StepInv(c: Config, s: State, e: Input)
    requires Inv(c, s, {})
    ensures Inv(c, Step(c, s, e), {}) && Ages(s.reg, Step(c, s, e).reg)
  {
    match e
    case Tick(t) => TickInv(c, s, t);
    case Connecting(cmd) => if cmd.pid != c.ownPid { ConnectInv(c, s, cmd); }
    case Commanded(u, cmd) => if External(s.reg, u) && Registered(s.reg, u) { ClientCommandInv(c, s, u, cmd); }
    case Requested(h) => NetRequestInv(c, s, h);
    case Answered(h) => NetReplyInv(c, s, h);
    case Cancelled(h) => NetCancelInv(c, s, h);
    case NodeGone(node) => NodeGoneInv(c, s, node);
    case RunTimeouts => ReqTimeoutsInv(c, s);
    case RunPends => RpyPendsInv(c, s);
    case CheckTasks => RemoveInactiveInv(c, s);
  }

  lemma InitialSides(c: Config)
    ensures ReqOk(c, ReqSide(NewPool(c.size), map[0 := {}], []))
    ensures RpyOk(c, RpySide(NewPool(c.size), map[0 := {}], [], [], map[]))
  {
    NewPoolOk<Req>(c.size);
    NewPoolOk<Rpy>(c.size);
  }

  lemma InitialRegistry(c: Config)
    requires Sound(c)
    ensures RegOk(c, Initial(c, 0).reg, {})
  {
    var g := Initial(c, 0).reg;
    assert g.active[0] == Entry(c.acnet, 0);
  }

  lemma InitialInv(c: Config, now: int)
    requires Sound(c)
    ensures Inv(c, Initial(c, now), {})
    ensures var s := Initial(c, now);
            && s.log == [] && s.reqs.pool.slots == map[] && s.rpys.pool.slots == map[]
            && s.reg.tasks.Keys == {0} && LiveOf(s, 0).pending == 0 && LiveOf(s, 0).lastCommand == now
  {
    var s := Initial(c, now);
    InitialSides(c);
    InitialRegistry(c);
    Whole(c, s, {});
  }

  /** The invariant holds in every state a daemon can reach. */
  lemma {:induction false} RunInv(c: Config, now: int, es: seq<Input>)
    requires Sound(c)
    ensures Inv(c, Run(c, Initial(c, now), es), {})
    decreases |es|
  {
    if es == [] {
      InitialInv(c, now);
    } else {
      RunInv(c, now, es[..|es| - 1]);
      StepInv(c, Run(c, Initial(c, now), es[..|es| - 1]), es[|es| - 1]);
    }
  }
}
