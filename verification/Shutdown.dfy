/** What removeAllTasks says when the daemon shuts down: every client with an open request and everyone who
    waits for a reply is told. */
module Shutdown {
  import opened Sequences
  import opened SlotPools
  import opened Acnet
  import opened Daemon
  import opened Invariant
  import opened Registers
  import opened Preservation
  import opened Removal
  import opened Notices

  // ---- Requests ----

  /** The client of request i is handed ACNET_DISCONNECTED as a last reply. */
  ghost predicate LastLeft(c: Config, s: State, i: nat, l: seq<Event>, l': seq<Event>) {
    && i in s.reqs.pool.slots
    && exists ok: bool :: Left(LastWord(c, s, i, ok), l, l')
  }

  function LastWord(c: Config, s: State, i: nat, ok: bool): Event
    requires i in s.reqs.pool.slots
  {
    var r := s.reqs.pool.slots[i];
    Handed(r.serial, r.flags % 2 == 1, r.mcast, Header(4, -8703, r.remNode, r.lclNode, r.taskName,
                                                       InfoOf(s.reg, r.owner).id, c.reqBank + i, 18), ok)
  }

  lemma LastInBetween(c: Config, s: State, i: nat, l0: seq<Event>, l1: seq<Event>, l2: seq<Event>)
    requires l0 <= l1 && l1 <= l2 && (LastLeft(c, s, i, l0, l1) || LastLeft(c, s, i, l1, l2))
    ensures LastLeft(c, s, i, l0, l2)
  {
    var ok: bool :| Left(LastWord(c, s, i, ok), l0, l1) || Left(LastWord(c, s, i, ok), l1, l2);
    LeftInBetween(LastWord(c, s, i, ok), l0, l1, l2);
  }

  lemma CancelSaysLast(c: Config, s: State, i: nat, id: nat)
    requires i in s.reqs.pool.slots && id == c.reqBank + i
    ensures LastLeft(c, s, i, s.log, CancelReqId(c, s, id, true, true).log)
  {
    assert id - c.reqBank == i;
    var l := CancelReqId(c, s, id, true, true).log;
    assert l[|s.log| + 1] == LastWord(c, s, i, l[|s.log| + 1].ok);
    assert Left(LastWord(c, s, i, l[|s.log| + 1].ok), s.log, l);
  }

  lemma SameLast(c: Config, s: State, s1: State, i: nat, l: seq<Event>, l': seq<Event>)
    requires LastLeft(c, s1, i, l, l') && i in s.reqs.pool.slots
    requires s1.reg.infos == s.reg.infos && s1.reqs.pool.slots[i] == s.reqs.pool.slots[i]
    ensures LastLeft(c, s, i, l, l')
  {
    var ok: bool :| Left(LastWord(c, s1, i, ok), l, l');
    assert LastWord(c, s, i, ok) == LastWord(c, s1, i, ok);
  }

  lemma {:induction false} DrainSaysLast(c: Config, s: State, limbo: set<nat>, u: nat, j: nat)
    requires Inv(c, s, limbo) && u in s.reqs.ids && j in s.reqs.pool.slots && s.reqs.pool.slots[j].owner == u
    ensures LastLeft(c, s, j, s.log, DrainReqs(c, s, u, true).log)
    decreases |IdsOf(s.reqs.ids, u)|
  {
    var i, s1 := FirstCancelled(c, s, limbo, u, true, j);
    var l := DrainReqs(c, s1, u, true).log;
    DrainReqsLog(c, s1, u, true);
    if j == i {
      CancelSaysLast(c, s, i, c.reqBank + i);
    } else {
      DrainSaysLast(c, s1, limbo, u, j);
      SameLast(c, s, s1, j, s1.log, l);
    }
    LastInBetween(c, s, j, s.log, s1.log, l);
  }

  // ---- The tables do not matter ----

  /** Ending requests and replies reads of the registry only what the objects are, not where they are listed. */
  lemma CancelReqIdUnder(c: Config, s: State, g: Registry, id: nat)
    requires g.infos == s.reg.infos
    ensures CancelReqId(c, s.(reg := g), id, true, true) == CancelReqId(c, s, id, true, true).(reg := g)
  {}

  lemma EndRpyIdUnder(c: Config, s: State, g: Registry, id: nat)
    requires g.infos == s.reg.infos
    ensures EndRpyId(c, s.(reg := g), id, NODE_DOWN) == EndRpyId(c, s, id, NODE_DOWN).(reg := g)
  {}

  lemma {:induction false} DrainReqsUnder(c: Config, s: State, g: Registry, u: nat)
    requires g.infos == s.reg.infos
    ensures DrainReqs(c, s.(reg := g), u, true) == DrainReqs(c, s, u, true).(reg := g)
    decreases |IdsOf(s.reqs.ids, u)|
  {
    var ids := IdsOf(s.reqs.ids, u);
    if ids != {} {
      var s1 := CancelReqId(c, s, Min(ids), true, true);
      CancelReqIdUnder(c, s, g, Min(ids));
      assert s1.reg == s.reg;
      if |IdsOf(s1.reqs.ids, u)| < |ids| { DrainReqsUnder(c, s1, g, u); }
    }
  }

  lemma {:induction false} DrainRpysUnder(c: Config, s: State, g: Registry, u: nat)
    requires g.infos == s.reg.infos
    ensures DrainRpys(c, s.(reg := g), u, NODE_DOWN) == DrainRpys(c, s, u, NODE_DOWN).(reg := g)
    decreases |IdsOf(s.rpys.ids, u)|
  {
    var ids := IdsOf(s.rpys.ids, u);
    if ids != {} {
      var s1 := EndRpyId(c, s, Min(ids), NODE_DOWN);
      EndRpyIdUnder(c, s, g, Min(ids));
      assert s1.reg == s.reg;
      if |IdsOf(s1.rpys.ids, u)| < |ids| { DrainRpysUnder(c, s1, g, u); }
    }
  }

  // ---- All tasks ----

  /** The slots left belong to tasks from this table position on. */
  ghost predicate LaterOwners(s: State, from: nat) {
    && (forall i {:trigger s.reqs.pool.slots[i]} :: i in s.reqs.pool.slots ==>
          InfoOf(s.reg, s.reqs.pool.slots[i].owner).id >= from)
    && (forall i {:trigger s.rpys.pool.slots[i]} :: i in s.rpys.pool.slots ==>
          InfoOf(s.reg, s.rpys.pool.slots[i].owner).id >= from)
  }

  /** The daemon in the middle of the loop: t is what s would be if the tasks removed so far were still
      listed. */
  ghost predicate Midway(c: Config, s: State, t: State, from: nat) {
    && Inv(c, t, {}) && s == t.(reg := s.reg) && s.reg.infos == t.reg.infos && LaterOwners(t, from)
    && (forall id: nat {:trigger id in s.reg.tasks} :: id >= from ==> (id in s.reg.tasks <==> id in t.reg.tasks))
    && (forall id: nat {:trigger s.reg.tasks[id]} :: id >= from && id in s.reg.tasks ==>
          s.reg.tasks[id] == t.reg.tasks[id])
  }

  /** Everyone the slots of s have to do with was told: a last reply and a CANCEL for each request, and
      ACNET_NODE_DOWN for each reply. */
  ghost predicate SaysGoodbye(c: Config, s: State, l: seq<Event>) {
    && s.log <= l
    && (forall i {:trigger s.reqs.pool.slots[i]} :: i in s.reqs.pool.slots ==>
          CancelLeft(c, s, i, s.log, l) && LastLeft(c, s, i, s.log, l))
    && (forall i {:trigger s.rpys.pool.slots[i]} :: i in s.rpys.pool.slots ==>
          EndLeft(c, s, i, NODE_DOWN, s.log, l))
  }

  lemma UnregisterTables(g: Registry, u: nat)
    ensures Unregister(g, u).infos == g.infos && Unregister(g, u).tasks == g.tasks - {InfoOf(g, u).id}
  {}

  /** The tables of s lead to objects with these ids. */
  lemma ListedAt(c: Config, s: State, t: State, from: nat)
    requires Midway(c, s, t, from) && from in s.reg.tasks
    ensures var u := s.reg.tasks[from];
            && u in t.reg.infos && t.reg.infos[u].id == from && u in t.reqs.ids && u in t.rpys.ids
            && Unregister(s.reg, u).infos == t.reg.infos
            && Unregister(s.reg, u).tasks == s.reg.tasks - {from}
  {
    assert s.reg.tasks[from] == t.reg.tasks[from];
    RegPart(c, t, {});
    UnregisterTables(s.reg, s.reg.tasks[from]);
  }

  /** One round of the loop, for the task and as if it were not taken out of the tables. */
  lemma Round(c: Config, s: State, t: State, from: nat) returns (t1: State, t2: State)
    requires Midway(c, s, t, from) && from in s.reg.tasks
    ensures var u := s.reg.tasks[from];
            && t1 == DrainReqs(c, t, u, true) && t2 == DrainRpys(c, t1, u, NODE_DOWN)
            && ReqsWithout(t.reqs, t2.reqs, u) && RpysWithout(t.rpys, t2.rpys, u) && t1.rpys == t.rpys
            && Inv(c, t1, {}) && Inv(c, t2, {}) && t1.reg == t.reg && t2.reg == t.reg && t.log <= t1.log <= t2.log
            && RemoveOnly(c, s, u, NODE_DOWN, true) == t2.(reg := RemoveOnly(c, s, u, NODE_DOWN, true).reg)
            && RemoveOnly(c, s, u, NODE_DOWN, true).reg.infos == s.reg.infos
            && RemoveOnly(c, s, u, NODE_DOWN, true).reg.tasks == s.reg.tasks - {from}
  {
    var u := s.reg.tasks[from];
    var g := Unregister(s.reg, u);
    ListedAt(c, s, t, from);
    t1 := DrainReqs(c, t, u, true);
    t2 := DrainRpys(c, t1, u, NODE_DOWN);
    DrainReqsInv(c, t, {}, u, true);
    DrainRpysInv(c, t1, {}, u, NODE_DOWN);
    DrainReqsLog(c, t, u, true);
    DrainRpysLog(c, t1, u, NODE_DOWN);
    assert s.(reg := g) == t.(reg := g);
    DrainReqsUnder(c, t, g, u);
    DrainRpysUnder(c, t1, g, u);
  }

  /** The slots that go in a round, and those that stay. */
  lemma RoundTells(c: Config, s: State, t: State, from: nat, t1: State, t2: State)
    requires Midway(c, s, t, from) && from in s.reg.tasks && Inv(c, t1, {}) && t1.reg == t.reg && t1.rpys == t.rpys
    requires t1 == DrainReqs(c, t, s.reg.tasks[from], true) && t2 == DrainRpys(c, t1, s.reg.tasks[from], NODE_DOWN)
    requires t.log <= t1.log <= t2.log
    ensures forall i {:trigger t.reqs.pool.slots[i]} ::
              i in t.reqs.pool.slots && t.reqs.pool.slots[i].owner == s.reg.tasks[from] ==>
              CancelLeft(c, t, i, t.log, t2.log) && LastLeft(c, t, i, t.log, t2.log)
    ensures forall i {:trigger t.rpys.pool.slots[i]} ::
              i in t.rpys.pool.slots && t.rpys.pool.slots[i].owner == s.reg.tasks[from] ==>
              EndLeft(c, t, i, NODE_DOWN, t.log, t2.log)
  {
    var u := s.reg.tasks[from];
    ListedAt(c, s, t, from);
    forall i | i in t.reqs.pool.slots && t.reqs.pool.slots[i].owner == u
      ensures CancelLeft(c, t, i, t.log, t2.log) && LastLeft(c, t, i, t.log, t2.log)
    {
      DrainReqsTells(c, t, {}, u, true, i);
      DrainSaysLast(c, t, {}, u, i);
      LastInBetween(c, t, i, t.log, t1.log, t2.log);
      LeftInBetween(Sent(CancelHeader(c, t, t.reqs.pool.slots[i], c.reqBank + i)), t.log, t1.log, t2.log);
    }
    forall i | i in t.rpys.pool.slots && t.rpys.pool.slots[i].owner == u
      ensures EndLeft(c, t, i, NODE_DOWN, t.log, t2.log)
    {
      ListedAt(c, s, t, from);
      DrainRpysTells(c, t1, {}, u, NODE_DOWN, i);
      EndLeftInBetween(c, t1, i, NODE_DOWN, t.log, t1.log, t2.log);
      SameEndSlot(c, t, t1, i, NODE_DOWN, t.log, t2.log);
    }
  }

  /** After the round, the loop is midway one position on. */
  lemma RoundMoves(c: Config, s: State, t: State, from: nat, s1: State, t1: State)
    requires Midway(c, s, t, from) && from in s.reg.tasks && Inv(c, t1, {}) && t1.reg == t.reg
    requires ReqsWithout(t.reqs, t1.reqs, s.reg.tasks[from]) && RpysWithout(t.rpys, t1.rpys, s.reg.tasks[from])
    requires s1 == t1.(reg := s1.reg) && s1.reg.infos == s.reg.infos && s1.reg.tasks == s.reg.tasks - {from}
    ensures Midway(c, s1, t1, from + 1)
  {
    assert s.reg.tasks[from] == t.reg.tasks[from];
    forall i | i in t1.reqs.pool.slots ensures InfoOf(t1.reg, t1.reqs.pool.slots[i].owner).id >= from + 1 {
      ReqOwner(c, t, i);
      assert t1.reqs.pool.slots[i] == t.reqs.pool.slots[i];
    }
    forall i | i in t1.rpys.pool.slots ensures InfoOf(t1.reg, t1.rpys.pool.slots[i].owner).id >= from + 1 {
      RpyOwner(c, t, i);
      assert t1.rpys.pool.slots[i] == t.rpys.pool.slots[i];
    }
  }

  lemma NobodyHere(c: Config, s: State, t: State, from: nat)
    requires Midway(c, s, t, from) && from !in s.reg.tasks
    ensures Midway(c, s, t, from + 1)
  {
    forall i | i in t.reqs.pool.slots ensures InfoOf(t.reg, t.reqs.pool.slots[i].owner).id >= from + 1 {
      ReqOwner(c, t, i);
    }
    forall i | i in t.rpys.pool.slots ensures InfoOf(t.reg, t.rpys.pool.slots[i].owner).id >= from + 1 {
      RpyOwner(c, t, i);
    }
  }

  lemma NobodyLeft(c: Config, s: State, t: State, from: nat)
    requires Midway(c, s, t, from) && from >= c.maxTasks
    ensures s.reqs.pool.slots == map[] && s.rpys.pool.slots == map[]
  {
    forall i | i in t.reqs.pool.slots ensures false {
      ReqOwner(c, t, i);
      TableEnd(c, t, InfoOf(t.reg, t.reqs.pool.slots[i].owner).id);
    }
    forall i | i in t.rpys.pool.slots ensures false {
      RpyOwner(c, t, i);
      TableEnd(c, t, InfoOf(t.reg, t.rpys.pool.slots[i].owner).id);
    }
  }

  /** What the rest of the loop says is said of the slots that a round left. */
  lemma GoodbyesAdd(c: Config, t: State, t1: State, u: nat, l: seq<Event>)
    requires ReqsWithout(t.reqs, t1.reqs, u) && RpysWithout(t.rpys, t1.rpys, u) && t1.reg == t.reg
    requires t.log <= t1.log && SaysGoodbye(c, t1, l)
    requires forall i {:trigger t.reqs.pool.slots[i]} ::
               i in t.reqs.pool.slots && t.reqs.pool.slots[i].owner == u ==>
               CancelLeft(c, t, i, t.log, t1.log) && LastLeft(c, t, i, t.log, t1.log)
    requires forall i {:trigger t.rpys.pool.slots[i]} ::
               i in t.rpys.pool.slots && t.rpys.pool.slots[i].owner == u ==> EndLeft(c, t, i, NODE_DOWN, t.log, t1.log)
    ensures SaysGoodbye(c, t, l)
  {
    forall i {:trigger t.reqs.pool.slots[i]} | i in t.reqs.pool.slots
      ensures CancelLeft(c, t, i, t.log, l) && LastLeft(c, t, i, t.log, l)
    {
      if i in t1.reqs.pool.slots {
        assert t1.reqs.pool.slots[i] == t.reqs.pool.slots[i];
        SameLast(c, t, t1, i, t1.log, l);
      }
      LastInBetween(c, t, i, t.log, t1.log, l);
      LeftInBetween(Sent(CancelHeader(c, t, t.reqs.pool.slots[i], c.reqBank + i)), t.log, t1.log, l);
    }
    forall i {:trigger t.rpys.pool.slots[i]} | i in t.rpys.pool.slots ensures EndLeft(c, t, i, NODE_DOWN, t.log, l) {
      if i in t1.rpys.pool.slots {
        assert t1.rpys.pool.slots[i] == t.rpys.pool.slots[i];
        SameEndSlot(c, t, t1, i, NODE_DOWN, t1.log, l);
      }
      EndLeftInBetween(c, t, i, NODE_DOWN, t.log, t1.log, l);
    }
  }

  lemma {:induction false} LoopTells(c: Config, s: State, t: State, from: nat)
    requires Midway(c, s, t, from)
    ensures var s' := RemoveAll(c, s, from);
            SaysGoodbye(c, t, s'.log) && s'.reqs.pool.slots == map[] && s'.rpys.pool.slots == map[]
    decreases c.maxTasks - from
  {
    if from >= c.maxTasks {
      NobodyLeft(c, s, t, from);
    } else if from !in s.reg.tasks {
      NobodyHere(c, s, t, from);
      LoopTells(c, s, t, from + 1);
    } else {
      var t1, t2 := Round(c, s, t, from);
      var s1 := RemoveOnly(c, s, s.reg.tasks[from], NODE_DOWN, true);
      RoundTells(c, s, t, from, t1, t2);
      RoundMoves(c, s, t, from, s1, t2);
      LoopTells(c, s1, t2, from + 1);
      GoodbyesAdd(c, t, t2, s.reg.tasks[from], RemoveAll(c, s1, from + 1).log);
    }
  }

  /** removeAllTasks: each client with an open request is handed ACNET_DISCONNECTED and the node it asked is
      sent a CANCEL, whoever waits for a reply gets ACNET_NODE_DOWN (unless it asked a multicast node for
      several), and no slot stays in use. */
  lemma ShutdownTells(c: Config, s: State)
    requires Inv(c, s, {})
    ensures var s' := RemoveAll(c, s, 0);
            SaysGoodbye(c, s, s'.log) && s'.reqs.pool.slots == map[] && s'.rpys.pool.slots == map[]
  {
    LoopTells(c, s, s, 0);
  }
}
