/** What holds in every state a daemon can reach, and over whole runs. */
module Guarantees {
  import opened Sequences
  import opened SlotPools
  import opened Timers
  import opened Acnet
  import opened Daemon
  import opened Invariant
  import opened Registers
  import opened History
  import opened Preservation
  import opened Removal
  import opened Steps

  ghost predicate Reachable(c: Config, s: State) {
    exists now, es :: s == Run(c, Initial(c, now), es)
  }

  lemma ReachableInv(c: Config, s: State)
    requires Sound(c) && Reachable(c, s)
    ensures Inv(c, s, {})
  {
    var now, es :| s == Run(c, Initial(c, now), es);
    RunInv(c, now, es);
  }

  lemma ReachableStep(c: Config, s: State, e: Input)
    requires Reachable(c, s)
    ensures Reachable(c, Step(c, s, e))
  {
    var now, es :| s == Run(c, Initial(c, now), es);
    assert (es + [e])[..|es|] == es;
    assert Step(c, s, e) == Run(c, Initial(c, now), es + [e]);
  }

  // ---- Slots, timers and tasks agree ----

  /** A registered task's ids are exactly those of the slots in use that are its own. */
  lemma TasksKnowTheirSlots(c: Config, s: State, u: nat, id: nat)
    requires Sound(c) && Reachable(c, s) && Registered(s.reg, u)
    ensures id in IdsOf(s.reqs.ids, u) <==>
              exists i :: i in s.reqs.pool.slots && s.reqs.pool.slots[i].owner == u && id == c.reqBank + i
    ensures id in IdsOf(s.rpys.ids, u) <==>
              exists i :: i in s.rpys.pool.slots && s.rpys.pool.slots[i].owner == u && id == c.rpyBank + i
  {
    ReachableInv(c, s);
    IdsKnown(c, s, u, id);
    ReqIdOf(s.reqs.pool.slots, c.reqBank, u, id);
    RpyIdOf(s.rpys.pool.slots, c.rpyBank, u, id);
  }

  lemma IdsKnown(c: Config, s: State, u: nat, id: nat)
    requires Inv(c, s, {}) && Registered(s.reg, u)
    ensures id in IdsOf(s.reqs.ids, u) <==> OwnsReq(s.reqs.pool.slots, c.reqBank, u, id)
    ensures id in IdsOf(s.rpys.ids, u) <==> OwnsRpy(s.rpys.pool.slots, c.rpyBank, u, id)
  {
    ReqPart(c, s, {});
    RpyPart(c, s, {});
    RegPart(c, s, {});
    assert id in s.reqs.ids[u] <==> OwnsReq(s.reqs.pool.slots, c.reqBank, u, id);
    assert id in s.rpys.ids[u] <==> OwnsRpy(s.rpys.pool.slots, c.rpyBank, u, id);
  }

  lemma ReqIdOf(slots: map<nat, Req>, bank: nat, u: nat, id: nat)
    ensures OwnsReq(slots, bank, u, id) <==> exists i :: i in slots && slots[i].owner == u && id == bank + i
  {
    if OwnsReq(slots, bank, u, id) { assert id == bank + (id - bank); }
  }

  lemma RpyIdOf(slots: map<nat, Rpy>, bank: nat, u: nat, id: nat)
    ensures OwnsRpy(slots, bank, u, id) <==> exists i :: i in slots && slots[i].owner == u && id == bank + i
  {
    if OwnsRpy(slots, bank, u, id) { assert id == bank + (id - bank); }
  }

  /** The timer lists hold each request in use, and each unicast reply in use, once, in the order
      in which they are due. */
  lemma TimersHoldTheSlots(c: Config, s: State)
    requires Sound(c) && Reachable(c, s)
    ensures Distinct(s.reqs.pool.order) && Elements(s.reqs.pool.order) == s.reqs.pool.slots.Keys
    ensures Distinct(s.rpys.pool.order) && Elements(s.rpys.pool.order) == Unicast(s.rpys.pool)
    ensures Ascending(s.reqs.pool.order, s.reqs.pool.due) && Ascending(s.rpys.pool.order, s.rpys.pool.due)
  {
    ReachableInv(c, s);
    ReqOrder(c, s);
    RpyOrder(c, s);
  }

  /** Slots in use belong to registered tasks, and are not free. */
  lemma SlotsHaveLiveOwners(c: Config, s: State)
    requires Sound(c) && Reachable(c, s)
    ensures forall i :: i in s.reqs.pool.slots ==>
              Registered(s.reg, s.reqs.pool.slots[i].owner) && i !in s.reqs.pool.free && i < c.size
    ensures forall i :: i in s.rpys.pool.slots ==>
              Registered(s.reg, s.rpys.pool.slots[i].owner) && i !in s.rpys.pool.free && i < c.size
  {
    ReachableInv(c, s);
    forall i | i in s.reqs.pool.slots ensures Registered(s.reg, s.reqs.pool.slots[i].owner) { ReqOwner(c, s, i); }
    forall i | i in s.rpys.pool.slots ensures Registered(s.reg, s.rpys.pool.slots[i].owner) { RpyOwner(c, s, i); }
    ReqPart(c, s, {});
    RpyPart(c, s, {});
    AllInUse(s.reqs.pool, c.size);
    AllInUse(s.rpys.pool, c.size);
  }

  /** The id of the next free slot is new to whatever task will get it, so neither addRequest nor
      addReply ever reports a duplicate. */
  lemma NewIdsAreNew(c: Config, s: State, u: nat)
    requires Sound(c) && Reachable(c, s) && Registered(s.reg, u)
    ensures s.reqs.pool.free != [] ==> c.reqBank + s.reqs.pool.free[0] !in IdsOf(s.reqs.ids, u)
    ensures s.rpys.pool.free != [] ==> c.rpyBank + s.rpys.pool.free[0] !in IdsOf(s.rpys.ids, u)
  {
    SlotsHaveLiveOwners(c, s);
    if s.reqs.pool.free != [] {
      TasksKnowTheirSlots(c, s, u, c.reqBank + s.reqs.pool.free[0]);
      assert s.reqs.pool.free[0] in s.reqs.pool.free;
    }
    if s.rpys.pool.free != [] {
      TasksKnowTheirSlots(c, s, u, c.rpyBank + s.rpys.pool.free[0]);
      assert s.rpys.pool.free[0] in s.rpys.pool.free;
    }
  }

  // ---- Requests over a whole run ----

  /** A one-shot request gets one reply packet at most per allocation of its id, wherever it comes
      from, and when it got it the slot no longer holds the allocation. */
  lemma OneShotGetsOneReply(c: Config, s: State, j: nat)
    requires Sound(c) && Reachable(c, s) && j < |s.log| && s.log[j].Handed? && !s.log[j].mult
    ensures forall k :: 0 <= k < |s.log| && k != j ==> !(s.log[k].Handed? && s.log[k].serial == s.log[j].serial)
    ensures !HoldsReq(s.reqs, s.log[j].serial)
  {
    ReachableInv(c, s);
    Facets(c, s, {});
    forall k | 0 <= k < |s.log| && k != j ensures !(s.log[k].Handed? && s.log[k].serial == s.log[j].serial) {
      if SameAllocation(s.log[j], s.log[k]) {
        if j < k {
          NothingAfterClosing(s.log, j, k);
        } else {
          OneDescription(s.log, k, j);
          NothingAfterClosing(s.log, k, j);
        }
      }
    }
    FitsAt(s.log, s.reqs, s.rpys, j);
  }

  /** For a unicast request for multiple replies, a delivered end of multiple reply is the last
      packet of the allocation, and the slot no longer holds it. */
  lemma EmrIsLast(c: Config, s: State, j: nat)
    requires Sound(c) && Reachable(c, s) && j < |s.log| && s.log[j].Handed?
    requires s.log[j].mult && !s.log[j].mcast && s.log[j].ok && IsEmr(s.log[j].h)
    ensures forall k :: j < k < |s.log| ==> !(s.log[k].Handed? && s.log[k].serial == s.log[j].serial)
    ensures !HoldsReq(s.reqs, s.log[j].serial)
  {
    ReachableInv(c, s);
    Facets(c, s, {});
    forall k | j < k < |s.log| ensures !(s.log[k].Handed? && s.log[k].serial == s.log[j].serial) {
      if SameAllocation(s.log[j], s.log[k]) { NothingAfterClosing(s.log, j, k); }
    }
    FitsAt(s.log, s.reqs, s.rpys, j);
  }

  /** What an open request has been sent so far: nothing if it is one-shot, no delivered end of
      multiple reply if it is unicast. */
  lemma OpenRequestsAreUnanswered(c: Config, s: State, i: nat, k: nat)
    requires Sound(c) && Reachable(c, s) && i in s.reqs.pool.slots && k < |s.log|
    requires s.log[k].Handed? && s.log[k].serial == s.reqs.pool.slots[i].serial
    ensures var r := s.reqs.pool.slots[i];
            Mlt(r.flags) && s.log[k].mult && s.log[k].mcast == r.mcast
            && (!r.mcast && s.log[k].ok ==> !IsEmr(s.log[k].h))
  {
    ReachableInv(c, s);
    Facets(c, s, {});
    ReqPart(c, s, {});
    FitsAt(s.log, s.reqs, s.rpys, k);
    assert s.reqs.pool.slots[i].serial < |s.reqs.born| && s.reqs.born[s.reqs.pool.slots[i].serial] == i;
  }

  /** No reply is sent for an allocation of a reply slot after the one whose header says it is the
      last, and the slot no longer holds the allocation. */
  lemma LastReplyIsLast(c: Config, s: State, j: nat)
    requires Sound(c) && Reachable(c, s) && j < |s.log| && s.log[j].Replied?
    requires !Mlt(s.log[j].h.flags) && s.log[j].h.status != PEND
    ensures forall k :: j < k < |s.log| ==> !(s.log[k].Replied? && s.log[k].serial == s.log[j].serial)
    ensures !HoldsRpy(s.rpys, s.log[j].serial)
  {
    ReachableInv(c, s);
    Facets(c, s, {});
    forall k | j < k < |s.log| ensures !(s.log[k].Replied? && s.log[k].serial == s.log[j].serial) {
      if SameAllocation(s.log[j], s.log[k]) { NothingAfterClosing(s.log, j, k); }
    }
    FitsAt(s.log, s.reqs, s.rpys, j);
  }

  // ---- activeMap ----

  lemma {:induction false} FindLinkFinds(links: seq<Link>, node: nat, reqId: nat)
    ensures var r := FindLink(links, node, reqId);
            if r.Some? then Link(node, reqId, r.value) in links
            else forall l :: l in links ==> l.node != node || l.reqId != reqId
  {
    if links != [] {
      FindLinkFinds(links[1..], node, reqId);
      assert links == [links[0]] + links[1..];
    }
  }

  /** Whatever activeMap finds is in use and has the key. */
  lemma FoundIsInUse(c: Config, s: State, node: nat, reqId: nat, i: nat)
    requires Inv(c, s, {}) && FindLink(s.rpys.links, node, reqId) == Some(i)
    ensures i in s.rpys.pool.slots && s.rpys.pool.slots[i].remNode == node && s.rpys.pool.slots[i].reqId == reqId
  {
    RpyPart(c, s, {});
    FindLinkFinds(s.rpys.links, node, reqId);
    var k :| 0 <= k < |s.rpys.links| && s.rpys.links[k] == Link(node, reqId, i);
  }

  /** The entry found is the first of its key. */
  lemma {:induction false} FindLinkFirst(links: seq<Link>, node: nat, reqId: nat) returns (k: nat)
    requires FindLink(links, node, reqId).Some?
    ensures k < |links| && links[k] == Link(node, reqId, FindLink(links, node, reqId).value)
    ensures forall j {:trigger links[j]} :: 0 <= j < k ==> links[j].node != node || links[j].reqId != reqId
  {
    k := 0;
    if !(links[0].node == node && links[0].reqId == reqId) {
      var n := FindLinkFirst(links[1..], node, reqId);
      k := n + 1;
      forall j | 0 <= j < k ensures links[j].node != node || links[j].reqId != reqId {
        if j > 0 { assert links[j] == links[1..][j - 1]; }
      }
    }
  }

  /** activeMap has the entries of the replies in use that are not hidden, in order. */
  lemma LinksInOrder(c: Config, s: State)
    requires Inv(c, s, {})
    ensures ListedOk(s.rpys.links, s.rpys.pool.slots, s.rpys.ended) && InOrder(s.rpys.links, s.rpys.pool.slots)
  {
    RpyPart(c, s, {});
    FullParts(s.rpys.links, s.rpys.pool.slots, s.rpys.ended, |s.rpys.born|);
  }

  /** Reply i is not hidden, and no older reply with its key is in use and not hidden. */
  ghost predicate FirstOfKey(slots: map<nat, Rpy>, ended: map<Key, nat>, i: nat) {
    && i in slots && !Hidden(slots[i], ended)
    && forall j {:trigger slots[j]} :: SameKey(slots, i, j) && !Hidden(slots[j], ended) ==>
       slots[i].serial <= slots[j].serial
  }

  /** What is found for a key is the oldest reply in use with that key that is not hidden. */
  lemma FoundIsFirst(c: Config, s: State, node: nat, reqId: nat, i: nat)
    requires Inv(c, s, {}) && FindLink(s.rpys.links, node, reqId) == Some(i)
    ensures FirstOfKey(s.rpys.pool.slots, s.rpys.ended, i)
    ensures KeyOf(s.rpys.pool.slots[i]) == (node, reqId)
  {
    LinksInOrder(c, s);
    FoundIsInUse(c, s, node, reqId, i);
    var links, slots := s.rpys.links, s.rpys.pool.slots;
    var k := FindLinkFirst(links, node, reqId);
    assert Linked(links, slots, i);
    forall j: nat | SameKey(slots, i, j) && !Hidden(slots[j], s.rpys.ended) ensures slots[i].serial <= slots[j].serial {
      assert Linked(links, slots, j);
      var m :| 0 <= m < |links| && links[m] == Link(node, reqId, j);
      if k != m { assert links[k].slot == i && links[m].slot == j; }
    }
  }

  /** A reply in use is found by its key exactly if it is the oldest in use with that key that is
      not hidden, that is, whose key no reply was released with since it was allocated. */
  lemma RepliesAreFound(c: Config, s: State, i: nat)
    requires Inv(c, s, {}) && i in s.rpys.pool.slots
    ensures var r := s.rpys.pool.slots[i];
            FindLink(s.rpys.links, r.remNode, r.reqId) == Some(i) <==> FirstOfKey(s.rpys.pool.slots, s.rpys.ended, i)
  {
    LinksInOrder(c, s);
    RpyPart(c, s, {});
    var r, slots := s.rpys.pool.slots[i], s.rpys.pool.slots;
    var found := FindLink(s.rpys.links, r.remNode, r.reqId);
    FindLinkFinds(s.rpys.links, r.remNode, r.reqId);
    if found.Some? {
      var j := found.value;
      FoundIsFirst(c, s, r.remNode, r.reqId, j);
      if FirstOfKey(slots, s.rpys.ended, i) {
        assert SameKey(slots, i, j) && SameKey(slots, j, i);
        assert slots[i].serial == slots[j].serial;
        assert s.rpys.born[slots[i].serial] == i && s.rpys.born[slots[j].serial] == j;
      }
    } else {
      assert !Linked(s.rpys.links, slots, i);
    }
  }

  /** activeMap agrees with the reply pool: what it finds is in use and has the key; and it finds
      exactly the replies in use that are the first of their keys. */
  lemma ActiveMapAgrees(c: Config, s: State)
    requires Sound(c) && Reachable(c, s)
    ensures forall node: nat, reqId: nat, i :: FindLink(s.rpys.links, node, reqId) == Some(i) ==>
              i in s.rpys.pool.slots && KeyOf(s.rpys.pool.slots[i]) == (node, reqId)
    ensures forall i :: i in s.rpys.pool.slots ==>
              (FindLink(s.rpys.links, s.rpys.pool.slots[i].remNode, s.rpys.pool.slots[i].reqId) == Some(i)
               <==> FirstOfKey(s.rpys.pool.slots, s.rpys.ended, i))
  {
    ReachableInv(c, s);
    forall node: nat, reqId: nat, i | FindLink(s.rpys.links, node, reqId) == Some(i)
      ensures i in s.rpys.pool.slots && KeyOf(s.rpys.pool.slots[i]) == (node, reqId)
    {
      FoundIsFirst(c, s, node, reqId, i);
    }
    forall i | i in s.rpys.pool.slots
      ensures FindLink(s.rpys.links, s.rpys.pool.slots[i].remNode, s.rpys.pool.slots[i].reqId) == Some(i)
              <==> FirstOfKey(s.rpys.pool.slots, s.rpys.ended, i)
    {
      RepliesAreFound(c, s, i);
    }
  }

  /** Ending one reply hides another exactly if the other has the same key: release() erases every
      entry of the key. */
  lemma ReleaseHides(c: Config, s: State, i: nat, j: nat)
    requires Inv(c, s, {}) && i in s.rpys.pool.slots && j in s.rpys.pool.slots && j != i
    requires Linked(s.rpys.links, s.rpys.pool.slots, j)
    ensures var p := DropRpy(c, s.rpys, i);
            Linked(p.links, p.pool.slots, j) <==> !SameKey(s.rpys.pool.slots, i, j)
  {
    EraseKeyMembers(s.rpys.links, s.rpys.pool.slots[i].remNode, s.rpys.pool.slots[i].reqId);
  }

  // ---- The registry ----

  /** `active` lists exactly the registered tasks under their handles, and the internal task under
      its second name; none twice. */
  lemma RegistryAgrees(c: Config, s: State)
    requires Sound(c) && Reachable(c, s)
    ensures forall e :: e in s.reg.active <==>
              (Registered(s.reg, e.obj) && e.handle == s.reg.infos[e.obj].handle) || e == Entry(c.acnaux, 0)
    ensures Distinct(s.reg.active)
    ensures forall id :: id in s.reg.tasks ==>
              id < c.maxTasks && Registered(s.reg, s.reg.tasks[id]) && s.reg.infos[s.reg.tasks[id]].id == id
  {
    ReachableInv(c, s);
    RegPart(c, s, {});
    forall e ensures e in s.reg.active <==>
      (Registered(s.reg, e.obj) && e.handle == s.reg.infos[e.obj].handle) || e == Entry(c.acnaux, 0)
    {
      if e in s.reg.active {
        var k :| 0 <= k < |s.reg.active| && s.reg.active[k] == e;
        assert EntryOk(c, s.reg, s.reg.active[k]);
      }
      if Registered(s.reg, e.obj) { assert s.reg.tasks[s.reg.infos[e.obj].id] == e.obj; }
    }
    forall j, k | 0 <= j < k < |s.reg.active| ensures s.reg.active[j] != s.reg.active[k] {
      EqualsSelf(s.reg, s.reg.active[j].obj);
      assert s.reg.active[j].handle != s.reg.active[k].handle || s.reg.active[j].obj != s.reg.active[k].obj;
    }
  }

  /** A handle that is no multicast handle has one task; a handle and a command port name one client. */
  lemma NamesIdentify(c: Config, s: State, u: nat, v: nat)
    requires Sound(c) && Reachable(c, s) && Registered(s.reg, u) && Registered(s.reg, v) && u != v
    requires s.reg.infos[u].handle == s.reg.infos[v].handle
    ensures s.reg.infos[u].handle in c.mcastHandles
    ensures External(s.reg, u) && External(s.reg, v) ==> s.reg.infos[u].cmdPort != s.reg.infos[v].cmdPort
  {
    ReachableInv(c, s);
    var j := RenameFindsIn(c, s, u);
    var k := RenameFindsIn(c, s, v);
    assert HandlesOk(c, s.reg) by { RegPart(c, s, {}); }
    EqualsSymmetric(s.reg, u, v);
    EntriesDiffer(c, s.reg, j, k);
  }

  lemma EntriesDiffer(c: Config, g: Registry, j: nat, k: nat)
    requires HandlesOk(c, g) && j < |g.active| && k < |g.active| && j != k && g.active[j].handle == g.active[k].handle
    ensures g.active[j].handle in c.mcastHandles
    ensures !Equals(g, g.active[j].obj, g.active[k].obj) || !Equals(g, g.active[k].obj, g.active[j].obj)
  {
    if j < k { assert !Equals(g, g.active[j].obj, g.active[k].obj); }
    else { assert !Equals(g, g.active[k].obj, g.active[j].obj); }
  }

  lemma RenameFindsIn(c: Config, s: State, u: nat) returns (k: nat)
    requires Inv(c, s, {}) && Registered(s.reg, u)
    ensures k < |s.reg.active| && s.reg.active[k] == Entry(s.reg.infos[u].handle, u)
  {
    RegPart(c, s, {});
    k := FindsItself(c, s.reg, u);
  }

  /** Removing a task finds its own entry of `active`: the search never runs off the end. */
  lemma RemovalFindsTheTask(c: Config, s: State, u: nat)
    requires Sound(c) && Reachable(c, s) && Registered(s.reg, u)
    ensures var r := FindEntry(s.reg, s.reg.infos[u].handle, u, 0);
            r.Some? && s.reg.active[r.value] == Entry(s.reg.infos[u].handle, u)
  {
    ReachableInv(c, s);
    RegPart(c, s, {});
    var k := FindsItself(c, s.reg, u);
  }

  // ---- Tasks come and go once ----

  lemma {:induction false} RunAges(c: Config, s: State, es: seq<Input>)
    requires Inv(c, s, {})
    ensures Inv(c, Run(c, s, es), {}) && Ages(s.reg, Run(c, s, es).reg)
    decreases |es|
  {
    if es != [] {
      var s1 := Run(c, s, es[..|es| - 1]);
      RunAges(c, s, es[..|es| - 1]);
      StepInv(c, s1, es[|es| - 1]);
      AgesOn(s.reg, s1.reg, Run(c, s, es).reg);
    }
  }

  /** A TaskInfo object is registered or waits to be deleted, not both, and waits once. */
  lemma ObjectsAreInOnePlace(c: Config, s: State, u: nat)
    requires Sound(c) && Reachable(c, s) && u in s.reg.infos
    ensures Registered(s.reg, u) <==> u !in s.reg.removed
    ensures Distinct(s.reg.removed)
    ensures u in s.reg.removed ==> IdsOf(s.reqs.ids, u) == {} && IdsOf(s.rpys.ids, u) == {}
  {
    ReachableInv(c, s);
    RegPart(c, s, {});
    Facets(c, s, {});
    assert s.reg.infos[u] == s.reg.infos[u];
    if u in s.reg.removed {
      var k :| 0 <= k < |s.reg.removed| && s.reg.removed[k] == u;
      assert IdsOf(s.reqs.ids, s.reg.removed[k]) == {} && IdsOf(s.rpys.ids, s.reg.removed[k]) == {};
    }
  }

  /** Whatever happens later, a removed object is not registered again, a deleted one does not
      come back, so none is deleted twice. */
  lemma ObjectsDoNotComeBack(c: Config, s: State, es: seq<Input>, u: nat)
    requires Sound(c) && Reachable(c, s) && u < s.reg.nextObj
    ensures !Registered(s.reg, u) ==> !Registered(Run(c, s, es).reg, u)
    ensures u !in s.reg.infos ==> u !in Run(c, s, es).reg.infos && u !in Run(c, s, es).reg.removed
  {
    ReachableInv(c, s);
    RunAges(c, s, es);
    RegPart(c, Run(c, s, es), {});
    var g := Run(c, s, es).reg;
    assert forall k :: 0 <= k < |g.removed| ==> g.removed[k] in g.infos;
  }
}
