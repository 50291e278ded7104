/** What removing tasks comes to: by pid, of the dead, and of all (taskpool.cpp). */
module Removal {
  import opened Sequences
  import opened Acnet
  import opened Daemon
  import opened Invariant
  import opened Registers
  import opened History
  import opened Preservation

  /** Whoever owns a request in use is registered. */
  lemma ReqOwner(c: Config, s: State, i: nat)
    requires Inv(c, s, {}) && i in s.reqs.pool.slots
    ensures Registered(s.reg, s.reqs.pool.slots[i].owner)
  {
    ReqPart(c, s, {});
    RegPart(c, s, {});
    Facets(c, s, {});
    var u := s.reqs.pool.slots[i].owner;
    assert u in s.reg.infos && s.reg.infos[u] == s.reg.infos[u];
    assert c.reqBank + i - c.reqBank == i;
    assert OwnsReq(s.reqs.pool.slots, c.reqBank, u, c.reqBank + i);
    assert c.reqBank + i in IdsOf(s.reqs.ids, u);
    assert forall k :: 0 <= k < |s.reg.removed| ==> s.reg.removed[k] != u;
  }

  lemma RpyOwner(c: Config, s: State, i: nat)
    requires Inv(c, s, {}) && i in s.rpys.pool.slots
    ensures Registered(s.reg, s.rpys.pool.slots[i].owner)
  {
    RpyPart(c, s, {});
    RegPart(c, s, {});
    Facets(c, s, {});
    var u := s.rpys.pool.slots[i].owner;
    assert u in s.reg.infos && s.reg.infos[u] == s.reg.infos[u];
    assert c.rpyBank + i - c.rpyBank == i;
    assert OwnsRpy(s.rpys.pool.slots, c.rpyBank, u, c.rpyBank + i);
    assert c.rpyBank + i in IdsOf(s.rpys.ids, u);
    assert forall k :: 0 <= k < |s.reg.removed| ==> s.reg.removed[k] != u;
  }

  /** From s to s', tasks were removed and nothing else happened: what is left of the slots is
      what belongs to the tasks that are left. */
  ghost predicate Shrinks(s: State, s': State) {
    && s'.reg.infos == s.reg.infos && s'.live == s.live && s'.now == s.now
    && s'.reg.nextObj == s.reg.nextObj && s.reg.removed <= s'.reg.removed
    && (forall id {:trigger id in s'.reg.tasks} {:trigger s'.reg.tasks[id]} :: id in s'.reg.tasks ==>
          id in s.reg.tasks && s'.reg.tasks[id] == s.reg.tasks[id])
    && (forall e :: e in s'.reg.active ==> e in s.reg.active)
    && s'.reqs.born == s.reqs.born && s'.rpys.born == s.rpys.born && s'.reqs.pool.due == s.reqs.pool.due
    && (forall l :: l in s'.rpys.links ==> l in s.rpys.links)
    && (forall i {:trigger i in s'.reqs.pool.slots} :: i in s'.reqs.pool.slots <==>
          i in s.reqs.pool.slots && Registered(s'.reg, s.reqs.pool.slots[i].owner))
    && (forall i {:trigger s'.reqs.pool.slots[i]} :: i in s'.reqs.pool.slots ==>
          s'.reqs.pool.slots[i] == s.reqs.pool.slots[i])
    && (forall i {:trigger i in s'.rpys.pool.slots} :: i in s'.rpys.pool.slots <==>
          i in s.rpys.pool.slots && Registered(s'.reg, s.rpys.pool.slots[i].owner))
    && (forall i {:trigger s'.rpys.pool.slots[i]} :: i in s'.rpys.pool.slots ==>
          s'.rpys.pool.slots[i] == s.rpys.pool.slots[i])
  }

  /** No object comes back: what is registered in g' and existed in g was registered in g, and an
      object that was deleted stays deleted. */
  ghost predicate Ages(g: Registry, g': Registry) {
    && g.nextObj <= g'.nextObj
    && (forall u {:trigger u in g'.infos} :: u in g'.infos && u < g.nextObj ==> u in g.infos)
    && (forall u: nat {:trigger Registered(g', u)} :: Registered(g', u) && u < g.nextObj ==> Registered(g, u))
  }

  lemma ShrinksAges(s: State, s': State)
    requires Shrinks(s, s')
    ensures Ages(s.reg, s'.reg)
  {}

  lemma AgesOn(g0: Registry, g1: Registry, g2: Registry)
    requires Ages(g0, g1) && Ages(g1, g2)
    ensures Ages(g0, g2)
  {}

  lemma ShrinksSelf(c: Config, s: State, s': State)
    requires Inv(c, s, {}) && s' == s.(asked := s'.asked, log := s'.log)
    ensures Shrinks(s, s')
  {
    forall i | i in s.reqs.pool.slots ensures Registered(s.reg, s.reqs.pool.slots[i].owner) { ReqOwner(c, s, i); }
    forall i | i in s.rpys.pool.slots ensures Registered(s.reg, s.rpys.pool.slots[i].owner) { RpyOwner(c, s, i); }
  }

  lemma ShrinksAgain(s0: State, s1: State, s2: State)
    requires Shrinks(s0, s1) && Shrinks(s1, s2)
    ensures Shrinks(s0, s2)
  {}

  lemma StillRegistered(s: State, s': State, u: nat)
    requires Shrinks(s, s') && Registered(s'.reg, u)
    ensures Registered(s.reg, u)
  {}

  lemma UnregisteredReg(c: Config, s: State, u: nat)
    requires Inv(c, s, {}) && Registered(s.reg, u) && u != 0
    ensures Unregister(s.reg, u).infos == s.reg.infos && Unregister(s.reg, u).nextObj == s.reg.nextObj
    ensures Unregister(s.reg, u).tasks == s.reg.tasks - {s.reg.infos[u].id}
    ensures forall e :: e in Unregister(s.reg, u).active ==> e in s.reg.active
  {
    RegPart(c, s, {});
    Facets(c, s, {});
    UnregisterOk(c, s.reg, u);
    CutMembers(s.reg.active, FindEntry(s.reg, s.reg.infos[u].handle, u, 0).value);
  }

  /** removeOnlyThisTask removes this task only. */
  lemma RemoveOnlyShrinks(c: Config, s: State, u: nat, status: int, last: bool)
    requires Inv(c, s, {}) && Registered(s.reg, u) && u != 0
    ensures var s' := RemoveOnly(c, s, u, status, last);
            Inv(c, s', {}) && Shrinks(s, s')
            && s'.reg.tasks == s.reg.tasks - {s.reg.infos[u].id} && s'.reg.removed == s.reg.removed + [u]
  {
    RemoveOnlyInv(c, s, u, status, last);
    UnregisteredReg(c, s, u);
    var s' := RemoveOnly(c, s, u, status, last);
    GoneShrinks(c, s, s', u);
  }

  lemma GoneShrinks(c: Config, s: State, s': State, u: nat)
    requires Inv(c, s, {}) && Registered(s.reg, u) && Gone(s, s', u)
    requires s'.reg.infos == s.reg.infos && s'.reg.nextObj == s.reg.nextObj
    requires s'.reg.tasks == s.reg.tasks - {s.reg.infos[u].id}
    requires forall e :: e in s'.reg.active ==> e in s.reg.active
    ensures Shrinks(s, s')
  {
    forall i | i in s.reqs.pool.slots
      ensures i in s'.reqs.pool.slots <==> Registered(s'.reg, s.reqs.pool.slots[i].owner)
    {
      ReqOwner(c, s, i);
    }
    forall i | i in s.rpys.pool.slots
      ensures i in s'.rpys.pool.slots <==> Registered(s'.reg, s.rpys.pool.slots[i].owner)
    {
      RpyOwner(c, s, i);
    }
  }

  // ---- All tasks of a process ----

  /** The tasks left are those registered before, except the ones with this pid from a table
      position on. */
  ghost predicate WithoutPid(g: Registry, g': Registry, pid: nat, from: nat) {
    forall id {:trigger id in g'.tasks} :: id in g'.tasks <==>
      id in g.tasks && (id < from || InfoOf(g, g.tasks[id]).pid != pid)
  }

  /** A table position from which the internal task is not removed. */
  lemma NotInternal(c: Config, s: State, pid: nat, id: nat)
    requires Inv(c, s, {}) && pid != c.ownPid && id in s.reg.tasks && InfoOf(s.reg, s.reg.tasks[id]).pid == pid
    ensures Registered(s.reg, s.reg.tasks[id]) && s.reg.tasks[id] != 0 && s.reg.infos[s.reg.tasks[id]].id == id
  {
    RegPart(c, s, {});
  }

  lemma TableEnd(c: Config, s: State, id: nat)
    requires Inv(c, s, {}) && id in s.reg.tasks
    ensures id < c.maxTasks
  {
    RegPart(c, s, {});
    assert s.reg.tasks[id] == s.reg.tasks[id];
  }

  lemma {:induction false} RemovePidInv(c: Config, s: State, pid: nat, from: nat)
    requires Inv(c, s, {}) && pid != c.ownPid
    ensures Inv(c, RemovePid(c, s, pid, from), {}) && Shrinks(s, RemovePid(c, s, pid, from))
    ensures WithoutPid(s.reg, RemovePid(c, s, pid, from).reg, pid, from)
    decreases c.maxTasks - from
  {
    if from >= c.maxTasks {
      PidEnd(c, s, pid, from);
    } else {
      var s1 := PidRound(c, s, pid, from);
      RemovePidInv(c, s1, pid, from + 1);
      ShrinksAgain(s, s1, RemovePid(c, s1, pid, from + 1));
      PidRounds(s, s1, RemovePid(c, s1, pid, from + 1).reg, pid, from);
    }
  }

  lemma PidRounds(s: State, s1: State, g: Registry, pid: nat, from: nat)
    requires Shrinks(s, s1) && WithoutPid(s1.reg, g, pid, from + 1)
    requires s1.reg.tasks == if from in s.reg.tasks && InfoOf(s.reg, s.reg.tasks[from]).pid == pid
                             then s.reg.tasks - {from} else s.reg.tasks
    ensures WithoutPid(s.reg, g, pid, from)
  {}

  lemma PidEnd(c: Config, s: State, pid: nat, from: nat)
    requires Inv(c, s, {}) && from >= c.maxTasks
    ensures Shrinks(s, s) && WithoutPid(s.reg, s.reg, pid, from)
  {
    ShrinksSelf(c, s, s);
    forall id | id in s.reg.tasks ensures id < from { TableEnd(c, s, id); }
  }

  /** One round of the loop over the table. */
  lemma PidRound(c: Config, s: State, pid: nat, from: nat) returns (s1: State)
    requires Inv(c, s, {}) && pid != c.ownPid && from < c.maxTasks
    ensures Inv(c, s1, {}) && Shrinks(s, s1) && RemovePid(c, s, pid, from) == RemovePid(c, s1, pid, from + 1)
    ensures s1.reg.tasks == if from in s.reg.tasks && InfoOf(s.reg, s.reg.tasks[from]).pid == pid
                            then s.reg.tasks - {from} else s.reg.tasks
  {
    s1 := s;
    if from in s.reg.tasks && InfoOf(s.reg, s.reg.tasks[from]).pid == pid {
      NotInternal(c, s, pid, from);
      RemoveOnlyShrinks(c, s, s.reg.tasks[from], DISCONNECTED, false);
      s1 := RemoveOnly(c, s, s.reg.tasks[from], DISCONNECTED, false);
    } else {
      ShrinksSelf(c, s, s);
    }
  }

  /** removeTask removes the task, or exactly the registered tasks of its process if it has one. */
  lemma RemoveTaskInv(c: Config, s: State, u: nat)
    requires Inv(c, s, {}) && u in s.reg.infos && u != 0 && (Registered(s.reg, u) || InfoOf(s.reg, u).pid != 0)
    ensures Inv(c, RemoveTask(c, s, u), {}) && Shrinks(s, RemoveTask(c, s, u))
    ensures var g, pid := RemoveTask(c, s, u).reg, s.reg.infos[u].pid;
            if pid == 0 then g.tasks == s.reg.tasks - {s.reg.infos[u].id} else WithoutPid(s.reg, g, pid, 0)
  {
    var pid := InfoOf(s.reg, u).pid;
    if pid == 0 {
      RemoveOnlyShrinks(c, s, u, DISCONNECTED, false);
    } else {
      PidOfClient(c, s, u);
      RemovePidInv(c, s, pid, 0);
    }
  }

  lemma PidOfClient(c: Config, s: State, u: nat)
    requires Inv(c, s, {}) && u in s.reg.infos && u != 0
    ensures s.reg.infos[u].pid != c.ownPid && External(s.reg, u)
  {
    RegPart(c, s, {});
  }

  /** Afterwards the task itself is not registered, and neither slot pool holds anything of it. */
  lemma RemoveTaskComplete(c: Config, s: State, u: nat)
    requires Inv(c, s, {}) && u in s.reg.infos && u != 0 && (Registered(s.reg, u) || InfoOf(s.reg, u).pid != 0)
    ensures var s' := RemoveTask(c, s, u);
            && !Registered(s'.reg, u)
            && (forall i :: i in s'.reqs.pool.slots ==> s'.reqs.pool.slots[i].owner != u)
            && (forall i :: i in s'.rpys.pool.slots ==> s'.rpys.pool.slots[i].owner != u)
            && (forall k :: 0 <= k < |s'.reg.active| ==> s'.reg.active[k].obj != u)
  {
    RemoveTaskInv(c, s, u);
    var s' := RemoveTask(c, s, u);
    assert !Registered(s'.reg, u);
    forall i | i in s'.reqs.pool.slots ensures s'.reqs.pool.slots[i].owner != u { ReqOwner(c, s', i); }
    forall i | i in s'.rpys.pool.slots ensures s'.rpys.pool.slots[i].owner != u { RpyOwner(c, s', i); }
    forall k | 0 <= k < |s'.reg.active| ensures s'.reg.active[k].obj != u { ListedIsRegistered(c, s', k); }
  }

  lemma ListedIsRegistered(c: Config, s: State, k: nat)
    requires Inv(c, s, {}) && k < |s.reg.active|
    ensures Registered(s.reg, s.reg.active[k].obj)
  {
    RegPart(c, s, {});
    assert EntryOk(c, s.reg, s.reg.active[k]);
  }

  // ---- Dead tasks ----

  lemma DeadIsClient(c: Config, s: State, id: nat)
    requires Inv(c, s, {}) && id in s.reg.tasks && !Alive(c, s, s.reg.tasks[id])
    ensures var u := s.reg.tasks[id]; Registered(s.reg, u) && u != 0
  {
    RegPart(c, s, {});
  }

  lemma {:induction false} RemoveDeadInv(c: Config, s: State, from: nat)
    requires Inv(c, s, {})
    ensures Inv(c, RemoveDead(c, s, from), {}) && Shrinks(s, RemoveDead(c, s, from))
    decreases c.maxTasks - from
  {
    if from >= c.maxTasks {
      ShrinksSelf(c, s, s);
    } else if from !in s.reg.tasks {
      RemoveDeadInv(c, s, from + 1);
    } else {
      var u, s1 := s.reg.tasks[from], Asked(s);
      AskedInv(c, s, {});
      ShrinksSelf(c, s, s1);
      var s2 := if Alive(c, s, u) then s1 else RemoveTask(c, s1, u);
      if !Alive(c, s, u) {
        DeadIsClient(c, s, from);
        RemoveTaskInv(c, s1, u);
        ShrinksAgain(s, s1, s2);
      }
      RemoveDeadInv(c, s2, from + 1);
      ShrinksAgain(s, s2, RemoveDead(c, s2, from + 1));
    }
  }

  /** From s to s', tasks were removed and objects of removed tasks deleted. */
  ghost predicate Prunes(s: State, s': State) {
    && s'.now == s.now && s'.reg.nextObj == s.reg.nextObj && s'.reg.removed == []
    && s'.reg.infos.Keys <= s.reg.infos.Keys
    && (forall u {:trigger s'.reg.infos[u]} :: u in s'.reg.infos ==>
          s'.reg.infos[u] == s.reg.infos[u] && Registered(s.reg, u))
    && (forall e :: e in s'.reg.active ==> e in s.reg.active)
    && s'.reqs.born == s.reqs.born && s'.rpys.born == s.rpys.born
    && (forall i {:trigger s'.reqs.pool.slots[i]} :: i in s'.reqs.pool.slots ==>
          i in s.reqs.pool.slots && s'.reqs.pool.slots[i] == s.reqs.pool.slots[i])
    && (forall i {:trigger s'.rpys.pool.slots[i]} :: i in s'.rpys.pool.slots ==>
          i in s.rpys.pool.slots && s'.rpys.pool.slots[i] == s.rpys.pool.slots[i])
  }

  lemma PurgeAgree(bank: nat, q: ReqSide, removed: seq<nat>)
    requires ReqAgree(bank, q.pool.slots, q.ids) && Quiet(removed, q.ids)
    ensures ReqAgree(bank, q.pool.slots, q.ids - Elements(removed))
  {
    var ids := q.ids - Elements(removed);
    forall i | i in q.pool.slots ensures q.pool.slots[i].owner in ids {
      var u := q.pool.slots[i].owner;
      assert bank + i - bank == i;
      assert OwnsReq(q.pool.slots, bank, u, bank + i);
      assert bank + i in IdsOf(q.ids, u);
    }
  }

  lemma PurgeRpyAgree(bank: nat, p: RpySide, removed: seq<nat>)
    requires RpyAgree(bank, p.pool.slots, p.ids) && Quiet(removed, p.ids)
    ensures RpyAgree(bank, p.pool.slots, p.ids - Elements(removed))
  {
    var ids := p.ids - Elements(removed);
    forall i | i in p.pool.slots ensures p.pool.slots[i].owner in ids {
      var u := p.pool.slots[i].owner;
      assert bank + i - bank == i;
      assert OwnsRpy(p.pool.slots, bank, u, bank + i);
      assert bank + i in IdsOf(p.ids, u);
    }
  }

  /** Deleting the objects of removed tasks leaves no slot and no table entry dangling. */
  lemma PurgeInv(c: Config, s: State)
    requires Inv(c, s, {})
    ensures Inv(c, Purge(s), {})
    ensures forall u :: u in Purge(s).reg.infos <==> Registered(s.reg, u)
  {
    Parts(c, s, {});
    var s' := Purge(s);
    PurgeOk(c, s.reg);
    PurgeAgree(c.reqBank, s.reqs, s.reg.removed);
    PurgeRpyAgree(c.rpyBank, s.rpys, s.reg.removed);
    Quietly(s.log, s.reqs, s.rpys, s'.reqs, s'.rpys);
    forall u ensures u in Purge(s).reg.infos <==> Registered(s.reg, u) { PurgeKeeps(s.reg, u); }
    Whole(c, s', {});
  }

  lemma RemoveInactiveInv(c: Config, s: State)
    requires Inv(c, s, {})
    ensures Inv(c, RemoveInactive(c, s), {}) && Prunes(s, RemoveInactive(c, s))
    ensures Ages(s.reg, RemoveInactive(c, s).reg)
  {
    RemoveDeadInv(c, s, 0);
    var s1 := RemoveDead(c, s, 0);
    PurgeInv(c, s1);
    forall u | u in Purge(s1).reg.infos
      ensures Registered(s.reg, u) && Purge(s1).reg.infos[u] == s.reg.infos[u]
    {
      StillRegistered(s, s1, u);
    }
  }

  // ---- Shutting down ----

  lemma {:induction false} DrainReqsReg(c: Config, s: State, u: nat, last: bool)
    ensures DrainReqs(c, s, u, last).reg == s.reg
    decreases |IdsOf(s.reqs.ids, u)|
  {
    var ids := IdsOf(s.reqs.ids, u);
    if ids != {} {
      var s1 := CancelReqId(c, s, Min(ids), true, last);
      if |IdsOf(s1.reqs.ids, u)| < |ids| { DrainReqsReg(c, s1, u, last); }
    }
  }

  lemma {:induction false} DrainRpysReg(c: Config, s: State, u: nat, status: int)
    ensures DrainRpys(c, s, u, status).reg == s.reg
    decreases |IdsOf(s.rpys.ids, u)|
  {
    var ids := IdsOf(s.rpys.ids, u);
    if ids != {} {
      var s1 := EndRpyId(c, s, Min(ids), status);
      if |IdsOf(s1.rpys.ids, u)| < |ids| { DrainRpysReg(c, s1, u, status); }
    }
  }

  /** No task goes by the second name of the internal task, under which that is listed. */
  ghost predicate AliasAlone(c: Config, g: Registry) {
    && Entry(c.acnaux, 0) in g.active
    && (forall id {:trigger g.tasks[id]} :: id in g.tasks ==>
          InfoOf(g, g.tasks[id]).id == id && InfoOf(g, g.tasks[id]).handle != c.acnaux)
  }

  lemma RemoveOnlyReg(c: Config, s: State, id: nat, status: int, last: bool)
    requires AliasAlone(c, s.reg) && id in s.reg.tasks
    ensures var g := RemoveOnly(c, s, s.reg.tasks[id], status, last).reg;
            AliasAlone(c, g) && g.tasks == s.reg.tasks - {id}
  {
    var u := s.reg.tasks[id];
    var g := Unregister(s.reg, u);
    var s1 := s.(reg := g);
    DrainReqsReg(c, s1, u, last);
    DrainRpysReg(c, DrainReqs(c, s1, u, last), u, status);
    var r := FindEntry(s.reg, InfoOf(s.reg, u).handle, u, 0);
    if r.Some? {
      FindEntryFirst(s.reg, InfoOf(s.reg, u).handle, u, 0);
      CutKeeps(s.reg.active, r.value, Entry(c.acnaux, 0));
    }
  }

  lemma {:induction false} RemoveAllReg(c: Config, s: State, from: nat)
    requires AliasAlone(c, s.reg)
    ensures AliasAlone(c, RemoveAll(c, s, from).reg)
    ensures forall id :: id in RemoveAll(c, s, from).reg.tasks <==> id in s.reg.tasks && !(from <= id < c.maxTasks)
    decreases c.maxTasks - from
  {
    if from < c.maxTasks {
      if from in s.reg.tasks {
        RemoveOnlyReg(c, s, from, NODE_DOWN, true);
        RemoveAllReg(c, RemoveOnly(c, s, s.reg.tasks[from], NODE_DOWN, true), from + 1);
      } else {
        RemoveAllReg(c, s, from + 1);
      }
    }
  }

  lemma NoOneIsAcnaux(c: Config, s: State)
    requires Inv(c, s, {}) && c.acnaux !in c.mcastHandles
    ensures AliasAlone(c, s.reg)
  {
    RegPart(c, s, {});
    var g := s.reg;
    var k :| 0 <= k < |g.active| && g.active[k] == Entry(c.acnaux, 0);
    forall id | id in g.tasks ensures InfoOf(g, g.tasks[id]).id == id && InfoOf(g, g.tasks[id]).handle != c.acnaux {
      OtherThanAlias(c, g, k, id);
    }
  }

  lemma OtherThanAlias(c: Config, g: Registry, k: nat, id: nat)
    requires TableOk(c, g) && ActiveOk(c, g) && HandlesOk(c, g) && InternalOk(c, g) && Sound(c)
    requires c.acnaux !in c.mcastHandles && id in g.tasks && k < |g.active| && g.active[k] == Entry(c.acnaux, 0)
    ensures InfoOf(g, g.tasks[id]).id == id && InfoOf(g, g.tasks[id]).handle != c.acnaux
  {
    var u := g.tasks[id];
    var j :| 0 <= j < |g.active| && g.active[j] == Entry(InfoOf(g, u).handle, u);
    assert j == k || g.active[j].handle != g.active[k].handle;
  }

  /** After removeAllTasks no task is registered, but `active` still lists the removed internal task
      as ACNAUX: removeOnlyThisTask erases one entry only. */
  lemma RemoveAllLeavesAlias(c: Config, s: State)
    requires Inv(c, s, {}) && c.acnaux !in c.mcastHandles
    ensures RemoveAll(c, s, 0).reg.tasks == map[] && Entry(c.acnaux, 0) in RemoveAll(c, s, 0).reg.active
  {
    NoOneIsAcnaux(c, s);
    RemoveAllReg(c, s, 0);
    forall id | id in s.reg.tasks ensures id < c.maxTasks { TableEnd(c, s, id); }
  }
}
