/** The registry of tasks: `tasks_`, `active` and `removed` agree (taskpool.cpp). */
module Registers {
  import opened Sequences
  import opened Daemon

  /** What the configuration must satisfy for the daemon to be set up at all. */
  ghost predicate Sound(c: Config) {
    c.acnet != c.acnaux && c.ownPid > 0 && c.maxTasks >= 256
  }

  /** tasks_[id] holds a task that has this id. */
  ghost predicate TableOk(c: Config, g: Registry) {
    && (forall u {:trigger g.infos[u]} :: u in g.infos ==> u < g.nextObj)
    && (forall id {:trigger g.tasks[id]} :: id in g.tasks ==>
          id < c.maxTasks && g.tasks[id] in g.infos && g.infos[g.tasks[id]].id == id)
  }

  /** An entry of `active` is a registered task with its handle, or the alias of the internal task. */
  ghost predicate EntryOk(c: Config, g: Registry, e: Entry) {
    Registered(g, e.obj) && (e.handle == g.infos[e.obj].handle || (e.obj == 0 && e.handle == c.acnaux))
  }

  ghost predicate ActiveOk(c: Config, g: Registry) {
    && (forall k {:trigger g.active[k]} :: 0 <= k < |g.active| ==> EntryOk(c, g, g.active[k]))
    && (forall id {:trigger g.tasks[id]} :: id in g.tasks ==>
          Entry(InfoOf(g, g.tasks[id]).handle, g.tasks[id]) in g.active)
    && Entry(c.acnaux, 0) in g.active
  }

  /** Tasks share a handle only if it is a multicast handle, and then they are told apart by equals(). */
  ghost predicate HandlesOk(c: Config, g: Registry) {
    forall j, k {:trigger g.active[j], g.active[k]} ::
      0 <= j < k < |g.active| && g.active[j].handle == g.active[k].handle ==>
      g.active[j].handle in c.mcastHandles && !Equals(g, g.active[j].obj, g.active[k].obj)
  }

  /** Every object is registered, or removed but not yet deleted, or (in the middle of a removal)
      in limbo; no object is in two of these places. */
  ghost predicate PlacesOk(g: Registry, limbo: set<nat>) {
    && Distinct(g.removed)
    && (forall k {:trigger g.removed[k]} :: 0 <= k < |g.removed| ==>
          g.removed[k] in g.infos && !Registered(g, g.removed[k]) && g.removed[k] !in limbo)
    && (forall u {:trigger g.infos[u]} :: u in g.infos ==> Registered(g, u) || u in g.removed || u in limbo)
    && (forall u :: u in limbo ==> u in g.infos && !Registered(g, u))
  }

  /** The internal task is object 0; it is registered, and no client has its pid. */
  ghost predicate InternalOk(c: Config, g: Registry) {
    && Registered(g, 0) && g.infos[0].pid == c.ownPid && g.infos[0].handle == c.acnet
    && (forall u {:trigger g.infos[u]} :: u in g.infos ==> (g.infos[u].kind.Internal? <==> u == 0))
    && (forall u {:trigger g.infos[u]} :: u in g.infos && u != 0 ==> g.infos[u].pid != c.ownPid)
  }

  datatype RegFact = InTable | InActive | ByHandle | InPlace | OneInternal

  ghost predicate RegSays(f: RegFact, c: Config, g: Registry, limbo: set<nat>) {
    match f
    case InTable => TableOk(c, g)
    case InActive => ActiveOk(c, g)
    case ByHandle => HandlesOk(c, g)
    case InPlace => PlacesOk(g, limbo)
    case OneInternal => InternalOk(c, g)
  }

  ghost predicate RegOk(c: Config, g: Registry, limbo: set<nat>) {
    forall f: RegFact {:trigger RegSays(f, c, g, limbo)} :: RegSays(f, c, g, limbo)
  }

  lemma RegParts(c: Config, g: Registry, limbo: set<nat>)
    requires RegOk(c, g, limbo)
    ensures TableOk(c, g) && ActiveOk(c, g) && HandlesOk(c, g) && PlacesOk(g, limbo) && InternalOk(c, g)
  {
    assert RegSays(InTable, c, g, limbo) && RegSays(InActive, c, g, limbo) && RegSays(ByHandle, c, g, limbo);
    assert RegSays(InPlace, c, g, limbo) && RegSays(OneInternal, c, g, limbo);
  }

  lemma RegWhole(c: Config, g: Registry, limbo: set<nat>)
    requires TableOk(c, g) && ActiveOk(c, g) && HandlesOk(c, g) && PlacesOk(g, limbo) && InternalOk(c, g)
    ensures RegOk(c, g, limbo)
  {}

  /** What FindEntry finds is the first match. */
  lemma {:induction false} FindEntryFirst(g: Registry, handle: nat, u: nat, from: nat)
    ensures var r := FindEntry(g, handle, u, from);
            && (r.Some? ==> g.active[r.value].handle == handle && Equals(g, g.active[r.value].obj, u))
            && (forall k {:trigger g.active[k]} :: from <= k < (if r.Some? then r.value else |g.active|) ==>
                  !(g.active[k].handle == handle && Equals(g, g.active[k].obj, u)))
    decreases |g.active| - from
  {
    if from < |g.active| && !(g.active[from].handle == handle && Equals(g, g.active[from].obj, u)) {
      FindEntryFirst(g, handle, u, from + 1);
    }
  }

  lemma EqualsSelf(g: Registry, u: nat)
    ensures Equals(g, u, u)
  {}

  /** The search by equals() in removeOnlyThisTask and rename hits the task itself. */
  lemma FindsItself(c: Config, g: Registry, u: nat) returns (k: nat)
    requires ActiveOk(c, g) && HandlesOk(c, g) && Registered(g, u)
    ensures FindEntry(g, g.infos[u].handle, u, 0) == Some(k)
    ensures k < |g.active| && g.active[k] == Entry(g.infos[u].handle, u)
  {
    var handle := g.infos[u].handle;
    FindEntryFirst(g, handle, u, 0);
    EqualsSelf(g, u);
    assert g.tasks[g.infos[u].id] == u;
    var k0 :| 0 <= k0 < |g.active| && g.active[k0] == Entry(handle, u);
    k := FindEntry(g, handle, u, 0).value;
    assert k == k0 || g.active[k].handle == g.active[k0].handle;
  }

  /** With one task less registered, the others are as before. */
  lemma RegisteredWithout(g: Registry, u: nat, v: nat)
    requires Registered(g, u) && v in g.infos
    ensures Registered(g.(tasks := g.tasks - {g.infos[u].id}), v) <==> Registered(g, v) && v != u
  {}

  /** A task other than the internal one has one entry only. */
  lemma SoleEntry(c: Config, g: Registry, u: nat, k: nat, j: nat)
    requires ActiveOk(c, g) && HandlesOk(c, g) && Registered(g, u) && u != 0
    requires k < |g.active| && g.active[k] == Entry(g.infos[u].handle, u) && j < |g.active| && j != k
    ensures g.active[j].obj != u
  {
    EqualsSelf(g, u);
    assert EntryOk(c, g, g.active[j]);
  }

  lemma UnregisterEntry(c: Config, g: Registry, u: nat, k: nat, g': Registry, j: nat)
    requires ActiveOk(c, g) && HandlesOk(c, g) && Registered(g, u) && u != 0
    requires k < |g.active| && g.active[k] == Entry(g.infos[u].handle, u)
    requires g' == g.(tasks := g.tasks - {g.infos[u].id}, active := Cut(g.active, k)) && j < |g'.active|
    ensures EntryOk(c, g', g'.active[j])
  {
    var j' := if j < k then j else j + 1;
    assert g'.active[j] == g.active[j'];
    assert EntryOk(c, g, g.active[j']);
    SoleEntry(c, g, u, k, j');
    RegisteredWithout(g, u, g.active[j'].obj);
  }

  lemma UnregisterActive(c: Config, g: Registry, u: nat, k: nat, g': Registry)
    requires TableOk(c, g) && ActiveOk(c, g) && HandlesOk(c, g) && Registered(g, u) && u != 0
    requires k < |g.active| && g.active[k] == Entry(g.infos[u].handle, u)
    requires g' == g.(tasks := g.tasks - {g.infos[u].id}, active := Cut(g.active, k))
    ensures ActiveOk(c, g')
  {
    CutKeeps(g.active, k, Entry(c.acnaux, 0));
    forall j | 0 <= j < |g'.active| ensures EntryOk(c, g', g'.active[j]) { UnregisterEntry(c, g, u, k, g', j); }
    forall id | id in g'.tasks ensures Entry(InfoOf(g', g'.tasks[id]).handle, g'.tasks[id]) in g'.active {
      var v := g.tasks[id];
      CutKeeps(g.active, k, Entry(InfoOf(g, v).handle, v));
    }
  }

  lemma UnregisterHandles(c: Config, g: Registry, k: nat, g': Registry)
    requires HandlesOk(c, g) && k < |g.active| && g'.infos == g.infos && g'.active == Cut(g.active, k)
    ensures HandlesOk(c, g')
  {
    forall i, j | 0 <= i < j < |g'.active| && g'.active[i].handle == g'.active[j].handle
      ensures g'.active[i].handle in c.mcastHandles && !Equals(g', g'.active[i].obj, g'.active[j].obj)
    {
      var i', j' := if i < k then i else i + 1, if j < k then j else j + 1;
      assert g'.active[i] == g.active[i'] && g'.active[j] == g.active[j'];
    }
  }

  lemma UnregisterPlaces(g: Registry, u: nat, g': Registry)
    requires PlacesOk(g, {}) && Registered(g, u)
    requires g'.infos == g.infos && g'.removed == g.removed && g'.tasks == g.tasks - {g.infos[u].id}
    ensures PlacesOk(g', {u})
  {
    forall v | v in g.infos ensures Registered(g', v) <==> Registered(g, v) && v != u {}
  }

  /** removeOnlyThisTask takes the task out of `tasks_` and `active`, and never aborts. */
  lemma UnregisterOk(c: Config, g: Registry, u: nat)
    requires RegOk(c, g, {}) && Registered(g, u) && u != 0
    ensures RegOk(c, Unregister(g, u), {u})
    ensures Unregister(g, u).infos == g.infos && Unregister(g, u).removed == g.removed
    ensures Unregister(g, u).tasks == g.tasks - {g.infos[u].id}
    ensures FindEntry(g, g.infos[u].handle, u, 0).Some?
  {
    RegParts(c, g, {});
    var k := FindsItself(c, g, u);
    var g' := Unregister(g, u);
    UnregisterActive(c, g, u, k, g');
    UnregisterHandles(c, g, k, g');
    UnregisterPlaces(g, u, g');
    UnregisterTable(c, g, u, g');
    RegWhole(c, g', {u});
  }

  lemma UnregisterTable(c: Config, g: Registry, u: nat, g': Registry)
    requires TableOk(c, g) && InternalOk(c, g) && Registered(g, u) && u != 0
    requires g'.infos == g.infos && g'.nextObj == g.nextObj && g'.tasks == g.tasks - {g.infos[u].id}
    ensures TableOk(c, g') && InternalOk(c, g')
  {
    RegisteredWithout(g, u, 0);
  }

  /** The task ends up in `removed`. */
  lemma RetireOk(c: Config, g: Registry, u: nat)
    requires RegOk(c, g, {u})
    ensures RegOk(c, g.(removed := g.removed + [u]), {})
  {
    var g' := g.(removed := g.removed + [u]);
    RegParts(c, g, {u});
    assert u in g.infos && !Registered(g, u);
    assert forall k :: 0 <= k < |g.removed| ==> g.removed[k] != u;
    assert g'.active == g.active;
    RegWhole(c, g', {});
  }

  // ---- New tasks ----

  lemma {:induction false} NextFreeIdOk(tasks: map<nat, nat>, from: nat, max: nat)
    ensures var r := NextFreeId(tasks, from, max);
            if r.Some? then from <= r.value < max && r.value !in tasks && forall i :: from <= i < r.value ==> i in tasks
            else forall i :: from <= i < max ==> i in tasks
    decreases max - from
  {
    if from < max && from in tasks {
      NextFreeIdOk(tasks, from + 1, max);
    }
  }

  /** No client is found exactly when no external task has this handle and command port. */
  lemma {:induction false} FindClientOk(g: Registry, handle: nat, cmdPort: nat, from: nat)
    ensures var r := FindClient(g, handle, cmdPort, from);
            if r.Some? then
              Entry(handle, r.value) in g.active && External(g, r.value) && InfoOf(g, r.value).cmdPort == cmdPort
            else forall k {:trigger g.active[k]} :: from <= k < |g.active| && g.active[k].handle == handle
                   ==> !(External(g, g.active[k].obj) && InfoOf(g, g.active[k].obj).cmdPort == cmdPort)
    decreases |g.active| - from
  {
    if from < |g.active| {
      FindClientOk(g, handle, cmdPort, from + 1);
      assert g.active[from] in g.active;
    }
  }

  lemma {:induction false} TasksOfMembers(active: seq<Entry>, handle: nat)
    ensures forall u :: u in TasksOf(active, handle) <==> Entry(handle, u) in active
  {
    if active != [] {
      TasksOfMembers(active[1..], handle);
      assert active == [active[0]] + active[1..];
    }
  }

  /** A task may be entered under a handle that is free, or that is a multicast handle and has no
      other task with this command port. */
  ghost predicate MayEnter(c: Config, g: Registry, i: Info) {
    && i.id < c.maxTasks && i.id !in g.tasks && !i.kind.Internal? && i.pid != c.ownPid
    && (forall k {:trigger g.active[k]} :: 0 <= k < |g.active| && g.active[k].handle == i.handle ==>
          && i.handle in c.mcastHandles
          && !(External(g, g.active[k].obj) && InfoOf(g, g.active[k].obj).cmdPort == i.cmdPort))
  }

  lemma EnlistRegistered(c: Config, g: Registry, i: Info, v: nat)
    requires TableOk(c, g) && i.id !in g.tasks && v in g.infos
    ensures Registered(Enlist(g, i), v) <==> Registered(g, v)
    ensures InfoOf(Enlist(g, i), v) == InfoOf(g, v) && External(Enlist(g, i), v) == External(g, v)
  {
    assert g.infos[v] == g.infos[v];
  }

  lemma EnlistActive(c: Config, g: Registry, i: Info)
    requires TableOk(c, g) && ActiveOk(c, g) && MayEnter(c, g, i)
    ensures ActiveOk(c, Enlist(g, i))
  {
    var g' := Enlist(g, i);
    forall k | 0 <= k < |g'.active| ensures EntryOk(c, g', g'.active[k]) {
      if k < |g.active| {
        assert g'.active[k] == g.active[k] && EntryOk(c, g, g.active[k]);
        EnlistRegistered(c, g, i, g.active[k].obj);
      }
    }
    forall id | id in g'.tasks ensures Entry(InfoOf(g', g'.tasks[id]).handle, g'.tasks[id]) in g'.active {
      if id == i.id {
        assert g'.active[|g.active|] == Entry(i.handle, g.nextObj);
      } else {
        assert g.tasks[id] in g.infos;
        EnlistRegistered(c, g, i, g.tasks[id]);
      }
    }
  }

  lemma EnlistHandles(c: Config, g: Registry, i: Info)
    requires TableOk(c, g) && ActiveOk(c, g) && HandlesOk(c, g) && MayEnter(c, g, i)
    ensures HandlesOk(c, Enlist(g, i))
  {
    var g' := Enlist(g, i);
    forall j, k | 0 <= j < k < |g'.active| && g'.active[j].handle == g'.active[k].handle
      ensures g'.active[j].handle in c.mcastHandles && !Equals(g', g'.active[j].obj, g'.active[k].obj)
    {
      assert g'.active[j] == g.active[j] && EntryOk(c, g, g.active[j]);
      EnlistRegistered(c, g, i, g.active[j].obj);
      if k < |g.active| {
        assert g'.active[k] == g.active[k] && EntryOk(c, g, g.active[k]);
        EnlistRegistered(c, g, i, g.active[k].obj);
      }
    }
  }

  lemma EnlistPlaces(c: Config, g: Registry, i: Info)
    requires TableOk(c, g) && PlacesOk(g, {}) && i.id !in g.tasks
    ensures PlacesOk(Enlist(g, i), {})
  {
    forall v | v in g.infos ensures Registered(Enlist(g, i), v) <==> Registered(g, v) {
      EnlistRegistered(c, g, i, v);
    }
  }

  lemma EnlistOk(c: Config, g: Registry, i: Info)
    requires RegOk(c, g, {}) && MayEnter(c, g, i)
    ensures RegOk(c, Enlist(g, i), {})
  {
    RegParts(c, g, {});
    EnlistActive(c, g, i);
    EnlistHandles(c, g, i);
    EnlistPlaces(c, g, i);
    EnlistTable(c, g, i);
    RegWhole(c, Enlist(g, i), {});
  }

  lemma EnlistTable(c: Config, g: Registry, i: Info)
    requires TableOk(c, g) && InternalOk(c, g) && MayEnter(c, g, i)
    ensures TableOk(c, Enlist(g, i)) && InternalOk(c, Enlist(g, i))
  {
    EnlistRegistered(c, g, i, 0);
    assert Enlist(g, i).infos[0] == g.infos[0];
  }

  // ---- Deleting removed tasks ----

  ghost function Purged(g: Registry): Registry {
    g.(infos := g.infos - Elements(g.removed), removed := [])
  }

  lemma PurgeKeeps(g: Registry, v: nat)
    requires PlacesOk(g, {})
    ensures v in Purged(g).infos <==> v in g.infos && Registered(g, v)
    ensures v in Purged(g).infos ==> Purged(g).infos[v] == g.infos[v]
    ensures Registered(Purged(g), v) <==> Registered(g, v)
  {
    if v in g.infos && !Registered(g, v) {
      assert g.infos[v] == g.infos[v];
      assert v in g.removed;
    }
    assert v in g.removed ==> !Registered(g, v);
  }

  lemma PurgeActive(c: Config, g: Registry)
    requires TableOk(c, g) && ActiveOk(c, g) && PlacesOk(g, {})
    ensures ActiveOk(c, Purged(g))
  {
    var g' := Purged(g);
    forall k | 0 <= k < |g'.active| ensures EntryOk(c, g', g'.active[k]) {
      assert EntryOk(c, g, g.active[k]);
      PurgeKeeps(g, g.active[k].obj);
    }
    forall id | id in g'.tasks ensures Entry(InfoOf(g', g'.tasks[id]).handle, g'.tasks[id]) in g'.active {
      assert g.tasks[id] in g.infos;
      PurgeKeeps(g, g.tasks[id]);
    }
  }

  lemma PurgeHandles(c: Config, g: Registry)
    requires ActiveOk(c, g) && HandlesOk(c, g) && PlacesOk(g, {})
    ensures HandlesOk(c, Purged(g))
  {
    var g' := Purged(g);
    forall j, k | 0 <= j < k < |g'.active| && g'.active[j].handle == g'.active[k].handle
      ensures g'.active[j].handle in c.mcastHandles && !Equals(g', g'.active[j].obj, g'.active[k].obj)
    {
      assert EntryOk(c, g, g.active[j]) && EntryOk(c, g, g.active[k]);
      PurgeKeeps(g, g.active[j].obj);
      PurgeKeeps(g, g.active[k].obj);
    }
  }

  /** Deleting the removed objects leaves no dangling entry: all that is listed is still there. */
  lemma PurgeOk(c: Config, g: Registry)
    requires RegOk(c, g, {})
    ensures RegOk(c, Purged(g), {})
  {
    RegParts(c, g, {});
    PurgeActive(c, g);
    PurgeHandles(c, g);
    PurgeKeeps(g, 0);
    forall v | v in Purged(g).infos
      ensures v in g.infos && Registered(Purged(g), v) && Purged(g).infos[v] == g.infos[v]
    {
      PurgeKeeps(g, v);
    }
    forall id | id in g.tasks
      ensures g.tasks[id] in Purged(g).infos && Purged(g).infos[g.tasks[id]].id == id
    {
      PurgeKeeps(g, g.tasks[id]);
    }
    RegWhole(c, Purged(g), {});
  }

  // ---- New names ----

  lemma RelistRegistered(g: Registry, u: nat, k: nat, handle: nat, v: nat)
    requires u in g.infos && k < |g.active|
    ensures Registered(Relist(g, u, k, handle), v) <==> Registered(g, v)
    ensures External(Relist(g, u, k, handle), v) == External(g, v)
    ensures InfoOf(Relist(g, u, k, handle), v).cmdPort == InfoOf(g, v).cmdPort
    ensures v != u ==> InfoOf(Relist(g, u, k, handle), v) == InfoOf(g, v)
  {}

  lemma RelistEntry(c: Config, g: Registry, u: nat, k: nat, handle: nat, j: nat)
    requires ActiveOk(c, g) && HandlesOk(c, g) && Registered(g, u) && u != 0
    requires k < |g.active| && g.active[k] == Entry(g.infos[u].handle, u) && j < |Relist(g, u, k, handle).active|
    ensures EntryOk(c, Relist(g, u, k, handle), Relist(g, u, k, handle).active[j])
  {
    var g' := Relist(g, u, k, handle);
    if j < |g.active| - 1 {
      var j' := if j < k then j else j + 1;
      assert g'.active[j] == g.active[j'] && EntryOk(c, g, g.active[j']);
      SoleEntry(c, g, u, k, j');
      RelistRegistered(g, u, k, handle, g.active[j'].obj);
    } else {
      assert g'.active[j] == Entry(handle, u);
      RelistRegistered(g, u, k, handle, u);
    }
  }

  lemma RelistActive(c: Config, g: Registry, u: nat, k: nat, handle: nat)
    requires TableOk(c, g) && ActiveOk(c, g) && HandlesOk(c, g) && Registered(g, u) && u != 0
    requires k < |g.active| && g.active[k] == Entry(g.infos[u].handle, u)
    ensures ActiveOk(c, Relist(g, u, k, handle))
  {
    var g' := Relist(g, u, k, handle);
    CutKeeps(g.active, k, Entry(c.acnaux, 0));
    forall j | 0 <= j < |g'.active| ensures EntryOk(c, g', g'.active[j]) { RelistEntry(c, g, u, k, handle, j); }
    forall id | id in g'.tasks ensures Entry(InfoOf(g', g'.tasks[id]).handle, g'.tasks[id]) in g'.active {
      var v := g.tasks[id];
      if v == u {
        assert g'.active[|g.active| - 1] == Entry(handle, u);
      } else {
        RelistRegistered(g, u, k, handle, v);
        CutKeeps(g.active, k, Entry(InfoOf(g, v).handle, v));
      }
    }
  }

  lemma RelistHandles(c: Config, g: Registry, u: nat, k: nat, handle: nat)
    requires HandlesOk(c, g) && u in g.infos && k < |g.active|
    requires forall j {:trigger g.active[j]} :: 0 <= j < |g.active| ==> g.active[j].handle != handle
    ensures HandlesOk(c, Relist(g, u, k, handle))
  {
    var g', n := Relist(g, u, k, handle), |g.active|;
    forall i, j | 0 <= i < j < |g'.active| && g'.active[i].handle == g'.active[j].handle
      ensures g'.active[i].handle in c.mcastHandles && !Equals(g', g'.active[i].obj, g'.active[j].obj)
    {
      var i', j' := if i < k then i else i + 1, if j < k then j else j + 1;
      assert g'.active[i] == g.active[i'];
      assert j < n - 1 && g'.active[j] == g.active[j'];
      RelistRegistered(g, u, k, handle, g.active[i'].obj);
      RelistRegistered(g, u, k, handle, g.active[j'].obj);
    }
  }

  /** Renaming a task to a handle no task has. */
  lemma RelistOk(c: Config, g: Registry, u: nat, k: nat, handle: nat)
    requires RegOk(c, g, {}) && Registered(g, u) && u != 0
    requires k < |g.active| && g.active[k] == Entry(g.infos[u].handle, u)
    requires forall j {:trigger g.active[j]} :: 0 <= j < |g.active| ==> g.active[j].handle != handle
    ensures RegOk(c, Relist(g, u, k, handle), {})
  {
    RegParts(c, g, {});
    RelistActive(c, g, u, k, handle);
    RelistHandles(c, g, u, k, handle);
    RelistTable(c, g, u, k, handle);
    RegWhole(c, Relist(g, u, k, handle), {});
  }

  lemma RelistTable(c: Config, g: Registry, u: nat, k: nat, handle: nat)
    requires TableOk(c, g) && PlacesOk(g, {}) && InternalOk(c, g) && u in g.infos && u != 0 && k < |g.active|
    ensures var g' := Relist(g, u, k, handle); TableOk(c, g') && PlacesOk(g', {}) && InternalOk(c, g')
  {
    forall v | v in g.infos
      ensures Registered(Relist(g, u, k, handle), v) <==> Registered(g, v)
      ensures Relist(g, u, k, handle).infos[v].(handle := 0) == g.infos[v].(handle := 0)
    {
      RelistRegistered(g, u, k, handle, v);
    }
  }
}
