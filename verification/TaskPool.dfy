/** TaskPool with its request and reply pools (server.h, taskpool.cpp, reqinfo.cpp, rpyinfo.cpp): the
    objects a daemon is made of. Every method is proved to do to them what the function of module
    Daemon says of the state they stand for. */
module TaskPools {
  import opened Sequences
  import opened Bits
  import opened IdPools
  import opened SlotPools
  import opened Timers
  import opened Acnet
  import opened Daemon
  import opened Registers
  import opened Invariant
  import opened Preservation
  import opened Removal
  import opened Handlers
  import opened Steps
  import opened Guarantees
  import opened Protocol
  import opened Tasks

  /** What only proofs need: the slots of all allocations, and the packets that left. */
  datatype Trail = Trail(reqBorn: seq<nat>, rpyBorn: seq<nat>, ended: map<Key, nat>, log: seq<Event>)

  datatype Part = ReqPool | RpyPool | TaskInfos | Table | Apart

  class TaskPool {
    const c: Config
    const reqPool: SlotPool<Req>
    const rpyPool: SlotPool<Rpy>
    const objects: TaskObjects
    const table: array<Option<nat>>
    var active: seq<Entry>
    var removed: seq<nat>
    var nextObj: nat
    var activeMap: seq<Link>
    var now: int
    var asked: nat
    var reqCount: nat
    var rpyCount: nat
    ghost var tasks: map<nat, nat>
    ghost var trail: Trail
    ghost var Repr: set<object>

    /** The state of the daemon. */
    ghost function Snap(): State
      reads this, reqPool, rpyPool, objects
    {
      State(ReqSide(reqPool.view, objects.view.reqIds, trail.reqBorn),
            RpySide(rpyPool.view, objects.view.rpyIds, activeMap, trail.rpyBorn, trail.ended),
            Registry(objects.view.infos, tasks, active, removed, nextObj),
            objects.view.live, now, asked, trail.log)
    }

    ghost predicate PartOk(p: Part)
      reads this, Repr
    {
      && reqPool in Repr && rpyPool in Repr && objects in Repr && table in Repr
      && match p
         case ReqPool =>
           reqPool.Repr <= Repr && reqPool.Valid() && reqPool.size == c.size && reqPool.bank == c.reqBank
           && reqCount == |trail.reqBorn|
         case RpyPool =>
           rpyPool.Repr <= Repr && rpyPool.Valid() && rpyPool.size == c.size && rpyPool.bank == c.rpyBank
           && rpyCount == |trail.rpyBorn|
         case TaskInfos => objects.Repr <= Repr && objects.Valid()
         case Table =>
           table.Length == c.maxTasks
           && (forall id {:trigger table[id]} :: 0 <= id < table.Length ==>
                 table[id] == if id in tasks then Some(tasks[id]) else None)
         case Apart =>
           && this in Repr && this !in reqPool.Repr && this !in rpyPool.Repr && this !in objects.Repr
           && table !in reqPool.Repr && table !in rpyPool.Repr && table !in objects.Repr
           && reqPool in reqPool.Repr && rpyPool in rpyPool.Repr
           && objects in objects.Repr && reqPool.Repr !! rpyPool.Repr && reqPool.Repr !! objects.Repr
              && rpyPool.Repr !! objects.Repr
    }

    ghost predicate Valid()
      reads this, Repr
    {
      forall p: Part {:trigger PartOk(p)} :: PartOk(p)
    }

    /** The members of a new TaskPool: its pools, its one task and its table. */
    constructor Of(c: Config, reqs: SlotPool<Req>, rpys: SlotPool<Rpy>, objs: TaskObjects, slots: array<Option<nat>>,
                   now: int)
      requires reqs.Valid() && reqs.size == c.size && reqs.bank == c.reqBank && reqs.view == NewPool(c.size)
      requires rpys.Valid() && rpys.size == c.size && rpys.bank == c.rpyBank && rpys.view == NewPool(c.size)
      requires objs.Valid() && objs.view == Tasks.View(map[0 := Info(0, c.acnet, Internal, c.ownPid, 0, 0)],
                                                       map[0 := Live(false, 0, now)], map[0 := {}], map[0 := {}])
      requires slots.Length == c.maxTasks
      requires forall id :: 0 <= id < slots.Length ==> slots[id] == if id == 0 then Some(0) else None
      requires slots !in reqs.Repr && slots !in rpys.Repr && slots !in objs.Repr
      requires reqs in reqs.Repr && rpys in rpys.Repr && objs in objs.Repr
      requires reqs.Repr !! rpys.Repr && reqs.Repr !! objs.Repr && rpys.Repr !! objs.Repr
      ensures Valid() && Repr == {this, slots} + reqs.Repr + rpys.Repr + objs.Repr
      ensures this.c == c && Snap() == Initial(c, now)
    {
      this.c, reqPool, rpyPool, objects, table := c, reqs, rpys, objs, slots;
      active, removed, nextObj := [Entry(c.acnet, 0), Entry(c.acnaux, 0)], [], 1;
      activeMap, this.now, asked, reqCount, rpyCount := [], now, 0, 0, 0;
      tasks, trail := map[0 := 0], Trail([], [], map[], []);
      Repr := {this, slots} + reqs.Repr + rpys.Repr + objs.Repr;
      new;
      assert PartOk(ReqPool);
      assert PartOk(RpyPool);
      assert PartOk(TaskInfos);
      assert PartOk(Table);
      assert PartOk(Apart);
      Close();
    }

    /** TaskPool::TaskPool; the pools draw their banks from what random() gives. */
    static method Create(ghost k: nat, base: Config, random1: nat, random2: nat, now: int) returns (t: TaskPool)
      requires Sound(base) && k < 16 && base.size == Pow2(k) && base.size > 0
      ensures t.Valid() && fresh(t.Repr)
      ensures t.c == base.(reqBank := BankGen(random1, base.size), rpyBank := BankGen(random2, base.size))
      ensures t.Snap() == Initial(t.c, now) && Reachable(t.c, t.Snap())
    {
      var reqs := new SlotPool<Req>(k, base.size, random1);
      var rpys := new SlotPool<Rpy>(k, base.size, random2);
      t := Assemble(base.(reqBank := reqs.bank, rpyBank := rpys.bank), reqs, rpys, now);
      InitialReaches(t.c, now);
    }

    /** With these two pools, and new tables that hold the internal task. */
    static method Assemble(c: Config, reqs: SlotPool<Req>, rpys: SlotPool<Rpy>, now: int) returns (t: TaskPool)
      requires reqs.Valid() && reqs.size == c.size && reqs.bank == c.reqBank && reqs.view == NewPool(c.size)
      requires rpys.Valid() && rpys.size == c.size && rpys.bank == c.rpyBank && rpys.view == NewPool(c.size)
      requires reqs in reqs.Repr && rpys in rpys.Repr && reqs.Repr !! rpys.Repr && c.maxTasks > 0
      ensures t.Valid() && fresh(t.Repr - reqs.Repr - rpys.Repr) && t.c == c && t.Snap() == Initial(c, now)
    {
      var objs := new TaskObjects(Info(0, c.acnet, Internal, c.ownPid, 0, 0), now);
      var slots := new Option<nat>[c.maxTasks](i => if i == 0 then Some(0) else None);
      t := new TaskPool.Of(c, reqs, rpys, objs, slots, now);
    }

    lemma Open()
      requires Valid()
      ensures PartOk(ReqPool) && PartOk(RpyPool) && PartOk(TaskInfos) && PartOk(Table) && PartOk(Apart)
    {}

    lemma Close()
      requires PartOk(ReqPool) && PartOk(RpyPool) && PartOk(TaskInfos) && PartOk(Table) && PartOk(Apart)
      ensures Valid()
    {}

    /** The parts, each as it may be used and changed by itself. */
    lemma AtObjects()
      requires Valid()
      ensures reqPool in reqPool.Repr && rpyPool in rpyPool.Repr && objects in objects.Repr
      ensures objects in Repr && objects.Repr <= Repr && objects.Valid()
      ensures this in Repr && this !in objects.Repr && table !in objects.Repr
      ensures reqPool.Repr !! objects.Repr && rpyPool.Repr !! objects.Repr
      ensures this !in reqPool.Repr && this !in rpyPool.Repr
    {
      assert PartOk(TaskInfos) && PartOk(Apart);
    }

    lemma AtRpyPool()
      requires Valid()
      ensures reqPool in reqPool.Repr && rpyPool in rpyPool.Repr && objects in objects.Repr
      ensures rpyPool in Repr && rpyPool.Repr <= Repr && rpyPool.Valid()
      ensures rpyPool.size == c.size && rpyPool.bank == c.rpyBank && rpyCount == |trail.rpyBorn|
      ensures this in Repr && this !in rpyPool.Repr && table !in rpyPool.Repr && this !in reqPool.Repr
      ensures this !in objects.Repr && reqPool.Repr !! rpyPool.Repr && rpyPool.Repr !! objects.Repr
    {
      assert PartOk(RpyPool) && PartOk(Apart);
    }

    lemma AtReqPool()
      requires Valid()
      ensures reqPool in reqPool.Repr && rpyPool in rpyPool.Repr && objects in objects.Repr
      ensures reqPool in Repr && reqPool.Repr <= Repr && reqPool.Valid()
      ensures reqPool.size == c.size && reqPool.bank == c.reqBank && reqCount == |trail.reqBorn|
      ensures this in Repr && this !in reqPool.Repr && table !in reqPool.Repr && this !in rpyPool.Repr
      ensures this !in objects.Repr && reqPool.Repr !! rpyPool.Repr && reqPool.Repr !! objects.Repr
    {
      assert PartOk(ReqPool) && PartOk(Apart);
    }

    twostate predicate SameObjects(s: set<object>)
      reads s
    {
      forall o :: o in s ==> unchanged(o)
    }

    // What each part needs to go on holding, from an earlier state on.

    twostate lemma StillReqPool()
      requires old(PartOk(ReqPool)) && Repr == old(Repr) && SameObjects(reqPool.Repr)
      requires reqCount == old(reqCount) && trail.reqBorn == old(trail).reqBorn
      ensures PartOk(ReqPool)
    {}

    twostate lemma StillRpyPool()
      requires old(PartOk(RpyPool)) && Repr == old(Repr) && SameObjects(rpyPool.Repr)
      requires rpyCount == old(rpyCount) && trail.rpyBorn == old(trail).rpyBorn
      ensures PartOk(RpyPool)
    {}

    twostate lemma StillTaskInfos()
      requires old(PartOk(TaskInfos)) && Repr == old(Repr) && objects.Repr == old(objects.Repr)
      requires SameObjects(old(objects.Repr) + {objects})
      ensures PartOk(TaskInfos)
    {}

    twostate lemma StillTable()
      requires old(PartOk(Table)) && Repr == old(Repr) && unchanged(table) && tasks == old(tasks)
      ensures PartOk(Table)
    {}

    twostate lemma StillApart()
      requires old(PartOk(Apart)) && Repr == old(Repr) && objects.Repr == old(objects.Repr)
      ensures PartOk(Apart)
    {}

    /** Only the task objects, and fields of this object that no part is about, were changed. */
    twostate lemma ObjectsChanged()
      requires old(Valid()) && Repr == old(Repr) && objects.Repr == old(objects.Repr) && objects.Valid()
      requires reqCount == old(reqCount) && rpyCount == old(rpyCount) && tasks == old(tasks)
      requires trail.reqBorn == old(trail).reqBorn && trail.rpyBorn == old(trail).rpyBorn
      requires SameObjects(reqPool.Repr) && SameObjects(rpyPool.Repr) && unchanged(table)
      ensures Valid()
    {
      assert old(PartOk(ReqPool)) && old(PartOk(RpyPool)) && old(PartOk(TaskInfos));
      assert old(PartOk(Table)) && old(PartOk(Apart));
      StillReqPool();
      StillRpyPool();
      StillTable();
      StillApart();
      Close();
    }

    /** Only the reply pool and the count of its allocations, and fields that no part is about. */
    twostate lemma RpyPoolChanged()
      requires old(Valid()) && Repr == old(Repr) && rpyPool.Valid() && rpyCount == |trail.rpyBorn|
      requires reqCount == old(reqCount) && tasks == old(tasks) && trail.reqBorn == old(trail).reqBorn
      requires SameObjects(reqPool.Repr) && SameObjects(old(objects.Repr) + {objects}) && unchanged(table)
      ensures Valid()
    {
      assert old(PartOk(ReqPool)) && old(PartOk(RpyPool)) && old(PartOk(TaskInfos));
      assert old(PartOk(Table)) && old(PartOk(Apart));
      StillReqPool();
      StillTaskInfos();
      StillTable();
      StillApart();
      Close();
    }

    twostate lemma ReqPoolChanged()
      requires old(Valid()) && Repr == old(Repr) && reqPool.Valid() && reqCount == |trail.reqBorn|
      requires rpyCount == old(rpyCount) && tasks == old(tasks) && trail.rpyBorn == old(trail).rpyBorn
      requires SameObjects(rpyPool.Repr) && SameObjects(old(objects.Repr) + {objects}) && unchanged(table)
      ensures Valid()
    {
      assert old(PartOk(ReqPool)) && old(PartOk(RpyPool)) && old(PartOk(TaskInfos));
      assert old(PartOk(Table)) && old(PartOk(Apart));
      StillRpyPool();
      StillTaskInfos();
      StillTable();
      StillApart();
      Close();
    }

    // ---- Reading ----

    method RequestEntry(id: nat) returns (slot: Option<nat>)
      requires Valid()
      ensures slot == Slot(Snap().reqs.pool, c.reqBank, id)
    {
      assert PartOk(ReqPool);
      slot := reqPool.Entry(id);
    }

    method RequestAt(i: nat) returns (r: Req)
      requires Valid() && i in reqPool.view.slots
      ensures r == reqPool.view.slots[i]
    {
      assert PartOk(ReqPool);
      r := reqPool.Read(i);
    }

    method RequestId(i: nat) returns (id: nat)
      requires Valid() && i in reqPool.view.slots
      ensures id == c.reqBank + i
    {
      assert PartOk(ReqPool);
      id := reqPool.Id(i);
    }

    method ReplyEntry(id: nat) returns (slot: Option<nat>)
      requires Valid()
      ensures slot == Slot(Snap().rpys.pool, c.rpyBank, id)
    {
      assert PartOk(RpyPool);
      slot := rpyPool.Entry(id);
    }

    method ReplyAt(i: nat) returns (r: Rpy)
      requires Valid() && i in rpyPool.view.slots
      ensures r == rpyPool.view.slots[i]
    {
      assert PartOk(RpyPool);
      r := rpyPool.Read(i);
    }

    method ReplyId(i: nat) returns (id: nat)
      requires Valid() && i in rpyPool.view.slots
      ensures id == c.rpyBank + i
    {
      assert PartOk(RpyPool);
      id := rpyPool.Id(i);
    }

    method InfoOfTask(u: nat) returns (t: Info)
      requires Valid() && u in objects.view.infos
      ensures t == objects.view.infos[u]
    {
      assert PartOk(TaskInfos);
      t := objects.InfoOfTask(u);
    }

    // ---- The environment ----

    /** The next answer of a socket or of kill(). */
    method Ask() returns (yes: bool)
      requires Valid()
      modifies Repr
      ensures Valid() && Repr == old(Repr)
      ensures Snap() == Asked(old(Snap())) && yes == (old(Snap()).asked in c.yes)
    {
      Open();
      yes := asked in c.yes;
      asked := asked + 1;
    }

    method StillAlive(u: nat) returns (alive: bool)
      requires Valid() && u in objects.view.infos
      modifies Repr
      ensures Valid() && Repr == old(Repr)
      ensures Snap() == Asked(old(Snap())) && alive == Alive(c, old(Snap()), u)
    {
      Open();
      var i := InfoOfTask(u);
      var l := objects.LiveOfTask(u);
      var yes := Ask();
      alive := i.kind.Internal? || yes || (i.pid == 0 && now - l.lastCommand < 30000);
    }

    ghost method Record(e: Event)
      requires Valid()
      modifies Repr
      ensures Valid() && Repr == old(Repr) && Snap() == Note(old(Snap()), e)
    {
      Open();
      trail := trail.(log := trail.log + [e]);
    }

    /** sendDataToClient: the packet goes to the client's data socket. */
    method SendDataToClient(u: nat, h: Header) returns (ok: bool)
      requires Valid() && u in objects.view.infos
      modifies Repr
      ensures Valid() && Repr == old(Repr)
      ensures Snap() == Tell(c, old(Snap()), u, h) && ok == Alive(c, old(Snap()), u)
    {
      ok := StillAlive(u);
      Record(Told(u, h, ok));
    }

    /** sendDataToClient with a reply to request r. */
    method SendReplyToClient(r: Req, h: Header) returns (ok: bool)
      requires Valid() && r.owner in objects.view.infos
      modifies Repr
      ensures Valid() && Repr == old(Repr)
      ensures Snap() == Hand(c, old(Snap()), r, h) && ok == Alive(c, old(Snap()), r.owner)
    {
      ok := StillAlive(r.owner);
      Record(Handed(r.serial, Mlt(r.flags), r.mcast, h, ok));
    }

    // ---- Request slots ----

    /** removeRequest */
    method ForgetRequest(u: nat, id: nat)
      requires Valid() && u in objects.view.infos
      modifies Repr
      ensures Valid() && Repr == old(Repr)
      ensures Snap() == old(Snap()).(reqs := old(Snap()).reqs.(ids := Minus(old(Snap()).reqs.ids, u, id)))
    {
      AtObjects();
      var known := objects.RemoveRequest(u, id);
      ObjectsChanged();
    }

    /** removeRequest and RequestPool::release */
    method ReleaseReq(i: nat)
      requires Valid() && i in reqPool.view.slots && reqPool.view.slots[i].owner in objects.view.infos
      modifies Repr
      ensures Valid() && Repr == old(Repr)
      ensures Snap() == old(Snap()).(reqs := DropReq(c, old(Snap()).reqs, i))
    {
      var r := RequestAt(i);
      var id := RequestId(i);
      ForgetRequest(r.owner, id);
      AtReqPool();
      label Forgotten:
      reqPool.Release(i);
      ReqPoolChanged@Forgotten();
    }

    /** RequestPool::update */
    method UpdateReq(i: nat)
      requires Valid() && i in reqPool.view.slots
      modifies Repr
      ensures Valid() && Repr == old(Repr)
      ensures var s := old(Snap()); Snap() == s.(reqs := TouchReq(s.reqs, i, s.now))
    {
      Open();
      var r := reqPool.Read(i);
      reqPool.Touch(i, now, r.tmoMs);
    }

    /** idPool.alloc, and the slot filled. */
    method TakeReq(r: Req) returns (slot: Option<nat>)
      requires Valid() && r.serial == |trail.reqBorn|
      modifies Repr
      ensures Valid() && Repr == old(Repr)
      ensures var p := old(Snap()).reqs;
              if p.pool.free == [] then slot == None && Snap() == old(Snap())
              else slot == Some(p.pool.free[0])
                   && Snap() == old(Snap()).(reqs := ReqSide(Taken(p.pool, r), p.ids, p.born + [p.pool.free[0]]))
    {
      AtReqPool();
      slot := reqPool.Alloc(r);
      if slot.Some? {
        reqCount := reqCount + 1;
        trail := trail.(reqBorn := trail.reqBorn + [slot.value]);
      }
      ReqPoolChanged();
    }

    /** RequestPool::alloc up to addRequest, which makes no duplicate in the task's set. */
    method EnterRequest(r: Req) returns (slot: Option<nat>)
      requires Valid() && Inv(c, Snap(), {}) && Registered(Snap().reg, r.owner) && r.serial == |trail.reqBorn|
      modifies Repr
      ensures Valid() && Repr == old(Repr)
      ensures var q := old(Snap()).reqs;
              if q.pool.free == [] then slot == None && Snap() == old(Snap())
              else slot == Some(q.pool.free[0]) && Snap() == old(Snap()).(reqs := EnterReq(c, q, r, q.pool.free[0]))
    {
      ghost var s := Snap();
      IsObject(c, s, r.owner);
      NextIdIsNew(c, s, r.owner);
      slot := TakeReq(r);
      if slot.Some? { AddToOwner(slot.value, r.owner); }
    }

    /** RequestPool::alloc */
    method AllocReq(u: nat, taskName: nat, remNode: nat, flags: nat, tmo: nat) returns (slot: Option<nat>)
      requires Valid() && Inv(c, Snap(), {}) && Registered(Snap().reg, u)
      modifies Repr
      ensures Valid() && Repr == old(Repr)
      ensures var s := old(Snap());
              if s.reqs.pool.free == [] then slot == None && Snap() == s
              else
                && slot == Some(s.reqs.pool.free[0])
                && Snap() == Opened(c, s, NewReq(c, s, u, taskName, remNode, flags, tmo))
    {
      AtReqPool();
      slot := EnrolRequest(Req(reqCount, u, taskName, c.node, remNode, flags, Clamp(tmo), remNode in c.mcastNodes));
    }

    method EnrolRequest(r: Req) returns (slot: Option<nat>)
      requires Valid() && Inv(c, Snap(), {}) && Registered(Snap().reg, r.owner) && r.serial == |trail.reqBorn|
      modifies Repr
      ensures Valid() && Repr == old(Repr)
      ensures var s, q := old(Snap()), old(Snap()).reqs;
              if q.pool.free == [] then slot == None && Snap() == s
              else slot == Some(q.pool.free[0]) && Snap() == Opened(c, s, r)
    {
      ghost var s := Snap();
      slot := EnterRequest(r);
      if slot.Some? {
        TouchEntered(c, s, r, slot.value, Snap());
        UpdateReq(slot.value);
      }
    }

    method AddToOwner(i: nat, u: nat)
      requires Valid() && i in reqPool.view.slots && u in objects.view.infos
      requires c.reqBank + i !in IdsOf(objects.view.reqIds, u)
      modifies Repr
      ensures Valid() && Repr == old(Repr)
      ensures Snap() == old(Snap()).(reqs := old(Snap()).reqs.(ids := Plus(old(Snap()).reqs.ids, u, c.reqBank + i)))
    {
      Open();
      var id := reqPool.Id(i);
      var added := objects.AddRequest(u, id);
      assert added;
    }

    /** sendDataToNetwork: the packet is queued for the network. */
    method SendDataToNetwork(h: Header)
      requires Valid()
      modifies Repr
      ensures Valid() && Repr == old(Repr) && Snap() == Note(old(Snap()), Sent(h))
    {
      Record(Sent(h));
    }

    /** RequestPool::cancelReqId */
    method CancelReqId(id: nat, xmt: bool, last: bool, ghost limbo: set<nat>) returns (found: bool)
      requires Valid() && Inv(c, Snap(), limbo)
      modifies Repr
      ensures Valid() && Repr == old(Repr)
      ensures Snap() == Daemon.CancelReqId(c, old(Snap()), id, xmt, last)
      ensures found == Slot(old(Snap()).reqs.pool, c.reqBank, id).Some?
    {
      var slot := RequestEntry(id);
      found := slot.Some?;
      if found {
        ReqOwnerKnown(c, Snap(), limbo, slot.value);
        var r := RequestAt(slot.value);
        if xmt {
          var t := InfoOfTask(r.owner);
          SendDataToNetwork(Header(FLG_CAN, SUCCESS, r.remNode, r.lclNode, r.taskName, t.id, id, HEADER_SIZE));
          if last {
            var h := Header(FLG_RPY, DISCONNECTED, r.remNode, r.lclNode, r.taskName, t.id, id, HEADER_SIZE);
            var ok := SendReplyToClient(r, h);
          }
        }
        ReleaseReq(slot.value);
      }
    }

    // ---- Reply slots ----

    /** removeReply, and activeMap.erase for the reply's key. */
    method ForgetReply(r: Rpy, id: nat)
      requires Valid() && r.owner in objects.view.infos
      modifies Repr
      ensures Valid() && Repr == old(Repr)
      ensures var p := old(Snap()).rpys;
              Snap() == old(Snap()).(rpys := p.(ids := Minus(p.ids, r.owner, id),
                                                links := EraseKey(p.links, r.remNode, r.reqId),
                                                ended := p.ended[KeyOf(r) := |p.born|]))
    {
      AtObjects();
      var known := objects.RemoveReply(r.owner, id);
      activeMap := EraseKey(activeMap, r.remNode, r.reqId);
      trail := trail.(ended := trail.ended[KeyOf(r) := |trail.rpyBorn|]);
      ObjectsChanged();
    }

    /** removeReply and ReplyPool::release */
    method ReleaseRpy(i: nat)
      requires Valid() && i in rpyPool.view.slots && rpyPool.view.slots[i].owner in objects.view.infos
      modifies Repr
      ensures Valid() && Repr == old(Repr)
      ensures Snap() == old(Snap()).(rpys := DropRpy(c, old(Snap()).rpys, i))
    {
      assert PartOk(RpyPool);
      var r := ReplyAt(i);
      var id := ReplyId(i);
      ForgetReply(r, id);
      AtRpyPool();
      label Forgotten:
      rpyPool.Release(i);
      RpyPoolChanged@Forgotten();
    }

    /** ReplyPool::update */
    method UpdateRpy(i: nat)
      requires Valid() && i in rpyPool.view.slots && !rpyPool.view.slots[i].mcast
      modifies Repr
      ensures Valid() && Repr == old(Repr)
      ensures var s := old(Snap()); Snap() == s.(rpys := TouchRpy(s.rpys, i, s.now))
    {
      Open();
      rpyPool.Touch(i, now, REPLY_DELAY * 1000);
    }

    /** RpyInfo::ackIt */
    method AckIt(i: nat)
      requires Valid() && i in rpyPool.view.slots
      modifies Repr
      ensures Valid() && Repr == old(Repr)
      ensures Snap() == old(Snap()).(rpys := MarkAcked(old(Snap()).rpys, i))
    {
      Open();
      var r := rpyPool.Read(i);
      rpyPool.Write(i, r.(acked := true));
    }

    method DecrementPendingRequests(u: nat) returns (ok: bool)
      requires Valid() && u in objects.view.infos
      modifies Repr
      ensures Valid() && Repr == old(Repr) && Snap() == DecPending(old(Snap()), u)
    {
      Open();
      ok := objects.DecrementPendingRequests(u);
    }

    /** The loop of endRpyId over the entries of the reply's key, which erases the reply's own. */
    method EraseLink(i: nat)
      requires Valid() && i in rpyPool.view.slots
      modifies Repr
      ensures Valid() && Repr == old(Repr)
      ensures Snap() == old(Snap()).(rpys := old(Snap()).rpys.(links := activeMap))
      ensures var r := rpyPool.view.slots[i];
              EraseKey(activeMap, r.remNode, r.reqId) == EraseKey(old(activeMap), r.remNode, r.reqId)
    {
      Open();
      var r := ReplyAt(i);
      var ii := 0;
      while ii < |activeMap|
        invariant Valid() && Repr == old(Repr) && Snap() == old(Snap()) && activeMap == old(activeMap)
      {
        if activeMap[ii] == Link(r.remNode, r.reqId, i) {
          EraseAfterCut(activeMap, ii, r.remNode, r.reqId);
          activeMap := Cut(activeMap, ii);
          break;
        }
        ii := ii + 1;
      }
    }

    /** What endRpyId sends when the reply is not simply over. */
    method AnnounceEnd(i: nat, r: Rpy, status: int)
      requires Valid() && i in rpyPool.view.slots && r == rpyPool.view.slots[i] && r.owner in objects.view.infos
      modifies Repr
      ensures Valid() && Repr == old(Repr)
      ensures var s := old(Snap());
              var s1 := if !r.mcast || !Mlt(r.flags)
                        then Note(s, Replied(r.serial, ReplyHeader(r, FLG_RPY, status, 0))) else s;
              Snap() == Tell(c, s1, r.owner, GoneHeader(c, s, r, i))
    {
      var t := InfoOfTask(r.owner);
      var id := ReplyId(i);
      if !r.mcast || !Mlt(r.flags) {
        SendReplyPacket(r, Header(FLG_RPY, status, r.lclNode, r.remNode, r.taskName, r.taskId, r.reqId, HEADER_SIZE));
      }
      var h := Header(FLG_CAN, AsStatus(id), r.lclNode, r.remNode, r.taskName, t.id, r.reqId, HEADER_SIZE);
      var ok := SendDataToClient(r.owner, h);
    }

    /** The end of a reply, with or without an announcement. */
    method ReleaseEnded(i: nat)
      requires Valid() && i in rpyPool.view.slots && rpyPool.view.slots[i].owner in objects.view.infos
      modifies Repr
      ensures Valid() && Repr == old(Repr)
      ensures Snap() == old(Snap()).(rpys := DropRpy(c, old(Snap()).rpys, i))
    {
      EraseLink(i);
      ReleaseRpy(i);
    }

    /** ReplyPool::endRpyId */
    method EndRpyId(id: nat, status: int, ghost limbo: set<nat>)
      requires Valid() && Inv(c, Snap(), limbo)
      modifies Repr
      ensures Valid() && Repr == old(Repr)
      ensures Snap() == Daemon.EndRpyId(c, old(Snap()), id, status)
    {
      var slot := ReplyEntry(id);
      if slot.Some? {
        RpyOwnerKnown(c, Snap(), limbo, slot.value);
        var r := ReplyAt(slot.value);
        if status != SUCCESS { AnnounceEnd(slot.value, r, status); }
        ReleaseEnded(slot.value);
      }
    }

    /** sendDataToNetwork with a reply for slot contents r. */
    method SendReplyPacket(r: Rpy, h: Header)
      requires Valid()
      modifies Repr
      ensures Valid() && Repr == old(Repr) && Snap() == Note(old(Snap()), Replied(r.serial, h))
    {
      Record(Replied(r.serial, h));
    }

    /** xmitReply up to where the packet is sent. */
    method PrepareReply(i: nat, r: Rpy)
      requires Valid() && i in rpyPool.view.slots && r == rpyPool.view.slots[i] && r.owner in objects.view.infos
      modifies Repr
      ensures Valid() && Repr == old(Repr) && Snap() == BeforeXmit(old(Snap()), i)
    {
      if !r.acked {
        AckIt(i);
        var counted := DecrementPendingRequests(r.owner);
      }
      if !r.mcast { UpdateRpy(i); }
    }

    /** RpyInfo::xmitReply: n is the length of the data. */
    method XmitReply(i: nat, status: int, n: nat, emr: bool) returns (repDone: bool)
      requires Valid() && i in rpyPool.view.slots && rpyPool.view.slots[i].owner in objects.view.infos
      modifies Repr
      ensures Valid() && Repr == old(Repr)
      ensures Snap() == Daemon.XmitReply(c, old(Snap()), i, status, n, emr)
      ensures repDone == LastReply(old(Snap()).rpys.pool.slots[i], emr)
    {
      var r := ReplyAt(i);
      XmitReplyAfter(c, Snap(), i, status, n, emr);
      var hdr := Header(FLG_RPY, status, r.lclNode, r.remNode, r.taskName, r.taskId, r.reqId, HEADER_SIZE + Padded(n));
      repDone := false;
      if Mlt(r.flags) {
        if emr {
          if status == SUCCESS { hdr := hdr.(status := ENDMULT); }
          repDone := true;
        } else {
          hdr := hdr.(flags := FLG_RPY + FLG_MLT);
        }
      } else {
        repDone := true;
      }
      PrepareReply(i, r);
      SendReplyPacket(r, hdr);
    }

    /** idPool.alloc, and the slot filled and entered in activeMap. */
    method TakeRpy(r: Rpy) returns (slot: Option<nat>)
      requires Valid() && r.serial == |trail.rpyBorn|
      modifies Repr
      ensures Valid() && Repr == old(Repr)
      ensures var p := old(Snap()).rpys;
              if p.pool.free == [] then slot == None && Snap() == old(Snap())
              else slot == Some(p.pool.free[0])
                   && Snap() == old(Snap()).(rpys := EnterRpy(c, p, r, p.pool.free[0]).(ids := p.ids))
    {
      AtRpyPool();
      slot := rpyPool.Alloc(r);
      if slot.Some? {
        activeMap := activeMap + [Link(r.remNode, r.reqId, slot.value)];
        rpyCount := rpyCount + 1;
        trail := trail.(rpyBorn := trail.rpyBorn + [slot.value]);
      }
      RpyPoolChanged();
    }

    method AddReplyToOwner(i: nat, u: nat)
      requires Valid() && i in rpyPool.view.slots && u in objects.view.infos
      requires c.rpyBank + i !in IdsOf(objects.view.rpyIds, u)
      modifies Repr
      ensures Valid() && Repr == old(Repr)
      ensures Snap() == old(Snap()).(rpys := old(Snap()).rpys.(ids := Plus(old(Snap()).rpys.ids, u, c.rpyBank + i)))
    {
      Open();
      var id := rpyPool.Id(i);
      var added := objects.AddReply(u, id);
      assert added;
    }

    /** ReplyPool::alloc for a request with header h. */
    method AllocRpy(u: nat, h: Header) returns (slot: Option<nat>)
      requires Valid() && Inv(c, Snap(), {}) && Registered(Snap().reg, u)
      modifies Repr
      ensures Valid() && Repr == old(Repr)
      ensures var s := old(Snap());
              if s.rpys.pool.free == [] then slot == None && Snap() == s
              else slot == Some(s.rpys.pool.free[0]) && Snap() == Offered(c, s, u, h)
    {
      AtRpyPool();
      ghost var s := Snap();
      var mcast := h.server in c.mcastNodes;
      var lclNode := if mcast then c.node else h.server;
      var r := Rpy(rpyCount, u, h.msgId, h.taskId, h.task, lclNode, h.client, h.flags, mcast, false);
      slot := EnterReply(r);
      if slot.Some? {
        OfferedIs(c, s, u, h, r, slot.value);
        if !mcast { UpdateRpy(slot.value); }
      }
    }

    /** ReplyPool::alloc up to addReply, which makes no duplicate in the task's set. */
    method EnterReply(r: Rpy) returns (slot: Option<nat>)
      requires Valid() && Inv(c, Snap(), {}) && Registered(Snap().reg, r.owner) && r.serial == |trail.rpyBorn|
      modifies Repr
      ensures Valid() && Repr == old(Repr)
      ensures var q := old(Snap()).rpys;
              if q.pool.free == [] then slot == None && Snap() == old(Snap())
              else slot == Some(q.pool.free[0]) && Snap() == old(Snap()).(rpys := EnterRpy(c, q, r, q.pool.free[0]))
    {
      ghost var s := Snap();
      IsObject(c, s, r.owner);
      NextIdIsNew(c, s, r.owner);
      slot := TakeRpy(r);
      if slot.Some? { AddReplyToOwner(slot.value, r.owner); }
    }

    method TaskEquals(u: nat, v: nat) returns (same: bool)
      requires Valid() && u in objects.view.infos && v in objects.view.infos
      ensures same == Equals(Snap().reg, u, v)
    {
      var i := InfoOfTask(u);
      var j := InfoOfTask(v);
      same := if i.kind.Internal? then u == v else !j.kind.Internal? && i.cmdPort == j.cmdPort;
    }

    /** ReplyPool::sendReplyToNetwork */
    method SendReplyToNetwork(u: nat, id: nat, status: int, n: nat, emr: bool) returns (found: bool)
      requires Valid() && Inv(c, Snap(), {}) && u in objects.view.infos
      modifies Repr
      ensures Valid() && Repr == old(Repr)
      ensures (Snap(), found) == SendReply(c, old(Snap()), u, id, status, n, emr)
    {
      found := false;
      var slot := ReplyEntry(id);
      if slot.Some? {
        RpyOwnerKnown(c, Snap(), {}, slot.value);
        var r := ReplyAt(slot.value);
        found := TaskEquals(r.owner, u);
        if found {
          ReplyAccepted(c, Snap(), u, id, slot.value, status, n, emr);
          BeforeXmitInv(c, Snap(), slot.value);
          var repDone := XmitReply(slot.value, status, n, emr);
          if repDone { EndSentReply(id, slot.value); }
        }
      }
    }

    /** endRpyId(id) after the last reply was sent. */
    method EndSentReply(id: nat, i: nat)
      requires Valid() && Slot(Snap().rpys.pool, c.rpyBank, id) == Some(i) && i in rpyPool.view.slots
      requires rpyPool.view.slots[i].owner in objects.view.infos
      modifies Repr
      ensures Valid() && Repr == old(Repr)
      ensures Snap() == Daemon.EndRpyId(c, old(Snap()), id, SUCCESS)
    {
      EraseLink(i);
      ReleaseRpy(i);
    }

    // ---- Removing tasks ----

    /** The loop that cancels a task's requests. */
    method CancelRequests(u: nat, last: bool, ghost limbo: set<nat>)
      requires Valid() && Inv(c, Snap(), limbo) && u in objects.view.infos
      modifies Repr
      ensures Valid() && Repr == old(Repr)
      ensures Snap() == DrainReqs(c, old(Snap()), u, last)
    {
      assert PartOk(TaskInfos);
      var first := objects.FirstRequest(u);
      while first.Some?
        invariant Valid() && Repr == old(Repr) && Inv(c, Snap(), limbo) && u in objects.view.infos
        invariant first == if IdsOf(Snap().reqs.ids, u) == {} then None else Some(Min(IdsOf(Snap().reqs.ids, u)))
        invariant DrainReqs(c, old(Snap()), u, last) == DrainReqs(c, Snap(), u, last)
        decreases |IdsOf(Snap().reqs.ids, u)|
      {
        first := CancelFirst(u, first.value, last, limbo);
      }
    }

    /** One round: the task's request with the lowest id is cancelled. */
    method CancelFirst(u: nat, id: nat, last: bool, ghost limbo: set<nat>) returns (first: Option<nat>)
      requires Valid() && Inv(c, Snap(), limbo) && u in objects.view.infos
      requires IdsOf(Snap().reqs.ids, u) != {} && id == Min(IdsOf(Snap().reqs.ids, u))
      modifies Repr
      ensures Valid() && Repr == old(Repr) && Inv(c, Snap(), limbo) && u in objects.view.infos
      ensures first == if IdsOf(Snap().reqs.ids, u) == {} then None else Some(Min(IdsOf(Snap().reqs.ids, u)))
      ensures DrainReqs(c, old(Snap()), u, last) == DrainReqs(c, Snap(), u, last)
      ensures |IdsOf(Snap().reqs.ids, u)| < |IdsOf(old(Snap()).reqs.ids, u)|
    {
      ghost var i, s1 := DrainReqsStep(c, Snap(), limbo, u, last);
      var found := CancelReqId(id, true, last, limbo);
      assert PartOk(TaskInfos);
      first := objects.FirstRequest(u);
    }

    /** The loop that ends a task's replies, here and in handleBlockRequests. */
    method EndReplies(u: nat, status: int, ghost limbo: set<nat>)
      requires Valid() && Inv(c, Snap(), limbo) && u in objects.view.infos
      modifies Repr
      ensures Valid() && Repr == old(Repr)
      ensures Snap() == DrainRpys(c, old(Snap()), u, status)
    {
      assert PartOk(TaskInfos);
      var first := objects.FirstReply(u);
      while first.Some?
        invariant Valid() && Repr == old(Repr) && Inv(c, Snap(), limbo) && u in objects.view.infos
        invariant first == if IdsOf(Snap().rpys.ids, u) == {} then None else Some(Min(IdsOf(Snap().rpys.ids, u)))
        invariant DrainRpys(c, old(Snap()), u, status) == DrainRpys(c, Snap(), u, status)
        decreases |IdsOf(Snap().rpys.ids, u)|
      {
        first := EndFirst(u, first.value, status, limbo);
      }
    }

    method EndFirst(u: nat, id: nat, status: int, ghost limbo: set<nat>) returns (first: Option<nat>)
      requires Valid() && Inv(c, Snap(), limbo) && u in objects.view.infos
      requires IdsOf(Snap().rpys.ids, u) != {} && id == Min(IdsOf(Snap().rpys.ids, u))
      modifies Repr
      ensures Valid() && Repr == old(Repr) && Inv(c, Snap(), limbo) && u in objects.view.infos
      ensures first == if IdsOf(Snap().rpys.ids, u) == {} then None else Some(Min(IdsOf(Snap().rpys.ids, u)))
      ensures DrainRpys(c, old(Snap()), u, status) == DrainRpys(c, Snap(), u, status)
      ensures |IdsOf(Snap().rpys.ids, u)| < |IdsOf(old(Snap()).rpys.ids, u)|
    {
      ghost var i, s1 := DrainRpysStep(c, Snap(), limbo, u, status);
      EndRpyId(id, status, limbo);
      assert PartOk(TaskInfos);
      first := objects.FirstReply(u);
    }

    /** The search of removeOnlyThisTask and rename among the entries of a handle. */
    method FindActive(handle: nat, u: nat) returns (r: Option<nat>)
      requires Valid() && Inv(c, Snap(), {}) && u in objects.view.infos
      ensures r == FindEntry(Snap().reg, handle, u, 0)
    {
      var ii := 0;
      while ii < |active|
        invariant 0 <= ii <= |active|
        invariant FindEntry(Snap().reg, handle, u, 0) == FindEntry(Snap().reg, handle, u, ii)
      {
        if active[ii].handle == handle {
          ListedIsRegistered(c, Snap(), ii);
          var same := TaskEquals(active[ii].obj, u);
          if same { return Some(ii); }
        }
        ii := ii + 1;
      }
      return None;
    }

    /** tasks_[id] = 0 */
    method ClearEntry(id: nat)
      requires Valid() && id < c.maxTasks
      modifies Repr
      ensures Valid() && Repr == old(Repr)
      ensures Snap() == old(Snap()).(reg := old(Snap()).reg.(tasks := old(Snap()).reg.tasks - {id}))
    {
      Open();
      table[id] := None;
      tasks := tasks - {id};
    }

    method CutActive(k: nat)
      requires Valid() && k < |active|
      modifies Repr
      ensures Valid() && Repr == old(Repr)
      ensures Snap() == old(Snap()).(reg := old(Snap()).reg.(active := Cut(old(Snap()).reg.active, k)))
    {
      Open();
      active := Cut(active, k);
    }

    method PushRemoved(u: nat)
      requires Valid()
      modifies Repr
      ensures Valid() && Repr == old(Repr)
      ensures Snap() == old(Snap()).(reg := old(Snap()).reg.(removed := old(Snap()).reg.removed + [u]))
    {
      Open();
      removed := removed + [u];
    }

    /** The first part of removeOnlyThisTask, which never gets to abort(). */
    method UnregisterTask(u: nat)
      requires Valid() && Inv(c, Snap(), {}) && Registered(Snap().reg, u) && u != 0
      modifies Repr
      ensures Valid() && Repr == old(Repr)
      ensures Snap() == old(Snap()).(reg := Unregister(old(Snap()).reg, u))
    {
      ghost var k0 := RenameFinds(c, Snap(), u);
      var t := InfoOfTask(u);
      TableEnd(c, Snap(), t.id);
      var k := FindActive(t.handle, u);
      ClearEntry(t.id);
      CutActive(k.value);
    }

    /** TaskPool::removeOnlyThisTask */
    method RemoveOnlyThisTask(u: nat, status: int, last: bool)
      requires Valid() && Inv(c, Snap(), {}) && Registered(Snap().reg, u) && u != 0
      modifies Repr
      ensures Valid() && Repr == old(Repr)
      ensures Snap() == RemoveOnly(c, old(Snap()), u, status, last)
    {
      UnregisterInv(c, Snap(), u);
      UnregisterTask(u);
      DrainReqsInv(c, Snap(), {u}, u, last);
      CancelRequests(u, last, {u});
      EndReplies(u, status, {u});
      PushRemoved(u);
    }

    /** tasks_[ii] */
    method TaskAt(ii: nat) returns (r: Option<nat>)
      requires Valid() && ii < c.maxTasks
      ensures r == if ii in Snap().reg.tasks then Some(Snap().reg.tasks[ii]) else None
    {
      assert PartOk(Table);
      r := table[ii];
    }

    /** The loop of removeTask for a process. */
    method RemoveProcess(pid: nat)
      requires Valid() && Inv(c, Snap(), {}) && pid != c.ownPid
      modifies Repr
      ensures Valid() && Repr == old(Repr) && Snap() == RemovePid(c, old(Snap()), pid, 0)
    {
      var ii := 0;
      while ii < c.maxTasks
        invariant 0 <= ii && Valid() && Repr == old(Repr) && Inv(c, Snap(), {})
        invariant RemovePid(c, old(Snap()), pid, 0) == RemovePid(c, Snap(), pid, ii)
      {
        RemoveAt(pid, ii);
        ii := ii + 1;
      }
    }

    /** One round: the task at a position goes if it belongs to the process. */
    method RemoveAt(pid: nat, ii: nat)
      requires Valid() && Inv(c, Snap(), {}) && pid != c.ownPid && ii < c.maxTasks
      modifies Repr
      ensures Valid() && Repr == old(Repr) && Inv(c, Snap(), {})
      ensures RemovePid(c, old(Snap()), pid, ii) == RemovePid(c, Snap(), pid, ii + 1)
    {
      var u := TaskAt(ii);
      if u.Some? {
        TaskListed(c, Snap(), ii);
        var t := InfoOfTask(u.value);
        if t.pid == pid {
          NotInternal(c, Snap(), pid, ii);
          RemoveOnlyInv(c, Snap(), u.value, DISCONNECTED, false);
          RemoveOnlyThisTask(u.value, DISCONNECTED, false);
        }
      }
    }

    /** TaskPool::removeTask */
    method RemoveTask(u: nat)
      requires Valid() && Inv(c, Snap(), {}) && MayGo(Snap().reg, u)
      modifies Repr
      ensures Valid() && Repr == old(Repr) && Snap() == Daemon.RemoveTask(c, old(Snap()), u)
    {
      var t := InfoOfTask(u);
      if t.pid == 0 {
        RemoveOnlyThisTask(u, DISCONNECTED, false);
      } else {
        PidOfClient(c, Snap(), u);
        RemoveProcess(t.pid);
      }
    }

    /** What follows when a packet was not delivered: the task is removed. */
    method RemoveUnless(ok: bool, u: nat)
      requires Valid() && (ok || (Inv(c, Snap(), {}) && MayGo(Snap().reg, u)))
      modifies Repr
      ensures Valid() && Repr == old(Repr)
      ensures Snap() == if ok then old(Snap()) else Daemon.RemoveTask(c, old(Snap()), u)
    {
      if !ok { RemoveTask(u); }
    }

    /** The first loop of removeInactiveTasks. */
    method RemoveDeadTasks()
      requires Valid() && Inv(c, Snap(), {})
      modifies Repr
      ensures Valid() && Repr == old(Repr) && Snap() == RemoveDead(c, old(Snap()), 0)
    {
      var ii := 0;
      while ii < c.maxTasks
        invariant 0 <= ii && Valid() && Repr == old(Repr) && Inv(c, Snap(), {})
        invariant RemoveDead(c, old(Snap()), 0) == RemoveDead(c, Snap(), ii)
      {
        RemoveDeadAt(ii);
        ii := ii + 1;
      }
    }

    method RemoveDeadAt(ii: nat)
      requires Valid() && Inv(c, Snap(), {}) && ii < c.maxTasks
      modifies Repr
      ensures Valid() && Repr == old(Repr) && Inv(c, Snap(), {})
      ensures RemoveDead(c, old(Snap()), ii) == RemoveDead(c, Snap(), ii + 1)
    {
      var u := TaskAt(ii);
      if u.Some? {
        TaskListed(c, Snap(), ii);
        AskedInv(c, Snap(), {});
        ghost var s := Snap();
        var alive := StillAlive(u.value);
        if !alive {
          DeadIsClient(c, s, ii);
          RemoveTaskInv(c, Snap(), u.value);
          RemoveTask(u.value);
        }
      }
    }

    method DeleteObject(u: nat)
      requires Valid()
      modifies Repr
      ensures Valid() && Repr == old(Repr) && removed == old(removed)
      ensures Snap() == Deleted(old(Snap()), {u})
    {
      Open();
      objects.Delete(u);
    }

    /** The second loop of removeInactiveTasks, which deletes the removed objects. */
    method DeleteRemoved()
      requires Valid()
      modifies Repr
      ensures Valid() && Repr == old(Repr) && Snap() == Purge(old(Snap()))
    {
      ghost var s := Snap();
      var ii := 0;
      DeletedNone(s);
      while ii < |removed|
        invariant 0 <= ii <= |removed| && Valid() && Repr == old(Repr) && removed == old(removed)
        invariant Snap() == Deleted(s, Elements(removed[..ii]))
      {
        DeletedMore(s, removed, ii);
        DeleteObject(removed[ii]);
        ii := ii + 1;
      }
      assert removed[..ii] == removed;
      Open();
      removed := [];
    }

    /** TaskPool::removeInactiveTasks */
    method RemoveInactiveTasks()
      requires Valid() && Inv(c, Snap(), {})
      modifies Repr
      ensures Valid() && Repr == old(Repr) && Snap() == RemoveInactive(c, old(Snap()))
    {
      RemoveDeadTasks();
      DeleteRemoved();
    }

    // ---- Connecting and renaming ----

    /** TaskPool::getTask by name and command port. */
    method GetTask(handle: nat, cmdPort: nat) returns (r: Option<nat>)
      requires Valid() && Inv(c, Snap(), {})
      ensures r == FindClient(Snap().reg, handle, cmdPort, 0)
      ensures r.Some? ==> r.value in objects.view.infos
    {
      var ii := 0;
      while ii < |active|
        invariant 0 <= ii <= |active|
        invariant FindClient(Snap().reg, handle, cmdPort, 0) == FindClient(Snap().reg, handle, cmdPort, ii)
      {
        if active[ii].handle == handle {
          ListedIsRegistered(c, Snap(), ii);
          var t := InfoOfTask(active[ii].obj);
          if !t.kind.Internal? && t.cmdPort == cmdPort { return Some(active[ii].obj); }
        }
        ii := ii + 1;
      }
      return None;
    }

    /** TaskPool::nextFreeTaskId; None stands for the exception ACNET_NLM. */
    method NextFreeTaskId(ext: bool) returns (r: Option<nat>)
      requires Valid() && c.maxTasks >= 256
      ensures r == NextFreeId(Snap().reg.tasks, if ext then 256 else 0, if ext then c.maxTasks else 256)
    {
      var max := if ext then c.maxTasks else 256;
      var ii := if ext then 256 else 0;
      ghost var from := ii;
      while ii < max
        invariant from <= ii
        invariant NextFreeId(Snap().reg.tasks, from, max) == NextFreeId(Snap().reg.tasks, ii, max)
      {
        var t := TaskAt(ii);
        if t.None? { return Some(ii); }
        ii := ii + 1;
      }
      return None;
    }

    method NewTaskInfo(u: nat, i: Info)
      requires Valid() && u !in objects.view.infos
      modifies Repr
      ensures Valid() && fresh(Repr - old(Repr)) && active == old(active) && nextObj == old(nextObj)
      ensures var s := old(Snap());
              Snap() == s.(reg := s.reg.(infos := s.reg.infos[u := i]), live := s.live[u := Live(false, 0, s.now)],
                           reqs := s.reqs.(ids := s.reqs.ids[u := {}]), rpys := s.rpys.(ids := s.rpys.ids[u := {}]))
    {
      Open();
      objects.Add(u, i, now);
      Repr := Repr + objects.Repr;
    }

    /** new TaskInfo, active.insert and tasks_[id] = task */
    method AddTask(i: Info)
      requires Valid() && i.id < c.maxTasks && nextObj !in objects.view.infos
      modifies Repr
      ensures Valid() && fresh(Repr - old(Repr)) && Snap() == Admit(old(Snap()), i)
    {
      NewTaskInfo(nextObj, i);
      SetEntry(i.id, nextObj);
      ListTask(i.handle);
    }

    /** tasks_[id] = task */
    method SetEntry(id: nat, u: nat)
      requires Valid() && id < c.maxTasks
      modifies Repr
      ensures Valid() && Repr == old(Repr) && active == old(active) && nextObj == old(nextObj)
      ensures Snap() == old(Snap()).(reg := old(Snap()).reg.(tasks := old(Snap()).reg.tasks[id := u]))
    {
      Open();
      table[id] := Some(u);
      tasks := tasks[id := u];
    }

    /** active.insert; the new object has got its number. */
    method ListTask(handle: nat)
      requires Valid()
      modifies Repr
      ensures Valid() && Repr == old(Repr)
      ensures var g := old(Snap()).reg;
              Snap() == old(Snap()).(reg := g.(active := g.active + [Entry(handle, g.nextObj)],
                                                   nextObj := g.nextObj + 1))
    {
      Open();
      active, nextObj := active + [Entry(handle, nextObj)], nextObj + 1;
    }

    /** TaskPool::handleConnect up to the answer: the status, and the task id if all went well. */
    method HandleConnect(cmd: ConnectCmd) returns (status: int, id: nat)
      requires Valid() && Inv(c, Snap(), {}) && cmd.pid != c.ownPid
      modifies Repr
      ensures Valid() && fresh(Repr - old(Repr))
      ensures (Snap(), status, id) == Connect(c, old(Snap()), cmd)
    {
      if cmd.dataPort == 0 { return INVARG, 0; }
      RemoveInactiveInv(c, Snap());
      RemoveInactiveTasks();
      status, id := FindOrAdd(ClientName(c, cmd), cmd);
    }

    /** The part of handleConnect after removeInactiveTasks. */
    method FindOrAdd(name: nat, cmd: ConnectCmd) returns (status: int, id: nat)
      requires Valid() && Inv(c, Snap(), {})
      modifies Repr
      ensures Valid() && fresh(Repr - old(Repr))
      ensures (Snap(), status, id) == ConnectNamed(c, old(Snap()), name, cmd)
    {
      ghost var s := Snap();
      NewObject(c, s);
      MaxTasks(c, s);
      var task := GetTask(name, cmd.cmdPort);
      if task.Some? {
        var t := InfoOfTask(task.value);
        return SUCCESS, t.id;
      }
      var free := NextFreeTaskId(cmd.ext);
      if free.None? { return NLM, 0; }
      NextFreeIdOk(s.reg.tasks, if cmd.ext then 256 else 0, if cmd.ext then c.maxTasks else 256);
      status, id := AddClient(name, free.value, cmd);
    }

    /** A new client with a free task id. */
    method AddClient(name: nat, freeId: nat, cmd: ConnectCmd) returns (status: int, id: nat)
      requires Valid() && freeId < c.maxTasks && nextObj !in objects.view.infos
      requires FindClient(Snap().reg, name, cmd.cmdPort, 0) == None
      requires NextFreeId(Snap().reg.tasks, if cmd.ext then 256 else 0, if cmd.ext then c.maxTasks else 256)
               == Some(freeId)
      modifies Repr
      ensures Valid() && fresh(Repr - old(Repr))
      ensures (Snap(), status, id) == ConnectNamed(c, old(Snap()), name, cmd)
    {
      if name in c.mcastHandles {
        var joined := Ask();
        if !joined { return NLM, 0; }
        AddTask(Info(freeId, name, Multicast, cmd.pid, cmd.cmdPort, cmd.dataPort));
      } else {
        if TasksOf(active, name) != [] { return NAME_IN_USE, 0; }
        AddTask(Info(freeId, name, if cmd.tcp then Remote else Local, cmd.pid, cmd.cmdPort, cmd.dataPort));
      }
      return SUCCESS, freeId;
    }

    method MoveEntry(u: nat, k: nat, handle: nat)
      requires Valid() && u in objects.view.infos && k < |active|
      modifies Repr
      ensures Valid() && Repr == old(Repr)
      ensures Snap() == old(Snap()).(reg := Relist(old(Snap()).reg, u, k, handle))
    {
      Open();
      objects.SetHandle(u, handle);
      active := Cut(active, k) + [Entry(handle, u)];
    }

    /** A dead task loses its name, and everything else. */
    method Evict(u: nat, v: nat) returns (gone: bool)
      requires Valid() && Inv(c, Snap(), {}) && Registered(Snap().reg, u) && u != 0 && Fresh(Snap(), u)
      requires Registered(Snap().reg, v)
      modifies Repr
      ensures Valid() && Repr == old(Repr) && gone == !Alive(c, old(Snap()), v) && Inv(c, Snap(), {})
      ensures Snap() == if gone then Daemon.RemoveTask(c, Asked(old(Snap())), v) else Asked(old(Snap()))
      ensures u in objects.view.infos
    {
      ghost var s := Snap();
      IsObject(c, s, u);
      AskedInv(c, s, {});
      var alive := StillAlive(v);
      gone := !alive;
      if gone {
        OtherGone(c, s, u, v);
        DeadIsClient(c, s, s.reg.infos[v].id);
        RemoveTask(v);
      }
    }

    /** TaskPool::rename */
    method Rename(u: nat, handle: nat) returns (done: bool)
      requires Valid() && Inv(c, Snap(), {}) && Registered(Snap().reg, u) && u != 0 && Fresh(Snap(), u)
      modifies Repr
      ensures Valid() && Repr == old(Repr)
      ensures (Snap(), done) == Daemon.Rename(c, old(Snap()), u, handle)
    {
      if handle in c.mcastHandles { return false; }
      var holders := TasksOf(active, handle);
      if holders != [] {
        TasksOfRegistered(c, Snap(), handle);
        assert Registered(Snap().reg, holders[0]);
        var freed := Evict(u, holders[0]);
        if !freed { return false; }
      }
      var t := InfoOfTask(u);
      var k := FindActive(t.handle, u);
      done := k.Some?;
      if done { MoveEntry(u, k.value, handle); }
    }

    // ---- Packets from the network ----

    /** handleAcnetReply */
    method HandleReply(h: Header)
      requires Valid() && Inv(c, Snap(), {})
      modifies Repr
      ensures Valid() && Repr == old(Repr) && Snap() == NetReply(c, old(Snap()), h)
    {
      ghost var s := Snap();
      var slot := RequestEntry(h.msgId);
      var fits := false;
      if slot.Some? {
        ReqOwnerKnown(c, s, {}, slot.value);
        var r := RequestAt(slot.value);
        var t := InfoOfTask(r.owner);
        fits := (h.server == r.remNode || r.mcast) && h.task == r.taskName && h.taskId == t.id;
        if fits { HandleFittingReply(h, slot.value, r); }
      }
      if !fits { SendDataToNetwork(StrayCancel(h)); }
    }

    /** handleAcnetReply for a reply that belongs to an open request. */
    method HandleFittingReply(h: Header, i: nat, r: Req)
      requires Valid() && Inv(c, Snap(), {})
      requires Slot(Snap().reqs.pool, c.reqBank, h.msgId) == Some(i) && i in reqPool.view.slots
               && r == reqPool.view.slots[i]
      requires ReplyFits(Snap(), r, h) && r.owner in objects.view.infos
      modifies Repr
      ensures Valid() && Repr == old(Repr) && Snap() == NetReply(c, old(Snap()), h)
    {
      ghost var s := Snap();
      AskedInv(c, s, {});
      ReqOwner(c, s, i);
      var alive := StillAlive(r.owner);
      if alive {
        TouchReqInv(c, Asked(s), i);
        UpdateReq(i);
        if h.status != PEND { PassOn(h, i, r); }
      } else {
        DeadOwnerMayGo(c, s, r.owner);
        RemoveTask(r.owner);
      }
    }

    /** The reply goes to the client, and the request is perhaps over. */
    method PassOn(h: Header, i: nat, r: Req)
      requires Valid() && Inv(c, Snap(), {}) && h.msgId == c.reqBank + i
      requires i in reqPool.view.slots && r == reqPool.view.slots[i] && r.owner in objects.view.infos
      modifies Repr
      ensures Valid() && Repr == old(Repr)
      ensures var s1 := old(Snap());
              var s2, mult, emr := Hand(c, s1, r, ReplyForClient(r, h)), Mlt(r.flags), IsEmr(h);
              Snap() == if !Alive(c, s1, r.owner) then Daemon.CancelReqId(c, s2, h.msgId, mult || r.mcast, false)
                        else if !mult || (!r.mcast && emr)
                        then Daemon.CancelReqId(c, s2, h.msgId, !mult && (!emr || r.mcast), false)
                        else s2
    {
      var A, B, C := Mlt(r.flags), r.mcast, IsEmr(h);
      var g := h;
      if A && C {
        if B {
          g := g.(flags := SetMlt(g.flags));
          if g.status == ENDMULT { g := g.(status := SUCCESS); }
        } else {
          g := g.(flags := ClearMlt(g.flags));
          if g.status == SUCCESS { g := g.(status := ENDMULT); }
        }
      }
      var ok := SendReplyToClient(r, g);
      if ok {
        if !A || (!B && C) { EndRequest(h.msgId, i, !A && (!C || B)); }
      } else {
        EndRequest(h.msgId, i, A || B);
      }
    }

    /** cancelReqId for a request that was just answered. */
    method EndRequest(id: nat, i: nat, xmt: bool)
      requires Valid() && id == c.reqBank + i && i in reqPool.view.slots
               && reqPool.view.slots[i].owner in objects.view.infos
      modifies Repr
      ensures Valid() && Repr == old(Repr)
      ensures Snap() == Daemon.CancelReqId(c, old(Snap()), id, xmt, false)
    {
      assert id - c.reqBank == i;
      var r := RequestAt(i);
      var t := InfoOfTask(r.owner);
      if xmt {
        SendDataToNetwork(Header(FLG_CAN, SUCCESS, r.remNode, r.lclNode, r.taskName, t.id, id, HEADER_SIZE));
      }
      ReleaseReq(i);
    }

    /** The reply is no longer pending with its client, and its slot is free. */
    method EndCancelled(i: nat, r: Rpy) returns (id: nat)
      requires Valid() && Inv(c, Snap(), {}) && i in rpyPool.view.slots && r == rpyPool.view.slots[i]
      modifies Repr
      ensures Valid() && Repr == old(Repr) && id == c.rpyBank + i && id - c.rpyBank == i
      ensures var s1 := if r.acked then old(Snap()) else DecPending(old(Snap()), r.owner);
              Snap() == Daemon.EndRpyId(c, s1, id, SUCCESS) && Inv(c, Snap(), {}) && Snap().reg == old(Snap()).reg
    {
      RpyOwnerKnown(c, Snap(), {}, i);
      id := ReplyId(i);
      DecPendingInv(c, Snap(), r.owner);
      if !r.acked { var counted := DecrementPendingRequests(r.owner); }
      EndRpyIdInv(c, Snap(), {}, id, SUCCESS);
      EndRpyId(id, SUCCESS, {});
    }

    /** One round of handleAcnetCancel, for a reply that the CANCEL names. */
    method CancelReply(h: Header, i: nat, r: Rpy)
      requires Valid() && Inv(c, Snap(), {}) && FindLink(Snap().rpys.links, h.client, h.msgId) == Some(i)
      requires i in rpyPool.view.slots && r == rpyPool.view.slots[i] && Names(h, r)
      modifies Repr
      ensures Valid() && Repr == old(Repr) && Snap() == NetCancel(c, old(Snap()), h)
    {
      ghost var s := Snap();
      RpyOwner(c, s, i);
      var id := EndCancelled(i, r);
      ghost var s2 := Snap();
      NetCancelIs(c, s, h, i, s2);
      TellInv(c, s2, {}, r.owner, h.(status := AsStatus(id)));
      var ok := SendDataToClient(r.owner, h.(status := AsStatus(id)));
      if !ok { DeadOwnerMayGo(c, s2, r.owner); }
      RemoveUnless(ok, r.owner);
    }

    /** handleAcnetCancel, whose loop has one round at most. */
    method HandleCancel(h: Header)
      requires Valid() && Inv(c, Snap(), {})
      modifies Repr
      ensures Valid() && Repr == old(Repr) && Snap() == NetCancel(c, old(Snap()), h)
    {
      ghost var s := Snap();
      var slot := FindLink(activeMap, h.client, h.msgId);
      while slot.Some?
        invariant Valid() && Repr == old(Repr) && slot == FindLink(Snap().rpys.links, h.client, h.msgId)
        invariant if slot.Some? then Snap() == s else Snap() == NetCancel(c, s, h)
        decreases if slot.Some? then 1 else 0
      {
        FoundIsInUse(c, s, h.client, h.msgId, slot.value);
        var r := ReplyAt(slot.value);
        if h.task != r.taskName || h.client != r.remNode || h.taskId != r.taskId { return; }
        CancelErasesKey(c, s, h, slot.value);
        CancelReply(h, slot.value, r);
        slot := FindLink(activeMap, h.client, h.msgId);
      }
    }

    method AcceptsRequestsOf(u: nat) returns (yes: bool)
      requires Valid() && u in objects.view.infos
      ensures yes == AcceptsRequests(Snap(), u)
    {
      assert PartOk(TaskInfos);
      var t := InfoOfTask(u);
      var l := objects.LiveOfTask(u);
      yes := t.kind.Internal? || (!t.kind.Multicast? && l.receiving);
    }

    method CountPending(u: nat)
      requires Valid() && u in objects.view.infos
      modifies Repr
      ensures Valid() && Repr == old(Repr) && Snap() == IncPending(old(Snap()), u)
    {
      Open();
      objects.TestPendingRequestsAndIncrement(u);
    }

    /** A request goes to a task that is alive and accepts requests. */
    method DeliverRequest(u: nat, h: Header) returns (result: int)
      requires Valid() && Inv(c, Snap(), {}) && Registered(Snap().reg, u)
      modifies Repr
      ensures Valid() && Repr == old(Repr) && (Snap(), result) == Deliver(c, old(Snap()), u, h)
    {
      IsObject(c, Snap(), u);
      IncPendingInv(c, Snap(), u);
      CountPending(u);
      result := DeliverCountedRequest(u, h);
    }

    method DeliverCountedRequest(u: nat, h: Header) returns (result: int)
      requires Valid() && Inv(c, Snap(), {}) && Registered(Snap().reg, u)
      modifies Repr
      ensures Valid() && Repr == old(Repr) && (Snap(), result) == DeliverCounted(c, old(Snap()), u, h)
    {
      IsObject(c, Snap(), u);
      var slot := AllocRpy(u, h);
      if slot.Some? {
        result := Offer(u, h, slot.value, old(Snap()));
      } else {
        result := NOREMMEM;
        var counted := DecrementPendingRequests(u);
      }
    }

    /** What follows once the reply slot is there. */
    method Offer(u: nat, h: Header, i: nat, ghost s: State) returns (result: int)
      requires Valid() && Inv(c, s, {}) && Registered(s.reg, u)
      requires s.rpys.pool.free != [] && i == s.rpys.pool.free[0] && Snap() == Offered(c, s, u, h)
      modifies Repr
      ensures Valid() && Repr == old(Repr) && (Snap(), result) == DeliverCounted(c, s, u, h)
    {
      OfferedInv(c, s, u, h);
      OfferedSame(c, s, u, h);
      IsObject(c, Snap(), u);
      result := OfferToClient(u, h, i);
      if result != SUCCESS { var counted := DecrementPendingRequests(u); }
    }

    method OfferToClient(u: nat, h: Header, i: nat) returns (result: int)
      requires Valid() && Inv(c, Snap(), {}) && i in rpyPool.view.slots && u in objects.view.infos
      modifies Repr
      ensures Valid() && Repr == old(Repr)
      ensures (Snap(), result) == HandOver(c, old(Snap()), u, h, i) && u in objects.view.infos
    {
      var id := ReplyId(i);
      var t := InfoOfTask(u);
      TellInv(c, Snap(), {}, u, h.(status := AsStatus(id)));
      HandOverIs(c, Snap(), u, h, i, Tell(c, Snap(), u, h.(status := AsStatus(id))));
      var ok := SendDataToClient(u, h.(status := AsStatus(id)));
      if t.kind.Internal? {
        AnswerAtOnce(i);
        return SUCCESS;
      }
      if ok { return SUCCESS; }
      EndRpyIdInv(c, Snap(), {}, id, DISCONNECTED);
      EndRpyId(id, DISCONNECTED, {});
      result := BUSY;
    }

    /** sendLastReply of the internal task, called before its sendDataToClient returns. */
    method AnswerAtOnce(i: nat)
      requires Valid() && Inv(c, Snap(), {}) && i in rpyPool.view.slots
      modifies Repr
      ensures Valid() && Repr == old(Repr) && Snap() == Daemon.AnswerAtOnce(c, old(Snap()), i)
      ensures objects.view.infos == old(objects.view.infos)
    {
      ghost var s := Snap();
      RpyOwnerKnown(c, s, {}, i);
      var r := ReplyAt(i);
      var a := AnswerOf(c, asked);
      SendReplyPacket(r, Header(FLG_RPY, a.status, r.lclNode, r.remNode, r.taskName, r.taskId, r.reqId,
                                HEADER_SIZE + Padded(a.n)));
      ReleaseEnded(i);
      AnsweredIs(c, s, i);
    }

    /** One round of the loop of handleAcnetRequest. */
    method DeliverToTask(u: nat, h: Header) returns (alive: bool)
      requires Valid() && Inv(c, Snap(), {}) && Registered(Snap().reg, u)
      modifies Repr
      ensures Valid() && Repr == old(Repr) && (Snap(), alive) == DeliverTo(c, old(Snap()), u, h)
    {
      IsObject(c, Snap(), u);
      AskedInv(c, Snap(), {});
      alive := StillAlive(u);
      if !alive { return; }
      var accepts := AcceptsRequestsOf(u);
      var result := NCR;
      if accepts { result := DeliverRequest(u, h); }
      if result != SUCCESS {
        if h.server !in c.mcastNodes { SendDataToNetwork(ErrorReply(h, result)); }
      }
    }

    /** handleAcnetRequest */
    method HandleRequest(h: Header)
      requires Valid() && Inv(c, Snap(), {})
      modifies Repr
      ensures Valid() && Repr == old(Repr) && Snap() == NetRequest(c, old(Snap()), h)
    {
      ghost var s := Snap();
      var us := TasksOf(active, h.task);
      var mcast := h.server in c.mcastNodes;
      if us == [] {
        if !mcast { SendDataToNetwork(ErrorReply(h, NOTASK)); }
        return;
      }
      TasksOfRegistered(c, s, h.task);
      DeliverAllInv(c, s, us, h);
      var sendError, deadTask := DeliverToAll(us, h);
      SentInv(c, Snap(), ErrorReply(h, NOTASK));
      if sendError {
        if !mcast { SendDataToNetwork(ErrorReply(h, NOTASK)); }
      }
      if deadTask.Some? {
        ClientMayGo(c, s, us, deadTask.value);
        RemoveTask(deadTask.value);
      }
    }

    method DeliverToAll(us: seq<nat>, h: Header) returns (sendError: bool, deadTask: Option<nat>)
      requires Valid() && Inv(c, Snap(), {}) && AllRegistered(Snap().reg, us)
      modifies Repr
      ensures Valid() && Repr == old(Repr)
      ensures (Snap(), !sendError, deadTask) == DeliverAll(c, old(Snap()), us, h)
    {
      ghost var s := Snap();
      sendError, deadTask := true, None;
      var ii := 0;
      while ii < |us|
        invariant 0 <= ii <= |us| && Valid() && Repr == old(Repr)
        invariant (Snap(), !sendError, deadTask) == DeliverAll(c, s, us[..ii], h)
      {
        DeliverAllInv(c, s, us[..ii], h);
        assert us[..ii + 1][..ii] == us[..ii];
        var alive := DeliverToTask(us[ii], h);
        if alive { sendError := false; } else { deadTask := Some(us[ii]); }
        ii := ii + 1;
      }
      assert us[..ii] == us;
    }

    // ---- Nodes that went away ----

    /** The search of cancelReqToNode: the lowest slot in use for the node. */
    method FindReqTo(node: nat) returns (r: Option<nat>)
      requires Valid() && Inv(c, Snap(), {})
      ensures r == FirstReqTo(Snap().reqs.pool, node, 0, c.size)
    {
      assert PartOk(ReqPool);
      ReqSlotsBelow(c, Snap());
      r := reqPool.Next(0);
      FirstReqSkips(reqPool.view, node, 0, if r.Some? then r.value else c.size, c.size);
      while r.Some?
        invariant r.Some? ==> r.value in reqPool.view.slots && r.value < c.size
        invariant FirstReqTo(Snap().reqs.pool, node, 0, c.size)
               == if r.Some? then FirstReqTo(Snap().reqs.pool, node, r.value, c.size) else None
        decreases if r.Some? then c.size - r.value else -1
      {
        var q := RequestAt(r.value);
        if q.remNode == node { return; }
        ghost var from := r.value + 1;
        r := reqPool.Next(r.value + 1);
        FirstReqSkips(reqPool.view, node, from, if r.Some? then r.value else c.size, c.size);
      }
    }

    method FindRpyTo(node: nat) returns (r: Option<nat>)
      requires Valid() && Inv(c, Snap(), {})
      ensures r == FirstRpyTo(Snap().rpys.pool, node, 0, c.size)
    {
      assert PartOk(RpyPool);
      RpySlotsBelow(c, Snap());
      r := rpyPool.Next(0);
      FirstRpySkips(rpyPool.view, node, 0, if r.Some? then r.value else c.size, c.size);
      while r.Some?
        invariant r.Some? ==> r.value in rpyPool.view.slots && r.value < c.size
        invariant FirstRpyTo(Snap().rpys.pool, node, 0, c.size)
               == if r.Some? then FirstRpyTo(Snap().rpys.pool, node, r.value, c.size) else None
        decreases if r.Some? then c.size - r.value else -1
      {
        var q := ReplyAt(r.value);
        if q.remNode == node { return; }
        ghost var from := r.value + 1;
        r := rpyPool.Next(r.value + 1);
        FirstRpySkips(rpyPool.view, node, from, if r.Some? then r.value else c.size, c.size);
      }
    }

    /** RequestPool::cancelReqToNode, which stops after the first request it finds. */
    method CancelReqToNode(node: nat)
      requires Valid() && Inv(c, Snap(), {})
      modifies Repr
      ensures Valid() && Repr == old(Repr) && Snap() == Daemon.CancelReqToNode(c, old(Snap()), node)
    {
      var slot := FindReqTo(node);
      if slot.Some? { DisconnectRequest(slot.value); }
    }

    /** The client is told that the request is disconnected, and the slot is released. */
    method DisconnectRequest(i: nat)
      requires Valid() && Inv(c, Snap(), {}) && i in reqPool.view.slots
      modifies Repr
      ensures Valid() && Repr == old(Repr)
      ensures var s, r := old(Snap()), old(Snap()).reqs.pool.slots[i];
              var s1 := Hand(c, s, r, LocalReply(c, s, r, c.reqBank + i, FLG_RPY, DISCONNECTED));
              var s2 := s1.(reqs := DropReq(c, s1.reqs, i));
              Snap() == if Alive(c, s, r.owner) then s2 else Daemon.RemoveTask(c, s2, r.owner)
    {
      ghost var s := Snap();
      ReqOwner(c, s, i);
      var r := RequestAt(i);
      var ok := EndDisconnected(i, r);
      if !ok { DeadOwnerMayGo(c, s, r.owner); }
      RemoveUnless(ok, r.owner);
    }

    method EndDisconnected(i: nat, r: Req) returns (ok: bool)
      requires Valid() && Inv(c, Snap(), {}) && i in reqPool.view.slots && r == reqPool.view.slots[i]
      modifies Repr
      ensures Valid() && Repr == old(Repr) && ok == Alive(c, old(Snap()), r.owner)
      ensures var s := old(Snap());
              var s1 := Hand(c, s, r, LocalReply(c, s, r, c.reqBank + i, FLG_RPY, DISCONNECTED));
              Snap() == s1.(reqs := DropReq(c, s1.reqs, i)) && Inv(c, Snap(), {})
    {
      ghost var s := Snap();
      ReqOwnerKnown(c, s, {}, i);
      var id := RequestId(i);
      var t := InfoOfTask(r.owner);
      var h := Header(FLG_RPY, DISCONNECTED, r.remNode, r.lclNode, r.taskName, t.id, id, HEADER_SIZE);
      HandAndDropInv(c, s, {}, i, h);
      ok := SendReplyToClient(r, h);
      ReleaseReq(i);
    }

    /** ReplyPool::endRpyToNode, which stops after the first reply it finds. */
    method EndRpyToNode(node: nat)
      requires Valid() && Inv(c, Snap(), {})
      modifies Repr
      ensures Valid() && Repr == old(Repr) && Snap() == Daemon.EndRpyToNode(c, old(Snap()), node)
    {
      ghost var s := Snap();
      var slot := FindRpyTo(node);
      if slot.Some? {
        RpyOwnerKnown(c, s, {}, slot.value);
        RpyOwner(c, s, slot.value);
        var r := ReplyAt(slot.value);
        var h := Header(FLG_CAN, SUCCESS, r.lclNode, r.remNode, r.taskName, r.taskId, r.reqId, HEADER_SIZE);
        TellInv(c, s, {}, r.owner, h);
        var ok := SendDataToClient(r.owner, h);
        DropRpyInv(c, Snap(), {}, slot.value);
        ReleaseRpy(slot.value);
        if !ok { DeadOwnerMayGo(c, s, r.owner); }
        RemoveUnless(ok, r.owner);
      }
    }

    // ---- Time-outs ----

    method OldestRequest() returns (req: Option<nat>, expiration: int)
      requires Valid()
      ensures OldestOf(Snap().reqs.pool.order, Snap().reqs.pool.due, req, expiration)
      ensures req.Some? ==> req.value in reqPool.view.slots
    {
      AtReqPool();
      req, expiration := reqPool.Oldest();
    }

    method OldestReply() returns (rpy: Option<nat>, expiration: int)
      requires Valid()
      ensures OldestOf(Snap().rpys.pool.order, Snap().rpys.pool.due, rpy, expiration)
      ensures rpy.Some? ==> rpy.value in rpyPool.view.slots
    {
      AtRpyPool();
      rpy, expiration := rpyPool.Oldest();
    }

    /** A request slot is due. */
    method TimeOut(i: nat)
      requires Valid() && Inv(c, Snap(), {}) && i in reqPool.view.slots
      modifies Repr
      ensures Valid() && Repr == old(Repr) && Snap() == ExpireReq(c, old(Snap()), i)
    {
      ghost var s := Snap();
      ReqOwner(c, s, i);
      ExpireReqParts(c, s, i);
      ExpiredInv(c, s, i);
      var r := RequestAt(i);
      var ok := TellTimeOut(i, r);
      if !ok { DeadOwnerMayGo(c, s, r.owner); }
      RemoveUnless(ok, r.owner);
    }

    /** The client is told, and the request is over or gets a new time-out. */
    method TellTimeOut(i: nat, r: Req) returns (ok: bool)
      requires Valid() && Inv(c, Snap(), {}) && i in reqPool.view.slots && r == reqPool.view.slots[i]
      modifies Repr
      ensures Valid() && Repr == old(Repr)
      ensures Snap() == Expired(c, old(Snap()), i) && ok == Alive(c, old(Snap()), r.owner)
    {
      ReqOwnerKnown(c, Snap(), {}, i);
      var id := RequestId(i);
      var t := InfoOfTask(r.owner);
      var mult := Mlt(r.flags);
      ok := SendReplyToClient(r, Header(if mult then FLG_RPY + FLG_MLT else FLG_RPY, if mult then PEND else TMO,
                                        r.remNode, r.lclNode, r.taskName, t.id, id, HEADER_SIZE));
      if !mult { EndRequest(id, i, true); } else { UpdateReq(i); }
    }

    /** RequestPool::sendRequestTimeoutsAndGetNextTimeout */
    method SendRequestTimeoutsAndGetNextTimeout() returns (t: int)
      requires Valid() && Inv(c, Snap(), {})
      modifies Repr
      ensures Valid() && Repr == old(Repr) && (Snap(), t) == ReqTimeouts(c, old(Snap()))
    {
      var req, expiration := OldestRequest();
      while req.Some?
        invariant Valid() && Repr == old(Repr) && Inv(c, Snap(), {})
        invariant OldestOf(Snap().reqs.pool.order, Snap().reqs.pool.due, req, expiration)
        invariant req.Some? ==> req.value in reqPool.view.slots
        invariant ReqTimeouts(c, old(Snap())) == ReqTimeouts(c, Snap())
        decreases Overdue(Snap().reqs.pool.order, Snap().reqs.pool.due, Snap().now)
      {
        TimeoutsEnd(c, Snap(), req, expiration);
        if expiration > now { return expiration - now; }
        req, expiration := TimeOutFirst(req.value);
      }
      TimeoutsEnd(c, Snap(), req, expiration);
      return -1;
    }

    /** One round: the oldest request is due. */
    method TimeOutFirst(i: nat) returns (req: Option<nat>, expiration: int)
      requires Valid() && Inv(c, Snap(), {}) && i in reqPool.view.slots
      requires Snap().reqs.pool.order != [] && i == Snap().reqs.pool.order[0] && Due(Snap().reqs.pool.due, i) <= now
      modifies Repr
      ensures Valid() && Repr == old(Repr) && Inv(c, Snap(), {})
      ensures OldestOf(Snap().reqs.pool.order, Snap().reqs.pool.due, req, expiration)
      ensures req.Some? ==> req.value in reqPool.view.slots
      ensures ReqTimeouts(c, old(Snap())) == ReqTimeouts(c, Snap())
      ensures var p, q := old(Snap()).reqs.pool, Snap().reqs.pool;
              Overdue(q.order, q.due, Snap().now) < Overdue(p.order, p.due, old(Snap()).now)
    {
      ExpireReqInv(c, Snap(), i);
      TimeOut(i);
      req, expiration := OldestRequest();
    }

    /** ReplyPool::sendReplyPendsAndGetNextTimeout */
    method SendReplyPendsAndGetNextTimeout() returns (t: int)
      requires Valid() && Inv(c, Snap(), {})
      modifies Repr
      ensures Valid() && Repr == old(Repr) && (Snap(), t) == RpyPends(c, old(Snap()))
    {
      var rpy, expiration := OldestReply();
      while rpy.Some?
        invariant Valid() && Repr == old(Repr) && Inv(c, Snap(), {})
        invariant OldestOf(Snap().rpys.pool.order, Snap().rpys.pool.due, rpy, expiration)
        invariant rpy.Some? ==> rpy.value in rpyPool.view.slots
        invariant RpyPends(c, old(Snap())) == RpyPends(c, Snap())
        decreases Overdue(Snap().rpys.pool.order, Snap().rpys.pool.due, Snap().now)
      {
        PendsEnd(c, Snap(), rpy, expiration);
        if expiration > now { return expiration - now; }
        rpy, expiration := PendFirst(rpy.value);
      }
      PendsEnd(c, Snap(), rpy, expiration);
      return -1;
    }

    /** One round: the oldest reply is due. */
    method PendFirst(i: nat) returns (rpy: Option<nat>, expiration: int)
      requires Valid() && Inv(c, Snap(), {}) && i in rpyPool.view.slots
      requires Snap().rpys.pool.order != [] && i == Snap().rpys.pool.order[0] && Due(Snap().rpys.pool.due, i) <= now
      modifies Repr
      ensures Valid() && Repr == old(Repr) && Inv(c, Snap(), {})
      ensures OldestOf(Snap().rpys.pool.order, Snap().rpys.pool.due, rpy, expiration)
      ensures rpy.Some? ==> rpy.value in rpyPool.view.slots
      ensures RpyPends(c, old(Snap())) == RpyPends(c, Snap())
      ensures var p, q := old(Snap()).rpys.pool, Snap().rpys.pool;
              Overdue(q.order, q.due, Snap().now) < Overdue(p.order, p.due, old(Snap()).now)
    {
      PendRound(c, Snap(), i);
      RpyOwnerKnown(c, Snap(), {}, i);
      var repDone := XmitReply(i, PEND, 0, false);
      rpy, expiration := OldestReply();
    }

    // ---- Commands of clients ----

    /** sendAckToClient, and removing the task if it cannot be reached. */
    method SendAck(u: nat)
      requires Valid() && Inv(c, Snap(), {}) && MayGo(Snap().reg, u)
      modifies Repr
      ensures Valid() && Repr == old(Repr) && Snap() == Ack(c, old(Snap()), u)
    {
      AskedInv(c, Snap(), {});
      var ok := StillAlive(u);
      if !ok { RemoveTask(u); }
    }

    /** handleSendRequestWithTimeout, for a payload of n bytes to a node with an address. */
    method HandleSendRequest(u: nat, taskName: nat, node: nat, flags: nat, tmo: nat, n: nat)
      requires Valid() && Inv(c, Snap(), {}) && Registered(Snap().reg, u)
      modifies Repr
      ensures Valid() && Repr == old(Repr) && Snap() == SendRequest(c, old(Snap()), u, taskName, node, flags, tmo, n)
    {
      ghost var s := Snap();
      IsObject(c, s, u);
      var t := InfoOfTask(u);
      var slot := AllocReq(u, taskName, node, flags, tmo);
      if slot.Some? {
        var h := Header(if Mlt(flags) then FLG_REQ + FLG_MLT else FLG_REQ, SUCCESS, node, c.node, taskName, t.id,
                        c.reqBank + slot.value, HEADER_SIZE + Padded(n));
        SendRequestIs(c, s, u, taskName, node, flags, tmo, n, h, t.id);
        SendDataToNetwork(h);
      }
    }

    method HandleCancelCommand(u: nat, id: nat)
      requires Valid() && Inv(c, Snap(), {}) && u in objects.view.infos
      modifies Repr
      ensures Valid() && Repr == old(Repr) && Snap() == CancelCommand(c, old(Snap()), u, id)
    {
      var slot := RequestEntry(id);
      if slot.Some? {
        ReqOwnerKnown(c, Snap(), {}, slot.value);
        var r := RequestAt(slot.value);
        var own := TaskEquals(r.owner, u);
        if own { var found := CancelReqId(id, true, false, {}); }
      }
    }

    method HandleRequestAck(u: nat, id: nat)
      requires Valid() && Inv(c, Snap(), {}) && u in objects.view.infos
      modifies Repr
      ensures Valid() && Repr == old(Repr) && Snap() == AckCommand(c, old(Snap()), u, id)
    {
      var accepts := AcceptsRequestsOf(u);
      if accepts {
        var slot := ReplyEntry(id);
        if slot.Some? {
          RpyOwnerKnown(c, Snap(), {}, slot.value);
          var r := ReplyAt(slot.value);
          var own := TaskEquals(r.owner, u);
          if own {
            if !r.acked { var counted := DecrementPendingRequests(u); }
            AckIt(slot.value);
          }
        }
      }
    }

    method HandleIgnoreRequest(u: nat, id: nat)
      requires Valid() && Inv(c, Snap(), {}) && u in objects.view.infos
      modifies Repr
      ensures Valid() && Repr == old(Repr) && Snap() == Obey(c, old(Snap()), u, Ignore(id))
    {
      var accepts := AcceptsRequestsOf(u);
      if accepts { EndRpyId(id, SUCCESS, {}); }
    }

    method SetReceivingOf(u: nat, on: bool)
      requires Valid() && u in objects.view.infos
      modifies Repr
      ensures Valid() && Repr == old(Repr) && Snap() == SetReceiving(old(Snap()), u, on)
    {
      Open();
      objects.SetReceiving(u, on);
    }

    /** handleBlockRequests of local and remote tasks. */
    method HandleBlockRequests(u: nat)
      requires Valid() && Inv(c, Snap(), {}) && u in objects.view.infos
      modifies Repr
      ensures Valid() && Repr == old(Repr)
      ensures Snap() == DrainRpys(c, SetReceiving(old(Snap()), u, false), u, DISCONNECTED)
    {
      SetReceivingInv(c, Snap(), u, false);
      SetReceivingOf(u, false);
      EndReplies(u, DISCONNECTED, {});
    }

    method CommandReceived(u: nat)
      requires Valid() && u in objects.view.infos
      modifies Repr
      ensures Valid() && Repr == old(Repr)
      ensures Snap() == old(Snap()).(live := old(Snap()).live[u := LiveOf(old(Snap()), u).(lastCommand := now)])
    {
      Open();
      objects.CommandReceived(u, now);
    }

    /** What a command does before it is acknowledged. */
    method ObeyCommand(u: nat, cmd: Command)
      requires Valid() && Inv(c, Snap(), {}) && Registered(Snap().reg, u) && u != 0 && Fresh(Snap(), u)
      modifies Repr
      ensures Valid() && Repr == old(Repr) && Snap() == Obey(c, old(Snap()), u, cmd)
    {
      match cmd
      case RenameTo(_) | Request(_, _, _, _, _) | Cancel(_) => ObeyRequester(u, cmd);
      case Receive => HandleReceiving(u, true);
      case Block => HandleReceiving(u, false);
      case Reply(_, _, _, _) | Ignore(_) | AckRequest(_) => ObeyReplier(u, cmd);
      case _ =>
    }

    /** The commands that are about the task's name and its requests. */
    method ObeyRequester(u: nat, cmd: Command)
      requires Valid() && Inv(c, Snap(), {}) && Registered(Snap().reg, u) && u != 0 && Fresh(Snap(), u)
      requires cmd.RenameTo? || cmd.Request? || cmd.Cancel?
      modifies Repr
      ensures Valid() && Repr == old(Repr) && Snap() == Obey(c, old(Snap()), u, cmd)
    {
      IsObject(c, Snap(), u);
      match cmd
      case RenameTo(handle) => var done := Rename(u, handle);
      case Request(taskName, node, flags, tmo, n) => HandleSendRequest(u, taskName, node, flags, tmo, n);
      case Cancel(id) => HandleCancelCommand(u, id);
    }

    /** The commands that are about a request received. */
    method ObeyReplier(u: nat, cmd: Command)
      requires Valid() && Inv(c, Snap(), {}) && Registered(Snap().reg, u) && u != 0
      requires cmd.Reply? || cmd.Ignore? || cmd.AckRequest?
      modifies Repr
      ensures Valid() && Repr == old(Repr) && Snap() == Obey(c, old(Snap()), u, cmd)
    {
      IsObject(c, Snap(), u);
      match cmd
      case Reply(id, status, n, emr) => var found := SendReplyToNetwork(u, id, status, n, emr);
      case Ignore(id) => HandleIgnoreRequest(u, id);
      case AckRequest(id) => HandleRequestAck(u, id);
    }

    /** handleReceiveRequests and handleBlockRequests, which only local and remote tasks have. */
    method HandleReceiving(u: nat, on: bool)
      requires Valid() && Inv(c, Snap(), {}) && Registered(Snap().reg, u)
      modifies Repr
      ensures Valid() && Repr == old(Repr) && Snap() == Obey(c, old(Snap()), u, if on then Receive else Block)
    {
      IsObject(c, Snap(), u);
      var t := InfoOfTask(u);
      if t.kind.Local? || t.kind.Remote? {
        if on { SetReceivingOf(u, true); } else { HandleBlockRequests(u); }
      }
    }

    /** ExternalTask::handleClientCommand */
    method HandleClientCommand(u: nat, cmd: Command)
      requires Valid() && Inv(c, Snap(), {}) && Registered(Snap().reg, u) && External(Snap().reg, u)
      modifies Repr
      ensures Valid() && Repr == old(Repr) && Snap() == ClientCommand(c, old(Snap()), u, cmd)
    {
      ghost var s := Snap();
      ClientIsNotInternal(c, s, u);
      IsObject(c, s, u);
      LiveInv(c, s, u, LiveOf(s, u).(lastCommand := s.now));
      CommandReceived(u);
      CommandIs(c, s, u, cmd, Snap());
      match cmd
      case Disconnect => HandleDisconnect(u, false);
      case DisconnectSingle => HandleDisconnect(u, true);
      case _ => ObeyAndAck(u, cmd);
    }

    /** handleDisconnect and handleDisconnectSingle: the acknowledgement goes out first. */
    method HandleDisconnect(u: nat, single: bool)
      requires Valid() && Inv(c, Snap(), {}) && Registered(Snap().reg, u) && u != 0
      modifies Repr
      ensures Valid() && Repr == old(Repr)
      ensures Snap() == if single then RemoveOnly(c, Asked(old(Snap())), u, DISCONNECTED, false)
                        else Daemon.RemoveTask(c, Asked(old(Snap())), u)
    {
      IsObject(c, Snap(), u);
      AskedInv(c, Snap(), {});
      var ok := StillAlive(u);
      if single { RemoveOnlyThisTask(u, DISCONNECTED, false); } else { RemoveTask(u); }
    }

    /** Any other command is done and acknowledged. */
    method ObeyAndAck(u: nat, cmd: Command)
      requires Valid() && Inv(c, Snap(), {}) && Registered(Snap().reg, u) && u != 0 && Fresh(Snap(), u)
      modifies Repr
      ensures Valid() && Repr == old(Repr) && Snap() == Ack(c, Obey(c, old(Snap()), u, cmd), u)
    {
      ObeyInv(c, Snap(), u, cmd);
      ObeyCommand(u, cmd);
      SendAck(u);
    }

    // ---- Whatever happens ----

    method SetNow(time: int)
      requires Valid()
      modifies Repr
      ensures Valid() && Repr == old(Repr) && Snap() == old(Snap()).(now := time)
    {
      Open();
      now := time;
    }

    method IsClient(u: nat) returns (yes: bool)
      requires Valid() && Inv(c, Snap(), {})
      ensures yes == (External(Snap().reg, u) && Registered(Snap().reg, u))
    {
      assert PartOk(TaskInfos);
      var known := objects.Knows(u);
      if !known { return false; }
      var t := InfoOfTask(u);
      if t.id < c.maxTasks {
        var listed := TaskAt(t.id);
        yes := !t.kind.Internal? && listed == Some(u);
      } else {
        NoneBeyond(c, Snap(), t.id);
        yes := false;
      }
    }

    /** A node is no longer in the node table. */
    method HandleNodeGone(node: nat)
      requires Valid() && Inv(c, Snap(), {})
      modifies Repr
      ensures Valid() && Repr == old(Repr) && Snap() == Step(c, old(Snap()), NodeGone(node))
    {
      CancelReqToNodeInv(c, Snap(), node);
      CancelReqToNode(node);
      EndRpyToNode(node);
    }

    /** One step of the daemon. */
    method Handle(e: Input)
      requires Valid() && Inv(c, Snap(), {})
      modifies Repr
      ensures Valid() && fresh(Repr - old(Repr))
      ensures Snap() == Step(c, old(Snap()), e) && Inv(c, Snap(), {})
      ensures Reachable(c, old(Snap())) ==> Reachable(c, Snap())
    {
      StepInv(c, Snap(), e);
      StepReaches(c, Snap(), e);
      HandleInput(e);
    }

    method ServeNext(es: seq<Input>, k: nat, ghost s: State)
      requires Valid() && Inv(c, Snap(), {}) && k < |es| && Snap() == Run(c, s, es[..k])
      modifies Repr
      ensures Valid() && fresh(Repr - old(Repr)) && Snap() == Run(c, s, es[..k + 1]) && Inv(c, Snap(), {})
      ensures Reachable(c, old(Snap())) ==> Reachable(c, Snap())
    {
      RunNext(c, s, es, k);
      Handle(es[k]);
    }

    method HandleInput(e: Input)
      requires Valid() && Inv(c, Snap(), {})
      modifies Repr
      ensures Valid() && fresh(Repr - old(Repr)) && Snap() == Step(c, old(Snap()), e)
    {
      match e
      case Connecting(_) | Commanded(_, _) => HandleMessage(e);
      case Requested(_) | Answered(_) | Cancelled(_) => HandlePacket(e);
      case RunTimeouts | RunPends | CheckTasks | Tick(_) | NodeGone(_) => HandleTimer(e);
    }

    method HandleMessage(e: Input)
      requires Valid() && Inv(c, Snap(), {}) && (e.Connecting? || e.Commanded?)
      modifies Repr
      ensures Valid() && fresh(Repr - old(Repr)) && Snap() == Step(c, old(Snap()), e)
    {
      match e
      case Connecting(cmd) => if cmd.pid != c.ownPid { var status, id := HandleConnect(cmd); }
      case Commanded(u, cmd) =>
        var known := IsClient(u);
        if known { HandleClientCommand(u, cmd); }
    }

    method HandleTimer(e: Input)
      requires Valid() && Inv(c, Snap(), {})
      requires e.RunTimeouts? || e.RunPends? || e.CheckTasks? || e.Tick? || e.NodeGone?
      modifies Repr
      ensures Valid() && Repr == old(Repr) && Snap() == Step(c, old(Snap()), e)
    {
      TimerStep(c, Snap());
      match e
      case Tick(t) => SetNow(t);
      case NodeGone(node) => HandleNodeGone(node);
      case RunTimeouts => var t := SendRequestTimeoutsAndGetNextTimeout();
      case RunPends => var t := SendReplyPendsAndGetNextTimeout();
      case CheckTasks => RemoveInactiveTasks();
    }

    /** handleAcnetPacket, for the packets that have to do with slots. */
    method HandlePacket(e: Input)
      requires Valid() && Inv(c, Snap(), {}) && (e.Requested? || e.Answered? || e.Cancelled?)
      modifies Repr
      ensures Valid() && Repr == old(Repr) && Snap() == Step(c, old(Snap()), e)
    {
      PacketStep(c, Snap(), e.h);
      match e
      case Requested(h) => HandleRequest(h);
      case Answered(h) => HandleReply(h);
      case Cancelled(h) => HandleCancel(h);
    }

    /** A run of the daemon: whatever happens, one thing after the other. */
    method Serve(es: seq<Input>)
      requires Valid() && Inv(c, Snap(), {})
      modifies Repr
      ensures Valid() && fresh(Repr - old(Repr)) && Snap() == Run(c, old(Snap()), es) && Inv(c, Snap(), {})
      ensures Reachable(c, old(Snap())) ==> Reachable(c, Snap())
    {
      var k := 0;
      assert es[..0] == [];
      while k < |es|
        invariant 0 <= k <= |es| && Valid() && fresh(Repr - old(Repr)) && Inv(c, Snap(), {})
        invariant Snap() == Run(c, old(Snap()), es[..k])
        invariant Reachable(c, old(Snap())) ==> Reachable(c, Snap())
      {
        ServeNext(es, k, old(Snap()));
        k := k + 1;
      }
      assert es[..k] == es;
    }
  }

  lemma InitialReaches(c: Config, now: int)
    ensures Reachable(c, Initial(c, now))
  {
    assert Initial(c, now) == Run(c, Initial(c, now), []);
  }

  lemma RunNext(c: Config, s: State, es: seq<Input>, k: nat)
    requires k < |es|
    ensures Run(c, s, es[..k + 1]) == Step(c, Run(c, s, es[..k]), es[k])
  {
    assert es[..k + 1][..k] == es[..k];
  }

  lemma StepReaches(c: Config, s: State, e: Input)
    ensures Reachable(c, s) ==> Reachable(c, Step(c, s, e))
  {
    if Reachable(c, s) { ReachableStep(c, s, e); }
  }

  /** The internal task's reply: the packet, and the end of the slot. */
  lemma AnsweredIs(c: Config, s: State, i: nat)
    requires i in s.rpys.pool.slots
    ensures var r, a := s.rpys.pool.slots[i], AnswerOf(c, s.asked);
            Daemon.AnswerAtOnce(c, s, i)
            == Note(s, Replied(r.serial, ReplyHeader(r, FLG_RPY, a.status, a.n))).(rpys := DropRpy(c, s.rpys, i))
  {
    assert c.rpyBank + i - c.rpyBank == i;
  }

  lemma TouchEntered(c: Config, s: State, r: Req, i: nat, s1: State)
    requires s.reqs.pool.free != [] && i == s.reqs.pool.free[0] && s1 == s.(reqs := EnterReq(c, s.reqs, r, i))
    ensures i in s1.reqs.pool.slots
    ensures s1.(reqs := TouchReq(s1.reqs, i, s1.now)) == Opened(c, s, r)
  {}

  lemma SendRequestIs(c: Config, s: State, u: nat, taskName: nat, node: nat, flags: nat, tmo: nat, n: nat, h: Header,
                      taskId: nat)
    requires s.reqs.pool.free != [] && taskId == InfoOf(s.reg, u).id
    requires h == Header(if Mlt(flags) then FLG_REQ + FLG_MLT else FLG_REQ, SUCCESS, node, c.node, taskName, taskId,
                         c.reqBank + s.reqs.pool.free[0], HEADER_SIZE + Padded(n))
    ensures SendRequest(c, s, u, taskName, node, flags, tmo, n)
         == Note(Opened(c, s, NewReq(c, s, u, taskName, node, flags, tmo)), Sent(h))
  {}

  lemma TimeoutsEnd(c: Config, s: State, req: Option<nat>, expiration: int)
    requires OldestOf(s.reqs.pool.order, s.reqs.pool.due, req, expiration)
    ensures req.None? ==> ReqTimeouts(c, s) == (s, -1)
    ensures req.Some? && req.value in s.reqs.pool.slots && expiration > s.now ==>
            ReqTimeouts(c, s) == (s, expiration - s.now)
  {}

  lemma PendsEnd(c: Config, s: State, rpy: Option<nat>, expiration: int)
    requires OldestOf(s.rpys.pool.order, s.rpys.pool.due, rpy, expiration)
    ensures rpy.None? ==> RpyPends(c, s) == (s, -1)
    ensures rpy.Some? && rpy.value in s.rpys.pool.slots && expiration > s.now ==>
            RpyPends(c, s) == (s, expiration - s.now)
  {}

  lemma OfferedIs(c: Config, s: State, u: nat, h: Header, r: Rpy, i: nat)
    requires s.rpys.pool.free != [] && i == s.rpys.pool.free[0] && r == NewRpy(c, s, u, h)
    ensures var q := EnterRpy(c, s.rpys, r, i);
            && i in q.pool.slots && q.pool.slots[i] == r
            && Offered(c, s, u, h) == s.(rpys := if r.mcast then q else TouchRpy(q, i, s.now))
  {}

  /** The ids of the next free slots are new to a task. */
  lemma NextIdIsNew(c: Config, s: State, u: nat)
    requires Inv(c, s, {}) && Registered(s.reg, u)
    ensures s.reqs.pool.free != [] ==> c.reqBank + s.reqs.pool.free[0] !in IdsOf(s.reqs.ids, u)
    ensures s.rpys.pool.free != [] ==> c.rpyBank + s.rpys.pool.free[0] !in IdsOf(s.rpys.ids, u)
  {
    if s.reqs.pool.free != [] && c.reqBank + s.reqs.pool.free[0] in IdsOf(s.reqs.ids, u) {
      OwnRequest(c, s, {}, u, c.reqBank + s.reqs.pool.free[0]);
      assert c.reqBank + s.reqs.pool.free[0] - c.reqBank == s.reqs.pool.free[0];
      NextSlotIsFree(c, s);
    }
    if s.rpys.pool.free != [] && c.rpyBank + s.rpys.pool.free[0] in IdsOf(s.rpys.ids, u) {
      OwnReply(c, s, {}, u, c.rpyBank + s.rpys.pool.free[0]);
      assert c.rpyBank + s.rpys.pool.free[0] - c.rpyBank == s.rpys.pool.free[0];
      NextSlotIsFree(c, s);
    }
  }

  lemma ReqOwnerKnown(c: Config, s: State, limbo: set<nat>, i: nat)
    requires Inv(c, s, limbo) && i in s.reqs.pool.slots
    ensures s.reqs.pool.slots[i].owner in s.reg.infos
  {
    ReqPart(c, s, limbo);
    RegPart(c, s, limbo);
  }

  lemma RpyOwnerKnown(c: Config, s: State, limbo: set<nat>, i: nat)
    requires Inv(c, s, limbo) && i in s.rpys.pool.slots
    ensures s.rpys.pool.slots[i].owner in s.reg.infos
  {
    RpyPart(c, s, limbo);
    RegPart(c, s, limbo);
  }

  /** Erasing one entry of a key first changes nothing for erasing them all. */
  lemma {:induction false} EraseAfterCut(links: seq<Link>, k: nat, node: nat, reqId: nat)
    requires k < |links| && links[k].node == node && links[k].reqId == reqId
    ensures EraseKey(Cut(links, k), node, reqId) == EraseKey(links, node, reqId)
  {
    if k == 0 {
      assert Cut(links, 0) == links[1..];
    } else {
      EraseAfterCut(links[1..], k - 1, node, reqId);
      assert Cut(links, k) == [links[0]] + Cut(links[1..], k - 1);
    }
  }

  lemma TaskListed(c: Config, s: State, id: nat)
    requires Inv(c, s, {}) && id in s.reg.tasks
    ensures Registered(s.reg, s.reg.tasks[id])
  {
    RegPart(c, s, {});
  }

  lemma MaxTasks(c: Config, s: State)
    requires Inv(c, s, {})
    ensures c.maxTasks >= 256
  {
    assert Holds(Setup, c, s, {});
  }

  /** The state without these objects. */
  ghost function Deleted(s: State, gone: set<nat>): State {
    s.(reg := s.reg.(infos := s.reg.infos - gone), live := s.live - gone,
       reqs := s.reqs.(ids := s.reqs.ids - gone), rpys := s.rpys.(ids := s.rpys.ids - gone))
  }

  lemma DeletedNone(s: State)
    ensures Deleted(s, Elements([])) == s
  {
    assert s.reg.infos - {} == s.reg.infos && s.live - {} == s.live;
    assert s.reqs.ids - {} == s.reqs.ids && s.rpys.ids - {} == s.rpys.ids;
  }

  lemma DeletedMore(s: State, removed: seq<nat>, k: nat)
    requires k < |removed|
    ensures Deleted(Deleted(s, Elements(removed[..k])), {removed[k]}) == Deleted(s, Elements(removed[..k + 1]))
  {
    var a, u := Elements(removed[..k]), removed[k];
    assert removed[..k + 1] == removed[..k] + [u];
    assert Elements(removed[..k + 1]) == a + {u};
    assert s.reg.infos - a - {u} == s.reg.infos - (a + {u});
    assert s.live - a - {u} == s.live - (a + {u});
    assert s.reqs.ids - a - {u} == s.reqs.ids - (a + {u});
    assert s.rpys.ids - a - {u} == s.rpys.ids - (a + {u});
  }

  lemma DeadOwnerMayGo(c: Config, s: State, u: nat)
    requires Inv(c, s, {}) && Registered(s.reg, u) && !Alive(c, s, u)
    ensures MayGo(s.reg, u)
  {
    RegPart(c, s, {});
  }

  lemma ClientMayGo(c: Config, s: State, us: seq<nat>, u: nat)
    requires Inv(c, s, {}) && AllRegistered(s.reg, us) && u in us && External(s.reg, u)
    ensures MayGo(s.reg, u)
  {
    RegPart(c, s, {});
    var k :| 0 <= k < |us| && us[k] == u;
  }

  ghost predicate OldestOf(order: seq<nat>, due: seq<int>, r: Option<nat>, expiration: int) {
    if order == [] then r == None else r == Some(order[0]) && expiration == Due(due, order[0])
  }

  lemma NoneBeyond(c: Config, s: State, id: nat)
    requires Inv(c, s, {}) && id >= c.maxTasks
    ensures id !in s.reg.tasks
  {
    if id in s.reg.tasks { TableEnd(c, s, id); }
  }

  lemma ReqSlotsBelow(c: Config, s: State)
    requires Inv(c, s, {})
    ensures forall i :: i in s.reqs.pool.slots ==> i < c.size
  {
    ReqPart(c, s, {});
    AllInUse(s.reqs.pool, c.size);
  }

  lemma RpySlotsBelow(c: Config, s: State)
    requires Inv(c, s, {})
    ensures forall i :: i in s.rpys.pool.slots ==> i < c.size
  {
    RpyPart(c, s, {});
    AllInUse(s.rpys.pool, c.size);
  }

  lemma {:induction false} FirstReqSkips(p: SlotPools.Pool<Req>, node: nat, from: nat, to: nat, size: nat)
    requires if from <= size then from <= to <= size else to == size
    requires forall i :: from <= i < to ==> i !in p.slots
    ensures FirstReqTo(p, node, from, size) == FirstReqTo(p, node, to, size)
    decreases size - from
  {
    if from < to { FirstReqSkips(p, node, from + 1, to, size); }
  }

  lemma {:induction false} FirstRpySkips(p: SlotPools.Pool<Rpy>, node: nat, from: nat, to: nat, size: nat)
    requires if from <= size then from <= to <= size else to == size
    requires forall i :: from <= i < to ==> i !in p.slots
    ensures FirstRpyTo(p, node, from, size) == FirstRpyTo(p, node, to, size)
    decreases size - from
  {
    if from < to { FirstRpySkips(p, node, from + 1, to, size); }
  }
}
