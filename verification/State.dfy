/** One daemon: what a TaskPool and everything reachable from it holds, and what every handler
    does to it, as functions from state to state. A TaskInfo object is known by a number that is
    never used twice; a pool slot is known by its index, an id is its bank plus the index. */
module Daemon {
  import opened Sequences
  import opened SlotPools
  import opened Acnet
  import opened Timers
  import opened Rad50

  /** What the internal task has to say to a request: a status and how many bytes. */
  datatype Answer = Answer(status: int, n: nat)

  /** What stays fixed: the pools' sizes and banks, what the node table says of multicast, and what
      the environment has to say: of all the questions asked of sockets and kill(), in the order
      they are asked, the numbers of those answered yes; and the internal task's replies, by the
      number of the question asked next. */
  datatype Config = Config(node: nat, size: nat, reqBank: nat, rpyBank: nat, maxTasks: nat,
                           acnet: nat, acnaux: nat, ownPid: nat,
                           mcastNodes: set<nat>, mcastHandles: set<nat>, yes: set<nat>, answers: map<nat, Answer>)

  /** ReqInfo and RpyInfo. `serial` numbers the allocations and `born` in the
      state says which slot each allocation got; no handler reads them. */
  datatype Req = Req(serial: nat, owner: nat, taskName: nat, lclNode: nat, remNode: nat,
                     flags: nat, tmoMs: int, mcast: bool)
  datatype Rpy = Rpy(serial: nat, owner: nat, reqId: nat, taskId: nat, taskName: nat, lclNode: nat,
                     remNode: nat, flags: nat, mcast: bool, acked: bool)

  datatype Kind = Internal | Local | Remote | Multicast

  /** TaskInfo: what identifies a task, and what commands change. */
  datatype Info = Info(id: nat, handle: nat, kind: Kind, pid: nat, cmdPort: nat, dataPort: nat)
  datatype Live = Live(receiving: bool, pending: nat, lastCommand: int)

  /** An entry of ReplyPool::activeMap and of TaskPool::active. */
  datatype Link = Link(node: nat, reqId: nat, slot: nat)
  datatype Entry = Entry(handle: nat, obj: nat)

  /** What leaves the daemon: packets to the network, of which replies for a reply slot, and
      packets to clients, of which replies for a request slot. */
  datatype Event =
    | Sent(h: Header)
    | Replied(serial: nat, h: Header)
    | Handed(serial: nat, mult: bool, mcast: bool, h: Header, ok: bool)
    | Told(obj: nat, h: Header, ok: bool)

  /** A request or reply pool with the id sets of the tasks (TaskInfo::requests and replies), and
      which slot each allocation so far was given. `ended` tells, for a key with which a reply ended,
      how many allocations there had been when that happened last; no handler reads it. */
  type Ids = map<nat, set<nat>>
  type Key = (nat, nat)
  datatype ReqSide = ReqSide(pool: Pool<Req>, ids: Ids, born: seq<nat>)
  datatype RpySide = RpySide(pool: Pool<Rpy>, ids: Ids, links: seq<Link>, born: seq<nat>,
                             ended: map<Key, nat>)

  /** Which TaskInfo objects there are, and where TaskPool lists them. */
  datatype Registry = Registry(infos: map<nat, Info>, tasks: map<nat, nat>, active: seq<Entry>,
                               removed: seq<nat>, nextObj: nat)

  datatype State = State(reqs: ReqSide, rpys: RpySide, reg: Registry, live: map<nat, Live>,
                         now: int, asked: nat, log: seq<Event>)

  // ---- Looking things up ----

  const NOBODY := Info(0, 0, Internal, 0, 0, 0)
  const IDLE := Live(false, 0, 0)

  function InfoOf(g: Registry, u: nat): Info { if u in g.infos then g.infos[u] else NOBODY }
  function LiveOf(s: State, u: nat): Live { if u in s.live then s.live[u] else IDLE }
  function IdsOf(ids: Ids, u: nat): set<nat> { if u in ids then ids[u] else {} }

  predicate External(g: Registry, u: nat) { u in g.infos && !g.infos[u].kind.Internal? }

  /** TaskInfo::equals: external tasks are the same when their command ports are. */
  predicate Equals(g: Registry, u: nat, v: nat) {
    if External(g, u) then External(g, v) && InfoOf(g, u).cmdPort == InfoOf(g, v).cmdPort
    else u == v
  }

  predicate Registered(g: Registry, u: nat) {
    u in g.infos && g.infos[u].id in g.tasks && g.tasks[g.infos[u].id] == u
  }

  predicate AcceptsRequests(s: State, u: nat) {
    match InfoOf(s.reg, u).kind
    case Internal => true
    case Multicast => false
    case _ => LiveOf(s, u).receiving
  }

  /** IdPool::entry */
  function Slot<T>(p: Pool<T>, bank: nat, id: nat): Option<nat> {
    if id >= bank && id - bank in p.slots then Some(id - bank) else None
  }

  /** The first entry from position `from` on whose task equals u, among those of a handle. */
  function FindEntry(g: Registry, handle: nat, u: nat, from: nat): (r: Option<nat>)
    ensures r.Some? ==> from <= r.value < |g.active|
    decreases |g.active| - from
  {
    if from >= |g.active| then None
    else if g.active[from].handle == handle && Equals(g, g.active[from].obj, u) then Some(from)
    else FindEntry(g, handle, u, from + 1)
  }

  function KeyOf(r: Rpy): Key { (r.remNode, r.reqId) }

  /** activeMap.find(request_key_t(node, reqId)): of equal keys, the one inserted first. */
  function FindLink(links: seq<Link>, node: nat, reqId: nat): Option<nat> {
    if links == [] then None
    else if links[0].node == node && links[0].reqId == reqId then Some(links[0].slot)
    else FindLink(links[1..], node, reqId)
  }

  /** activeMap.erase(request_key_t(node, reqId)): all entries of that key. */
  function EraseKey(links: seq<Link>, node: nat, reqId: nat): seq<Link> {
    if links == [] then []
    else if links[0].node == node && links[0].reqId == reqId then EraseKey(links[1..], node, reqId)
    else [links[0]] + EraseKey(links[1..], node, reqId)
  }

  /** active.equal_range(handle): the tasks of a handle, in the order they were inserted. */
  function TasksOf(active: seq<Entry>, handle: nat): seq<nat> {
    if active == [] then []
    else (if active[0].handle == handle then [active[0].obj] else []) + TasksOf(active[1..], handle)
  }

  // ---- Asking the environment ----

  /** Whether a client answers: kill() or sendto() decide, but a task without a pid counts as
      alive for 30 seconds after its last command (ExternalTask::stillAlive). */
  predicate Alive(c: Config, s: State, u: nat) {
    || !External(s.reg, u)
    || s.asked in c.yes
    || (InfoOf(s.reg, u).pid == 0 && s.now - LiveOf(s, u).lastCommand < 30000)
  }

  function AnswerOf(c: Config, k: nat): Answer { if k in c.answers then c.answers[k] else Answer(SUCCESS, 0) }

  function Asked(s: State): State { s.(asked := s.asked + 1) }
  function Note(s: State, e: Event): State { s.(log := s.log + [e]) }

  /** sendDataToClient with a reply for request slot contents r. */
  function Hand(c: Config, s: State, r: Req, h: Header): State {
    Note(Asked(s), Handed(r.serial, Mlt(r.flags), r.mcast, h, Alive(c, s, r.owner)))
  }

  /** sendDataToClient with anything else. */
  function Tell(c: Config, s: State, u: nat, h: Header): State {
    Note(Asked(s), Told(u, h, Alive(c, s, u)))
  }

  // ---- Slots ----

  /** addRequest, addReply, removeRequest and removeReply of task u. */
  function Plus(ids: Ids, u: nat, id: nat): Ids { if u in ids then ids[u := ids[u] + {id}] else ids }
  function Minus(ids: Ids, u: nat, id: nat): Ids { if u in ids then ids[u := ids[u] - {id}] else ids }

  /** The end of a request slot: its owner forgets it, the timer and the slot are released. */
  function DropReq(c: Config, q: ReqSide, i: nat): ReqSide
    requires i in q.pool.slots
  {
    q.(ids := Minus(q.ids, q.pool.slots[i].owner, c.reqBank + i), pool := Given(q.pool, i))
  }

  /** The end of a reply slot; ReplyPool::release drops every activeMap entry of its key. */
  function DropRpy(c: Config, q: RpySide, i: nat): RpySide
    requires i in q.pool.slots
  {
    var r := q.pool.slots[i];
    q.(ids := Minus(q.ids, r.owner, c.rpyBank + i), links := EraseKey(q.links, r.remNode, r.reqId),
       pool := Given(q.pool, i), ended := q.ended[KeyOf(r) := |q.born|])
  }

  /** RequestPool::update */
  function TouchReq(q: ReqSide, i: nat, now: int): ReqSide {
    if i in q.pool.slots then q.(pool := Touched(q.pool, i, now + q.pool.slots[i].tmoMs)) else q
  }

  /** ReplyPool::update, which is not done for multicast requests. */
  function TouchRpy(q: RpySide, i: nat, now: int): RpySide {
    if i in q.pool.slots && !q.pool.slots[i].mcast
    then q.(pool := Touched(q.pool, i, now + REPLY_DELAY * 1000)) else q
  }

  function Clamp(tmo: nat): int {
    var low := if tmo < MIN_TIMEOUT_MS then MIN_TIMEOUT_MS else tmo;
    if low < REQUEST_TIMEOUT * 1000 then low else REQUEST_TIMEOUT * 1000
  }

  /** RequestPool::alloc, when there is a free slot: the slot is filled, entered in the owner's
      set and put on the timer list, due at t. */
  function EnterReq(c: Config, q: ReqSide, r: Req, i: nat): ReqSide
    requires q.pool.free != [] && i == q.pool.free[0]
  {
    ReqSide(Taken(q.pool, r), Plus(q.ids, r.owner, c.reqBank + i), q.born + [i])
  }

  function EnrolReq(c: Config, q: ReqSide, r: Req, i: nat, t: int): ReqSide
    requires q.pool.free != [] && i == q.pool.free[0]
  {
    var q1 := EnterReq(c, q, r, i);
    q1.(pool := Touched(q1.pool, i, t))
  }

  /** ReplyPool::alloc, when there is a free slot: the slot is filled and entered in activeMap and
      in the owner's set, and, if the request is unicast, put on the timer list, due at t. */
  function EnterRpy(c: Config, q: RpySide, r: Rpy, i: nat): RpySide
    requires q.pool.free != [] && i == q.pool.free[0]
  {
    q.(pool := Taken(q.pool, r), ids := Plus(q.ids, r.owner, c.rpyBank + i),
       links := q.links + [Link(r.remNode, r.reqId, i)], born := q.born + [i])
  }

  function EnrolRpy(c: Config, q: RpySide, r: Rpy, i: nat, t: int): RpySide
    requires q.pool.free != [] && i == q.pool.free[0]
  {
    var q1 := EnterRpy(c, q, r, i);
    if r.mcast then q1 else q1.(pool := Touched(q1.pool, i, t))
  }

  function NewReq(c: Config, s: State, u: nat, taskName: nat, remNode: nat, flags: nat, tmo: nat): Req {
    Req(|s.reqs.born|, u, taskName, c.node, remNode, flags, Clamp(tmo), remNode in c.mcastNodes)
  }

  function NewRpy(c: Config, s: State, u: nat, h: Header): Rpy {
    var mcast := h.server in c.mcastNodes;
    Rpy(|s.rpys.born|, u, h.msgId, h.taskId, h.task, if mcast then c.node else h.server, h.client, h.flags,
        mcast, false)
  }

  // ---- Requests (reqinfo.cpp) ----

  function CancelHeader(c: Config, s: State, r: Req, id: nat): Header {
    Header(FLG_CAN, SUCCESS, r.remNode, r.lclNode, r.taskName, InfoOf(s.reg, r.owner).id, id, HEADER_SIZE)
  }

  /** A reply made up locally for the owner of request r. */
  function LocalReply(c: Config, s: State, r: Req, id: nat, flags: nat, status: int): Header {
    Header(flags, status, r.remNode, r.lclNode, r.taskName, InfoOf(s.reg, r.owner).id, id, HEADER_SIZE)
  }

  /** RequestPool::cancelReqId */
  function CancelReqId(c: Config, s: State, id: nat, xmt: bool, sendLastReply: bool): State {
    match Slot(s.reqs.pool, c.reqBank, id)
    case None => s
    case Some(i) =>
      var r := s.reqs.pool.slots[i];
      var s1 := if xmt then Note(s, Sent(CancelHeader(c, s, r, id))) else s;
      var s2 := if xmt && sendLastReply then Hand(c, s1, r, LocalReply(c, s, r, id, FLG_RPY, DISCONNECTED)) else s1;
      s2.(reqs := DropReq(c, s2.reqs, i))
  }

  // ---- Replies (rpyinfo.cpp) ----

  function ReplyHeader(r: Rpy, flags: nat, status: int, n: nat): Header {
    Header(flags, status, r.lclNode, r.remNode, r.taskName, r.taskId, r.reqId, HEADER_SIZE + Padded(n))
  }

  /** The CANCEL that tells a client that a request it was to answer is gone. */
  function GoneHeader(c: Config, s: State, r: Rpy, i: nat): Header {
    Header(FLG_CAN, AsStatus(c.rpyBank + i), r.lclNode, r.remNode, r.taskName, InfoOf(s.reg, r.owner).id,
           r.reqId, HEADER_SIZE)
  }

  /** ReplyPool::endRpyId */
  function EndRpyId(c: Config, s: State, id: nat, status: int): State {
    match Slot(s.rpys.pool, c.rpyBank, id)
    case None => s
    case Some(i) =>
      var r := s.rpys.pool.slots[i];
      var s1 := if status != SUCCESS && (!r.mcast || !Mlt(r.flags))
                then Note(s, Replied(r.serial, ReplyHeader(r, FLG_RPY, status, 0))) else s;
      var s2 := if status != SUCCESS then Tell(c, s1, r.owner, GoneHeader(c, s, r, i)) else s1;
      s2.(rpys := DropRpy(c, s2.rpys, i))
  }

  /** Does xmitReply report that this was the last reply? */
  predicate LastReply(r: Rpy, emr: bool) { emr || !Mlt(r.flags) }

  /** The header xmitReply puts on the wire. */
  function XmitHeader(r: Rpy, status: int, n: nat, emr: bool): Header {
    if !Mlt(r.flags) then ReplyHeader(r, FLG_RPY, status, n)
    else if emr then ReplyHeader(r, FLG_RPY, if status == SUCCESS then ENDMULT else status, n)
    else ReplyHeader(r, FLG_RPY + FLG_MLT, status, n)
  }

  function DecPending(s: State, u: nat): State {
    var l := LiveOf(s, u);
    if l.pending > 0 then s.(live := s.live[u := l.(pending := l.pending - 1)]) else s
  }

  /** RpyInfo::ackIt */
  function MarkAcked(q: RpySide, i: nat): RpySide
    requires i in q.pool.slots
  {
    q.(pool := Filled(q.pool, i, q.pool.slots[i].(acked := true)))
  }

  /** RpyInfo::xmitReply */
  function XmitReply(c: Config, s: State, i: nat, status: int, n: nat, emr: bool): State
    requires i in s.rpys.pool.slots
  {
    var r := s.rpys.pool.slots[i];
    var s1 := if r.acked then s
              else DecPending(s.(rpys := MarkAcked(s.rpys, i)), r.owner);
    Note(s1.(rpys := TouchRpy(s1.rpys, i, s.now)), Replied(r.serial, XmitHeader(r, status, n, emr)))
  }

  /** ReplyPool::sendReplyToNetwork, and whether the reply was found. */
  function SendReply(c: Config, s: State, u: nat, id: nat, status: int, n: nat, emr: bool): (State, bool) {
    match Slot(s.rpys.pool, c.rpyBank, id)
    case None => (s, false)
    case Some(i) =>
      var r := s.rpys.pool.slots[i];
      if !Equals(s.reg, r.owner, u) then (s, false)
      else
        var s1 := XmitReply(c, s, i, status, n, emr);
        (if LastReply(r, emr) then EndRpyId(c, s1, id, SUCCESS) else s1, true)
  }

  // ---- Tasks (taskpool.cpp) ----

  /** The loop that cancels a task's requests, lowest id first. The last test only makes this a
      total function: a cancelled id always leaves the set (see DrainReqsOk). */
  function DrainReqs(c: Config, s: State, u: nat, sendLastReply: bool): State
    decreases |IdsOf(s.reqs.ids, u)|
  {
    var ids := IdsOf(s.reqs.ids, u);
    if ids == {} then s
    else
      var s1 := CancelReqId(c, s, Min(ids), true, sendLastReply);
      if |IdsOf(s1.reqs.ids, u)| < |ids| then DrainReqs(c, s1, u, sendLastReply) else s1
  }

  function DrainRpys(c: Config, s: State, u: nat, status: int): State
    decreases |IdsOf(s.rpys.ids, u)|
  {
    var ids := IdsOf(s.rpys.ids, u);
    if ids == {} then s
    else
      var s1 := EndRpyId(c, s, Min(ids), status);
      if |IdsOf(s1.rpys.ids, u)| < |ids| then DrainRpys(c, s1, u, status) else s1
  }

  /** tasks_[id] = 0, and the entry of `active` found by handle and equals() goes. */
  function Unregister(g: Registry, u: nat): Registry {
    var g1 := g.(tasks := g.tasks - {InfoOf(g, u).id});
    match FindEntry(g, InfoOf(g, u).handle, u, 0)
    case None => g1
    case Some(k) => g1.(active := Cut(g.active, k))
  }

  /** TaskPool::removeOnlyThisTask */
  function RemoveOnly(c: Config, s: State, u: nat, status: int, sendLastReply: bool): State {
    var s1 := DrainReqs(c, s.(reg := Unregister(s.reg, u)), u, sendLastReply);
    var s2 := DrainRpys(c, s1, u, status);
    s2.(reg := s2.reg.(removed := s2.reg.removed + [u]))
  }

  /** The loop of removeTask from table position `from` on. */
  function RemovePid(c: Config, s: State, pid: nat, from: nat): State
    decreases c.maxTasks - from
  {
    if from >= c.maxTasks then s
    else
      var s1 := if from in s.reg.tasks && InfoOf(s.reg, s.reg.tasks[from]).pid == pid
                then RemoveOnly(c, s, s.reg.tasks[from], DISCONNECTED, false) else s;
      RemovePid(c, s1, pid, from + 1)
  }

  /** TaskPool::removeTask */
  function RemoveTask(c: Config, s: State, u: nat): State {
    var pid := InfoOf(s.reg, u).pid;
    if pid == 0 then RemoveOnly(c, s, u, DISCONNECTED, false) else RemovePid(c, s, pid, 0)
  }

  /** TaskPool::removeAllTasks from table position `from` on. */
  function RemoveAll(c: Config, s: State, from: nat): State
    decreases c.maxTasks - from
  {
    if from >= c.maxTasks then s
    else RemoveAll(c, if from in s.reg.tasks then RemoveOnly(c, s, s.reg.tasks[from], NODE_DOWN, true) else s, from + 1)
  }

  /** The first loop of removeInactiveTasks. */
  function RemoveDead(c: Config, s: State, from: nat): State
    decreases c.maxTasks - from
  {
    if from >= c.maxTasks then s
    else if from !in s.reg.tasks then RemoveDead(c, s, from + 1)
    else
      var s1 := Asked(s);
      RemoveDead(c, if Alive(c, s, s.reg.tasks[from]) then s1 else RemoveTask(c, s1, s.reg.tasks[from]), from + 1)
  }

  /** Deleting the removed TaskInfo objects. */
  function Purge(s: State): State {
    var gone := Elements(s.reg.removed);
    s.(reg := s.reg.(infos := s.reg.infos - gone, removed := []), live := s.live - gone,
       reqs := s.reqs.(ids := s.reqs.ids - gone), rpys := s.rpys.(ids := s.rpys.ids - gone))
  }

  /** TaskPool::removeInactiveTasks */
  function RemoveInactive(c: Config, s: State): State { Purge(RemoveDead(c, s, 0)) }

  /** TaskPool::getTask by handle and command port. */
  function FindClient(g: Registry, handle: nat, cmdPort: nat, from: nat): Option<nat>
    decreases |g.active| - from
  {
    if from >= |g.active| then None
    else
      var u := g.active[from].obj;
      if g.active[from].handle == handle && External(g, u) && InfoOf(g, u).cmdPort == cmdPort then Some(u)
      else FindClient(g, handle, cmdPort, from + 1)
  }

  /** TaskPool::nextFreeTaskId: small ids for old clients, ids from 256 on for the others. */
  function NextFreeId(tasks: map<nat, nat>, from: nat, max: nat): Option<nat>
    decreases max - from
  {
    if from >= max then None
    else if from !in tasks then Some(from)
    else NextFreeId(tasks, from + 1, max)
  }

  datatype ConnectCmd = ConnectCmd(name: nat, pid: nat, cmdPort: nat, dataPort: nat, ext: bool, tcp: bool)

  /** A blank name is converted to one made of the data port, a uint16_t. */
  function ClientName(c: Config, cmd: ConnectCmd): nat {
    if cmd.name == 0 then Packed(Encoded(PortText(cmd.dataPort % 0x1_0000))) else cmd.name
  }

  function Enlist(g: Registry, i: Info): Registry {
    var u := g.nextObj;
    Registry(g.infos[u := i], g.tasks[i.id := u], g.active + [Entry(i.handle, u)], g.removed, u + 1)
  }

  /** A new TaskInfo object, entered in `active` and in `tasks_`. */
  function Admit(s: State, i: Info): State {
    var u := s.reg.nextObj;
    s.(reg := Enlist(s.reg, i), live := s.live[u := Live(false, 0, s.now)],
       reqs := s.reqs.(ids := s.reqs.ids[u := {}]), rpys := s.rpys.(ids := s.rpys.ids[u := {}]))
  }

  /** The part of handleConnect after removeInactiveTasks: the status, and the task id when it is
      a success. A client of a multicast handle has to join the group first, which may fail. */
  function ConnectNamed(c: Config, s: State, name: nat, cmd: ConnectCmd): (State, int, nat) {
    match FindClient(s.reg, name, cmd.cmdPort, 0)
    case Some(u) => (s, SUCCESS, InfoOf(s.reg, u).id)
    case None =>
      match NextFreeId(s.reg.tasks, if cmd.ext then 256 else 0, if cmd.ext then c.maxTasks else 256)
      case None => (s, NLM, 0)
      case Some(id) =>
        if name in c.mcastHandles then
          if s.asked in c.yes
          then (Admit(Asked(s), Info(id, name, Multicast, cmd.pid, cmd.cmdPort, cmd.dataPort)), SUCCESS, id)
          else (Asked(s), NLM, 0)
        else if TasksOf(s.reg.active, name) != [] then (s, NAME_IN_USE, 0)
        else
          var kind := if cmd.tcp then Remote else Local;
          (Admit(s, Info(id, name, kind, cmd.pid, cmd.cmdPort, cmd.dataPort)), SUCCESS, id)
  }

  /** TaskPool::handleConnect */
  function Connect(c: Config, s: State, cmd: ConnectCmd): (State, int, nat) {
    if cmd.dataPort == 0 then (s, INVARG, 0) else ConnectNamed(c, RemoveInactive(c, s), ClientName(c, cmd), cmd)
  }

  /** Task u, listed at position k of `active`, gets a new handle. */
  function Relist(g: Registry, u: nat, k: nat, handle: nat): Registry
    requires k < |g.active|
  {
    g.(active := Cut(g.active, k) + [Entry(handle, u)], infos := g.infos[u := InfoOf(g, u).(handle := handle)])
  }

  /** TaskPool::rename, for a task that is not the internal one. */
  function Rename(c: Config, s: State, u: nat, handle: nat): (State, bool) {
    if handle in c.mcastHandles then (s, false)
    else
      var holders := TasksOf(s.reg.active, handle);
      if holders != [] && Alive(c, s, holders[0]) then (Asked(s), false)
      else
        var s1 := if holders != [] then RemoveTask(c, Asked(s), holders[0]) else s;
        match FindEntry(s1.reg, InfoOf(s1.reg, u).handle, u, 0)
        case None => (s1, false)
        case Some(k) =>
          (s1.(reg := Relist(s1.reg, u, k, handle)), true)
  }

  // ---- Packets from the network (main.cpp) ----

  /** Does a reply belong to the request slot it names? */
  predicate ReplyFits(s: State, r: Req, h: Header) {
    (h.server == r.remNode || r.mcast) && h.task == r.taskName && h.taskId == InfoOf(s.reg, r.owner).id
  }

  /** The header as the client gets to see it. */
  function ReplyForClient(r: Req, h: Header): Header {
    if Mlt(r.flags) && IsEmr(h) then
      if r.mcast then h.(flags := SetMlt(h.flags), status := if h.status == ENDMULT then SUCCESS else h.status)
      else h.(flags := ClearMlt(h.flags), status := if h.status == SUCCESS then ENDMULT else h.status)
    else h
  }

  function StrayCancel(h: Header): Header {
    Header(FLG_CAN, SUCCESS, h.server, h.client, h.task, h.taskId, h.msgId, HEADER_SIZE)
  }

  /** handleAcnetReply */
  function NetReply(c: Config, s: State, h: Header): State {
    match Slot(s.reqs.pool, c.reqBank, h.msgId)
    case None => Note(s, Sent(StrayCancel(h)))
    case Some(i) =>
      var r := s.reqs.pool.slots[i];
      if !ReplyFits(s, r, h) then Note(s, Sent(StrayCancel(h)))
      else if !Alive(c, s, r.owner) then RemoveTask(c, Asked(s), r.owner)
      else
        var s1 := Asked(s).(reqs := TouchReq(s.reqs, i, s.now));
        if h.status == PEND then s1
        else
          var mult, emr := Mlt(r.flags), IsEmr(h);
          var s2 := Hand(c, s1, r, ReplyForClient(r, h));
          if !Alive(c, s1, r.owner) then CancelReqId(c, s2, h.msgId, mult || r.mcast, false)
          else if !mult || (!r.mcast && emr) then CancelReqId(c, s2, h.msgId, !mult && (!emr || r.mcast), false)
          else s2
  }

  /** handleAcnetCancel. Its loop looks the key up again, but the first round erases the key
      (see the method HandleCancel), so one round is all there is. */
  function NetCancel(c: Config, s: State, h: Header): State {
    match FindLink(s.rpys.links, h.client, h.msgId)
    case None => s
    case Some(i) =>
      if i !in s.rpys.pool.slots then s
      else
        var r := s.rpys.pool.slots[i];
        if h.task != r.taskName || h.client != r.remNode || h.taskId != r.taskId then s
        else
          var s1 := if r.acked then s else DecPending(s, r.owner);
          var s2 := EndRpyId(c, s1, c.rpyBank + i, SUCCESS);
          var s3 := Tell(c, s2, r.owner, h.(status := AsStatus(c.rpyBank + i)));
          if Alive(c, s2, r.owner) then s3 else RemoveTask(c, s3, r.owner)
  }

  function ErrorReply(h: Header, status: int): Header {
    Header(FLG_RPY, status, h.server, h.client, h.task, h.taskId, h.msgId, HEADER_SIZE)
  }

  /** TaskInfo::testPendingRequestsAndIncrement; only external tasks are throttled. */
  function IncPending(s: State, u: nat): State {
    var l := LiveOf(s, u);
    if l.pending < 256 && External(s.reg, u) then s.(live := s.live[u := l.(pending := l.pending + 1)]) else s
  }

  /** A reply slot for task u, filled from a request. */
  function Offered(c: Config, s: State, u: nat, h: Header): State
    requires s.rpys.pool.free != []
  {
    s.(rpys := EnrolRpy(c, s.rpys, NewRpy(c, s, u, h), s.rpys.pool.free[0], s.now + REPLY_DELAY * 1000))
  }

  /** InternalTask::sendLastReply, with which the diagnostics end the reply before sendDataToClient
      returns. */
  function AnswerAtOnce(c: Config, s: State, i: nat): State {
    if i !in s.rpys.pool.slots then s
    else
      var r, a := s.rpys.pool.slots[i], AnswerOf(c, s.asked);
      EndRpyId(c, Note(s, Replied(r.serial, ReplyHeader(r, FLG_RPY, a.status, a.n))), c.rpyBank + i, SUCCESS)
  }

  /** The request is handed to the task with the id of reply slot i: what comes of it, and the error to
      report, if any. */
  function HandOver(c: Config, s: State, u: nat, h: Header, i: nat): (State, int) {
    var s1 := Tell(c, s, u, h.(status := AsStatus(c.rpyBank + i)));
    if !External(s.reg, u) then (AnswerAtOnce(c, s1, i), SUCCESS)
    else if Alive(c, s, u) then (s1, SUCCESS)
    else (EndRpyId(c, s1, c.rpyBank + i, DISCONNECTED), BUSY)
  }

  /** What handleAcnetRequest does for one live task that accepts requests, after counting the
      request as pending: the new state and the error to report, if any. */
  function DeliverCounted(c: Config, s: State, u: nat, h: Header): (State, int) {
    if s.rpys.pool.free == [] then (DecPending(s, u), NOREMMEM)
    else
      var (s1, result) := HandOver(c, Offered(c, s, u, h), u, h, s.rpys.pool.free[0]);
      (if result == SUCCESS then s1 else DecPending(s1, u), result)
  }

  function Deliver(c: Config, s: State, u: nat, h: Header): (State, int) {
    DeliverCounted(c, IncPending(s, u), u, h)
  }

  /** One round of the loop of handleAcnetRequest: the new state, and whether the task was alive. */
  function DeliverTo(c: Config, s: State, u: nat, h: Header): (State, bool) {
    var s1 := Asked(s);
    if !Alive(c, s, u) then (s1, false)
    else
      var (s2, result) := if AcceptsRequests(s1, u) then Deliver(c, s1, u, h) else (s1, NCR);
      (if result != SUCCESS && h.server !in c.mcastNodes then Note(s2, Sent(ErrorReply(h, result))) else s2, true)
  }

  /** The loop of handleAcnetRequest over the tasks of the handle: the new state, whether some
      task was alive, and the last one found dead. */
  function DeliverAll(c: Config, s: State, us: seq<nat>, h: Header): (State, bool, Option<nat>) {
    if us == [] then (s, false, None)
    else
      var (s1, found, dead) := DeliverAll(c, s, us[..|us| - 1], h);
      var (s2, alive) := DeliverTo(c, s1, us[|us| - 1], h);
      (s2, found || alive, if alive then dead else Some(us[|us| - 1]))
  }

  /** handleAcnetRequest */
  function NetRequest(c: Config, s: State, h: Header): State {
    var us := TasksOf(s.reg.active, h.task);
    var mcast := h.server in c.mcastNodes;
    if us == [] then
      if mcast then s else Note(s, Sent(ErrorReply(h, NOTASK)))
    else
      var (s1, found, dead) := DeliverAll(c, s, us, h);
      var s2 := if !found && !mcast then Note(s1, Sent(ErrorReply(h, NOTASK))) else s1;
      if dead.Some? then RemoveTask(c, s2, dead.value) else s2
  }

  /** The lowest slot in use whose remote node is `node`. */
  function FirstReqTo(p: Pool<Req>, node: nat, from: nat, size: nat): (r: Option<nat>)
    ensures r.Some? ==> r.value in p.slots && p.slots[r.value].remNode == node
    decreases size - from
  {
    if from >= size then None
    else if from in p.slots && p.slots[from].remNode == node then Some(from)
    else FirstReqTo(p, node, from + 1, size)
  }

  function FirstRpyTo(p: Pool<Rpy>, node: nat, from: nat, size: nat): (r: Option<nat>)
    ensures r.Some? ==> r.value in p.slots && p.slots[r.value].remNode == node
    decreases size - from
  {
    if from >= size then None
    else if from in p.slots && p.slots[from].remNode == node then Some(from)
    else FirstRpyTo(p, node, from + 1, size)
  }

  /** RequestPool::cancelReqToNode */
  function CancelReqToNode(c: Config, s: State, node: nat): State {
    match FirstReqTo(s.reqs.pool, node, 0, c.size)
    case None => s
    case Some(i) =>
      var r := s.reqs.pool.slots[i];
      var s1 := Hand(c, s, r, LocalReply(c, s, r, c.reqBank + i, FLG_RPY, DISCONNECTED));
      var s2 := s1.(reqs := DropReq(c, s1.reqs, i));
      if Alive(c, s, r.owner) then s2 else RemoveTask(c, s2, r.owner)
  }

  /** ReplyPool::endRpyToNode */
  function EndRpyToNode(c: Config, s: State, node: nat): State {
    match FirstRpyTo(s.rpys.pool, node, 0, c.size)
    case None => s
    case Some(i) =>
      var r := s.rpys.pool.slots[i];
      var s1 := Tell(c, s, r.owner, ReplyHeader(r, FLG_CAN, SUCCESS, 0));
      var s2 := s1.(rpys := DropRpy(c, s1.rpys, i));
      if Alive(c, s, r.owner) then s2 else RemoveTask(c, s2, r.owner)
  }

  // ---- Time-outs ----

  /** One round of sendRequestTimeoutsAndGetNextTimeout, for a slot that is due. */
  function ExpireReq(c: Config, s: State, i: nat): State
    requires i in s.reqs.pool.slots
  {
    var r, id := s.reqs.pool.slots[i], c.reqBank + i;
    var mult := Mlt(r.flags);
    var h := LocalReply(c, s, r, id, if mult then FLG_RPY + FLG_MLT else FLG_RPY, if mult then PEND else TMO);
    var s1 := Hand(c, s, r, h);
    var s2 := if mult then s1.(reqs := TouchReq(s1.reqs, i, s1.now)) else CancelReqId(c, s1, id, true, false);
    if Alive(c, s, r.owner) then s2 else RemoveTask(c, s2, r.owner)
  }

  /** How many slots on a timer list are due by now. */
  function Overdue(order: seq<nat>, due: seq<int>, now: int): nat {
    if order == [] then 0
    else (if Due(due, order[0]) <= now then 1 else 0) + Overdue(order[1..], due, now)
  }

  /** RequestPool::sendRequestTimeoutsAndGetNextTimeout, and what it returns. The test on Overdue
      only makes this a total function (see ExpireReqOk). */
  function ReqTimeouts(c: Config, s: State): (State, int)
    decreases Overdue(s.reqs.pool.order, s.reqs.pool.due, s.now)
  {
    if s.reqs.pool.order == [] || s.reqs.pool.order[0] !in s.reqs.pool.slots then (s, -1)
    else
      var i := s.reqs.pool.order[0];
      if Due(s.reqs.pool.due, i) > s.now then (s, Due(s.reqs.pool.due, i) - s.now)
      else
        var s1 := ExpireReq(c, s, i);
        if Overdue(s1.reqs.pool.order, s1.reqs.pool.due, s1.now) < Overdue(s.reqs.pool.order, s.reqs.pool.due, s.now)
        then ReqTimeouts(c, s1) else (s1, -1)
  }

  /** ReplyPool::sendReplyPendsAndGetNextTimeout, and what it returns. */
  function RpyPends(c: Config, s: State): (State, int)
    decreases Overdue(s.rpys.pool.order, s.rpys.pool.due, s.now)
  {
    if s.rpys.pool.order == [] || s.rpys.pool.order[0] !in s.rpys.pool.slots then (s, -1)
    else
      var i := s.rpys.pool.order[0];
      if Due(s.rpys.pool.due, i) > s.now then (s, Due(s.rpys.pool.due, i) - s.now)
      else
        var s1 := XmitReply(c, s, i, PEND, 0, false);
        if Overdue(s1.rpys.pool.order, s1.rpys.pool.due, s1.now) < Overdue(s.rpys.pool.order, s.rpys.pool.due, s.now)
        then RpyPends(c, s1) else (s1, -1)
  }

  // ---- Commands of clients (exttask.cpp, lcltask.cpp, remtask.cpp) ----

  /** sendAckToClient, and removing the task when it cannot be reached. */
  function Ack(c: Config, s: State, u: nat): State {
    if Alive(c, s, u) then Asked(s) else RemoveTask(c, Asked(s), u)
  }

  /** Request r in the next free slot. */
  function Opened(c: Config, s: State, r: Req): State
    requires s.reqs.pool.free != []
  {
    s.(reqs := EnrolReq(c, s.reqs, r, s.reqs.pool.free[0], s.now + r.tmoMs))
  }

  function RequestHeader(c: Config, s: State, u: nat, taskName: nat, node: nat, flags: nat, i: nat, n: nat): Header {
    Header(if Mlt(flags) then FLG_REQ + FLG_MLT else FLG_REQ, SUCCESS, node, c.node, taskName, InfoOf(s.reg, u).id,
           c.reqBank + i, HEADER_SIZE + Padded(n))
  }

  /** ExternalTask::handleSendRequestWithTimeout for a known node and a payload of n bytes. */
  function SendRequest(c: Config, s: State, u: nat, taskName: nat, node: nat, flags: nat, tmo: nat, n: nat): State {
    if s.reqs.pool.free == [] then s
    else
      Note(Opened(c, s, NewReq(c, s, u, taskName, node, flags, tmo)),
           Sent(RequestHeader(c, s, u, taskName, node, flags, s.reqs.pool.free[0], n)))
  }

  /** ExternalTask::handleCancel */
  function CancelCommand(c: Config, s: State, u: nat, id: nat): State {
    match Slot(s.reqs.pool, c.reqBank, id)
    case None => s
    case Some(i) => if Equals(s.reg, s.reqs.pool.slots[i].owner, u) then CancelReqId(c, s, id, true, false) else s
  }

  /** ExternalTask::handleRequestAck: a slot is marked even when it was acknowledged before. */
  function AckCommand(c: Config, s: State, u: nat, id: nat): State {
    if !AcceptsRequests(s, u) then s
    else
      match Slot(s.rpys.pool, c.rpyBank, id)
      case None => s
      case Some(i) =>
        var r := s.rpys.pool.slots[i];
        if !Equals(s.reg, r.owner, u) then s
        else
          var s1 := if r.acked then s else DecPending(s, u);
          s1.(rpys := MarkAcked(s1.rpys, i))
  }

  function SetReceiving(s: State, u: nat, on: bool): State {
    s.(live := s.live[u := LiveOf(s, u).(receiving := on)])
  }

  predicate CanReceive(s: State, u: nat) { InfoOf(s.reg, u).kind.Local? || InfoOf(s.reg, u).kind.Remote? }

  datatype Command =
    | KeepAlive
    | Disconnect
    | DisconnectSingle
    | RenameTo(handle: nat)
    | Request(taskName: nat, node: nat, flags: nat, tmo: nat, n: nat)
    | Cancel(id: nat)
    | Reply(id: nat, status: int, n: nat, emr: bool)
    | Ignore(id: nat)
    | AckRequest(id: nat)
    | Receive
    | Block

  /** What a command does before it is acknowledged. */
  function Obey(c: Config, s: State, u: nat, cmd: Command): State {
    match cmd
    case KeepAlive => s
    case RenameTo(handle) => Rename(c, s, u, handle).0
    case Request(taskName, node, flags, tmo, n) => SendRequest(c, s, u, taskName, node, flags, tmo, n)
    case Cancel(id) => CancelCommand(c, s, u, id)
    case Reply(id, status, n, emr) => SendReply(c, s, u, id, status, n, emr).0
    case Ignore(id) => if AcceptsRequests(s, u) then EndRpyId(c, s, id, SUCCESS) else s
    case AckRequest(id) => AckCommand(c, s, u, id)
    case Receive => if CanReceive(s, u) then SetReceiving(s, u, true) else s
    case Block => if CanReceive(s, u) then DrainRpys(c, SetReceiving(s, u, false), u, DISCONNECTED) else s
    case _ => s
  }

  /** ExternalTask::handleClientCommand for the registered external task u. */
  function ClientCommand(c: Config, s: State, u: nat, cmd: Command): State {
    var s1 := s.(live := s.live[u := LiveOf(s, u).(lastCommand := s.now)]);
    match cmd
    case Disconnect => RemoveTask(c, Asked(s1), u)
    case DisconnectSingle => RemoveOnly(c, Asked(s1), u, DISCONNECTED, false)
    case _ => Ack(c, Obey(c, s1, u, cmd), u)
  }

  // ---- Runs ----

  /** Everything that can happen to a daemon, until it is shut down. */
  datatype Input =
    | Tick(time: int)
    | Connecting(cmd: ConnectCmd)
    | Commanded(u: nat, command: Command)
    | Requested(h: Header)
    | Answered(h: Header)
    | Cancelled(h: Header)
    | NodeGone(node: nat)
    | RunTimeouts
    | RunPends
    | CheckTasks

  function Step(c: Config, s: State, e: Input): State {
    match e
    case Tick(t) => s.(now := t)
    case Connecting(cmd) => if cmd.pid == c.ownPid then s else Connect(c, s, cmd).0
    case Commanded(u, cmd) => if External(s.reg, u) && Registered(s.reg, u) then ClientCommand(c, s, u, cmd) else s
    case Requested(h) => NetRequest(c, s, h)
    case Answered(h) => NetReply(c, s, h)
    case Cancelled(h) => NetCancel(c, s, h)
    case NodeGone(node) => EndRpyToNode(c, CancelReqToNode(c, s, node), node)
    case RunTimeouts => ReqTimeouts(c, s).0
    case RunPends => RpyPends(c, s).0
    case CheckTasks => RemoveInactive(c, s)
  }

  function Run(c: Config, s: State, es: seq<Input>): State
    decreases |es|
  {
    if es == [] then s else Step(c, Run(c, s, es[..|es| - 1]), es[|es| - 1])
  }

  /** TaskPool::TaskPool */
  function Initial(c: Config, now: int): State {
    State(ReqSide(NewPool(c.size), map[0 := {}], []), RpySide(NewPool(c.size), map[0 := {}], [], [], map[]),
          Registry(map[0 := Info(0, c.acnet, Internal, c.ownPid, 0, 0)], map[0 := 0],
                   [Entry(c.acnet, 0), Entry(c.acnaux, 0)], [], 1),
          map[0 := Live(false, 0, now)], now, 0, [])
  }
}
