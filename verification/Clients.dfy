/** What clients get for their commands: who is let in and under which id, who is given which name, what an
    acknowledgement counts, and what disconnecting leaves behind. */
module Clients {
  import opened Sequences
  import opened SlotPools
  import opened Acnet
  import opened Rad50
  import opened Daemon
  import opened Invariant
  import opened Registers
  import opened Preservation
  import opened Removal
  import opened Handlers
  import opened Steps
  import opened Guarantees
  import opened Notices
  import opened Protocol
  import opened Outcomes
  import opened Exchanges
  import opened Arrivals
  import opened Inactive

  // ---- Connecting ----

  /** Is u a registered client with this name and command port? */
  predicate Connected(g: Registry, name: nat, cmdPort: nat, u: nat) {
    Registered(g, u) && External(g, u) && g.infos[u].handle == name && g.infos[u].cmdPort == cmdPort
  }

  ghost predicate IsConnected(g: Registry, name: nat, cmdPort: nat) {
    exists u {:trigger Connected(g, name, cmdPort, u)} :: Connected(g, name, cmdPort, u)
  }

  lemma OneConnected(c: Config, s: State, name: nat, cmdPort: nat, u: nat, v: nat)
    requires Inv(c, s, {}) && Connected(s.reg, name, cmdPort, u) && Connected(s.reg, name, cmdPort, v)
    ensures u == v
  {
    var j := RenameFindsIn(c, s, u);
    var k := RenameFindsIn(c, s, v);
    RegPart(c, s, {});
    if u != v { EntriesDiffer(c, s.reg, j, k); }
  }

  /** Who is found by name and command port. */
  lemma FoundConnected(c: Config, s: State, name: nat, cmdPort: nat)
    requires Inv(c, s, {})
    ensures var r := FindClient(s.reg, name, cmdPort, 0);
            if r.Some? then Connected(s.reg, name, cmdPort, r.value)
            else !IsConnected(s.reg, name, cmdPort)
  {
    var r := FindClient(s.reg, name, cmdPort, 0);
    FindClientOk(s.reg, name, cmdPort, 0);
    if r.Some? {
      var k :| 0 <= k < |s.reg.active| && s.reg.active[k] == Entry(name, r.value);
      ListedIsRegistered(c, s, k);
      RegPart(c, s, {});
      assert EntryOk(c, s.reg, s.reg.active[k]);
    } else {
      forall u {:trigger Connected(s.reg, name, cmdPort, u)} ensures !Connected(s.reg, name, cmdPort, u) {
        if Connected(s.reg, name, cmdPort, u) { var k := RenameFindsIn(c, s, u); }
      }
    }
  }

  /** A client that is connected already gets the id it has, and nothing changes. */
  lemma ReconnectKeepsId(c: Config, s: State, name: nat, cmd: ConnectCmd, u: nat)
    requires Inv(c, s, {}) && Connected(s.reg, name, cmd.cmdPort, u)
    ensures ConnectNamed(c, s, name, cmd) == (s, 0, s.reg.infos[u].id)
  {
    FoundConnected(c, s, name, cmd.cmdPort);
    OneConnected(c, s, name, cmd.cmdPort, u, FindClient(s.reg, name, cmd.cmdPort, 0).value);
  }

  /** The ids a client may be given: old clients know ids of one byte only. */
  predicate InRange(c: Config, ext: bool, id: nat) { if ext then 256 <= id < c.maxTasks else id < 256 }

  ghost predicate AllTaken(c: Config, s: State, ext: bool) {
    forall id: nat {:trigger id in s.reg.tasks} :: InRange(c, ext, id) ==> id in s.reg.tasks
  }

  lemma IdToGive(c: Config, s: State, ext: bool)
    ensures var r := NextFreeId(s.reg.tasks, if ext then 256 else 0, if ext then c.maxTasks else 256);
            if r.Some? then
              && InRange(c, ext, r.value) && r.value !in s.reg.tasks
              && (forall k: nat {:trigger k in s.reg.tasks} :: InRange(c, ext, k) && k < r.value ==> k in s.reg.tasks)
            else AllTaken(c, s, ext)
  {
    NextFreeIdOk(s.reg.tasks, if ext then 256 else 0, if ext then c.maxTasks else 256);
  }

  /** Does a task have this name? */
  ghost predicate NameTaken(g: Registry, name: nat) {
    exists k {:trigger g.active[k]} :: 0 <= k < |g.active| && g.active[k].handle == name
  }

  lemma NoTaskIsNoName(g: Registry, name: nat)
    ensures TasksOf(g.active, name) == [] <==> !NameTaken(g, name)
  {
    TasksOfMembers(g.active, name);
    if TasksOf(g.active, name) == [] {
      NoneOfHandle(g.active, name);
    } else {
      var u := TasksOf(g.active, name)[0];
      assert u in TasksOf(g.active, name);
      var k :| 0 <= k < |g.active| && g.active[k] == Entry(name, u);
    }
  }

  /** Who is not let in: without a free id, or with a name that another task has, or that stands for a
      multicast group which cannot be joined. */
  lemma WhoIsTurnedAway(c: Config, s: State, name: nat, cmd: ConnectCmd)
    requires Inv(c, s, {}) && !IsConnected(s.reg, name, cmd.cmdPort)
    ensures AllTaken(c, s, cmd.ext) ==> ConnectNamed(c, s, name, cmd) == (s, -511, 0)
    ensures !AllTaken(c, s, cmd.ext) && name in c.mcastHandles && s.asked !in c.yes ==>
              ConnectNamed(c, s, name, cmd) == (Asked(s), -511, 0)
    ensures !AllTaken(c, s, cmd.ext) && name !in c.mcastHandles && NameTaken(s.reg, name) ==>
              ConnectNamed(c, s, name, cmd) == (s, -6911, 0)
  {
    FoundConnected(c, s, name, cmd.cmdPort);
    IdToGive(c, s, cmd.ext);
    NoTaskIsNoName(s.reg, name);
  }

  /** What a client is when it is let in. */
  ghost predicate LetIn(c: Config, s: State, name: nat, cmd: ConnectCmd, kind: Kind, s': State, id: nat) {
    var u := s.reg.nextObj;
    && InRange(c, cmd.ext, id) && id !in s.reg.tasks
    && (forall k: nat {:trigger k in s.reg.tasks} :: InRange(c, cmd.ext, k) && k < id ==> k in s.reg.tasks)
    && s'.reg.infos == s.reg.infos[u := Info(id, name, kind, cmd.pid, cmd.cmdPort, cmd.dataPort)]
    && s'.reg.tasks == s.reg.tasks[id := u] && s'.reg.active == s.reg.active + [Entry(name, u)]
    && s'.live == s.live[u := Live(false, 0, s.now)]
    && s'.reqs.pool == s.reqs.pool && s'.rpys.pool == s.rpys.pool && s'.log == s.log
  }

  lemma AdmittedIs(s: State, n: nat, i: Info)
    ensures var s', u := Admit(s.(asked := n), i), s.reg.nextObj;
            && s'.reg.infos == s.reg.infos[u := i] && s'.reg.tasks == s.reg.tasks[i.id := u]
            && s'.reg.active == s.reg.active + [Entry(i.handle, u)] && s'.live == s.live[u := Live(false, 0, s.now)]
            && s'.reqs.pool == s.reqs.pool && s'.rpys.pool == s.rpys.pool && s'.log == s.log
  {}

  lemma NamedIs(c: Config, s: State, name: nat, cmd: ConnectCmd, id: nat)
    requires FindClient(s.reg, name, cmd.cmdPort, 0) == None
    requires NextFreeId(s.reg.tasks, if cmd.ext then 256 else 0, if cmd.ext then c.maxTasks else 256) == Some(id)
    requires if name in c.mcastHandles then s.asked in c.yes else TasksOf(s.reg.active, name) == []
    ensures var mcast := name in c.mcastHandles;
            var kind := if mcast then Multicast else if cmd.tcp then Remote else Local;
            var s' := Admit(s.(asked := if mcast then s.asked + 1 else s.asked),
                            Info(id, name, kind, cmd.pid, cmd.cmdPort, cmd.dataPort));
            ConnectNamed(c, s, name, cmd) == (s', 0, id)
  {
    assert s.(asked := s.asked) == s;
  }

  /** Everyone else is, with the lowest free id. */
  lemma WhoIsLetIn(c: Config, s: State, name: nat, cmd: ConnectCmd)
    requires Inv(c, s, {}) && !IsConnected(s.reg, name, cmd.cmdPort)
    requires !AllTaken(c, s, cmd.ext)
    requires if name in c.mcastHandles then s.asked in c.yes else !NameTaken(s.reg, name)
    ensures var (s', status, id) := ConnectNamed(c, s, name, cmd);
            status == 0 && LetIn(c, s, name, cmd, if name in c.mcastHandles then Multicast
                                                  else if cmd.tcp then Remote else Local, s', id)
  {
    FoundConnected(c, s, name, cmd.cmdPort);
    IdToGive(c, s, cmd.ext);
    NoTaskIsNoName(s.reg, name);
    var mcast, id := name in c.mcastHandles, ConnectNamed(c, s, name, cmd).2;
    var kind := if mcast then Multicast else if cmd.tcp then Remote else Local;
    NamedIs(c, s, name, cmd, id);
    AdmittedIs(s, if mcast then s.asked + 1 else s.asked, Info(id, name, kind, cmd.pid, cmd.cmdPort, cmd.dataPort));
  }

  /** Before that, the dead are removed; and a client without a data port is turned away at once. */
  lemma ConnectFirst(c: Config, s: State, cmd: ConnectCmd)
    ensures cmd.dataPort == 0 ==> Connect(c, s, cmd) == (s, -12799, 0)
    ensures cmd.dataPort != 0 ==>
              var name := if cmd.name == 0 then Packed(Encoded(PortText(cmd.dataPort % 65536))) else cmd.name;
              Connect(c, s, cmd) == ConnectNamed(c, RemoveInactive(c, s), name, cmd)
  {}

  // ---- Names ----

  lemma {:induction false} TasksOfMore(active: seq<Entry>, e: Entry, handle: nat)
    ensures TasksOf(active + [e], handle) == TasksOf(active, handle) + (if e.handle == handle then [e.obj] else [])
  {
    if active == [] {
      assert active + [e] == [e];
    } else {
      var head := if active[0].handle == handle then [active[0].obj] else [];
      assert (active + [e])[1..] == active[1..] + [e];
      TasksOfMore(active[1..], e, handle);
      Associative(head, TasksOf(active[1..], handle), if e.handle == handle then [e.obj] else []);
    }
  }

  lemma {:induction false} NoneIsNoTask(active: seq<Entry>, handle: nat)
    requires forall k {:trigger active[k]} :: 0 <= k < |active| ==> active[k].handle != handle
    ensures TasksOf(active, handle) == []
  {
    if active != [] { NoneIsNoTask(active[1..], handle); }
  }

  /** Requests for a name that was just taken go to the one who took it. */
  lemma NewNameServes(active: seq<Entry>, k: nat, handle: nat, u: nat)
    requires k < |active| && forall j {:trigger active[j]} :: 0 <= j < |active| ==> active[j].handle != handle
    ensures TasksOf(Cut(active, k) + [Entry(handle, u)], handle) == [u]
  {
    var rest := Cut(active, k);
    forall j | 0 <= j < |rest| ensures rest[j].handle != handle {
      assert rest[j] in rest;
      CutMembers(active, k);
    }
    NoneIsNoTask(rest, handle);
    TasksOfMore(rest, Entry(handle, u), handle);
  }

  /** Task u, with nothing else changed, has this name: requests for it are for u, and those for another name
      are not. */
  ghost predicate Renamed(s: State, u: nat, handle: nat, s': State) {
    && u in s.reg.infos && s'.reg.infos == s.reg.infos[u := s.reg.infos[u].(handle := handle)]
    && s'.reg.tasks == s.reg.tasks && s' == s.(reg := s'.reg)
    && TasksOf(s'.reg.active, handle) == [u]
    && (forall k {:trigger s'.reg.active[k]} :: 0 <= k < |s'.reg.active| ==>
          (s'.reg.active[k].obj == u <==> s'.reg.active[k].handle == handle))
  }

  lemma RelistedIs(c: Config, s: State, u: nat, handle: nat) returns (k: nat)
    requires Inv(c, s, {}) && Registered(s.reg, u) && u != 0 && !NameTaken(s.reg, handle)
    ensures FindEntry(s.reg, s.reg.infos[u].handle, u, 0) == Some(k) && k < |s.reg.active|
    ensures Renamed(s, u, handle, s.(reg := Relist(s.reg, u, k, handle)))
  {
    k := RenameFinds(c, s, u);
    RelistInv(c, s, u, k, handle);
    NewNameServes(s.reg.active, k, handle, u);
    var s' := s.(reg := Relist(s.reg, u, k, handle));
    RegPart(c, s', {});
    forall j {:trigger s'.reg.active[j]} | 0 <= j < |s'.reg.active|
      ensures s'.reg.active[j].obj == u <==> s'.reg.active[j].handle == handle
    {
      assert EntryOk(c, s'.reg, s'.reg.active[j]);
      TasksOfMembers(s'.reg.active, handle);
      assert s'.reg.active[j] == Entry(s'.reg.active[j].handle, s'.reg.active[j].obj);
      assert s'.reg.active[j] in s'.reg.active;
    }
  }

  /** A free name is given to whoever asks for it. */
  lemma FreeNameIsGiven(c: Config, s: State, u: nat, handle: nat)
    requires Inv(c, s, {}) && Registered(s.reg, u) && u != 0 && handle !in c.mcastHandles && !NameTaken(s.reg, handle)
    ensures Rename(c, s, u, handle).1 && Renamed(s, u, handle, Rename(c, s, u, handle).0)
  {
    NoTaskIsNoName(s.reg, handle);
    var k := RelistedIs(c, s, u, handle);
  }

  /** The name of a task that answers is not, nor that of a multicast group. */
  lemma TakenNameIsKept(c: Config, s: State, u: nat, handle: nat, v: nat)
    requires handle in c.mcastHandles || (TasksOf(s.reg.active, handle) == [v] && Alive(c, s, v))
    ensures var (s', ok) := Rename(c, s, u, handle); !ok && s' == if handle in c.mcastHandles then s else Asked(s)
  {}

  /** A task that does not answer is removed and loses its name to the one who asks for it, unless that
      one is removed with it, as one of its process. */
  lemma DeadNameIsGiven(c: Config, s: State, u: nat, handle: nat, v: nat)
    requires Inv(c, s, {}) && Registered(s.reg, u) && u != 0 && Fresh(s, u) && handle !in c.mcastHandles
    requires TasksOf(s.reg.active, handle) == [v] && !Alive(c, s, v)
    ensures var s1, (s', ok) := RemoveTask(c, Asked(s), v), Rename(c, s, u, handle);
            && !Registered(s1.reg, v) && (ok <==> Registered(s1.reg, u))
            && (if ok then Renamed(s1, u, handle, s') else s' == s1)
  {
    TasksOfMembers(s.reg.active, handle);
    TasksOfRegistered(c, s, handle);
    var s1 := RemoveTask(c, Asked(s), v);
    assert TasksOf(s.reg.active, handle)[0] == v;
    OtherGone(c, s, u, v);
    HandleFreed(c, s, s1, handle, v);
    if Registered(s1.reg, u) {
      var k := RelistedIs(c, s1, u, handle);
    } else {
      RenameMisses(c, s, s1, u);
    }
  }

  // ---- What is pending ----

  /** One request less is pending for u, if there was one. */
  ghost predicate OneLess(s: State, s': State, u: nat) {
    var l := LiveOf(s, u);
    && LiveOf(s', u) == l.(pending := if l.pending == 0 then 0 else l.pending - 1)
    && forall v {:trigger LiveOf(s', v)} :: v != u ==> LiveOf(s', v) == LiveOf(s, v)
  }

  /** With the first reply, or an acknowledgement before that, a request is no longer pending. */
  lemma ReplyCounts(c: Config, s: State, i: nat, u: nat, status: int, n: nat, emr: bool)
    requires i in s.rpys.pool.slots && Equals(s.reg, s.rpys.pool.slots[i].owner, u)
    ensures var r, s' := s.rpys.pool.slots[i], SendReply(c, s, u, c.rpyBank + i, status, n, emr).0;
            if r.acked then s'.live == s.live else OneLess(s, s', r.owner)
  {
    assert c.rpyBank + i - c.rpyBank == i;
    ReplyAccepted(c, s, u, c.rpyBank + i, i, status, n, emr);
    XmitReplyAfter(c, s, i, status, n, emr);
  }

  /** An acknowledgement of a client's own request: the slot is marked, and nothing else happens. */
  lemma AckMarks(c: Config, s: State, u: nat, i: nat)
    requires i in s.rpys.pool.slots && Equals(s.reg, s.rpys.pool.slots[i].owner, u)
    requires External(s.reg, u) && s.reg.infos[u].kind != Multicast && LiveOf(s, u).receiving
    ensures var r, s' := s.rpys.pool.slots[i], Obey(c, s, u, AckRequest(c.rpyBank + i));
            && s'.rpys == s.rpys.(pool := s.rpys.pool.(slots := s.rpys.pool.slots[i := r.(acked := true)]))
            && (if r.acked then s'.live == s.live else OneLess(s, s', u))
            && s'.log == s.log && s'.reqs == s.reqs && s'.reg == s.reg
  {
    assert c.rpyBank + i - c.rpyBank == i;
  }

  /** One of another client's, or of a client that takes no requests, changes nothing. */
  lemma AckIsIgnored(c: Config, s: State, u: nat, id: nat)
    requires External(s.reg, u)
    requires s.reg.infos[u].kind == Multicast || !LiveOf(s, u).receiving || id < c.rpyBank
             || id - c.rpyBank !in s.rpys.pool.slots
             || !Equals(s.reg, s.rpys.pool.slots[id - c.rpyBank].owner, u)
    ensures Obey(c, s, u, AckRequest(id)) == s
  {}

  /** A client that takes requests may ignore one: the slot is free, and no one is told. */
  lemma IgnoreIsSilent(c: Config, s: State, u: nat, i: nat)
    requires External(s.reg, u) && i in s.rpys.pool.slots
    ensures var s' := Obey(c, s, u, Ignore(c.rpyBank + i));
            if s.reg.infos[u].kind != Multicast && LiveOf(s, u).receiving then
              s'.rpys.pool.slots == s.rpys.pool.slots - {i} && s' == s.(rpys := s'.rpys)
            else s' == s
  {
    assert c.rpyBank + i - c.rpyBank == i;
  }

  // ---- Taking requests ----

  /** A client that listens takes requests, unless it is in a multicast group. */
  lemma ListenersTakeRequests(c: Config, s: State, u: nat)
    requires External(s.reg, u)
    ensures var s' := Obey(c, s, u, Receive);
            if s.reg.infos[u].kind == Multicast then s' == s
            else LiveOf(s', u) == LiveOf(s, u).(receiving := true) && s' == s.(live := s'.live)
  {}

  /** One that blocks them takes none: who waits for a reply from it gets ACNET_DISCONNECTED, and the next
      request is answered with ACNET_NCR. */
  lemma BlockersRefuse(c: Config, s: State, u: nat, s1: State, h: Header)
    requires Inv(c, s, {}) && Registered(s.reg, u) && External(s.reg, u) && s.reg.infos[u].kind != Multicast
    requires s1 == Obey(c, s, u, Block)
    requires TasksOf(s1.reg.active, h.task) == [u] && Alive(c, s1, u) && h.server !in c.mcastNodes
    ensures forall i {:trigger i in s1.rpys.pool.slots} :: i in s.rpys.pool.slots ==>
              if s.rpys.pool.slots[i].owner == u then i !in s1.rpys.pool.slots
              else i in s1.rpys.pool.slots && s1.rpys.pool.slots[i] == s.rpys.pool.slots[i]
    ensures NetRequest(c, s1, h) == s1.(asked := s1.asked + 1, log := s1.log + [RefusedWith(h, -7167)])
  {
    var s0 := SetReceiving(s, u, false);
    IsObject(c, s, u);
    LiveInv(c, s, u, LiveOf(s, u).(receiving := false));
    DrainRpysInv(c, s0, {}, u, DISCONNECTED);
    RequestMeetsNoTaker(c, s1, u, h);
  }

  lemma BlockTells(c: Config, s: State, u: nat, i: nat)
    requires Inv(c, s, {}) && Registered(s.reg, u) && External(s.reg, u) && s.reg.infos[u].kind != Multicast
    requires i in s.rpys.pool.slots && s.rpys.pool.slots[i].owner == u
    ensures EndLeft(c, s, i, DISCONNECTED, s.log, Obey(c, s, u, Block).log)
  {
    var s0 := SetReceiving(s, u, false);
    IsObject(c, s, u);
    LiveInv(c, s, u, LiveOf(s, u).(receiving := false));
    Facets(c, s, {});
    DrainRpysTells(c, s0, {}, u, DISCONNECTED, i);
    SameEndSlot(c, s, s0, i, DISCONNECTED, s.log, Obey(c, s, u, Block).log);
  }

  // ---- After a command ----

  lemma HeardInv(c: Config, s: State, u: nat, s1: State)
    requires Inv(c, s, {}) && Registered(s.reg, u) && External(s.reg, u)
    requires s1 == s.(live := s.live[u := LiveOf(s, u).(lastCommand := s.now)])
    ensures Inv(c, s1, {}) && u != 0 && Fresh(s1, u) && s1.reg == s.reg
  {
    ClientIsNotInternal(c, s, u);
    IsObject(c, s, u);
    LiveInv(c, s, u, LiveOf(s, u).(lastCommand := s.now));
  }

  lemma AckRemoves(c: Config, s: State, u: nat)
    requires Inv(c, s, {}) && MayGo(s.reg, u) && !Alive(c, s, u)
    ensures var s' := Ack(c, s, u);
            && !Registered(s'.reg, u)
            && (forall i :: i in s'.reqs.pool.slots ==> s'.reqs.pool.slots[i].owner != u)
            && (forall i :: i in s'.rpys.pool.slots ==> s'.rpys.pool.slots[i].owner != u)
  {
    AskedInv(c, s, {});
    RemoveTaskComplete(c, Asked(s), u);
  }

  /** A command renews the thirty seconds for which a client without a pid counts as alive. It is acknowledged;
      a client that the acknowledgement does not reach is removed. */
  lemma CommandIsAcknowledged(c: Config, s: State, u: nat, cmd: Command, s1: State, s2: State)
    requires Inv(c, s, {}) && Registered(s.reg, u) && External(s.reg, u)
    requires cmd != Disconnect && cmd != DisconnectSingle
    requires s1 == s.(live := s.live[u := LiveOf(s, u).(lastCommand := s.now)]) && s2 == Obey(c, s1, u, cmd)
    ensures var s' := Step(c, s, Commanded(u, cmd));
            if Alive(c, s2, u) then s' == Asked(s2)
            else
              && !Registered(s'.reg, u)
              && (forall i :: i in s'.reqs.pool.slots ==> s'.reqs.pool.slots[i].owner != u)
              && (forall i :: i in s'.rpys.pool.slots ==> s'.rpys.pool.slots[i].owner != u)
  {
    CommandIs(c, s, u, cmd, s1);
    HeardInv(c, s, u, s1);
    ObeyInv(c, s1, u, cmd);
    if !Alive(c, s2, u) { AckRemoves(c, s2, u); }
  }

  /** Disconnecting removes the client and its process, or the client alone. */
  lemma DisconnectRemoves(c: Config, s: State, u: nat, id: nat)
    requires Inv(c, s, {}) && Registered(s.reg, u) && External(s.reg, u) && s.reg.infos[u].id == id
    ensures var s' := Step(c, s, Commanded(u, Disconnect));
            forall x {:trigger x in s'.reg.tasks} ::
              x in s'.reg.tasks <==> x in s.reg.tasks && x !in Household(s.reg, id)
    ensures Step(c, s, Commanded(u, DisconnectSingle)).reg.tasks == s.reg.tasks - {id}
  {
    var s1 := s.(live := s.live[u := LiveOf(s, u).(lastCommand := s.now)]);
    HeardInv(c, s, u, s1);
    AskedInv(c, s1, {});
    CommandIs(c, s, u, Disconnect, s1);
    CommandIs(c, s, u, DisconnectSingle, s1);
    RemoveTaskInv(c, Asked(s1), u);
    RemovedIsHousehold(s.reg, RemoveTask(c, Asked(s1), u).reg, id);
    RemoveOnlyShrinks(c, Asked(s1), u, DISCONNECTED, false);
  }

  /** Only registered clients are heard, and the daemon's own process is not let in as one. */
  lemma StrangersAreNotHeard(c: Config, s: State, u: nat, cmd: Command, conn: ConnectCmd)
    ensures !External(s.reg, u) || !Registered(s.reg, u) ==> Step(c, s, Commanded(u, cmd)) == s
    ensures conn.pid == c.ownPid ==> Step(c, s, Connecting(conn)) == s
    ensures conn.pid != c.ownPid ==> Step(c, s, Connecting(conn)) == Connect(c, s, conn).0
  {}
}
