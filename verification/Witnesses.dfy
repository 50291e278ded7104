/** Runs that lead to what the program does otherwise than it says. */
module Witnesses {
  import opened Sequences
  import opened SlotPools
  import opened Timers
  import opened Acnet
  import opened Daemon
  import opened Invariant
  import opened Registers
  import opened Preservation
  import opened Handlers
  import opened Steps
  import opened Guarantees
  import opened Notices
  import opened Protocol

  // ---- A daemon with one client ----

  /** A daemon with two slots at least, and a name for a client that is no special one. */
  predicate Ordinary(c: Config, name: nat) {
    && c.acnet != c.acnaux && c.ownPid > 0 && c.maxTasks >= 256 && c.size >= 2
    && name > 0 && name != c.acnet && name != c.acnaux && name !in c.mcastHandles
  }

  /** A connect command without a pid, so that the client counts as alive for 30 seconds. */
  function Hello(name: nat): ConnectCmd { ConnectCmd(name, 0, 5, 6, false, false) }

  function Connected(c: Config, now: int, name: nat): State {
    Admit(Asked(Initial(c, now)), Info(1, name, Local, 0, 5, 6))
  }

  /** The client accepts requests. */
  function Ready(c: Config, now: int, name: nat): State {
    Asked(SetReceiving(Connected(c, now, name), 1, true))
  }

  lemma {:induction false} NoneBeyondZero(c: Config, s: State, from: nat)
    requires from > 0 && s.reg.tasks == map[0 := 0]
    ensures RemoveDead(c, s, from) == s
    decreases c.maxTasks - from
  {
    if from < c.maxTasks { NoneBeyondZero(c, s, from + 1); }
  }

  /** No one is dead at first. */
  lemma NothingToRemove(c: Config, now: int, name: nat)
    requires Ordinary(c, name)
    ensures RemoveInactive(c, Initial(c, now)) == Asked(Initial(c, now))
  {
    var s := Asked(Initial(c, now));
    NoneBeyondZero(c, s, 1);
    assert RemoveDead(c, Initial(c, now), 0) == RemoveDead(c, s, 1);
    assert Elements(s.reg.removed) == {};
    assert s.reg.infos - {} == s.reg.infos && s.live - {} == s.live;
    assert s.reqs.ids - {} == s.reqs.ids && s.rpys.ids - {} == s.rpys.ids;
  }

  lemma Connects(c: Config, now: int, name: nat)
    requires Ordinary(c, name)
    ensures Step(c, Initial(c, now), Connecting(Hello(name))) == Connected(c, now, name)
  {
    var s := Asked(Initial(c, now));
    NothingToRemove(c, now, name);
    NobodyElse(c, s, name);
    assert NextFreeId(s.reg.tasks, 0, 256) == Some(1);
  }

  lemma NobodyElse(c: Config, s: State, name: nat)
    requires s.reg.active == [Entry(c.acnet, 0), Entry(c.acnaux, 0)] && Ordinary(c, name)
    ensures FindClient(s.reg, name, 5, 0) == None && TasksOf(s.reg.active, name) == []
  {
    assert FindClient(s.reg, name, 5, 2) == None;
    assert FindClient(s.reg, name, 5, 1) == None;
    OtherHandle(s.reg.active, name);
    OtherHandle(s.reg.active[1..], name);
    assert s.reg.active[1..][1..] == [];
  }

  lemma OtherHandle(active: seq<Entry>, handle: nat)
    requires active != [] && active[0].handle != handle
    ensures TasksOf(active, handle) == TasksOf(active[1..], handle)
  {
    assert [] + TasksOf(active[1..], handle) == TasksOf(active[1..], handle);
  }

  lemma GetsReady(c: Config, now: int, name: nat)
    requires Ordinary(c, name)
    ensures Step(c, Connected(c, now, name), Commanded(1, Receive)) == Ready(c, now, name)
  {
    var s := Connected(c, now, name);
    var s1 := s.(live := s.live[1 := LiveOf(s, 1).(lastCommand := s.now)]);
    assert s.reg.infos[1] == Info(1, name, Local, 0, 5, 6);
    assert s1.live == s.live;
    CommandIs(c, s, 1, Receive, s1);
    assert Obey(c, s1, 1, Receive) == SetReceiving(s, 1, true);
  }

  lemma ReadyIsReachable(c: Config, now: int, name: nat)
    requires Ordinary(c, name)
    ensures Sound(c) && Reachable(c, Ready(c, now, name))
  {
    assert Initial(c, now) == Run(c, Initial(c, now), []);
    Connects(c, now, name);
    ReachableStep(c, Initial(c, now), Connecting(Hello(name)));
    GetsReady(c, now, name);
    ReachableStep(c, Connected(c, now, name), Commanded(1, Receive));
  }

  /** The client is the one task of its name, is there, and takes requests as long as there are slots. */
  ghost predicate Waits(c: Config, s: State, name: nat) {
    && s.reg.active == [Entry(c.acnet, 0), Entry(c.acnaux, 0), Entry(name, 1)]
    && 1 in s.reg.infos && s.reg.infos[1] == Info(1, name, Local, 0, 5, 6)
    && LiveOf(s, 1).receiving && s.now == LiveOf(s, 1).lastCommand
  }

  lemma ReadyWaits(c: Config, now: int, name: nat)
    ensures var s := Ready(c, now, name);
            && Waits(c, s, name) && s.rpys.links == [] && |s.rpys.pool.free| == c.size && s.reqs.pool == NewPool(c.size)
  {}

  lemma WaitsDelivers(c: Config, s: State, name: nat)
    requires Ordinary(c, name) && Waits(c, s, name)
    ensures Alive(c, s, 1) && Alive(c, Asked(s), 1)
    ensures s.rpys.pool.free != [] ==> Delivers(c, s, name, 1)
  {
    var l := s.reg.active[1..][1..];
    OtherHandle(s.reg.active, name);
    OtherHandle(s.reg.active[1..], name);
    assert l == [Entry(name, 1)];
    assert TasksOf(l[1..], name) == [];
    assert TasksOf(l, name) == [1];
  }

  /** A request delivered to it takes one slot, and it goes on waiting. */
  lemma DeliveredWaits(c: Config, s: State, name: nat, h: Header)
    requires Ordinary(c, name) && Waits(c, s, name) && s.rpys.pool.free != [] && h.task == name
    ensures Waits(c, NetRequest(c, s, h), name)
    ensures NetRequest(c, s, h).rpys.pool.free == s.rpys.pool.free[1..]
  {
    var s1 := IncPending(Asked(s), 1);
    WaitsDelivers(c, s, name);
    CountedSame(c, s, 1, h, s1);
    CountedWaits(c, s1, name, h);
    Delivered(c, s, 1, h, s1, DeliverCounted(c, s1, 1, h).0);
  }

  lemma CountedWaits(c: Config, s: State, name: nat, h: Header)
    requires Waits(c, s, name) && s.rpys.pool.free != []
    ensures var (s', result) := DeliverCounted(c, s, 1, h);
            result == SUCCESS && Waits(c, s', name) && s'.rpys.pool.free == s.rpys.pool.free[1..]
  {
    var s1 := Offered(c, s, 1, h);
    OfferedWaits(c, s, name, h);
    HandedOver(c, s1, 1, h, s.rpys.pool.free[0]);
  }

  lemma OfferedWaits(c: Config, s: State, name: nat, h: Header)
    requires Waits(c, s, name) && s.rpys.pool.free != []
    ensures var s1 := Offered(c, s, 1, h);
            Waits(c, s1, name) && Alive(c, s1, 1) && s1.rpys.pool.free == s.rpys.pool.free[1..]
  {}

  // ---- The same request twice ----

  /** In every daemon with two slots at least, a request that comes twice and is cancelled leads to a
      reply in use that no CANCEL ends. */
  lemma SomeReplyIsHidden(c: Config, now: int, name: nat, node: nat, client: nat) returns (s: State, j: nat, g: Header)
    requires Ordinary(c, name) && node !in c.mcastNodes
    ensures Reachable(c, s) && j in s.rpys.pool.slots && KeyOf(s.rpys.pool.slots[j]) == (g.client, g.msgId)
    ensures Hidden(s.rpys.pool.slots[j], s.rpys.ended) && Step(c, s, Cancelled(g)) == s
  {
    var h := Header(FLG_REQ, SUCCESS, node, client, name, 3, 4, HEADER_SIZE);
    g := h.(flags := FLG_CAN);
    var s0 := Ready(c, now, name);
    ReadyIsReachable(c, now, name);
    ReadyWaits(c, now, name);
    s, j := RepeatedAndCancelled(c, s0, name, h, g);
  }

  lemma RepeatedAndCancelled(c: Config, s0: State, name: nat, h: Header, g: Header) returns (s: State, j: nat)
    requires Ordinary(c, name) && Sound(c) && Reachable(c, s0) && Waits(c, s0, name) && |s0.rpys.pool.free| >= 2
    requires s0.rpys.links == [] && h.task == name && h.server !in c.mcastNodes && g == h.(flags := FLG_CAN)
    ensures Reachable(c, s) && j in s.rpys.pool.slots && KeyOf(s.rpys.pool.slots[j]) == (g.client, g.msgId)
    ensures Hidden(s.rpys.pool.slots[j], s.rpys.ended) && Step(c, s, Cancelled(g)) == s
  {
    var s1, s2 := TwiceRequested(c, s0, name, h);
    s, j := Step(c, s2, Cancelled(g)), s1.rpys.pool.free[0];
    RepeatedRequestOutlivesCancel(c, s0, 1, h, g, s1, s2, s);
  }

  lemma TwiceRequested(c: Config, s: State, name: nat, h: Header) returns (s1: State, s2: State)
    requires Ordinary(c, name) && Waits(c, s, name) && |s.rpys.pool.free| >= 2 && h.task == name
    ensures s1 == Step(c, s, Requested(h)) && s2 == Step(c, s1, Requested(h))
    ensures Delivers(c, s, name, 1) && Delivers(c, s1, name, 1) && Alive(c, s2, 1)
  {
    s1, s2 := NetRequest(c, s, h), NetRequest(c, NetRequest(c, s, h), h);
    PacketStep(c, s, h);
    PacketStep(c, s1, h);
    WaitsDelivers(c, s, name);
    DeliveredWaits(c, s, name, h);
    WaitsDelivers(c, s1, name);
    DeliveredWaits(c, s1, name, h);
    WaitsDelivers(c, s2, name);
  }

  // ---- A reply with MLT to a one-shot request ----

  /** In every such daemon the client of a one-shot request can be handed a packet with the MLT flag,
      which says that more will come. */
  lemma SomeHeaderIsNotFixed(c: Config, now: int, name: nat, node: nat, taskName: nat) returns (s: State, h: Header)
    requires Ordinary(c, name) && node !in c.mcastNodes
    ensures Reachable(c, s) && |Step(c, s, Answered(h)).log| > |s.log|
    ensures var e := Step(c, s, Answered(h)).log[|s.log|]; e.Handed? && !e.mult && Mlt(e.h.flags) && !IsEmr(e.h)
  {
    var s0 := Ready(c, now, name);
    ReadyIsReachable(c, now, name);
    ReadyWaits(c, now, name);
    s, h := OneShotSent(c, s0, name, node, taskName);
    OneShotHeaderIsNotFixed(c, s, h, 0);
    PacketStep(c, s, h);
  }

  lemma OneShotSent(c: Config, s0: State, name: nat, node: nat, taskName: nat) returns (s: State, h: Header)
    requires Ordinary(c, name) && Waits(c, s0, name) && s0.reqs.pool == NewPool(c.size) && Reachable(c, s0)
    requires Registered(s0.reg, 1) && node !in c.mcastNodes
    ensures Reachable(c, s) && Expected(c, s, h, 0) && Alive(c, Asked(s), s.reqs.pool.slots[0].owner)
    ensures !Mlt(s.reqs.pool.slots[0].flags) && Mlt(h.flags) && h.status == SUCCESS
  {
    var cmd := Request(taskName, node, 0, 1000, 0);
    s := Step(c, s0, Commanded(1, cmd));
    h := Header(FLG_RPY + FLG_MLT, SUCCESS, node, c.node, taskName, 1, c.reqBank, HEADER_SIZE);
    ReachableStep(c, s0, Commanded(1, cmd));
    var s1 := s0.(live := s0.live[1 := LiveOf(s0, 1).(lastCommand := s0.now)]);
    CommandIs(c, s0, 1, cmd, s1);
    WaitsDelivers(c, s0, name);
  }
}
