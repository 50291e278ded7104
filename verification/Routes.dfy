/** Where packets go: which node's datagrams a packet of the daemon is put in. */
module Routes {
  import opened Sequences
  import opened Acnet
  import opened Daemon
  import opened Invariant
  import opened Preservation
  import opened Notices
  import opened Outcomes
  import opened Exchanges
  import opened Wire
  import opened Network

  /** The message is added to what goes to this node, and to nothing else. */
  ghost predicate GoesTo(v: View, known: set<nat>, m: Message, node: nat)
    requires ViewOk(v, known)
  {
    var (v', ok) := Queued(v, known, m);
    && ok && Stream(v'.all, node) == Stream(v.all, node) + [m]
    && forall other {:trigger Stream(v'.all, other)} :: other != node ==> Stream(v'.all, other) == Stream(v.all, other)
  }

  /** Requests and CANCELs go to the server's node, and replies to the client's. */
  lemma PacketsGo(v: View, known: set<nat>, m: Message)
    requires ViewOk(v, known) && Legal(m)
    ensures m.h.flags == 2 || m.h.flags == 3 || m.h.flags == 0x200 ==> GoesTo(v, known, m, m.h.server)
    ensures m.h.flags == 4 || m.h.flags == 5 ==> GoesTo(v, known, m, m.h.client)
  {
    var v', node := Queued(v, known, m).0, Destination(m.h);
    QueuedInOrder(v, known, m, node);
    forall other | other != node ensures Stream(v'.all, other) == Stream(v.all, other) {
      QueuedInOrder(v, known, m, other);
    }
  }

  lemma SamePacket(l: seq<Event>, e: Event, f: Event)
    requires l + [e] == l + [f]
    ensures e == f
  {
    assert (l + [e])[|l|] == e;
  }

  lemma RequestLeaves(c: Config, s: State, u: nat, taskName: nat, node: nat, flags: nat, tmo: nat, n: nat, h: Header)
    requires Inv(c, s, {}) && s.reqs.pool.free != []
    requires SendRequest(c, s, u, taskName, node, flags, tmo, n).log == s.log + [Sent(h)]
    ensures (h.flags == 2 || h.flags == 3) && h.server == node
  {
    RequestOpens(c, s, u, taskName, node, flags, tmo, n);
    var g := Header(if flags % 2 == 1 then 3 else 2, 0, node, c.node, taskName, InfoOf(s.reg, u).id,
                    c.reqBank + s.reqs.pool.free[0], 18 + n + n % 2);
    SamePacket(s.log, Sent(h), Sent(g));
  }

  lemma CancelLeaves(c: Config, s: State, u: nat, i: nat, h: Header)
    requires i in s.reqs.pool.slots && Equals(s.reg, s.reqs.pool.slots[i].owner, u)
    requires CancelCommand(c, s, u, c.reqBank + i).log == s.log + [Sent(h)]
    ensures h.flags == 0x200 && h.server == s.reqs.pool.slots[i].remNode
  {
    CancelIsSent(c, s, u, i);
    var r := s.reqs.pool.slots[i];
    var g := Header(0x200, 0, r.remNode, r.lclNode, r.taskName, InfoOf(s.reg, r.owner).id, c.reqBank + i, 18);
    SamePacket(s.log, Sent(h), Sent(g));
  }

  lemma ReplyLeaves(c: Config, s: State, i: nat, u: nat, status: int, n: nat, emr: bool, h: Header)
    requires Inv(c, s, {}) && i in s.rpys.pool.slots && Equals(s.reg, s.rpys.pool.slots[i].owner, u)
    requires SendReply(c, s, u, c.rpyBank + i, status, n, emr).0.log
             == s.log + [Replied(s.rpys.pool.slots[i].serial, h)]
    ensures (h.flags == 4 || h.flags == 5) && h.client == s.rpys.pool.slots[i].remNode
  {
    var r := s.rpys.pool.slots[i];
    GivenIsSent(c, s, i, u, status, n, emr);
    SamePacket(s.log, Replied(r.serial, h), Replied(r.serial, GivenHeader(r, status, n, emr)));
  }

  /** A request goes to the node it is sent to. */
  lemma RequestGoes(c: Config, s: State, u: nat, taskName: nat, node: nat, flags: nat, tmo: nat,
                    v: View, known: set<nat>, m: Message)
    requires Inv(c, s, {}) && s.reqs.pool.free != [] && ViewOk(v, known) && Legal(m)
    requires var l := SendRequest(c, s, u, taskName, node, flags, tmo, |m.payload|).log; l == s.log + [Sent(m.h)]
    ensures GoesTo(v, known, m, node)
  {
    RequestLeaves(c, s, u, taskName, node, flags, tmo, |m.payload|, m.h);
    PacketsGo(v, known, m);
  }

  /** Its CANCEL goes there too. */
  lemma CancelGoes(c: Config, s: State, u: nat, i: nat, v: View, known: set<nat>, m: Message)
    requires i in s.reqs.pool.slots && Equals(s.reg, s.reqs.pool.slots[i].owner, u) && ViewOk(v, known) && Legal(m)
    requires CancelCommand(c, s, u, c.reqBank + i).log == s.log + [Sent(m.h)]
    ensures GoesTo(v, known, m, s.reqs.pool.slots[i].remNode)
  {
    CancelLeaves(c, s, u, i, m.h);
    PacketsGo(v, known, m);
  }

  /** A reply goes to the node the request came from. */
  lemma ReplyGoes(c: Config, s: State, i: nat, u: nat, status: int, emr: bool, v: View, known: set<nat>, m: Message)
    requires Inv(c, s, {}) && i in s.rpys.pool.slots && Equals(s.reg, s.rpys.pool.slots[i].owner, u)
    requires ViewOk(v, known) && Legal(m)
    requires var r, l := s.rpys.pool.slots[i], SendReply(c, s, u, c.rpyBank + i, status, |m.payload|, emr).0.log;
             l == s.log + [Replied(r.serial, m.h)]
    ensures GoesTo(v, known, m, s.rpys.pool.slots[i].remNode)
  {
    ReplyLeaves(c, s, i, u, status, |m.payload|, emr, m.h);
    PacketsGo(v, known, m);
  }

  /** The refusal of a request goes back to its client, and the CANCEL of a stray reply to its server. */
  lemma AnswersGoBack(h: Header, status: int, v: View, known: set<nat>, m: Message)
    requires ViewOk(v, known) && Legal(m)
    ensures m.h == ErrorReply(h, status) ==> GoesTo(v, known, m, h.client)
    ensures m.h == StrayCancel(h) ==> GoesTo(v, known, m, h.server)
  {
    PacketsGo(v, known, m);
  }

  lemma FitsIs(total: nat, m: Message)
    ensures Room(total, m) <==> total + 18 + |m.payload| + |m.payload| % 2 <= 65506
  {
    PaddedIs(|m.payload|);
  }

  lemma Begun(all: seq<Datagram>, d: Datagram, m: Message)
    requires d.msgs == []
    ensures (all + [d])[|all| := d.(msgs := d.msgs + [m])] == all + [Datagram(d.target, [m])]
  {
    assert d.msgs + [m] == [m];
  }

  lemma OpenDatagram(v: View, known: set<nat>, node: nat) returns (k: nat)
    requires ViewOk(v, known) && node in v.open
    ensures k == v.open[node] && k < |v.all| && AllLegal(v.all[k].msgs)
  {
    ViewParts(v, known);
    k := v.open[node];
    assert LastFor(v, k, node);
    assert DatagramOk(v.all[k]);
  }

  lemma GoesToNode(h: Header, node: nat)
    requires if h.flags == 4 || h.flags == 5 then h.client == node else h.flags in {2, 3, 0x200} && h.server == node
    ensures Destination(h) == node
  {}

  lemma QueuedOpen(v: View, known: set<nat>, m: Message)
    requires ViewOk(v, known) && Legal(m) && Destination(m.h) in v.open
    requires var k := v.open[Destination(m.h)]; k < |v.all| && AllLegal(v.all[k].msgs)
    ensures var node, all := Destination(m.h), v.all;
            var k := v.open[node];
            Queued(v, known, m).0.all
            == if Room(|Joined(all[k].msgs)|, m) then all[k := Datagram(all[k].target, all[k].msgs + [m])]
               else all + [Datagram(node, [m])]
  {
    LegalFits(m);
    Begun(v.all, Datagram(Destination(m.h), []), m);
  }

  /** A message to a known node leaves its datagram open for more, and closes none. */
  lemma DatagramStaysOpen(v: View, known: set<nat>, m: Message, node: nat)
    requires ViewOk(v, known) && Legal(m) && node in known
    requires if m.h.flags == 4 || m.h.flags == 5 then m.h.client == node
             else m.h.flags in {2, 3, 0x200} && m.h.server == node
    ensures var v' := Queued(v, known, m).0;
            && node in v'.open && v'.open[node] < |v'.all|
            && v'.all[v'.open[node]].target == node && m in v'.all[v'.open[node]].msgs
            && forall other {:trigger v.open[other]} :: other in v.open && other != node ==>
                 other in v'.open && v'.open[other] == v.open[other]
  {
    GoesToNode(m.h, node);
    LegalFits(m);
    if node in v.open { OpenIsFor(v, known, node); }
  }

  lemma OpenIsFor(v: View, known: set<nat>, node: nat)
    requires ViewOk(v, known) && node in v.open
    ensures v.open[node] < |v.all| && v.all[v.open[node]].target == node
  {
    ViewParts(v, known);
    assert LastFor(v, v.open[node], node);
  }

  /** When the head of the queue leaves, it takes no more messages; the other datagrams do. */
  lemma HeadIsClosed(v: View, known: set<nat>, node: nat)
    requires ViewOk(v, known) && v.sent < |v.all|
    ensures node in Popped(v).open <==> node in v.open && v.open[node] != v.sent
    ensures node in Popped(v).open ==> Popped(v).open[node] == v.open[node]
    ensures Popped(v).sent == v.sent + 1 && Popped(v).all == v.all
  {
    HeadIsOwn(v, known);
  }

  /** A message shares the open datagram of its node exactly if both fit 65506 bytes; otherwise a new
      datagram is begun with it. */
  lemma SharesDatagram(v: View, known: set<nat>, m: Message, node: nat) returns (k: nat)
    requires ViewOk(v, known) && Legal(m) && node in v.open
    requires if m.h.flags == 4 || m.h.flags == 5 then m.h.client == node
             else m.h.flags in {2, 3, 0x200} && m.h.server == node
    ensures k == v.open[node] && k < |v.all| && AllLegal(v.all[k].msgs)
    ensures var all, all' := v.all, Queued(v, known, m).0.all;
            if |Joined(all[k].msgs)| + 18 + |m.payload| + |m.payload| % 2 <= 65506 then
              all' == all[k := Datagram(all[k].target, all[k].msgs + [m])]
            else all' == all + [Datagram(node, [m])]
  {
    k := OpenDatagram(v, known, node);
    FitsIs(|Joined(v.all[k].msgs)|, m);
    GoesToNode(m.h, node);
    QueuedOpen(v, known, m);
  }
}
