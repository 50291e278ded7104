/** What holds between the structures of one daemon after every step, and that the primitive
    operations on request and reply slots keep it. */
module Invariant {
  import opened Sequences
  import opened SlotPools
  import opened Acnet
  import opened Timers
  import opened Daemon

  /** Does id name a slot in use that u owns? */
  ghost predicate OwnsReq(slots: map<nat, Req>, bank: nat, u: nat, id: nat) {
    id >= bank && id - bank in slots && slots[id - bank].owner == u
  }

  ghost predicate OwnsRpy(slots: map<nat, Rpy>, bank: nat, u: nat, id: nat) {
    id >= bank && id - bank in slots && slots[id - bank].owner == u
  }

  /** A task's request ids are exactly the ids of the slots in use that it owns. */
  ghost predicate ReqAgree(bank: nat, slots: map<nat, Req>, ids: Ids) {
    && (forall i {:trigger slots[i]} :: i in slots ==> slots[i].owner in ids)
    && (forall u, id {:trigger id in ids[u]} {:trigger OwnsReq(slots, bank, u, id)} :: u in ids ==>
          (id in ids[u] <==> OwnsReq(slots, bank, u, id)))
  }

  ghost predicate RpyAgree(bank: nat, slots: map<nat, Rpy>, ids: Ids) {
    && (forall i {:trigger slots[i]} :: i in slots ==> slots[i].owner in ids)
    && (forall u, id {:trigger id in ids[u]} {:trigger OwnsRpy(slots, bank, u, id)} :: u in ids ==>
          (id in ids[u] <==> OwnsRpy(slots, bank, u, id)))
  }

  /** Every request in use is on the timer list, with a time-out in range. */
  ghost predicate ReqTimed(p: Pool<Req>) {
    && (forall i {:trigger i in p.order} :: i in p.slots ==> i in p.order)
    && (forall i {:trigger p.slots[i]} :: i in p.slots ==> MIN_TIMEOUT_MS <= p.slots[i].tmoMs <= REQUEST_TIMEOUT * 1000)
  }

  /** Of the replies in use, those of unicast requests are on the timer list. */
  ghost predicate RpyTimed(p: Pool<Rpy>) {
    forall i {:trigger i in p.order} :: i in p.slots ==> (i in p.order <==> !p.slots[i].mcast)
  }

  /** Every entry of activeMap leads to a reply in use that has its key. */
  ghost predicate LinksOk(links: seq<Link>, slots: map<nat, Rpy>) {
    forall k {:trigger links[k]} :: 0 <= k < |links| ==>
      && links[k].slot in slots
      && slots[links[k].slot].remNode == links[k].node
      && slots[links[k].slot].reqId == links[k].reqId
  }

  ghost predicate Linked(links: seq<Link>, slots: map<nat, Rpy>, i: nat) {
    i in slots && Link(slots[i].remNode, slots[i].reqId, i) in links
  }

  ghost predicate SameKey(slots: map<nat, Rpy>, i: nat, j: nat) {
    i in slots && j in slots && slots[i].remNode == slots[j].remNode && slots[i].reqId == slots[j].reqId
  }

  /** Was reply r's entry of activeMap erased when another reply with its key ended? That happened
      if one ended after r was allocated. */
  predicate Hidden(r: Rpy, ended: map<Key, nat>) {
    KeyOf(r) in ended && r.serial < ended[KeyOf(r)]
  }

  /** activeMap has an entry for exactly those replies in use that are not hidden. */
  ghost predicate ListedOk(links: seq<Link>, slots: map<nat, Rpy>, ended: map<Key, nat>) {
    forall i {:trigger slots[i]} :: i in slots ==> (Linked(links, slots, i) <==> !Hidden(slots[i], ended))
  }

  function SerialAt(slots: map<nat, Rpy>, i: nat): nat { if i in slots then slots[i].serial else 0 }

  /** The entries stand in the order in which their replies were allocated. */
  ghost predicate InOrder(links: seq<Link>, slots: map<nat, Rpy>) {
    forall j, k {:trigger links[j], links[k]} :: 0 <= j < k < |links| ==>
      SerialAt(slots, links[j].slot) < SerialAt(slots, links[k].slot)
  }

  ghost predicate EndedOk(ended: map<Key, nat>, count: nat) {
    forall k {:trigger ended[k]} :: k in ended ==> ended[k] <= count
  }

  /** What there is to say of activeMap beyond its entries being right. */
  datatype LinkFact = Listed | Ordered | Counted

  ghost predicate Says(a: LinkFact, links: seq<Link>, slots: map<nat, Rpy>, ended: map<Key, nat>, count: nat) {
    match a
    case Listed => ListedOk(links, slots, ended)
    case Ordered => InOrder(links, slots)
    case Counted => EndedOk(ended, count)
  }

  ghost predicate FullOk(links: seq<Link>, slots: map<nat, Rpy>, ended: map<Key, nat>, count: nat) {
    forall a: LinkFact {:trigger Says(a, links, slots, ended, count)} :: Says(a, links, slots, ended, count)
  }

  lemma FullParts(links: seq<Link>, slots: map<nat, Rpy>, ended: map<Key, nat>, count: nat)
    requires FullOk(links, slots, ended, count)
    ensures ListedOk(links, slots, ended) && InOrder(links, slots) && EndedOk(ended, count)
  {
    assert Says(Listed, links, slots, ended, count) && Says(Ordered, links, slots, ended, count);
    assert Says(Counted, links, slots, ended, count);
  }

  /** A slot in use still holds the allocation it was given for; so no two hold the same. */
  ghost predicate ReqBorn(slots: map<nat, Req>, born: seq<nat>) {
    forall i {:trigger slots[i]} :: i in slots ==> slots[i].serial < |born| && born[slots[i].serial] == i
  }

  ghost predicate RpyBorn(slots: map<nat, Rpy>, born: seq<nat>) {
    forall i {:trigger slots[i]} :: i in slots ==> slots[i].serial < |born| && born[slots[i].serial] == i
  }

  /** What there is to say of a pool with its id sets and, if it is the reply pool, activeMap. */
  datatype SideFact = InPool | InSets | OnTimer | Since | InMap

  ghost predicate ReqSays(f: SideFact, c: Config, q: ReqSide) {
    match f
    case InPool => PoolOk(q.pool, c.size)
    case InSets => ReqAgree(c.reqBank, q.pool.slots, q.ids)
    case OnTimer => ReqTimed(q.pool)
    case Since => ReqBorn(q.pool.slots, q.born)
    case InMap => true
  }

  ghost predicate RpySays(f: SideFact, c: Config, q: RpySide) {
    match f
    case InPool => PoolOk(q.pool, c.size)
    case InSets => RpyAgree(c.rpyBank, q.pool.slots, q.ids)
    case OnTimer => RpyTimed(q.pool)
    case Since => RpyBorn(q.pool.slots, q.born)
    case InMap => LinksOk(q.links, q.pool.slots) && FullOk(q.links, q.pool.slots, q.ended, |q.born|)
  }

  ghost predicate ReqOk(c: Config, q: ReqSide) {
    forall f: SideFact {:trigger ReqSays(f, c, q)} :: ReqSays(f, c, q)
  }

  ghost predicate RpyOk(c: Config, q: RpySide) {
    forall f: SideFact {:trigger RpySays(f, c, q)} :: RpySays(f, c, q)
  }

  lemma ReqParts(c: Config, q: ReqSide)
    requires ReqOk(c, q)
    ensures PoolOk(q.pool, c.size) && ReqAgree(c.reqBank, q.pool.slots, q.ids)
    ensures ReqTimed(q.pool) && ReqBorn(q.pool.slots, q.born)
  {
    assert ReqSays(InPool, c, q) && ReqSays(InSets, c, q) && ReqSays(OnTimer, c, q) && ReqSays(Since, c, q);
  }

  lemma RpyParts(c: Config, q: RpySide)
    requires RpyOk(c, q)
    ensures PoolOk(q.pool, c.size) && RpyAgree(c.rpyBank, q.pool.slots, q.ids)
    ensures RpyTimed(q.pool) && RpyBorn(q.pool.slots, q.born)
    ensures LinksOk(q.links, q.pool.slots) && FullOk(q.links, q.pool.slots, q.ended, |q.born|)
  {
    assert RpySays(InPool, c, q) && RpySays(InSets, c, q) && RpySays(OnTimer, c, q) && RpySays(Since, c, q);
    assert RpySays(InMap, c, q);
  }

  lemma ReqWhole(c: Config, q: ReqSide)
    requires PoolOk(q.pool, c.size) && ReqAgree(c.reqBank, q.pool.slots, q.ids)
    requires ReqTimed(q.pool) && ReqBorn(q.pool.slots, q.born)
    ensures ReqOk(c, q)
  {}

  lemma RpyWhole(c: Config, q: RpySide)
    requires PoolOk(q.pool, c.size) && RpyAgree(c.rpyBank, q.pool.slots, q.ids)
    requires RpyTimed(q.pool) && RpyBorn(q.pool.slots, q.born)
    requires LinksOk(q.links, q.pool.slots) && FullOk(q.links, q.pool.slots, q.ended, |q.born|)
    ensures RpyOk(c, q)
  {}

  // ---- What dropping, taking and touching a slot does to each part ----

  lemma DropReqAgree(bank: nat, slots: map<nat, Req>, ids: Ids, i: nat)
    requires ReqAgree(bank, slots, ids) && i in slots
    ensures ReqAgree(bank, slots - {i}, Minus(ids, slots[i].owner, bank + i))
  {}

  lemma DropRpyAgree(bank: nat, slots: map<nat, Rpy>, ids: Ids, i: nat)
    requires RpyAgree(bank, slots, ids) && i in slots
    ensures RpyAgree(bank, slots - {i}, Minus(ids, slots[i].owner, bank + i))
  {}

  /** A new id is new to its owner too, so addRequest never finds a duplicate. */
  lemma TakeReqAgree(bank: nat, slots: map<nat, Req>, ids: Ids, i: nat, r: Req)
    requires ReqAgree(bank, slots, ids) && i !in slots && r.owner in ids
    ensures ReqAgree(bank, slots[i := r], Plus(ids, r.owner, bank + i))
    ensures bank + i !in ids[r.owner]
  {
    assert !OwnsReq(slots, bank, r.owner, bank + i);
  }

  lemma TakeRpyAgree(bank: nat, slots: map<nat, Rpy>, ids: Ids, i: nat, r: Rpy)
    requires RpyAgree(bank, slots, ids) && i !in slots && r.owner in ids
    ensures RpyAgree(bank, slots[i := r], Plus(ids, r.owner, bank + i))
    ensures bank + i !in ids[r.owner]
  {
    assert !OwnsRpy(slots, bank, r.owner, bank + i);
  }

  lemma DropReqTimed(p: Pool<Req>, i: nat)
    requires ReqTimed(p)
    ensures ReqTimed(Given(p, i))
  {
    WithoutMembers(p.order, i);
  }

  lemma DropRpyTimed(p: Pool<Rpy>, i: nat)
    requires RpyTimed(p)
    ensures RpyTimed(Given(p, i))
  {
    WithoutMembers(p.order, i);
  }

  lemma TouchReqTimed(p: Pool<Req>, i: nat, t: int)
    requires i < |p.due| && i in p.slots
    requires forall j {:trigger j in p.order} :: j in p.slots ==> j in p.order || j == i
    requires forall j {:trigger p.slots[j]} :: j in p.slots ==>
             MIN_TIMEOUT_MS <= p.slots[j].tmoMs <= REQUEST_TIMEOUT * 1000
    ensures ReqTimed(Touched(p, i, t))
  {
    WithoutMembers(p.order, i);
    InsertedMembers(Without(p.order, i), p.due[i := t], i, t);
  }

  lemma TouchRpyTimed(p: Pool<Rpy>, i: nat, t: int)
    requires i < |p.due| && i in p.slots && !p.slots[i].mcast
    requires forall j {:trigger j in p.order} :: j in p.slots && j != i ==> (j in p.order <==> !p.slots[j].mcast)
    ensures RpyTimed(Touched(p, i, t))
  {
    WithoutMembers(p.order, i);
    InsertedMembers(Without(p.order, i), p.due[i := t], i, t);
  }

  lemma DropReqBorn(slots: map<nat, Req>, born: seq<nat>, i: nat)
    requires ReqBorn(slots, born)
    ensures ReqBorn(slots - {i}, born)
  {}

  lemma DropRpyBorn(slots: map<nat, Rpy>, born: seq<nat>, i: nat)
    requires RpyBorn(slots, born)
    ensures RpyBorn(slots - {i}, born)
  {}

  lemma TakeReqBorn(slots: map<nat, Req>, born: seq<nat>, i: nat, r: Req)
    requires ReqBorn(slots, born) && r.serial == |born|
    ensures ReqBorn(slots[i := r], born + [i])
  {}

  lemma TakeRpyBorn(slots: map<nat, Rpy>, born: seq<nat>, i: nat, r: Rpy)
    requires RpyBorn(slots, born) && r.serial == |born|
    ensures RpyBorn(slots[i := r], born + [i])
  {}

  /** What is left of activeMap after its entries of one key are erased. */
  lemma {:induction false} EraseKeyMembers(links: seq<Link>, node: nat, reqId: nat)
    ensures forall l :: l in EraseKey(links, node, reqId) <==> l in links && !(l.node == node && l.reqId == reqId)
  {
    if links != [] {
      EraseKeyMembers(links[1..], node, reqId);
      assert links == [links[0]] + links[1..];
    }
  }

  lemma DropLinks(links: seq<Link>, slots: map<nat, Rpy>, i: nat)
    requires LinksOk(links, slots) && i in slots
    ensures LinksOk(EraseKey(links, slots[i].remNode, slots[i].reqId), slots - {i})
  {
    var rest := EraseKey(links, slots[i].remNode, slots[i].reqId);
    EraseKeyMembers(links, slots[i].remNode, slots[i].reqId);
    forall k | 0 <= k < |rest|
      ensures rest[k].slot in slots && rest[k].slot != i
      ensures slots[rest[k].slot].remNode == rest[k].node && slots[rest[k].slot].reqId == rest[k].reqId
    {
      assert rest[k] in rest;
      var j :| 0 <= j < |links| && links[j] == rest[k];
    }
  }

  /** Erasing the entries of a key leaves the others in order. */
  lemma {:induction false} EraseInOrder(links: seq<Link>, slots: map<nat, Rpy>, node: nat, reqId: nat)
    requires InOrder(links, slots)
    ensures InOrder(EraseKey(links, node, reqId), slots)
  {
    if links != [] {
      var rest := EraseKey(links[1..], node, reqId);
      EraseInOrder(links[1..], slots, node, reqId);
      EraseKeyMembers(links[1..], node, reqId);
      forall k | 0 <= k < |rest| ensures SerialAt(slots, links[0].slot) < SerialAt(slots, rest[k].slot) {
        assert rest[k] in links[1..];
        var j :| 0 <= j < |links[1..]| && links[1..][j] == rest[k];
        assert links[j + 1] == rest[k];
      }
    }
  }

  /** When reply i ends, exactly the other replies with its key are hidden anew. */
  lemma DropListed(links: seq<Link>, slots: map<nat, Rpy>, i: nat, ended: map<Key, nat>, born: seq<nat>)
    requires ListedOk(links, slots, ended) && RpyBorn(slots, born) && i in slots
    ensures ListedOk(EraseKey(links, slots[i].remNode, slots[i].reqId), slots - {i}, ended[KeyOf(slots[i]) := |born|])
  {
    var rest, m := EraseKey(links, slots[i].remNode, slots[i].reqId), slots - {i};
    var later := ended[KeyOf(slots[i]) := |born|];
    EraseKeyMembers(links, slots[i].remNode, slots[i].reqId);
    forall j | j in m ensures Linked(rest, m, j) <==> !Hidden(m[j], later) {
      assert m[j] == slots[j];
      assert Linked(links, slots, j) <==> !Hidden(slots[j], ended);
    }
  }

  lemma DropInOrder(links: seq<Link>, slots: map<nat, Rpy>, i: nat)
    requires InOrder(links, slots) && LinksOk(links, slots) && i in slots
    ensures InOrder(EraseKey(links, slots[i].remNode, slots[i].reqId), slots - {i})
  {
    var rest, m := EraseKey(links, slots[i].remNode, slots[i].reqId), slots - {i};
    DropLinks(links, slots, i);
    EraseInOrder(links, slots, slots[i].remNode, slots[i].reqId);
    forall j, k | 0 <= j < k < |rest| ensures SerialAt(m, rest[j].slot) < SerialAt(m, rest[k].slot) {
      assert rest[j].slot in m && rest[k].slot in m;
    }
  }

  lemma DropFull(links: seq<Link>, slots: map<nat, Rpy>, i: nat, ended: map<Key, nat>, born: seq<nat>)
    requires FullOk(links, slots, ended, |born|) && LinksOk(links, slots) && RpyBorn(slots, born) && i in slots
    ensures FullOk(EraseKey(links, slots[i].remNode, slots[i].reqId), slots - {i},
                   ended[KeyOf(slots[i]) := |born|], |born|)
  {
    FullParts(links, slots, ended, |born|);
    DropListed(links, slots, i, ended, born);
    DropInOrder(links, slots, i);
  }

  lemma TakeListed(links: seq<Link>, slots: map<nat, Rpy>, i: nat, r: Rpy, l: Link, ended: map<Key, nat>)
    requires ListedOk(links, slots, ended) && EndedOk(ended, r.serial) && i !in slots
    requires l == Link(r.remNode, r.reqId, i)
    ensures ListedOk(links + [l], slots[i := r], ended)
  {
    var ls, m := links + [l], slots[i := r];
    assert ls[|links|] == l;
    assert KeyOf(r) in ended ==> ended[KeyOf(r)] <= r.serial;
    forall j | j in m ensures Linked(ls, m, j) <==> !Hidden(m[j], ended) {
      if j != i { assert m[j] == slots[j] && (Linked(links, slots, j) <==> !Hidden(slots[j], ended)); }
    }
  }

  lemma TakeInOrder(links: seq<Link>, slots: map<nat, Rpy>, i: nat, r: Rpy, l: Link)
    requires InOrder(links, slots) && LinksOk(links, slots) && i !in slots && l.slot == i
    requires forall j {:trigger slots[j]} :: j in slots ==> slots[j].serial < r.serial
    ensures InOrder(links + [l], slots[i := r])
  {
    var ls, m := links + [l], slots[i := r];
    forall j, k | 0 <= j < k < |ls| ensures SerialAt(m, ls[j].slot) < SerialAt(m, ls[k].slot) {
      assert ls[j] == links[j] && links[j].slot in slots && m[links[j].slot] == slots[links[j].slot];
      if k < |links| { assert ls[k] == links[k] && links[k].slot in slots && m[links[k].slot] == slots[links[k].slot]; }
    }
  }

  lemma TakeFull(links: seq<Link>, slots: map<nat, Rpy>, i: nat, r: Rpy, l: Link, ended: map<Key, nat>, born: seq<nat>)
    requires FullOk(links, slots, ended, |born|) && LinksOk(links, slots) && RpyBorn(slots, born)
    requires i !in slots && l == Link(r.remNode, r.reqId, i) && r.serial == |born|
    ensures FullOk(links + [l], slots[i := r], ended, |born + [i]|)
  {
    FullParts(links, slots, ended, |born|);
    TakeListed(links, slots, i, r, l, ended);
    TakeInOrder(links, slots, i, r, l);
  }

  lemma TakeLinks(links: seq<Link>, slots: map<nat, Rpy>, i: nat, r: Rpy, l: Link)
    requires LinksOk(links, slots) && i !in slots && l == Link(r.remNode, r.reqId, i)
    ensures LinksOk(links + [l], slots[i := r])
  {}

  // ---- Request slots ----

  lemma DropReqOk(c: Config, q: ReqSide, i: nat)
    requires ReqOk(c, q) && i in q.pool.slots
    ensures ReqOk(c, DropReq(c, q, i))
  {
    ReqParts(c, q);
    GivenOk(q.pool, c.size, i);
    DropReqAgree(c.reqBank, q.pool.slots, q.ids, i);
    DropReqTimed(q.pool, i);
    DropReqBorn(q.pool.slots, q.born, i);
    ReqWhole(c, DropReq(c, q, i));
  }

  /** Every request in use but i is on the timer list. */
  ghost predicate ReqTimedBut(p: Pool<Req>, i: nat) {
    && (forall j {:trigger j in p.order} :: j in p.slots ==> j in p.order || j == i)
    && (forall j {:trigger p.slots[j]} :: j in p.slots ==> MIN_TIMEOUT_MS <= p.slots[j].tmoMs <= REQUEST_TIMEOUT * 1000)
  }

  lemma TouchedReqOk(c: Config, p: Pool<Req>, ids: Ids, born: seq<nat>, i: nat, t: int)
    requires PoolOk(p, c.size) && ReqAgree(c.reqBank, p.slots, ids) && ReqBorn(p.slots, born)
    requires i in p.slots && ReqTimedBut(p, i)
    ensures ReqOk(c, ReqSide(Touched(p, i, t), ids, born))
  {

    TouchedOk(p, c.size, i, t);
    TouchReqTimed(p, i, t);
    ReqWhole(c, ReqSide(Touched(p, i, t), ids, born));
  }

  lemma TouchReqOk(c: Config, q: ReqSide, i: nat, now: int)
    requires ReqOk(c, q)
    ensures ReqOk(c, TouchReq(q, i, now))
  {
    ReqParts(c, q);
    if i in q.pool.slots {
      TouchedReqOk(c, q.pool, q.ids, q.born, i, now + q.pool.slots[i].tmoMs);
    }

  }

  lemma TakeReqOk(c: Config, q: ReqSide, r: Req)
    requires ReqOk(c, q) && q.pool.free != [] && r.owner in q.ids && r.serial == |q.born|
    requires MIN_TIMEOUT_MS <= r.tmoMs <= REQUEST_TIMEOUT * 1000
    ensures var i, p := q.pool.free[0], Taken(q.pool, r);
            && i in p.slots && PoolOk(p, c.size) && ReqAgree(c.reqBank, p.slots, Plus(q.ids, r.owner, c.reqBank + i))
            && ReqBorn(p.slots, q.born + [i]) && ReqTimedBut(p, i)
  {
    ReqParts(c, q);
    var i := q.pool.free[0];
    TakenOk(q.pool, c.size, r);
    TakeReqAgree(c.reqBank, q.pool.slots, q.ids, i, r);
    TakeReqBorn(q.pool.slots, q.born, i, r);
    TakeReqTimed(q.pool, i, r);

  }

  lemma TakeReqTimed(p: Pool<Req>, i: nat, r: Req)
    requires ReqTimed(p) && p.free != [] && i == p.free[0]
    requires MIN_TIMEOUT_MS <= r.tmoMs <= REQUEST_TIMEOUT * 1000
    ensures ReqTimedBut(Taken(p, r), i)
  {}

  lemma EnrolReqOk(c: Config, q: ReqSide, r: Req, i: nat, t: int)
    requires ReqOk(c, q) && q.pool.free != [] && i == q.pool.free[0] && r.owner in q.ids && r.serial == |q.born|
    requires MIN_TIMEOUT_MS <= r.tmoMs <= REQUEST_TIMEOUT * 1000
    ensures ReqOk(c, EnrolReq(c, q, r, i, t))
  {
    TakeReqOk(c, q, r);
    TouchedReqOk(c, Taken(q.pool, r), Plus(q.ids, r.owner, c.reqBank + i), q.born + [i], i, t);
  }

  // ---- Reply slots ----

  lemma DropRpyOk(c: Config, q: RpySide, i: nat)
    requires RpyOk(c, q) && i in q.pool.slots
    ensures RpyOk(c, DropRpy(c, q, i))
  {
    RpyParts(c, q);
    GivenOk(q.pool, c.size, i);
    DropRpyAgree(c.rpyBank, q.pool.slots, q.ids, i);
    DropRpyTimed(q.pool, i);
    DropRpyBorn(q.pool.slots, q.born, i);
    DropLinks(q.links, q.pool.slots, i);
    DropFull(q.links, q.pool.slots, i, q.ended, q.born);
    RpyWhole(c, DropRpy(c, q, i));
  }

  /** Of the replies in use, those of unicast requests, except perhaps i, are on the timer list. */
  ghost predicate RpyTimedBut(p: Pool<Rpy>, i: nat) {
    forall j {:trigger j in p.order} :: j in p.slots && j != i ==> (j in p.order <==> !p.slots[j].mcast)
  }

  lemma TouchedRpyOk(c: Config, p: Pool<Rpy>, ids: Ids, links: seq<Link>, born: seq<nat>,
                      ended: map<Key, nat>, i: nat, t: int)
    requires PoolOk(p, c.size) && RpyAgree(c.rpyBank, p.slots, ids) && RpyBorn(p.slots, born) && LinksOk(links, p.slots)
    requires FullOk(links, p.slots, ended, |born|)
    requires i in p.slots && !p.slots[i].mcast && RpyTimedBut(p, i)
    ensures RpyOk(c, RpySide(Touched(p, i, t), ids, links, born, ended))
  {

    TouchedOk(p, c.size, i, t);
    TouchRpyTimed(p, i, t);
    RpyWhole(c, RpySide(Touched(p, i, t), ids, links, born, ended));
  }

  lemma TouchRpyOk(c: Config, q: RpySide, i: nat, now: int)
    requires RpyOk(c, q)
    ensures RpyOk(c, TouchRpy(q, i, now))
  {
    RpyParts(c, q);
    if i in q.pool.slots && !q.pool.slots[i].mcast {
      TouchedRpyOk(c, q.pool, q.ids, q.links, q.born, q.ended, i, now + REPLY_DELAY * 1000);
    }

  }

  lemma EnterRpyOk(c: Config, q: RpySide, r: Rpy, i: nat)
    requires RpyOk(c, q) && q.pool.free != [] && i == q.pool.free[0] && r.owner in q.ids && r.serial == |q.born|
    ensures var q1 := EnterRpy(c, q, r, i);
            && i in q1.pool.slots && PoolOk(q1.pool, c.size) && RpyAgree(c.rpyBank, q1.pool.slots, q1.ids)
            && RpyBorn(q1.pool.slots, q1.born) && LinksOk(q1.links, q1.pool.slots)
            && FullOk(q1.links, q1.pool.slots, q1.ended, |q1.born|)
            && RpyTimedBut(q1.pool, i) && (r.mcast ==> RpyTimed(q1.pool))
  {
    RpyParts(c, q);
    TakenOk(q.pool, c.size, r);
    TakeRpyAgree(c.rpyBank, q.pool.slots, q.ids, i, r);
    TakeRpyBorn(q.pool.slots, q.born, i, r);
    TakeLinks(q.links, q.pool.slots, i, r, Link(r.remNode, r.reqId, i));
    TakeFull(q.links, q.pool.slots, i, r, Link(r.remNode, r.reqId, i), q.ended, q.born);
    if i in q.pool.order { ListedInUse(q.pool, c.size, i); }
    TakeRpyTimed(q.pool, i, r);

  }

  lemma TakeRpyTimed(p: Pool<Rpy>, i: nat, r: Rpy)
    requires RpyTimed(p) && p.free != [] && i == p.free[0] && i !in p.order
    ensures RpyTimedBut(Taken(p, r), i) && (r.mcast ==> RpyTimed(Taken(p, r)))
  {}

  lemma EnrolRpyOk(c: Config, q: RpySide, r: Rpy, i: nat, t: int)
    requires RpyOk(c, q) && q.pool.free != [] && i == q.pool.free[0] && r.owner in q.ids && r.serial == |q.born|
    ensures RpyOk(c, EnrolRpy(c, q, r, i, t))
  {
    EnterRpyOk(c, q, r, i);
    var q1 := EnterRpy(c, q, r, i);
    if !r.mcast {
      TouchedRpyOk(c, q1.pool, q1.ids, q1.links, q1.born, q1.ended, i, t);
    } else {
      RpyWhole(c, q1);
    }
  }

  lemma MarkAckedAgree(bank: nat, slots: map<nat, Rpy>, ids: Ids, links: seq<Link>, born: seq<nat>, i: nat)
    requires i in slots && RpyAgree(bank, slots, ids) && RpyBorn(slots, born) && LinksOk(links, slots)
    ensures var m := slots[i := slots[i].(acked := true)];
            RpyAgree(bank, m, ids) && RpyBorn(m, born) && LinksOk(links, m)
  {}

  lemma MarkAckedFull(slots: map<nat, Rpy>, links: seq<Link>, i: nat, ended: map<Key, nat>, count: nat)
    requires i in slots && FullOk(links, slots, ended, count)
    ensures FullOk(links, slots[i := slots[i].(acked := true)], ended, count)
  {
    FullParts(links, slots, ended, count);
    var m := slots[i := slots[i].(acked := true)];
    forall j | j in m ensures Linked(links, m, j) <==> !Hidden(m[j], ended) {
      assert Linked(links, slots, j) <==> !Hidden(slots[j], ended);
    }
    forall j, k | 0 <= j < k < |links| ensures SerialAt(m, links[j].slot) < SerialAt(m, links[k].slot) {
      assert SerialAt(m, links[j].slot) == SerialAt(slots, links[j].slot);
    }
  }

  lemma MarkAckedTimed(p: Pool<Rpy>, i: nat)
    requires i in p.slots && RpyTimed(p)
    ensures RpyTimed(Filled(p, i, p.slots[i].(acked := true)))
  {}

  /** Marking a reply as acknowledged changes nothing that matters here. */
  lemma MarkAckedOk(c: Config, q: RpySide, i: nat)
    requires RpyOk(c, q) && i in q.pool.slots
    ensures RpyOk(c, MarkAcked(q, i))
  {
    RpyParts(c, q);
    FilledOk(q.pool, c.size, i, q.pool.slots[i].(acked := true));
    MarkAckedTimed(q.pool, i);
    MarkAckedAgree(c.rpyBank, q.pool.slots, q.ids, q.links, q.born, i);
    MarkAckedFull(q.pool.slots, q.links, i, q.ended, |q.born|);
    RpyWhole(c, MarkAcked(q, i));
  }
}
