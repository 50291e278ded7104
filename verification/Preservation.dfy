/** Every operation of the daemon keeps the invariant, and what the loops of a task's removal
    come to. */
module Preservation {
  import opened Sequences
  import opened SlotPools
  import opened Acnet
  import opened Daemon
  import opened Invariant
  import opened Registers
  import opened History

  ghost predicate Known(s: State) {
    s.reqs.ids.Keys == s.reg.infos.Keys && s.rpys.ids.Keys == s.reg.infos.Keys && s.live.Keys == s.reg.infos.Keys
  }

  /** A removed task has no requests and no replies left. */
  ghost predicate Quiet(removed: seq<nat>, ids: Ids) {
    forall k {:trigger removed[k]} :: 0 <= k < |removed| ==> IdsOf(ids, removed[k]) == {}
  }

  /** What the invariant says of the parts of a daemon. */
  datatype Facet = Setup | Requests | Replies | Tasks | Objects | Retired | Record

  ghost predicate Holds(f: Facet, c: Config, s: State, limbo: set<nat>) {
    match f
    case Setup => Sound(c)
    case Requests => ReqOk(c, s.reqs)
    case Replies => RpyOk(c, s.rpys)
    case Tasks => RegOk(c, s.reg, limbo)
    case Objects => Known(s)
    case Retired => Quiet(s.reg.removed, s.reqs.ids) && Quiet(s.reg.removed, s.rpys.ids)
    case Record => Hist(s.log, s.reqs, s.rpys)
  }

  /** The invariant; tasks in limbo are being removed. */
  ghost predicate Inv(c: Config, s: State, limbo: set<nat>) {
    forall f: Facet {:trigger Holds(f, c, s, limbo)} :: Holds(f, c, s, limbo)
  }

  /** The facets one by one, each as a whole. */
  lemma Facets(c: Config, s: State, limbo: set<nat>)
    requires Inv(c, s, limbo)
    ensures Sound(c) && ReqOk(c, s.reqs) && RpyOk(c, s.rpys) && RegOk(c, s.reg, limbo) && Known(s)
    ensures Quiet(s.reg.removed, s.reqs.ids) && Quiet(s.reg.removed, s.rpys.ids) && Hist(s.log, s.reqs, s.rpys)
  {
    assert Holds(Setup, c, s, limbo) && Holds(Requests, c, s, limbo) && Holds(Replies, c, s, limbo);
    assert Holds(Tasks, c, s, limbo) && Holds(Objects, c, s, limbo);
    assert Holds(Retired, c, s, limbo) && Holds(Record, c, s, limbo);
  }

  lemma ReqPart(c: Config, s: State, limbo: set<nat>)
    requires Inv(c, s, limbo)
    ensures PoolOk(s.reqs.pool, c.size) && ReqAgree(c.reqBank, s.reqs.pool.slots, s.reqs.ids)
    ensures ReqTimed(s.reqs.pool) && ReqBorn(s.reqs.pool.slots, s.reqs.born)
  {
    Facets(c, s, limbo);
    ReqParts(c, s.reqs);
  }

  lemma RpyPart(c: Config, s: State, limbo: set<nat>)
    requires Inv(c, s, limbo)
    ensures PoolOk(s.rpys.pool, c.size) && RpyAgree(c.rpyBank, s.rpys.pool.slots, s.rpys.ids)
    ensures RpyTimed(s.rpys.pool) && RpyBorn(s.rpys.pool.slots, s.rpys.born)
    ensures LinksOk(s.rpys.links, s.rpys.pool.slots)
    ensures FullOk(s.rpys.links, s.rpys.pool.slots, s.rpys.ended, |s.rpys.born|)
  {
    Facets(c, s, limbo);
    RpyParts(c, s.rpys);
  }

  lemma RegPart(c: Config, s: State, limbo: set<nat>)
    requires Inv(c, s, limbo)
    ensures Sound(c) && Known(s) && TableOk(c, s.reg) && ActiveOk(c, s.reg) && HandlesOk(c, s.reg)
    ensures PlacesOk(s.reg, limbo) && InternalOk(c, s.reg)
  {
    Facets(c, s, limbo);
    RegParts(c, s.reg, limbo);
  }

  lemma Parts(c: Config, s: State, limbo: set<nat>)
    requires Inv(c, s, limbo)
    ensures PoolOk(s.reqs.pool, c.size) && ReqAgree(c.reqBank, s.reqs.pool.slots, s.reqs.ids)
    ensures ReqTimed(s.reqs.pool) && ReqBorn(s.reqs.pool.slots, s.reqs.born)
    ensures PoolOk(s.rpys.pool, c.size) && RpyAgree(c.rpyBank, s.rpys.pool.slots, s.rpys.ids)
    ensures RpyTimed(s.rpys.pool) && RpyBorn(s.rpys.pool.slots, s.rpys.born)
    ensures LinksOk(s.rpys.links, s.rpys.pool.slots)
    ensures FullOk(s.rpys.links, s.rpys.pool.slots, s.rpys.ended, |s.rpys.born|)
    ensures Sound(c) && Known(s) && TableOk(c, s.reg) && ActiveOk(c, s.reg) && HandlesOk(c, s.reg)
    ensures PlacesOk(s.reg, limbo) && InternalOk(c, s.reg)
    ensures ReqOk(c, s.reqs) && RpyOk(c, s.rpys) && RegOk(c, s.reg, limbo)
    ensures Quiet(s.reg.removed, s.reqs.ids) && Quiet(s.reg.removed, s.rpys.ids) && Hist(s.log, s.reqs, s.rpys)
  {
    Facets(c, s, limbo);
    ReqPart(c, s, limbo);
    RpyPart(c, s, limbo);
    RegPart(c, s, limbo);
  }

  lemma Whole(c: Config, s: State, limbo: set<nat>)
    requires Sound(c) && ReqOk(c, s.reqs) && RpyOk(c, s.rpys) && RegOk(c, s.reg, limbo) && Known(s)
    requires Quiet(s.reg.removed, s.reqs.ids) && Quiet(s.reg.removed, s.rpys.ids) && Hist(s.log, s.reqs, s.rpys)
    ensures Inv(c, s, limbo)
  {}

  // ---- Moves of the slots ----

  lemma MovesSelf(s: State)
    ensures ReqMoves(s.reqs, s.reqs) && RpyMoves(s.rpys, s.rpys)
  {}

  lemma DropReqMoves(c: Config, q: ReqSide, i: nat)
    requires ReqBorn(q.pool.slots, q.born) && i in q.pool.slots
    ensures ReqMoves(q, DropReq(c, q, i))
    ensures HoldsReq(q, q.pool.slots[i].serial) && !HoldsReq(DropReq(c, q, i), q.pool.slots[i].serial)
    ensures q.born[q.pool.slots[i].serial] == i
  {}

  lemma DropRpyMoves(c: Config, p: RpySide, i: nat)
    requires RpyBorn(p.pool.slots, p.born) && i in p.pool.slots
    ensures RpyMoves(p, DropRpy(c, p, i))
    ensures HoldsRpy(p, p.pool.slots[i].serial) && !HoldsRpy(DropRpy(c, p, i), p.pool.slots[i].serial)
  {}

  lemma MinusQuiet(removed: seq<nat>, ids: Ids, u: nat, id: nat)
    requires Quiet(removed, ids)
    ensures Quiet(removed, Minus(ids, u, id))
    ensures Minus(ids, u, id).Keys == ids.Keys
  {
    forall k | 0 <= k < |removed| ensures IdsOf(Minus(ids, u, id), removed[k]) == {} {
      assert IdsOf(ids, removed[k]) == {};
    }
  }

  /** A new request side, and perhaps a longer log. */
  lemma NewReqsInv(c: Config, s: State, limbo: set<nat>, q: ReqSide, log: seq<Event>)
    requires Inv(c, s, limbo) && ReqOk(c, q) && q.ids.Keys == s.reqs.ids.Keys
    requires Quiet(s.reg.removed, q.ids) && Hist(log, q, s.rpys)
    ensures Inv(c, s.(reqs := q, log := log), limbo)
  {
    Facets(c, s, limbo);
    Whole(c, s.(reqs := q, log := log), limbo);
  }

  lemma NewRpysInv(c: Config, s: State, limbo: set<nat>, p: RpySide, log: seq<Event>)
    requires Inv(c, s, limbo) && RpyOk(c, p) && p.ids.Keys == s.rpys.ids.Keys
    requires Quiet(s.reg.removed, p.ids) && Hist(log, s.reqs, p)
    ensures Inv(c, s.(rpys := p, log := log), limbo)
  {
    Facets(c, s, limbo);
    Whole(c, s.(rpys := p, log := log), limbo);
  }

  /** The request side changes, and no packet is sent. */
  lemma QuietReqsInv(c: Config, s: State, limbo: set<nat>, q: ReqSide)
    requires Inv(c, s, limbo) && ReqOk(c, q) && q.ids.Keys == s.reqs.ids.Keys
    requires Quiet(s.reg.removed, q.ids) && ReqMoves(s.reqs, q)
    ensures Inv(c, s.(reqs := q), limbo)
  {
    Facets(c, s, limbo);
    MovesSelf(s);
    Quietly(s.log, s.reqs, s.rpys, q, s.rpys);
    NewReqsInv(c, s, limbo, q, s.log);
  }

  lemma QuietRpysInv(c: Config, s: State, limbo: set<nat>, p: RpySide)
    requires Inv(c, s, limbo) && RpyOk(c, p) && p.ids.Keys == s.rpys.ids.Keys
    requires Quiet(s.reg.removed, p.ids) && RpyMoves(s.rpys, p)
    ensures Inv(c, s.(rpys := p), limbo)
  {
    Facets(c, s, limbo);
    MovesSelf(s);
    Quietly(s.log, s.reqs, s.rpys, s.reqs, p);
    NewRpysInv(c, s, limbo, p, s.log);
  }

  // ---- Packets that leave the slots alone ----

  lemma AskedInv(c: Config, s: State, limbo: set<nat>)
    requires Inv(c, s, limbo)
    ensures Inv(c, Asked(s), limbo)
  {
    Facets(c, s, limbo);
    Whole(c, Asked(s), limbo);
  }

  lemma NoteInv(c: Config, s: State, limbo: set<nat>, e: Event)
    requires Inv(c, s, limbo) && Current(e, s.reqs, s.rpys) && Fits(e, s.reqs, s.rpys)
    ensures Inv(c, Note(s, e), limbo)
  {
    Facets(c, s, limbo);
    MovesSelf(s);
    Append(s.log, s.reqs, s.rpys, e, s.reqs, s.rpys);
    Whole(c, Note(s, e), limbo);
  }

  lemma TellInv(c: Config, s: State, limbo: set<nat>, u: nat, h: Header)
    requires Inv(c, s, limbo)
    ensures Inv(c, Tell(c, s, u, h), limbo)
  {
    AskedInv(c, s, limbo);
    NoteInv(c, Asked(s), limbo, Told(u, h, Alive(c, s, u)));
  }

  // ---- Ending a request ----

  /** Handing over a last reply and dropping the slot at once. */
  lemma HandAndDropInv(c: Config, s: State, limbo: set<nat>, i: nat, h: Header)
    requires Inv(c, s, limbo) && i in s.reqs.pool.slots
    ensures var s1 := Hand(c, s, s.reqs.pool.slots[i], h); Inv(c, s1.(reqs := DropReq(c, s1.reqs, i)), limbo)
  {
    Facets(c, s, limbo);
    ReqPart(c, s, limbo);
    var r := s.reqs.pool.slots[i];
    var e := Handed(r.serial, Mlt(r.flags), r.mcast, h, Alive(c, s, r.owner));
    var q := DropReq(c, s.reqs, i);
    MovesSelf(s);
    DropReqMoves(c, s.reqs, i);
    DropReqOk(c, s.reqs, i);
    MinusQuiet(s.reg.removed, s.reqs.ids, r.owner, c.reqBank + i);
    Append(s.log, s.reqs, s.rpys, e, q, s.rpys);
    AskedInv(c, s, limbo);
    NewReqsInv(c, Asked(s), limbo, q, s.log + [e]);
  }

  lemma DropReqInv(c: Config, s: State, limbo: set<nat>, i: nat)
    requires Inv(c, s, limbo) && i in s.reqs.pool.slots
    ensures Inv(c, s.(reqs := DropReq(c, s.reqs, i)), limbo)
  {
    Facets(c, s, limbo);
    ReqPart(c, s, limbo);
    DropReqMoves(c, s.reqs, i);
    DropReqOk(c, s.reqs, i);
    MinusQuiet(s.reg.removed, s.reqs.ids, s.reqs.pool.slots[i].owner, c.reqBank + i);
    QuietReqsInv(c, s, limbo, DropReq(c, s.reqs, i));
  }

  lemma CancelReqIdInv(c: Config, s: State, limbo: set<nat>, id: nat, xmt: bool, last: bool)
    requires Inv(c, s, limbo)
    ensures Inv(c, CancelReqId(c, s, id, xmt, last), limbo)
    ensures var s1 := CancelReqId(c, s, id, xmt, last);
            s1.reg == s.reg && s1.rpys == s.rpys && s1.live == s.live && s1.now == s.now
            && match Slot(s.reqs.pool, c.reqBank, id)
               case None => s1 == s
               case Some(i) => s1.reqs == DropReq(c, s.reqs, i)
  {
    match Slot(s.reqs.pool, c.reqBank, id)
    case None =>
    case Some(i) =>
      var r := s.reqs.pool.slots[i];
      var s1 := if xmt then Note(s, Sent(CancelHeader(c, s, r, id))) else s;
      if xmt {
        NoteInv(c, s, limbo, Sent(CancelHeader(c, s, r, id)));
      }
      if xmt && last {
        HandAndDropInv(c, s1, limbo, i, LocalReply(c, s, r, id, FLG_RPY, DISCONNECTED));
      } else {
        DropReqInv(c, s1, limbo, i);
      }
  }

  /** A task's requests are in use and its own. */
  lemma OwnRequest(c: Config, s: State, limbo: set<nat>, u: nat, id: nat)
    requires Inv(c, s, limbo) && id in IdsOf(s.reqs.ids, u)
    ensures Slot(s.reqs.pool, c.reqBank, id) == Some(id - c.reqBank) && id >= c.reqBank
    ensures s.reqs.pool.slots[id - c.reqBank].owner == u && u in s.reqs.ids
  {
    ReqPart(c, s, limbo);
    assert id in s.reqs.ids[u];
    assert OwnsReq(s.reqs.pool.slots, c.reqBank, u, id);
  }

  /** q' is q without the requests of task u. */
  ghost predicate ReqsWithout(q: ReqSide, q': ReqSide, u: nat) {
    && (forall i {:trigger i in q'.pool.slots} ::
          i in q'.pool.slots <==> i in q.pool.slots && q.pool.slots[i].owner != u)
    && (forall i {:trigger q'.pool.slots[i]} :: i in q'.pool.slots ==> q'.pool.slots[i] == q.pool.slots[i])
    && q'.born == q.born && q'.pool.due == q.pool.due && q'.ids.Keys == q.ids.Keys && IdsOf(q'.ids, u) == {}
    && (forall v {:trigger IdsOf(q'.ids, v)} :: v != u ==> IdsOf(q'.ids, v) == IdsOf(q.ids, v))
  }

  lemma NoneOwned(c: Config, s: State, limbo: set<nat>, u: nat)
    requires Inv(c, s, limbo) && u in s.reqs.ids && IdsOf(s.reqs.ids, u) == {}
    ensures ReqsWithout(s.reqs, s.reqs, u)
  {
    ReqPart(c, s, limbo);
    var q := s.reqs;
    forall i | i in q.pool.slots ensures q.pool.slots[i].owner != u {
      assert c.reqBank + i !in q.ids[u];
      assert c.reqBank + i - c.reqBank == i;
      assert !OwnsReq(q.pool.slots, c.reqBank, u, c.reqBank + i);
    }
  }

  lemma DropThenWithout(c: Config, q: ReqSide, i: nat, q': ReqSide)
    requires i in q.pool.slots && q.pool.slots[i].owner in q.ids
    requires ReqsWithout(DropReq(c, q, i), q', q.pool.slots[i].owner)
    ensures ReqsWithout(q, q', q.pool.slots[i].owner)
  {
    var u, d := q.pool.slots[i].owner, DropReq(c, q, i);
    assert d.pool.slots == q.pool.slots - {i};
    forall v | v != u ensures IdsOf(q'.ids, v) == IdsOf(q.ids, v) {
      assert IdsOf(d.ids, v) == IdsOf(q.ids, v);
    }
  }

  lemma SmallerIds(ids: Ids, u: nat, id: nat)
    requires id in IdsOf(ids, u)
    ensures |IdsOf(Minus(ids, u, id), u)| < |IdsOf(ids, u)|
    ensures u in Minus(ids, u, id)
  {
    assert IdsOf(Minus(ids, u, id), u) == IdsOf(ids, u) - {id};
  }

  /** One round of the loop over a task's requests. */
  lemma DrainReqsStep(c: Config, s: State, limbo: set<nat>, u: nat, last: bool) returns (i: nat, s1: State)
    requires Inv(c, s, limbo) && IdsOf(s.reqs.ids, u) != {}
    ensures s1 == CancelReqId(c, s, Min(IdsOf(s.reqs.ids, u)), true, last) && Inv(c, s1, limbo)
    ensures |IdsOf(s1.reqs.ids, u)| < |IdsOf(s.reqs.ids, u)| && u in s1.reqs.ids
    ensures i in s.reqs.pool.slots && s.reqs.pool.slots[i].owner == u && u in s.reqs.ids
    ensures s1.reqs == DropReq(c, s.reqs, i)
    ensures s1.reg == s.reg && s1.rpys == s.rpys && s1.live == s.live && s1.now == s.now
  {
    var id := Min(IdsOf(s.reqs.ids, u));
    OwnRequest(c, s, limbo, u, id);
    i := id - c.reqBank;
    s1 := CancelReqId(c, s, id, true, last);
    CancelReqIdInv(c, s, limbo, id, true, last);
    SmallerIds(s.reqs.ids, u, id);
  }

  /** The loop over a task's requests ends, and leaves exactly the requests of other tasks. */
  lemma {:induction false} DrainReqsInv(c: Config, s: State, limbo: set<nat>, u: nat, last: bool)
    requires Inv(c, s, limbo) && u in s.reqs.ids
    ensures Inv(c, DrainReqs(c, s, u, last), limbo)
    ensures var s1 := DrainReqs(c, s, u, last);
            ReqsWithout(s.reqs, s1.reqs, u)
            && s1.reg == s.reg && s1.rpys == s.rpys && s1.live == s.live && s1.now == s.now
    decreases |IdsOf(s.reqs.ids, u)|
  {
    if IdsOf(s.reqs.ids, u) == {} {
      NoneOwned(c, s, limbo, u);
    } else {
      var i, s1 := DrainReqsStep(c, s, limbo, u, last);
      DrainReqsInv(c, s1, limbo, u, last);
      DropThenWithout(c, s.reqs, i, DrainReqs(c, s1, u, last).reqs);
    }
  }

  // ---- Ending a reply ----

  lemma DropRpyInv(c: Config, s: State, limbo: set<nat>, i: nat)
    requires Inv(c, s, limbo) && i in s.rpys.pool.slots
    ensures Inv(c, s.(rpys := DropRpy(c, s.rpys, i)), limbo)
  {
    Facets(c, s, limbo);
    RpyPart(c, s, limbo);
    DropRpyMoves(c, s.rpys, i);
    DropRpyOk(c, s.rpys, i);
    MinusQuiet(s.reg.removed, s.rpys.ids, s.rpys.pool.slots[i].owner, c.rpyBank + i);
    QuietRpysInv(c, s, limbo, DropRpy(c, s.rpys, i));
  }

  /** Sending a last reply and dropping the slot at once. */
  lemma ReplyAndDropInv(c: Config, s: State, limbo: set<nat>, i: nat, h: Header)
    requires Inv(c, s, limbo) && i in s.rpys.pool.slots
    ensures var s1 := Note(s, Replied(s.rpys.pool.slots[i].serial, h));
            Inv(c, s1.(rpys := DropRpy(c, s1.rpys, i)), limbo)
  {
    Facets(c, s, limbo);
    RpyPart(c, s, limbo);
    var r, p := s.rpys.pool.slots[i], DropRpy(c, s.rpys, i);
    MovesSelf(s);
    DropRpyMoves(c, s.rpys, i);
    DropRpyOk(c, s.rpys, i);
    MinusQuiet(s.reg.removed, s.rpys.ids, r.owner, c.rpyBank + i);
    Append(s.log, s.reqs, s.rpys, Replied(r.serial, h), s.reqs, p);
    NewRpysInv(c, s, limbo, p, s.log + [Replied(r.serial, h)]);
  }

  lemma EndRpyIdInv(c: Config, s: State, limbo: set<nat>, id: nat, status: int)
    requires Inv(c, s, limbo)
    ensures Inv(c, EndRpyId(c, s, id, status), limbo)
    ensures var s1 := EndRpyId(c, s, id, status);
            s1.reg == s.reg && s1.reqs == s.reqs && s1.live == s.live && s1.now == s.now
            && match Slot(s.rpys.pool, c.rpyBank, id)
               case None => s1 == s
               case Some(i) => s1.rpys == DropRpy(c, s.rpys, i)
  {
    match Slot(s.rpys.pool, c.rpyBank, id)
    case None =>
    case Some(i) =>
      var r := s.rpys.pool.slots[i];
      if status == SUCCESS {
        DropRpyInv(c, s, limbo, i);
      } else if !r.mcast || !Mlt(r.flags) {
        var e := Replied(r.serial, ReplyHeader(r, FLG_RPY, status, 0));
        ReplyAndDropInv(c, s, limbo, i, e.h);
        TellInv(c, Note(s, e).(rpys := DropRpy(c, s.rpys, i)), limbo, r.owner, GoneHeader(c, s, r, i));
      } else {
        TellInv(c, s, limbo, r.owner, GoneHeader(c, s, r, i));
        DropRpyInv(c, Tell(c, s, r.owner, GoneHeader(c, s, r, i)), limbo, i);
      }
  }

  lemma OwnReply(c: Config, s: State, limbo: set<nat>, u: nat, id: nat)
    requires Inv(c, s, limbo) && id in IdsOf(s.rpys.ids, u)
    ensures Slot(s.rpys.pool, c.rpyBank, id) == Some(id - c.rpyBank) && id >= c.rpyBank
    ensures s.rpys.pool.slots[id - c.rpyBank].owner == u && u in s.rpys.ids
  {
    RpyPart(c, s, limbo);
    assert id in s.rpys.ids[u];
    assert OwnsRpy(s.rpys.pool.slots, c.rpyBank, u, id);
  }

  /** p' is p without the replies of task u. */
  ghost predicate RpysWithout(p: RpySide, p': RpySide, u: nat) {
    && (forall i {:trigger i in p'.pool.slots} ::
          i in p'.pool.slots <==> i in p.pool.slots && p.pool.slots[i].owner != u)
    && (forall i {:trigger p'.pool.slots[i]} :: i in p'.pool.slots ==> p'.pool.slots[i] == p.pool.slots[i])
    && p'.born == p.born && p'.ids.Keys == p.ids.Keys && IdsOf(p'.ids, u) == {}
    && (forall l :: l in p'.links ==> l in p.links)
    && (forall v {:trigger IdsOf(p'.ids, v)} :: v != u ==> IdsOf(p'.ids, v) == IdsOf(p.ids, v))
  }

  lemma NoReplyOwned(c: Config, s: State, limbo: set<nat>, u: nat)
    requires Inv(c, s, limbo) && u in s.rpys.ids && IdsOf(s.rpys.ids, u) == {}
    ensures RpysWithout(s.rpys, s.rpys, u)
  {
    RpyPart(c, s, limbo);
    var p := s.rpys;
    forall i | i in p.pool.slots ensures p.pool.slots[i].owner != u {
      assert c.rpyBank + i !in p.ids[u];
      assert c.rpyBank + i - c.rpyBank == i;
      assert !OwnsRpy(p.pool.slots, c.rpyBank, u, c.rpyBank + i);
    }
  }

  lemma DropThenWithoutRpy(c: Config, p: RpySide, i: nat, p': RpySide)
    requires i in p.pool.slots && p.pool.slots[i].owner in p.ids
    requires RpysWithout(DropRpy(c, p, i), p', p.pool.slots[i].owner)
    ensures RpysWithout(p, p', p.pool.slots[i].owner)
  {
    var u, d := p.pool.slots[i].owner, DropRpy(c, p, i);
    EraseKeyMembers(p.links, p.pool.slots[i].remNode, p.pool.slots[i].reqId);
    assert d.pool.slots == p.pool.slots - {i};
    forall v | v != u ensures IdsOf(p'.ids, v) == IdsOf(p.ids, v) {
      assert IdsOf(d.ids, v) == IdsOf(p.ids, v);
    }
  }

  /** One round of the loop over a task's replies. */
  lemma DrainRpysStep(c: Config, s: State, limbo: set<nat>, u: nat, status: int) returns (i: nat, s1: State)
    requires Inv(c, s, limbo) && IdsOf(s.rpys.ids, u) != {}
    ensures s1 == EndRpyId(c, s, Min(IdsOf(s.rpys.ids, u)), status) && Inv(c, s1, limbo)
    ensures |IdsOf(s1.rpys.ids, u)| < |IdsOf(s.rpys.ids, u)| && u in s1.rpys.ids
    ensures i in s.rpys.pool.slots && s.rpys.pool.slots[i].owner == u && u in s.rpys.ids
    ensures s1.rpys == DropRpy(c, s.rpys, i)
    ensures s1.reg == s.reg && s1.reqs == s.reqs && s1.live == s.live && s1.now == s.now
  {
    var id := Min(IdsOf(s.rpys.ids, u));
    OwnReply(c, s, limbo, u, id);
    i := id - c.rpyBank;
    s1 := EndRpyId(c, s, id, status);
    EndRpyIdInv(c, s, limbo, id, status);
    SmallerIds(s.rpys.ids, u, id);
  }

  /** The loop over a task's replies ends, and leaves exactly the replies of other tasks. */
  lemma {:induction false} DrainRpysInv(c: Config, s: State, limbo: set<nat>, u: nat, status: int)
    requires Inv(c, s, limbo) && u in s.rpys.ids
    ensures Inv(c, DrainRpys(c, s, u, status), limbo)
    ensures var s1 := DrainRpys(c, s, u, status);
            RpysWithout(s.rpys, s1.rpys, u)
            && s1.reg == s.reg && s1.reqs == s.reqs && s1.live == s.live && s1.now == s.now
    decreases |IdsOf(s.rpys.ids, u)|
  {
    if IdsOf(s.rpys.ids, u) == {} {
      NoReplyOwned(c, s, limbo, u);
    } else {
      var i, s1 := DrainRpysStep(c, s, limbo, u, status);
      DrainRpysInv(c, s1, limbo, u, status);
      DropThenWithoutRpy(c, s.rpys, i, DrainRpys(c, s1, u, status).rpys);
    }
  }

  // ---- Removing tasks ----

  /** s' is s after task u was removed: nothing of it is left but the object itself. */
  ghost predicate Gone(s: State, s': State, u: nat) {
    && ReqsWithout(s.reqs, s'.reqs, u) && RpysWithout(s.rpys, s'.rpys, u)
    && s'.reg == Unregister(s.reg, u).(removed := s.reg.removed + [u])
    && s'.live == s.live && s'.now == s.now
  }

  lemma NewRegInv(c: Config, s: State, limbo: set<nat>, g: Registry, limbo': set<nat>)
    requires Inv(c, s, limbo) && RegOk(c, g, limbo') && g.infos.Keys == s.reg.infos.Keys
    requires Quiet(g.removed, s.reqs.ids) && Quiet(g.removed, s.rpys.ids)
    ensures Inv(c, s.(reg := g), limbo')
  {
    Facets(c, s, limbo);
    Whole(c, s.(reg := g), limbo');
  }

  lemma UnregisterInv(c: Config, s: State, u: nat)
    requires Inv(c, s, {}) && Registered(s.reg, u) && u != 0
    ensures Inv(c, s.(reg := Unregister(s.reg, u)), {u})
    ensures u in s.reqs.ids && u in s.rpys.ids
  {
    Facets(c, s, {});
    RegPart(c, s, {});
    UnregisterOk(c, s.reg, u);
    NewRegInv(c, s, {}, Unregister(s.reg, u), {u});
  }

  lemma RetireInv(c: Config, s: State, u: nat)
    requires Inv(c, s, {u}) && IdsOf(s.reqs.ids, u) == {} && IdsOf(s.rpys.ids, u) == {}
    ensures Inv(c, s.(reg := s.reg.(removed := s.reg.removed + [u])), {})
  {
    Facets(c, s, {u});
    RetireOk(c, s.reg, u);
    NewRegInv(c, s, {u}, s.reg.(removed := s.reg.removed + [u]), {});
  }

  /** removeOnlyThisTask is complete: afterwards no slot, id, timer or table entry is the task's. */
  lemma RemoveOnlyInv(c: Config, s: State, u: nat, status: int, last: bool)
    requires Inv(c, s, {}) && Registered(s.reg, u) && u != 0
    ensures Inv(c, RemoveOnly(c, s, u, status, last), {})
    ensures Gone(s, RemoveOnly(c, s, u, status, last), u)
  {
    UnregisterInv(c, s, u);
    var s0 := s.(reg := Unregister(s.reg, u));
    DrainReqsInv(c, s0, {u}, u, last);
    var s1 := DrainReqs(c, s0, u, last);
    DrainRpysInv(c, s1, {u}, u, status);
    RetireInv(c, DrainRpys(c, s1, u, status), u);
  }
}
