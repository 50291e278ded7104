/** What the log of a daemon shows of its request and reply allocations over a whole run. */
module History {
  import opened Sequences
  import opened SlotPools
  import opened Acnet
  import opened Daemon

  /** Is this the packet that ends its allocation? For a request: any reply if it was to get only
      one, an end-of-multiple-reply that reached the client of a unicast request otherwise. For a
      reply slot: a reply without the MLT flag, unless it only says ACNET_PEND. */
  predicate Closing(e: Event) {
    match e
    case Handed(_, mult, mcast, h, ok) => !mult || (!mcast && ok && IsEmr(h))
    case Replied(_, h) => !Mlt(h.flags) && h.status != PEND
    case _ => false
  }

  predicate SameAllocation(e: Event, f: Event) {
    (e.Handed? && f.Handed? && e.serial == f.serial) || (e.Replied? && f.Replied? && e.serial == f.serial)
  }

  /** Did a packet in the log end the allocation that e belongs to? */
  predicate ClosedIn(log: seq<Event>, e: Event) {
    log != []
    && ((SameAllocation(log[|log| - 1], e) && Closing(log[|log| - 1])) || ClosedIn(log[..|log| - 1], e))
  }

  /** Do all packets of e's allocation describe the request as e does? */
  predicate Agreeing(log: seq<Event>, e: Event) {
    log == []
    || ((SameAllocation(log[|log| - 1], e) && e.Handed? ==>
           log[|log| - 1].mult == e.mult && log[|log| - 1].mcast == e.mcast)
        && Agreeing(log[..|log| - 1], e))
  }

  /** No packet belongs to an allocation that had ended before. */
  predicate Orderly(log: seq<Event>) {
    log == []
    || (Orderly(log[..|log| - 1])
        && !ClosedIn(log[..|log| - 1], log[|log| - 1]) && Agreeing(log[..|log| - 1], log[|log| - 1]))
  }

  /** Does a slot still hold the allocation with this number? */
  predicate HoldsReq(q: ReqSide, serial: nat) {
    serial < |q.born| && q.born[serial] in q.pool.slots && q.pool.slots[q.born[serial]].serial == serial
  }

  predicate HoldsRpy(q: RpySide, serial: nat) {
    serial < |q.born| && q.born[serial] in q.pool.slots && q.pool.slots[q.born[serial]].serial == serial
  }

  /** The packet belongs to an allocation that a slot holds, and describes it correctly. */
  predicate Current(e: Event, q: ReqSide, p: RpySide) {
    match e
    case Handed(serial, mult, mcast, _, _) =>
      HoldsReq(q, serial) && (var r := q.pool.slots[q.born[serial]]; mult == Mlt(r.flags) && mcast == r.mcast)
    case Replied(serial, _) => HoldsRpy(p, serial)
    case _ => true
  }

  /** A packet fits the slots if its allocation has been made, has not ended if a slot still holds
      it, and is described correctly. */
  predicate Fits(e: Event, q: ReqSide, p: RpySide) {
    match e
    case Handed(serial, mult, mcast, _, _) =>
      && serial < |q.born|
      && (HoldsReq(q, serial) ==>
            var r := q.pool.slots[q.born[serial]];
            !Closing(e) && mult == Mlt(r.flags) && mcast == r.mcast)
    case Replied(serial, _) => serial < |p.born| && (HoldsRpy(p, serial) ==> !Closing(e))
    case _ => true
  }

  predicate AllFit(log: seq<Event>, q: ReqSide, p: RpySide) {
    log == [] || (AllFit(log[..|log| - 1], q, p) && Fits(log[|log| - 1], q, p))
  }

  ghost predicate Hist(log: seq<Event>, q: ReqSide, p: RpySide) {
    Orderly(log) && AllFit(log, q, p)
  }

  /** Between two states slots were only freed, or taken for new allocations. */
  ghost predicate ReqMoves(q: ReqSide, q': ReqSide) {
    && q.born <= q'.born
    && (forall i {:trigger q'.pool.slots[i]} :: i in q'.pool.slots ==>
          q'.pool.slots[i].serial >= |q.born| || (i in q.pool.slots && q'.pool.slots[i] == q.pool.slots[i]))
  }

  ghost predicate RpyMoves(p: RpySide, p': RpySide) {
    && p.born <= p'.born
    && (forall i {:trigger p'.pool.slots[i]} :: i in p'.pool.slots ==>
          p'.pool.slots[i].serial >= |p.born|
          || (i in p.pool.slots && p'.pool.slots[i].(acked := true) == p.pool.slots[i].(acked := true)))
  }

  lemma FitsMoves(e: Event, q: ReqSide, p: RpySide, q': ReqSide, p': RpySide)
    requires Fits(e, q, p) && ReqMoves(q, q') && RpyMoves(p, p')
    ensures Fits(e, q', p')
  {
    if e.Replied? && HoldsRpy(p', e.serial) {
      assert p'.born[e.serial] == p.born[e.serial];
      assert p'.pool.slots[p.born[e.serial]].(acked := true).serial == e.serial;
    }
  }

  lemma {:induction false} AllFitMoves(log: seq<Event>, q: ReqSide, p: RpySide, q': ReqSide, p': RpySide)
    requires AllFit(log, q, p) && ReqMoves(q, q') && RpyMoves(p, p')
    ensures AllFit(log, q', p')
  {
    if log != [] {
      AllFitMoves(log[..|log| - 1], q, p, q', p');
      FitsMoves(log[|log| - 1], q, p, q', p');
    }
  }

  /** As long as a slot holds the allocation of a packet, the log has not closed it. */
  lemma {:induction false} HeldIsOpen(log: seq<Event>, q: ReqSide, p: RpySide, e: Event)
    requires AllFit(log, q, p) && Current(e, q, p)
    ensures !ClosedIn(log, e) && Agreeing(log, e)
  {
    if log != [] {
      HeldIsOpen(log[..|log| - 1], q, p, e);
    }
  }

  /** One more packet, after which the slots are q' and p'. */
  lemma Append(log: seq<Event>, q: ReqSide, p: RpySide, e: Event, q': ReqSide, p': RpySide)
    requires Hist(log, q, p) && ReqMoves(q, q') && RpyMoves(p, p')
    requires Current(e, q, p) && Fits(e, q', p')
    ensures Hist(log + [e], q', p')
  {
    HeldIsOpen(log, q, p, e);
    AllFitMoves(log, q, p, q', p');
    assert (log + [e])[..|log|] == log;
  }

  lemma Quietly(log: seq<Event>, q: ReqSide, p: RpySide, q': ReqSide, p': RpySide)
    requires Hist(log, q, p) && ReqMoves(q, q') && RpyMoves(p, p')
    ensures Hist(log, q', p')
  {
    AllFitMoves(log, q, p, q', p');
  }

  // ---- What an orderly log means ----

  lemma {:induction false} ClosedInAt(log: seq<Event>, e: Event, j: nat)
    requires j < |log| && SameAllocation(log[j], e) && Closing(log[j])
    ensures ClosedIn(log, e)
  {
    if j < |log| - 1 {
      ClosedInAt(log[..|log| - 1], e, j);
    }
  }

  lemma {:induction false} OrderlyAt(log: seq<Event>, k: nat)
    requires Orderly(log) && k < |log|
    ensures !ClosedIn(log[..k], log[k]) && Agreeing(log[..k], log[k])
  {
    var init := log[..|log| - 1];
    if k < |log| - 1 {
      OrderlyAt(init, k);
      assert init[..k] == log[..k];
    }
  }

  /** After the packet that ends an allocation, no other packet of that allocation appears. */
  lemma NothingAfterClosing(log: seq<Event>, j: nat, k: nat)
    requires Orderly(log) && j < k < |log| && SameAllocation(log[j], log[k])
    ensures !Closing(log[j])
  {
    OrderlyAt(log, k);
    if Closing(log[j]) {
      ClosedInAt(log[..k], log[k], j);
    }
  }

  lemma {:induction false} AgreeingAt(log: seq<Event>, e: Event, j: nat)
    requires j < |log| && SameAllocation(log[j], e) && e.Handed? && Agreeing(log, e)
    ensures log[j].mult == e.mult && log[j].mcast == e.mcast
  {
    if j < |log| - 1 {
      AgreeingAt(log[..|log| - 1], e, j);
    }
  }

  /** The packets of one allocation agree on what was requested. */
  lemma OneDescription(log: seq<Event>, j: nat, k: nat)
    requires Orderly(log) && j < k < |log| && log[j].Handed? && SameAllocation(log[j], log[k])
    ensures log[j].mult == log[k].mult && log[j].mcast == log[k].mcast
  {
    OrderlyAt(log, k);
    AgreeingAt(log[..k], log[k], j);
  }

  lemma {:induction false} FitsAt(log: seq<Event>, q: ReqSide, p: RpySide, k: nat)
    requires AllFit(log, q, p) && k < |log|
    ensures Fits(log[k], q, p)
  {
    if k < |log| - 1 {
      FitsAt(log[..|log| - 1], q, p, k);
    }
  }
}
