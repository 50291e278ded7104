/** Two daemons while they run: a request slot of one and the reply slot of the other go on standing for
    each other as long as both hold what they held, whatever else the two daemons do. */
module Pairs {
  import opened Sequences
  import opened SlotPools
  import opened Acnet
  import opened Daemon
  import opened Invariant
  import opened Registers
  import opened Preservation
  import opened Steps
  import opened Guarantees
  import opened Continuity
  import opened Repliers
  import opened Protocol

  /** Reply slot i of one daemon stands for request slot j of the other. */
  ghost predicate PairedAt(sA: State, i: nat, cB: Config, sB: State, j: nat) {
    && i in sA.rpys.pool.slots && j in sB.reqs.pool.slots
    && var r := sB.reqs.pool.slots[j];
       Paired(sA.rpys.pool.slots[i], r, cB.reqBank + j, InfoOf(sB.reg, r.owner).id)
  }

  /** Slot i still holds the reply it held in s. */
  predicate StillRpy(s: State, s': State, i: nat) {
    i in s.rpys.pool.slots && i in s'.rpys.pool.slots && s'.rpys.pool.slots[i].serial == s.rpys.pool.slots[i].serial
  }

  predicate StillReq(s: State, s': State, j: nat) {
    j in s.reqs.pool.slots && j in s'.reqs.pool.slots && s'.reqs.pool.slots[j].serial == s.reqs.pool.slots[j].serial
  }

  /** What a reply slot holds stays as it was over any run, but for the acknowledgement. */
  lemma RpyStays(c: Config, s: State, es: seq<Input>, i: nat)
    requires Inv(c, s, {}) && StillRpy(s, Run(c, s, es), i)
    ensures Run(c, s, es).rpys.pool.slots[i].(acked := true) == s.rpys.pool.slots[i].(acked := true)
    ensures var s' := Run(c, s, es);
            Linked(s'.rpys.links, s'.rpys.pool.slots, i) ==> Linked(s.rpys.links, s.rpys.pool.slots, i)
  {
    RunGoes(c, s, es);
    GoesParts(s, Run(c, s, es));
    SerialBelow(c, s, i);
    assert StaysRpy(s, Run(c, s, es), i);
  }

  lemma SerialBelow(c: Config, s: State, i: nat)
    requires Inv(c, s, {})
    ensures i in s.rpys.pool.slots ==> s.rpys.pool.slots[i].serial < |s.rpys.born|
    ensures i in s.reqs.pool.slots ==> s.reqs.pool.slots[i].serial < |s.reqs.born|
  {
    ReqPart(c, s, {});
    RpyPart(c, s, {});
  }

  lemma ReqStays(c: Config, s: State, es: seq<Input>, j: nat)
    requires Inv(c, s, {}) && StillReq(s, Run(c, s, es), j)
    ensures var r, s' := s.reqs.pool.slots[j], Run(c, s, es);
            s'.reqs.pool.slots[j] == r && InfoOf(s'.reg, r.owner).id == InfoOf(s.reg, r.owner).id
  {
    RunGoes(c, s, es);
    GoesParts(s, Run(c, s, es));
    SerialBelow(c, s, j);
    assert StaysReq(s, Run(c, s, es), j);
  }

  /** A pair stays a pair, whatever happens to the two daemons, until one of the slots is freed. */
  lemma PairStays(cA: Config, sA: State, i: nat, esA: seq<Input>, cB: Config, sB: State, j: nat, esB: seq<Input>)
    requires Inv(cA, sA, {}) && Inv(cB, sB, {}) && PairedAt(sA, i, cB, sB, j)
    requires StillRpy(sA, Run(cA, sA, esA), i) && StillReq(sB, Run(cB, sB, esB), j)
    ensures PairedAt(Run(cA, sA, esA), i, cB, Run(cB, sB, esB), j)
  {
    var sA', p := Run(cA, sA, esA), sA.rpys.pool.slots[i];
    RpyStays(cA, sA, esA, i);
    assert sA'.rpys.pool.slots[i] == p || sA'.rpys.pool.slots[i] == p.(acked := sA'.rpys.pool.slots[i].acked);
    ReqStays(cB, sB, esB, j);
  }

  /** So the two daemons agree on the end of the request at any later time: when a reply is sent and
      arrives, both slots are over or both are open exactly if the reply is agreeable. */
  lemma AgreementOverRuns(cA: Config, sA: State, i: nat, esA: seq<Input>, u: nat,
                          cB: Config, sB: State, j: nat, esB: seq<Input>, status: int, n: nat, emr: bool)
    requires Inv(cA, sA, {}) && Inv(cB, sB, {}) && PairedAt(sA, i, cB, sB, j)
    requires StillRpy(sA, Run(cA, sA, esA), i) && StillReq(sB, Run(cB, sB, esB), j)
    requires Equals(Run(cA, sA, esA).reg, sA.rpys.pool.slots[i].owner, u)
    requires var sB', v := Run(cB, sB, esB), sB.reqs.pool.slots[j].owner; Alive(cB, sB', v) && Alive(cB, Asked(sB'), v)
    ensures var p, sA1, sB1 := sA.rpys.pool.slots[i], Run(cA, sA, esA), Run(cB, sB, esB);
            var sA2 := SendReply(cA, sA1, u, cA.rpyBank + i, status, n, emr).0;
            var sB2 := NetReply(cB, sB1, XmitHeader(p, status, n, emr));
            ((i !in sA2.rpys.pool.slots <==> j !in sB2.reqs.pool.slots) <==> Agreeable(Mlt(p.flags), status, emr))
  {
    var p, sA1, sB1 := sA.rpys.pool.slots[i], Run(cA, sA, esA), Run(cB, sB, esB);
    RunGoes(cA, sA, esA);
    PairStays(cA, sA, i, esA, cB, sB, j, esB);
    RpyStays(cA, sA, esA, i);
    ReqStays(cB, sB, esB, j);
    var p1 := sA1.rpys.pool.slots[i];
    assert p1.owner == p.(acked := true).owner && p1.flags == p.(acked := true).flags;
    SameXmitHeader(p, p1, status, n, emr);
    ClosingAgreement(cA, sA1, i, u, cB, sB1, j, status, n, emr);
  }

  lemma SameXmitHeader(p: Rpy, p1: Rpy, status: int, n: nat, emr: bool)
    requires p1.(acked := true) == p.(acked := true)
    ensures XmitHeader(p1, status, n, emr) == XmitHeader(p, status, n, emr)
  {
    assert p1 == p.(acked := p1.acked);
  }

  /** A reply that activeMap has lost is never found again: no CANCEL that comes later ends it. */
  lemma HiddenForever(c: Config, s: State, es: seq<Input>, i: nat)
    requires Inv(c, s, {}) && StillRpy(s, Run(c, s, es), i) && Hidden(s.rpys.pool.slots[i], s.rpys.ended)
    ensures var s' := Run(c, s, es);
            && Hidden(s'.rpys.pool.slots[i], s'.rpys.ended)
            && forall node: nat, reqId: nat :: FindLink(s'.rpys.links, node, reqId) != Some(i)
  {
    var s' := Run(c, s, es);
    RunGoes(c, s, es);
    GoesParts(s, Run(c, s, es));
    RpyStays(c, s, es, i);
    ListedIs(c, s, i);
    ListedIs(c, s', i);
    forall node: nat, reqId: nat ensures FindLink(s'.rpys.links, node, reqId) != Some(i) {
      if FindLink(s'.rpys.links, node, reqId) == Some(i) { FoundIsFirst(c, s', node, reqId, i); }
    }
  }

  lemma ListedIs(c: Config, s: State, i: nat)
    requires Inv(c, s, {}) && i in s.rpys.pool.slots
    ensures Linked(s.rpys.links, s.rpys.pool.slots, i) <==> !Hidden(s.rpys.pool.slots[i], s.rpys.ended)
  {
    LinksInOrder(c, s);
  }
}
