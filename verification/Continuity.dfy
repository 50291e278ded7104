/** What an allocation of a slot keeps while a daemon runs: the slot's contents, its owner's id, and, for
    a reply, that activeMap has lost it. So what holds between two daemons goes on holding. */
module Continuity {
  import opened SlotPools
  import opened Acnet
  import opened Daemon
  import opened Invariant

  /** Slot i holds an allocation of s in s' too: then it holds what it held, for the same task id. */
  ghost predicate StaysReq(s: State, s': State, i: nat) {
    i in s'.reqs.pool.slots && s'.reqs.pool.slots[i].serial < |s.reqs.born| ==>
      && i in s.reqs.pool.slots && s'.reqs.pool.slots[i] == s.reqs.pool.slots[i]
      && InfoOf(s'.reg, s'.reqs.pool.slots[i].owner).id == InfoOf(s.reg, s'.reqs.pool.slots[i].owner).id
  }

  /** A reply may have been acknowledged, or have lost its entry in activeMap. */
  ghost predicate StaysRpy(s: State, s': State, i: nat) {
    i in s'.rpys.pool.slots && s'.rpys.pool.slots[i].serial < |s.rpys.born| ==>
      && i in s.rpys.pool.slots && s'.rpys.pool.slots[i].(acked := true) == s.rpys.pool.slots[i].(acked := true)
      && (Linked(s'.rpys.links, s'.rpys.pool.slots, i) ==> Linked(s.rpys.links, s.rpys.pool.slots, i))
  }

  ghost predicate Continues(s: State, s': State) {
    && |s.reqs.born| <= |s'.reqs.born| && |s.rpys.born| <= |s'.rpys.born|
    && (forall i {:trigger StaysReq(s, s', i)} :: StaysReq(s, s', i))
    && (forall i {:trigger StaysRpy(s, s', i)} :: StaysRpy(s, s', i))
  }

  lemma ContinuesOn(s0: State, s1: State, s2: State)
    requires Continues(s0, s1) && Continues(s1, s2)
    ensures Continues(s0, s2)
  {
    forall i ensures StaysReq(s0, s2, i) { assert StaysReq(s0, s1, i) && StaysReq(s1, s2, i); }
    forall i ensures StaysRpy(s0, s2, i) { assert StaysRpy(s0, s1, i) && StaysRpy(s1, s2, i); }
  }

  ghost predicate FewerReqs(slots: map<nat, Req>, slots': map<nat, Req>) {
    forall i {:trigger i in slots'} {:trigger slots'[i]} :: i in slots' ==> i in slots && slots'[i] == slots[i]
  }

  /** Those left may have been acknowledged. */
  ghost predicate FewerRpys(slots: map<nat, Rpy>, slots': map<nat, Rpy>) {
    forall i {:trigger i in slots'} {:trigger slots'[i]} :: i in slots' ==>
      i in slots && slots'[i].(acked := true) == slots[i].(acked := true)
  }

  /** No slot is taken into use, and no task changes. */
  lemma FewerContinue(s: State, s': State)
    requires s'.reg.infos == s.reg.infos && s'.reqs.born == s.reqs.born && s'.rpys.born == s.rpys.born
    requires FewerReqs(s.reqs.pool.slots, s'.reqs.pool.slots)
    requires FewerRpys(s.rpys.pool.slots, s'.rpys.pool.slots)
    requires forall l :: l in s'.rpys.links ==> l in s.rpys.links
    ensures Continues(s, s')
  {}

  lemma SameContinues(s: State, s': State)
    requires s'.reg.infos == s.reg.infos && s'.reqs.born == s.reqs.born && s'.rpys.born == s.rpys.born
    requires s'.reqs.pool.slots == s.reqs.pool.slots && s'.rpys.pool.slots == s.rpys.pool.slots
    requires s'.rpys.links == s.rpys.links
    ensures Continues(s, s')
  {
    FewerContinue(s, s');
  }
}
