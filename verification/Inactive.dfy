/** Which tasks removeInactiveTasks removes: those that are found dead, with all the tasks of their
    processes, and no others. */
module Inactive {
  import opened Sequences
  import opened Acnet
  import opened Daemon
  import opened Invariant
  import opened Registers
  import opened Preservation
  import opened Removal
  import opened Steps

  /** The table positions of a task and, if it has a process, of the other tasks of the process. */
  ghost function Household(g: Registry, id: nat): set<nat> {
    set x | x in g.tasks && id in g.tasks
            && (x == id || (InfoOf(g, g.tasks[id]).pid != 0 && InfoOf(g, g.tasks[x]).pid == InfoOf(g, g.tasks[id]).pid))
  }

  /** The table positions from `from` on that are found dead, when the ones found before them are removed. */
  ghost function Dead(c: Config, s: State, from: nat): set<nat>
    decreases c.maxTasks - from
  {
    if from >= c.maxTasks then {}
    else if from !in s.reg.tasks then Dead(c, s, from + 1)
    else if Alive(c, s, s.reg.tasks[from]) then Dead(c, Asked(s), from + 1)
    else {from} + Dead(c, RemoveTask(c, Asked(s), s.reg.tasks[from]), from + 1)
  }

  lemma ListedId(c: Config, s: State, id: nat)
    requires Inv(c, s, {}) && id in s.reg.tasks
    ensures s.reg.tasks[id] in s.reg.infos && s.reg.infos[s.reg.tasks[id]].id == id
  {
    RegPart(c, s, {});
  }

  lemma RemovedIsHousehold(g: Registry, g': Registry, id: nat)
    requires id in g.tasks
    requires var pid := InfoOf(g, g.tasks[id]).pid;
             if pid == 0 then g'.tasks == g.tasks - {id} else WithoutPid(g, g', pid, 0)
    ensures forall x {:trigger x in g'.tasks} :: x in g'.tasks <==> x in g.tasks && x !in Household(g, id)
  {}

  /** Who is removed by removeTask, by table position. */
  lemma HouseholdGoes(c: Config, s: State, id: nat) returns (s1: State)
    requires Inv(c, s, {}) && id in s.reg.tasks && !Alive(c, s, s.reg.tasks[id])
    ensures s1 == RemoveTask(c, Asked(s), s.reg.tasks[id]) && Inv(c, s1, {}) && Shrinks(s, s1)
    ensures forall x {:trigger x in s1.reg.tasks} ::
              x in s1.reg.tasks <==> x in s.reg.tasks && x !in Household(s.reg, id)
  {
    var u := s.reg.tasks[id];
    AskedInv(c, s, {});
    ShrinksSelf(c, s, Asked(s));
    DeadIsClient(c, s, id);
    ListedId(c, s, id);
    RemoveTaskInv(c, Asked(s), u);
    s1 := RemoveTask(c, Asked(s), u);
    ShrinksAgain(s, Asked(s), s1);
    RemovedIsHousehold(s.reg, s1.reg, id);
  }

  lemma HouseholdShrinks(s: State, s1: State, d: nat)
    requires Shrinks(s, s1) && d in s1.reg.tasks
    ensures forall x {:trigger x in Household(s1.reg, d)} ::
              x in Household(s1.reg, d) <==> x in Household(s.reg, d) && x in s1.reg.tasks
  {
    assert forall x {:trigger x in s1.reg.tasks} :: x in s1.reg.tasks ==>
             InfoOf(s1.reg, s1.reg.tasks[x]) == InfoOf(s.reg, s.reg.tasks[x]);
  }

  lemma {:induction false} DeadAreListed(c: Config, s: State, from: nat)
    requires Inv(c, s, {})
    ensures forall d {:trigger d in Dead(c, s, from)} :: d in Dead(c, s, from) ==> d in s.reg.tasks && d >= from
    decreases c.maxTasks - from
  {
    if from < c.maxTasks {
      if from !in s.reg.tasks {
        DeadAreListed(c, s, from + 1);
      } else if Alive(c, s, s.reg.tasks[from]) {
        AskedInv(c, s, {});
        DeadAreListed(c, Asked(s), from + 1);
      } else {
        var s1 := HouseholdGoes(c, s, from);
        DeadAreListed(c, s1, from + 1);
      }
    }
  }

  /** A task is left exactly if neither it nor another of its process was found dead. */
  lemma {:induction false} DeadGo(c: Config, s: State, from: nat, id: nat)
    requires Inv(c, s, {})
    ensures id in RemoveDead(c, s, from).reg.tasks
            <==> && id in s.reg.tasks
                 && forall d {:trigger Household(s.reg, d)} :: d in Dead(c, s, from) ==> id !in Household(s.reg, d)
    decreases c.maxTasks - from
  {
    if from < c.maxTasks {
      if from !in s.reg.tasks {
        DeadGo(c, s, from + 1, id);
      } else if Alive(c, s, s.reg.tasks[from]) {
        AskedInv(c, s, {});
        DeadGo(c, Asked(s), from + 1, id);
      } else {
        var s1 := HouseholdGoes(c, s, from);
        DeadGo(c, s1, from + 1, id);
        DeadAreListed(c, s1, from + 1);
        forall d | d in Dead(c, s1, from + 1) && id in s1.reg.tasks
          ensures id in Household(s1.reg, d) <==> id in Household(s.reg, d)
        {
          HouseholdShrinks(s, s1, d);
        }
      }
    }
  }

  /** Who is found dead is a client that did not answer; without a pid, one that has not been heard of for
      thirty seconds. */
  lemma {:induction false} DeadAreSilent(c: Config, s: State, from: nat, d: nat)
    requires Inv(c, s, {}) && d in Dead(c, s, from)
    ensures d in s.reg.tasks
    ensures var u := s.reg.tasks[d];
            External(s.reg, u) && (InfoOf(s.reg, u).pid == 0 ==> s.now - LiveOf(s, u).lastCommand >= 30000)
    decreases c.maxTasks - from
  {
    if from !in s.reg.tasks {
      DeadAreSilent(c, s, from + 1, d);
    } else if Alive(c, s, s.reg.tasks[from]) {
      AskedInv(c, s, {});
      DeadAreSilent(c, Asked(s), from + 1, d);
    } else if d != from {
      var s1 := HouseholdGoes(c, s, from);
      DeadAreSilent(c, s1, from + 1, d);
    }
  }

  /** removeInactiveTasks: a task stays registered exactly if neither it nor another of its process was
      found dead. */
  lemma InactiveGo(c: Config, s: State, id: nat)
    requires Inv(c, s, {})
    ensures id in RemoveInactive(c, s).reg.tasks
            <==> && id in s.reg.tasks
                 && forall d {:trigger Household(s.reg, d)} :: d in Dead(c, s, 0) ==> id !in Household(s.reg, d)
  {
    DeadGo(c, s, 0, id);
  }

  // ---- If nobody answers, and if everybody does ----

  /** Is the task at this table position one that needs no answer: the internal one, or a client without a
      pid that was heard of in the last thirty seconds? */
  predicate Exempt(s: State, id: nat)
    requires id in s.reg.tasks
  {
    var u := s.reg.tasks[id];
    !External(s.reg, u) || (InfoOf(s.reg, u).pid == 0 && s.now - LiveOf(s, u).lastCommand < 30000)
  }

  lemma {:induction false} SomeoneIsDead(c: Config, s: State, from: nat, id: nat) returns (d: nat)
    requires Inv(c, s, {}) && c.yes == {} && id in s.reg.tasks && id >= from && !Exempt(s, id)
    ensures d in Dead(c, s, from) && id in Household(s.reg, d)
    decreases c.maxTasks - from
  {
    TableEnd(c, s, id);
    if from !in s.reg.tasks {
      d := SomeoneIsDead(c, s, from + 1, id);
    } else if Alive(c, s, s.reg.tasks[from]) {
      AskedInv(c, s, {});
      d := SomeoneIsDead(c, Asked(s), from + 1, id);
    } else {
      var s1 := HouseholdGoes(c, s, from);
      if id in s1.reg.tasks {
        d := SomeoneIsDead(c, s1, from + 1, id);
        DeadAreListed(c, s1, from + 1);
        HouseholdShrinks(s, s1, d);
      } else {
        d := from;
      }
    }
  }

  /** If no question is answered, the internal task stays, and of the clients exactly those without a pid
      that were heard of in the last thirty seconds. */
  lemma NobodyAnswers(c: Config, s: State, id: nat)
    requires Inv(c, s, {}) && c.yes == {}
    ensures id in RemoveInactive(c, s).reg.tasks <==> id in s.reg.tasks && Exempt(s, id)
  {
    InactiveGo(c, s, id);
    if id in s.reg.tasks {
      if Exempt(s, id) {
        forall d | d in Dead(c, s, 0) ensures id !in Household(s.reg, d) {
          DeadAreSilent(c, s, 0, d);
          ExemptAlone(c, s, id, d);
        }
      } else {
        var d := SomeoneIsDead(c, s, 0, id);
        assert id in Household(s.reg, d);
      }
    }
  }

  lemma ExemptAlone(c: Config, s: State, id: nat, d: nat)
    requires Inv(c, s, {}) && id in s.reg.tasks && d in s.reg.tasks && Exempt(s, id) && !Exempt(s, d)
    ensures id !in Household(s.reg, d)
  {
    RegPart(c, s, {});
  }

  /** If every question is answered, nothing happens but that the questions were asked. */
  lemma {:induction false} EveryoneAnswersFrom(c: Config, s: State, from: nat)
    requires forall k {:trigger k in c.yes} :: s.asked <= k < s.asked + c.maxTasks - from ==> k in c.yes
    ensures RemoveDead(c, s, from) == s.(asked := RemoveDead(c, s, from).asked)
    decreases c.maxTasks - from
  {
    if from < c.maxTasks {
      if from !in s.reg.tasks {
        EveryoneAnswersFrom(c, s, from + 1);
      } else {
        assert s.asked in c.yes;
        EveryoneAnswersFrom(c, Asked(s), from + 1);
      }
    }
  }

  lemma EveryoneAnswers(c: Config, s: State)
    requires forall k {:trigger k in c.yes} :: s.asked <= k < s.asked + c.maxTasks ==> k in c.yes
    ensures var s' := RemoveInactive(c, s);
            && s'.reg.tasks == s.reg.tasks && s'.reg.active == s.reg.active && s'.log == s.log
            && s'.reqs.pool == s.reqs.pool && s'.rpys.pool == s.rpys.pool && s'.rpys.links == s.rpys.links
  {
    EveryoneAnswersFrom(c, s, 0);
  }
}
