/** TaskInfo and its descendants (server.h, taskinfo.cpp, exttask.cpp): what the daemon keeps for
    each client, and all these objects together, each with the number that stands for its address. */
module Tasks {
  import opened Sequences
  import opened Daemon

  class TaskInfo {
    const number: nat
    /** Identity: all constant but the handle. */
    var info: Info
    /** The `receiving` flag, the pending requests and the time of the last command. */
    var live: Live
    var requests: set<nat>
    var replies: set<nat>

    constructor (number: nat, i: Info, now: int)
      ensures this.number == number && info == i && live == Live(false, 0, now)
      ensures requests == {} && replies == {}
    {
      this.number, info, live, requests, replies := number, i, Live(false, 0, now), {}, {};
    }

    method SetInfo(i: Info)
      modifies this`info
      ensures info == i
    {
      info := i;
    }

    method SetLive(l: Live)
      modifies this`live
      ensures live == l
    {
      live := l;
    }

    method AddRequest(id: nat) returns (added: bool)
      modifies this`requests
      ensures requests == old(requests) + {id} && added == (id !in old(requests))
    {
      added := id !in requests;
      requests := requests + {id};
    }

    method RemoveRequest(id: nat) returns (removed: bool)
      modifies this`requests
      ensures requests == old(requests) - {id} && removed == (id in old(requests))
    {
      removed := id in requests;
      requests := requests - {id};
    }

    method AddReply(id: nat) returns (added: bool)
      modifies this`replies
      ensures replies == old(replies) + {id} && added == (id !in old(replies))
    {
      added := id !in replies;
      replies := replies + {id};
    }

    method RemoveReply(id: nat) returns (removed: bool)
      modifies this`replies
      ensures replies == old(replies) - {id} && removed == (id in old(replies))
    {
      removed := id in replies;
      replies := replies - {id};
    }
  }

  /** What the objects hold, by the kind of thing. */
  datatype View = View(infos: map<nat, Info>, live: map<nat, Live>, reqIds: Ids, rpyIds: Ids)

  /** What there is to say of the objects: which object is which, which there are, and what each of
      them holds. */
  datatype Aspect = Numbers | Domains | Infos | Lives | Requests | Replies

  class TaskObjects {
    var objs: map<nat, TaskInfo>
    ghost var view: View
    ghost var Repr: set<object>

    ghost predicate Holds(a: Aspect)
      reads this, Repr
    {
      match a
      case Numbers =>
        this in Repr && forall u {:trigger objs[u]} :: u in objs ==> objs[u] in Repr && objs[u].number == u
      case Domains =>
        && view.infos.Keys == objs.Keys && view.live.Keys == objs.Keys
        && view.reqIds.Keys == objs.Keys && view.rpyIds.Keys == objs.Keys
      case Infos =>
        view.infos.Keys == objs.Keys
        && forall u {:trigger view.infos[u]} :: u in objs ==> objs[u] in Repr && view.infos[u] == objs[u].info
      case Lives =>
        view.live.Keys == objs.Keys
        && forall u {:trigger view.live[u]} :: u in objs ==> objs[u] in Repr && view.live[u] == objs[u].live
      case Requests =>
        view.reqIds.Keys == objs.Keys
        && forall u {:trigger view.reqIds[u]} :: u in objs ==> objs[u] in Repr && view.reqIds[u] == objs[u].requests
      case Replies =>
        view.rpyIds.Keys == objs.Keys
        && forall u {:trigger view.rpyIds[u]} :: u in objs ==> objs[u] in Repr && view.rpyIds[u] == objs[u].replies
    }

    ghost predicate Valid()
      reads this, Repr
      ensures Valid() ==> this in Repr && view.infos.Keys == view.live.Keys == view.reqIds.Keys == view.rpyIds.Keys
    {
      assert Holds(Numbers) && Holds(Domains) ==> this in Repr;
      forall a: Aspect {:trigger Holds(a)} :: Holds(a)
    }

    /** With one task, the internal one. */
    constructor (i: Info, now: int)
      ensures Valid() && fresh(Repr)
      ensures view == View(map[0 := i], map[0 := Live(false, 0, now)], map[0 := {}], map[0 := {}])
    {
      var t := new TaskInfo(0, i, now);
      objs := map[0 := t];
      view := View(map[0 := i], map[0 := Live(false, 0, now)], map[0 := {}], map[0 := {}]);
      Repr := {this, t};
    }

    /** An object of the table is in Repr, and is what the view says. */
    lemma At(u: nat)
      requires Valid() && u in view.infos
      ensures u in objs && objs[u] in Repr && objs[u].number == u
      ensures view.infos[u] == objs[u].info && view.live[u] == objs[u].live
      ensures u in view.reqIds && view.reqIds[u] == objs[u].requests
      ensures u in view.rpyIds && view.rpyIds[u] == objs[u].replies
    {
      assert Holds(Numbers) && Holds(Domains) && Holds(Infos) && Holds(Lives) && Holds(Requests) && Holds(Replies);
    }

    /** Different tasks are different objects. */
    lemma ApartFrom(u: nat)
      requires Valid() && u in objs
      ensures forall v {:trigger objs[v]} :: v in objs && v != u ==> objs[v] != objs[u]
    {
      assert Holds(Numbers);
    }

    lemma Close()
      requires Holds(Numbers) && Holds(Domains) && Holds(Infos) && Holds(Lives) && Holds(Requests) && Holds(Replies)
      ensures Valid()
    {}

    twostate lemma SameTable()
      requires old(Holds(Numbers)) && old(Holds(Domains)) && objs == old(objs) && Repr == old(Repr)
      requires view.infos.Keys == old(view).infos.Keys && view.live.Keys == old(view).live.Keys
      requires view.reqIds.Keys == old(view).reqIds.Keys && view.rpyIds.Keys == old(view).rpyIds.Keys
      ensures Holds(Numbers) && Holds(Domains)
    {}

    /** What an operation on something else leaves as it was. */
    twostate lemma SameInfos()
      requires old(Holds(Infos)) && objs == old(objs) && Repr == old(Repr) && view.infos == old(view).infos
      requires forall v {:trigger objs[v]} :: v in objs ==> objs[v].info == old(objs[v].info)
      ensures Holds(Infos)
    {}

    twostate lemma SameLives()
      requires old(Holds(Lives)) && objs == old(objs) && Repr == old(Repr) && view.live == old(view).live
      requires forall v {:trigger objs[v]} :: v in objs ==> objs[v].live == old(objs[v].live)
      ensures Holds(Lives)
    {}

    twostate lemma SameRequests()
      requires old(Holds(Requests)) && objs == old(objs) && Repr == old(Repr) && view.reqIds == old(view).reqIds
      requires forall v {:trigger objs[v]} :: v in objs ==> objs[v].requests == old(objs[v].requests)
      ensures Holds(Requests)
    {}

    twostate lemma SameReplies()
      requires old(Holds(Replies)) && objs == old(objs) && Repr == old(Repr) && view.rpyIds == old(view).rpyIds
      requires forall v {:trigger objs[v]} :: v in objs ==> objs[v].replies == old(objs[v].replies)
      ensures Holds(Replies)
    {}

    twostate lemma NewInfo(u: nat)
      requires old(Holds(Infos)) && objs == old(objs) && Repr == old(Repr)
      requires u in objs && view.infos == old(view).infos[u := objs[u].info]
      requires forall v {:trigger objs[v]} :: v in objs && v != u ==> objs[v].info == old(objs[v].info)
      ensures Holds(Infos)
    {
      forall v | v in objs ensures objs[v] in Repr && view.infos[v] == objs[v].info {
        assert old(view).infos[v] == old(objs[v].info);
      }
    }

    twostate lemma NewLive(u: nat)
      requires old(Holds(Lives)) && objs == old(objs) && Repr == old(Repr)
      requires u in objs && view.live == old(view).live[u := objs[u].live]
      requires forall v {:trigger objs[v]} :: v in objs && v != u ==> objs[v].live == old(objs[v].live)
      ensures Holds(Lives)
    {
      forall v | v in objs ensures objs[v] in Repr && view.live[v] == objs[v].live {
        assert old(view).live[v] == old(objs[v].live);
      }
    }

    twostate lemma NewRequests(u: nat)
      requires old(Holds(Requests)) && objs == old(objs) && Repr == old(Repr)
      requires u in objs && view.reqIds == old(view).reqIds[u := objs[u].requests]
      requires forall v {:trigger objs[v]} :: v in objs && v != u ==> objs[v].requests == old(objs[v].requests)
      ensures Holds(Requests)
    {
      forall v | v in objs ensures objs[v] in Repr && view.reqIds[v] == objs[v].requests {
        assert old(view).reqIds[v] == old(objs[v].requests);
      }
    }

    twostate lemma NewReplies(u: nat)
      requires old(Holds(Replies)) && objs == old(objs) && Repr == old(Repr)
      requires u in objs && view.rpyIds == old(view).rpyIds[u := objs[u].replies]
      requires forall v {:trigger objs[v]} :: v in objs && v != u ==> objs[v].replies == old(objs[v].replies)
      ensures Holds(Replies)
    {
      forall v | v in objs ensures objs[v] in Repr && view.rpyIds[v] == objs[v].replies {
        assert old(view).rpyIds[v] == old(objs[v].replies);
      }
    }

    twostate lemma InfoChanged(u: nat)
      requires old(Valid()) && objs == old(objs) && Repr == old(Repr) && u in objs
      requires view == old(view).(infos := old(view).infos[u := objs[u].info])
      requires forall v {:trigger objs[v]} :: v in objs && v != u ==> objs[v].info == old(objs[v].info)
      requires forall v {:trigger objs[v]} :: v in objs ==> objs[v].live == old(objs[v].live)
      requires forall v {:trigger objs[v]} :: v in objs ==> objs[v].requests == old(objs[v].requests)
      requires forall v {:trigger objs[v]} :: v in objs ==> objs[v].replies == old(objs[v].replies)
      ensures Valid()
    {
      assert old(Holds(Numbers)) && old(Holds(Domains)) && old(Holds(Infos));
      assert old(Holds(Lives)) && old(Holds(Requests)) && old(Holds(Replies));
      SameTable();
      NewInfo(u);
      SameLives();
      SameRequests();
      SameReplies();
      Close();
    }

    twostate lemma LiveChanged(u: nat)
      requires old(Valid()) && objs == old(objs) && Repr == old(Repr) && u in objs
      requires view == old(view).(live := old(view).live[u := objs[u].live])
      requires forall v {:trigger objs[v]} :: v in objs && v != u ==> objs[v].live == old(objs[v].live)
      requires forall v {:trigger objs[v]} :: v in objs ==> objs[v].info == old(objs[v].info)
      requires forall v {:trigger objs[v]} :: v in objs ==> objs[v].requests == old(objs[v].requests)
      requires forall v {:trigger objs[v]} :: v in objs ==> objs[v].replies == old(objs[v].replies)
      ensures Valid()
    {
      assert old(Holds(Numbers)) && old(Holds(Domains)) && old(Holds(Infos));
      assert old(Holds(Lives)) && old(Holds(Requests)) && old(Holds(Replies));
      SameTable();
      SameInfos();
      NewLive(u);
      SameRequests();
      SameReplies();
      Close();
    }

    twostate lemma RequestsChanged(u: nat)
      requires old(Valid()) && objs == old(objs) && Repr == old(Repr) && u in objs
      requires view == old(view).(reqIds := old(view).reqIds[u := objs[u].requests])
      requires forall v {:trigger objs[v]} :: v in objs && v != u ==> objs[v].requests == old(objs[v].requests)
      requires forall v {:trigger objs[v]} :: v in objs ==> objs[v].info == old(objs[v].info)
      requires forall v {:trigger objs[v]} :: v in objs ==> objs[v].live == old(objs[v].live)
      requires forall v {:trigger objs[v]} :: v in objs ==> objs[v].replies == old(objs[v].replies)
      ensures Valid()
    {
      assert old(Holds(Numbers)) && old(Holds(Domains)) && old(Holds(Infos));
      assert old(Holds(Lives)) && old(Holds(Requests)) && old(Holds(Replies));
      SameTable();
      SameInfos();
      SameLives();
      NewRequests(u);
      SameReplies();
      Close();
    }

    twostate lemma RepliesChanged(u: nat)
      requires old(Valid()) && objs == old(objs) && Repr == old(Repr) && u in objs
      requires view == old(view).(rpyIds := old(view).rpyIds[u := objs[u].replies])
      requires forall v {:trigger objs[v]} :: v in objs && v != u ==> objs[v].replies == old(objs[v].replies)
      requires forall v {:trigger objs[v]} :: v in objs ==> objs[v].info == old(objs[v].info)
      requires forall v {:trigger objs[v]} :: v in objs ==> objs[v].live == old(objs[v].live)
      requires forall v {:trigger objs[v]} :: v in objs ==> objs[v].requests == old(objs[v].requests)
      ensures Valid()
    {
      assert old(Holds(Numbers)) && old(Holds(Domains)) && old(Holds(Infos));
      assert old(Holds(Lives)) && old(Holds(Requests)) && old(Holds(Replies));
      SameTable();
      SameInfos();
      SameLives();
      SameRequests();
      NewReplies(u);
      Close();
    }

    twostate lemma KeptValid(new t: TaskInfo)
      requires old(Valid()) && t.number !in old(view).infos && t.requests == {} && t.replies == {}
      requires objs == old(objs)[t.number := t] && Repr == old(Repr) + {t}
      requires view == View(old(view).infos[t.number := t.info], old(view).live[t.number := t.live],
                            old(view).reqIds[t.number := {}], old(view).rpyIds[t.number := {}])
      requires forall v {:trigger old(objs)[v]} :: v in old(objs) ==> unchanged(old(objs)[v])
      ensures Valid()
    {
      KeptTable(t);
      KeptStates(t);
      KeptIds(t);
      Close();
    }

    twostate lemma KeptTable(new t: TaskInfo)
      requires old(Valid()) && objs == old(objs)[t.number := t] && Repr == old(Repr) + {t}
      requires view.infos.Keys == old(view).infos.Keys + {t.number}
               && view.live.Keys == old(view).live.Keys + {t.number}
      requires view.reqIds.Keys == old(view).reqIds.Keys + {t.number}
      requires view.rpyIds.Keys == old(view).rpyIds.Keys + {t.number}
      ensures Holds(Numbers) && Holds(Domains)
    {
      assert old(Holds(Numbers)) && old(Holds(Domains));
    }

    twostate lemma KeptStates(new t: TaskInfo)
      requires old(Valid()) && objs == old(objs)[t.number := t] && Repr == old(Repr) + {t}
      requires view.infos == old(view).infos[t.number := t.info] && view.live == old(view).live[t.number := t.live]
      requires forall v {:trigger old(objs)[v]} :: v in old(objs) ==> unchanged(old(objs)[v])
      ensures Holds(Infos) && Holds(Lives)
    {
      assert old(Holds(Infos)) && old(Holds(Lives));
    }

    twostate lemma KeptIds(new t: TaskInfo)
      requires old(Valid()) && objs == old(objs)[t.number := t] && Repr == old(Repr) + {t}
      requires t.requests == {} && t.replies == {}
      requires view.reqIds == old(view).reqIds[t.number := {}] && view.rpyIds == old(view).rpyIds[t.number := {}]
      requires forall v {:trigger old(objs)[v]} :: v in old(objs) ==> unchanged(old(objs)[v])
      ensures Holds(Requests) && Holds(Replies)
    {
      assert old(Holds(Requests)) && old(Holds(Replies));
    }

    method Keep(u: nat, t: TaskInfo)
      requires Valid() && u !in view.infos && t.number == u && t.requests == {} && t.replies == {}
      modifies this
      ensures Valid() && Repr == old(Repr) + {t}
      ensures view == View(old(view).infos[u := t.info], old(view).live[u := t.live],
                           old(view).reqIds[u := {}], old(view).rpyIds[u := {}])
    {
      assert Holds(Numbers) && Holds(Domains);
      objs, Repr := objs[u := t], Repr + {t};
      view := View(view.infos[u := t.info], view.live[u := t.live], view.reqIds[u := {}], view.rpyIds[u := {}]);
      KeptValid(t);
    }

    /** new TaskInfo */
    method Add(u: nat, i: Info, now: int)
      requires Valid() && u !in view.infos
      modifies this
      ensures Valid() && fresh(Repr - old(Repr))
      ensures view == View(old(view).infos[u := i], old(view).live[u := Live(false, 0, now)],
                           old(view).reqIds[u := {}], old(view).rpyIds[u := {}])
    {
      var t := new TaskInfo(u, i, now);
      Keep(u, t);
    }

    twostate lemma DeletedTable(u: nat)
      requires old(Valid()) && objs == old(objs) - {u} && Repr == old(Repr)
      requires view == View(old(view).infos - {u}, old(view).live - {u}, old(view).reqIds - {u}, old(view).rpyIds - {u})
      ensures Holds(Numbers) && Holds(Domains)
    {
      assert old(Holds(Numbers)) && old(Holds(Domains));
    }

    twostate lemma DeletedStates(u: nat)
      requires old(Valid()) && objs == old(objs) - {u} && Repr == old(Repr)
      requires view.infos == old(view).infos - {u} && view.live == old(view).live - {u}
      requires forall v {:trigger old(objs)[v]} :: v in old(objs) ==> unchanged(old(objs)[v])
      ensures Holds(Infos) && Holds(Lives)
    {
      assert old(Holds(Infos)) && old(Holds(Lives));
    }

    twostate lemma DeletedIds(u: nat)
      requires old(Valid()) && objs == old(objs) - {u} && Repr == old(Repr)
      requires view.reqIds == old(view).reqIds - {u} && view.rpyIds == old(view).rpyIds - {u}
      requires forall v {:trigger old(objs)[v]} :: v in old(objs) ==> unchanged(old(objs)[v])
      ensures Holds(Requests) && Holds(Replies)
    {
      assert old(Holds(Requests)) && old(Holds(Replies));
    }

    /** delete */
    method Delete(u: nat)
      requires Valid()
      modifies this
      ensures Valid() && Repr == old(Repr)
      ensures view == View(old(view).infos - {u}, old(view).live - {u}, old(view).reqIds - {u}, old(view).rpyIds - {u})
    {
      objs := objs - {u};
      view := View(view.infos - {u}, view.live - {u}, view.reqIds - {u}, view.rpyIds - {u});
      DeletedTable(u);
      DeletedStates(u);
      DeletedIds(u);
      Close();
    }

    method AddRequest(u: nat, id: nat) returns (added: bool)
      requires Valid() && u in view.infos
      modifies Repr
      ensures Valid() && Repr == old(Repr) && added == (id !in IdsOf(old(view).reqIds, u))
      ensures view == old(view).(reqIds := Plus(old(view).reqIds, u, id))
    {
      At(u);
      ApartFrom(u);
      added := objs[u].AddRequest(id);
      view := view.(reqIds := Plus(view.reqIds, u, id));
      RequestsChanged(u);
    }

    method RemoveRequest(u: nat, id: nat) returns (removed: bool)
      requires Valid() && u in view.infos
      modifies Repr
      ensures Valid() && Repr == old(Repr) && removed == (id in IdsOf(old(view).reqIds, u))
      ensures view == old(view).(reqIds := Minus(old(view).reqIds, u, id))
    {
      At(u);
      ApartFrom(u);
      removed := objs[u].RemoveRequest(id);
      view := view.(reqIds := Minus(view.reqIds, u, id));
      RequestsChanged(u);
    }

    method AddReply(u: nat, id: nat) returns (added: bool)
      requires Valid() && u in view.infos
      modifies Repr
      ensures Valid() && Repr == old(Repr) && added == (id !in IdsOf(old(view).rpyIds, u))
      ensures view == old(view).(rpyIds := Plus(old(view).rpyIds, u, id))
    {
      At(u);
      ApartFrom(u);
      added := objs[u].AddReply(id);
      view := view.(rpyIds := Plus(view.rpyIds, u, id));
      RepliesChanged(u);
    }

    method RemoveReply(u: nat, id: nat) returns (removed: bool)
      requires Valid() && u in view.infos
      modifies Repr
      ensures Valid() && Repr == old(Repr) && removed == (id in IdsOf(old(view).rpyIds, u))
      ensures view == old(view).(rpyIds := Minus(old(view).rpyIds, u, id))
    {
      At(u);
      ApartFrom(u);
      removed := objs[u].RemoveReply(id);
      view := view.(rpyIds := Minus(view.rpyIds, u, id));
      RepliesChanged(u);
    }

    /** *task->requests.begin(): the lowest id of a set that is not empty. */
    method FirstRequest(u: nat) returns (r: Option<nat>)
      requires Valid() && u in view.infos
      ensures r == if IdsOf(view.reqIds, u) == {} then None else Some(Min(IdsOf(view.reqIds, u)))
    {
      At(u);
      var ids := objs[u].requests;
      r := if ids == {} then None else Some(Min(ids));
    }

    method FirstReply(u: nat) returns (r: Option<nat>)
      requires Valid() && u in view.infos
      ensures r == if IdsOf(view.rpyIds, u) == {} then None else Some(Min(IdsOf(view.rpyIds, u)))
    {
      At(u);
      var ids := objs[u].replies;
      r := if ids == {} then None else Some(Min(ids));
    }

    method UpdateLive(u: nat, l: Live)
      requires Valid() && u in view.infos
      modifies Repr
      ensures Valid() && Repr == old(Repr) && view == old(view).(live := old(view).live[u := l])
    {
      At(u);
      ApartFrom(u);
      objs[u].SetLive(l);
      view := view.(live := view.live[u := l]);
      LiveChanged(u);
    }

    method DecrementPendingRequests(u: nat) returns (ok: bool)
      requires Valid() && u in view.infos
      modifies Repr
      ensures Valid() && Repr == old(Repr) && ok == (old(view).live[u].pending > 0)
      ensures var l := old(view).live;
              view == if ok then old(view).(live := l[u := l[u].(pending := l[u].pending - 1)])
                      else old(view)
    {
      var l := LiveOfTask(u);
      ok := l.pending > 0;
      if ok { UpdateLive(u, l.(pending := l.pending - 1)); }
    }

    method TestPendingRequestsAndIncrement(u: nat)
      requires Valid() && u in view.infos
      modifies Repr
      ensures Valid() && Repr == old(Repr)
      ensures var l := old(view).live;
              view == if l[u].pending < 256 && !old(view).infos[u].kind.Internal?
                      then old(view).(live := l[u := l[u].(pending := l[u].pending + 1)])
                      else old(view)
    {
      var l := LiveOfTask(u);
      var i := InfoOfTask(u);
      if l.pending < 256 {
        if !i.kind.Internal? { UpdateLive(u, l.(pending := l.pending + 1)); }
      }
    }

    method SetReceiving(u: nat, on: bool)
      requires Valid() && u in view.infos
      modifies Repr
      ensures Valid() && Repr == old(Repr)
      ensures view == old(view).(live := old(view).live[u := old(view).live[u].(receiving := on)])
    {
      var l := LiveOfTask(u);
      UpdateLive(u, l.(receiving := on));
    }

    /** commandReceived */
    method CommandReceived(u: nat, now: int)
      requires Valid() && u in view.infos
      modifies Repr
      ensures Valid() && Repr == old(Repr)
      ensures view == old(view).(live := old(view).live[u := old(view).live[u].(lastCommand := now)])
    {
      var l := LiveOfTask(u);
      UpdateLive(u, l.(lastCommand := now));
    }

    method UpdateInfo(u: nat, i: Info)
      requires Valid() && u in view.infos
      modifies Repr
      ensures Valid() && Repr == old(Repr) && view == old(view).(infos := old(view).infos[u := i])
    {
      At(u);
      ApartFrom(u);
      objs[u].SetInfo(i);
      view := view.(infos := view.infos[u := i]);
      InfoChanged(u);
    }

    method SetHandle(u: nat, handle: nat)
      requires Valid() && u in view.infos
      modifies Repr
      ensures Valid() && Repr == old(Repr)
      ensures view == old(view).(infos := old(view).infos[u := old(view).infos[u].(handle := handle)])
    {
      var i := InfoOfTask(u);
      UpdateInfo(u, i.(handle := handle));
    }

    method Knows(u: nat) returns (yes: bool)
      requires Valid()
      ensures yes == (u in view.infos)
    {
      assert Holds(Domains);
      yes := u in objs;
    }

    method InfoOfTask(u: nat) returns (i: Info)
      requires Valid() && u in view.infos
      ensures i == view.infos[u]
    {
      At(u);
      i := objs[u].info;
    }

    method LiveOfTask(u: nat) returns (l: Live)
      requires Valid() && u in view.infos
      ensures l == view.live[u]
    {
      At(u);
      l := objs[u].live;
    }
  }
}
