# The ACNET daemon, modelled and verified

`acnetd` passes messages between client programs and between machines. This project models what a
running daemon keeps and does, and proves what holds in every state it can reach.

* **Slots.** A pool of request slots and a pool of reply slots, each made of a ring-buffer free list with
  banked 16-bit ids (`IdPool.dfy`), an intrusive circular timer list (`Timers.dfy`) and an array
  (`SlotPool.dfy`); the task objects with their id sets (`Tasks.dfy`); and all of it together in one class
  with the handlers (`TaskPool.dfy`).
* **The state machine.** `State.dfy` says what every packet, command and time-out does, as functions on a
  value. Every method of the class `TaskPool` is proved to do to the objects what the function does to the
  value, so what is proved of runs of the state machine holds of the objects.
* **What is proved of it.** `Registry.dfy`, `Invariant.dfy` and `History.dfy` say what the structures have
  to do with each other and with the packets that were sent; `Preservation.dfy`, `Removal.dfy`,
  `Handlers.dfy` and `Steps.dfy` prove that every step keeps it; `Guarantees.dfy` says what follows for every
  run, `Protocol.dfy` what a single reply or CANCEL does and how two daemons agree on it, `Notices.dfy` who
  is told of a removal or a failed request, `Repliers.dfy` who may owe a reply, `Continuity.dfy` and
  `Pairs.dfy` what a slot keeps while the daemon runs on, and so what two daemons keep in step;
  `Deliveries.dfy` and `Links.dfy` what reaches a client over a link between two daemons, and
  `Witnesses.dfy` runs that lead to the exceptions below.
* **What each operation comes to**, in terms of what it was given, field by field and in numbers: a request
  and its end (`Outcomes.dfy`), a request or CANCEL that arrives (`Arrivals.dfy`), a reply from the client
  that gives it to the client that is handed it (`Exchanges.dfy`), time-outs, not early and once
  (`Expiry.dfy`), connecting, renaming, acknowledging and disconnecting (`Clients.dfy`), the check for dead
  tasks (`Inactive.dfy`), the end of the daemon (`Shutdown.dfy`), and the node a packet goes to
  (`Routes.dfy`).
* **The network.** Packets as bytes and the splitting of datagrams (`Wire.dfy`), the queue that puts
  messages into datagrams (`Network.dfy` as a specification, `Outgoing.dfy` as objects), the send queue of a
  TCP client (`Tcp.dfy`), and RAD50 names (`Rad50.dfy`).

What a daemon cannot know is a parameter: the time is set by a step of its own and stays fixed within a
handler; the answers of sockets and of `kill()` are a set of numbers, those of the questions answered yes,
and every statement is for all such sets. A client without a pid counts as alive for 30 seconds after its
last command, as in the program. What the internal task replies is arbitrary too: a status and a length for
each request. The node table is fixed during a run. A client's pid differs from the daemon's own. Assertions
of the program appear as preconditions that every caller meets.

The fields `serial` and `born` number the allocations and `log` lists the packets that left; no handler
reads them. `ended` tells, for a key with which a reply ended, how many replies had been allocated by then:
a reply allocated before that is hidden from activeMap.

## What the program does otherwise than it says, or than one might expect

* The comment on the second table of `handleAcnetReply` (main.cpp:569-580) promises that the header of a
  reply with the MLT flag to a one-shot request is fixed before the client sees it. It is not
  (`Protocol.OneShotHeaderIsNotFixed`, `Witnesses.SomeHeaderIsNotFixed`). The model follows the code.
* If a client goes away just before it is given a request, the request is answered twice (main.cpp:504-519):
  with ACNET_DISCONNECTED, which is what the requester's client sees, and with ACNET_BUSY, which no one sees
  (`Notices.BusyIsAnsweredTwice`, `Protocol.BusyIsNotSeen`).
* Nothing in a reply tells which allocation of a request's id it is for (main.cpp:615-622), so a late one may be
  taken for a reply to a later request (`Links.LateReply`).
* `ReplyPool::release` erases every entry of a key (rpyinfo.cpp:183), so the loop of `handleAcnetCancel` ends
  one reply only, and a second reply with the same key can no longer be cancelled
  (`Protocol.CancelEndsOneReply`, `Protocol.RepeatedRequestOutlivesCancel`, `Witnesses.SomeReplyIsHidden`).
* A reply that is not marked as the last but has a fatal status or ENDMULT ends the request and not the reply
  slot; a last reply with status ACNET_PEND ends the reply slot and not the request
  (`Protocol.ClosingAgreement`). In the first case the next reply that is not the last is answered with a
  CANCEL, which ends the reply exactly if the reply is the first of its key (`Protocol.HalfOpenHeals`).
* A request that cannot be delivered for want of a reply slot is discounted even if it was not counted because
  the client had 256 pending already (main.cpp:482-511): the count is one too low then
  (`Arrivals.RequestMeetsFullPool`).
* `removeAllTasks` leaves the internal task listed as ACNAUX (`Removal.RemoveAllLeavesAlias`).

## Model

| member | source | states |
|---|---|---|
| `Guarantees.OneShotGetsOneReply` | main.cpp:606-695 | Over any run, a one-shot request gets at most one reply packet per allocation of its id, from wherever (real reply, ACNET_TMO, ACNET_DISCONNECTED), and once it got it no slot holds that allocation any more. |
| `Guarantees.EmrIsLast` | main.cpp:638-678 | Over any run, a delivered end-of-multiple-reply of a unicast multiple-reply request is the last packet handed over for that allocation, and the slot no longer holds it. |
| `Guarantees.OpenRequestsAreUnanswered` | main.cpp:654-678 | Whatever the log holds for a request still open: it asks for multiple replies, the packets describe it correctly, and if unicast none that reached the client was an end of multiple reply; so an open one-shot request has been handed nothing. |
| `Guarantees.LastReplyIsLast` | rpyinfo.cpp:76-95 | Over any run, after a reply for a slot whose header lacks the MLT flag (and is not ACNET_PEND) no reply is sent for that allocation of the slot, and the slot no longer holds it. Error replies that handleAcnetRequest sends belong to no slot (see Notices.BusyIsAnsweredTwice). |
| `Guarantees.TasksKnowTheirSlots` | server.h:1290-1295 | In every reachable state an id is in a registered task's request (reply) set exactly if it names a slot in use that the task owns. |
| `Guarantees.TimersHoldTheSlots` | timesensitive.cpp:12-30 | In every reachable state the request timer list holds exactly the requests in use, the reply timer list exactly the unicast replies in use, each once and in the order they are due. |
| `Guarantees.SlotsHaveLiveOwners` | rpyinfo.cpp:172-187 | In every reachable state a slot in use belongs to a registered task and is not in the free list. |
| `Guarantees.NewIdsAreNew` | reqinfo.cpp:30-39 | In every reachable state the id of the next free slot is in no registered task's set: the duplicate path of addRequest and addReply is unreachable. |
| `Guarantees.FoundIsInUse` | rpyinfo.cpp:194-199 | What activeMap finds for a key is a reply in use with that key; never a freed slot. |
| `Guarantees.FoundIsFirst` | rpyinfo.cpp:194-199 | What activeMap finds for a key is the oldest reply in use with that key that no end of another reply with the key has hidden. |
| `Guarantees.RepliesAreFound` | rpyinfo.cpp:126 | A reply in use is found by its key if and only if it is the first of its key: no reply with the key ended since its allocation, and no older one with the key that is not hidden itself is in use. |
| `Guarantees.ActiveMapAgrees` | rpyinfo.cpp:126 | In every reachable state, for all keys and replies: what is found is in use and has the key, and a reply in use is found exactly if it is the first of its key. |
| `Guarantees.ReleaseHides` | rpyinfo.cpp:183 | Releasing one reply takes another one's entry out of activeMap if and only if the two have the same key. |
| `Guarantees.RegistryAgrees` | taskpool.cpp:20-30 | In every reachable state `active` lists exactly the registered tasks under their handles plus the internal task as ACNAUX, nothing twice; and every entry of `tasks_` is a task with that id. |
| `Guarantees.NamesIdentify` | taskpool.cpp:182-207 | In every reachable state two registered tasks share a handle only if it is a multicast handle, and then clients differ in their command ports. |
| `Guarantees.RemovalFindsTheTask` | taskpool.cpp:446-455 | In every reachable state the equals() search for a registered task finds that task's own entry: the abort is unreachable. |
| `Guarantees.RunAges` | taskpool.cpp:438-469 | Over any continuation of a run no unregistered object is registered again and no deleted object comes back. |
| `Guarantees.ObjectsAreInOnePlace` | taskpool.cpp:54-59 | In every reachable state a task object is either registered or waits in `removed`, never both and never twice there; one that waits owns no slots. |
| `Guarantees.ObjectsDoNotComeBack` | taskpool.cpp:54-59 | Whatever happens later, a removed object stays removed until it is deleted and a deleted one is in no table again: each is deleted once. |
| `Protocol.ReplyFollowsTables` | main.cpp:541-604 | For all 16 cases of the four inputs, handleAcnetReply frees the slot, passes the packet on and sends a CANCEL exactly as the Karnaugh maps in the comment are marked. |
| `Protocol.ClientSees` | main.cpp:643-664 | What is changed in a header on its way to the client: table 3 for multicast requests; a unicast end of multiple reply always loses MLT and never says success; nothing else changes. |
| `Protocol.OneShotHeaderIsNotFixed` | main.cpp:569-580 | The comment promises a fixed header when a one-shot request gets a reply with MLT. For every such request and packet the client is handed the header as it came, MLT included, and a CANCEL to the node follows unless the packet is an end of multiple reply. |
| `Protocol.PendIsNotDelivered` | main.cpp:632-638 | An ACNET_PEND from the network reaches no client and only renews the request's time-out. |
| `Protocol.TimeoutsEndOneShots` | reqinfo.cpp:144-168 | A local time-out ends a one-shot request with ACNET_TMO and a CANCEL; a multiple-reply request only gets a non-EMR ACNET_PEND and stays open with a new time-out; if the owner does not answer, its task is removed after that, the request with it, and everyone it had to do with is told. |
| `Protocol.RequestMakesPair` | exttask.cpp:241-258 | The packet that sending a request leaves, handled by handleAcnetRequest of another daemon where one client has the handle, is there and takes requests, leaves a request slot and a reply slot that correspond in node, task, id and MLT. |
| `Protocol.SlotFreedByLastHeader` | rpyinfo.cpp:76-95 | sendReplyToNetwork sends exactly one packet and frees the slot if and only if the header it sent lacks the MLT flag; otherwise only the acknowledgement mark changes. |
| `Protocol.UnicastReplyCloses` | main.cpp:638-678 | When exactly a reply ends a unicast request, and that no CANCEL follows a proper end. |
| `Protocol.BusyIsNotSeen` | main.cpp:638-693 | At the requester of a unicast request the first of those two ends it: its client sees ACNET_DISCONNECTED; ACNET_BUSY reaches no client and is answered with a CANCEL. |
| `Protocol.ClosingAgreement` | main.cpp:638-678 | Two daemons: after one reply the responder's slot and the requester's slot are both over or both open if and only if the status is not ACNET_PEND on a last reply and neither ENDMULT nor fatal on another; when both are over no CANCEL was sent; the two ways to disagree are characterised. |
| `Protocol.HalfOpenHeals` | main.cpp:682-693 | If the request is gone and the reply slot is not, the next reply is answered with a CANCEL; handled in the state after that reply was sent, the CANCEL leaves the slot free if and only if the reply was a last one or is the first of its key. |
| `Protocol.CancelEndsFirst` | main.cpp:359-428 | A CANCEL that names a reply in every respect ends it if and only if the reply is the first of its key. |
| `Protocol.CancelFrees` | main.cpp:359-428 | A CANCEL that names a reply found by its key frees it; if its client answers, nothing else of the reply pool changes. |
| `Protocol.CancelErasesKey` | main.cpp:365-427 | After handleAcnetCancel ended a reply the key is no longer in activeMap, so its loop has no second round. |
| `Protocol.CancelEndsOneReply` | main.cpp:365-427 | A CANCEL ends exactly one reply; no reply with the key is left if and only if no other had it. |
| `Protocol.RepeatedRequestOutlivesCancel` | rpyinfo.cpp:172-187 | From every reachable state in which the key is free: the steps Requested(h), Requested(h), Cancelled(g) leave a reply in use that is hidden, and one more CANCEL changes nothing. |
| `Notices.RemovalCancelsRequests` | taskpool.cpp:459-460 | When a task is removed, for each of its requests a CANCEL that names the request leaves for the node it was sent to. |
| `Notices.RemoveTaskTells` | taskpool.cpp:471-488 | removeTask, of one task or of all with its pid: for every request gone its CANCEL left, for every reply gone the requester got ACNET_DISCONNECTED and the task a CANCEL. |
| `Notices.RemoveInactiveTells` | taskpool.cpp:46-60 | The same of removeInactiveTasks, whichever tasks it finds dead. |
| `Notices.RemovalEndsReplies` | taskpool.cpp:461-462 | When a task is removed with an error, for each of its replies the requester gets that status in a last reply (a multicast request for multiple replies excepted), and a CANCEL with the reply's id is handed to the task. |
| `Notices.DrainReqsTells` | taskpool.cpp:459-460 | The loop over the request set leaves out none: each request of the task is cancelled at its node. |
| `Notices.DrainRpysTells` | taskpool.cpp:461-462 | The loop over the reply set likewise, also when a client blocks requests (lcltask.cpp:23-24). |
| `Notices.CancelReqIdTells` | reqinfo.cpp:97-138 | cancelReqId sends the CANCEL with the request's node, name, task id and id. |
| `Notices.EndRpyIdTells` | rpyinfo.cpp:240-302 | endRpyId with an error tells both sides. |
| `Notices.RequestIsDelivered` | main.cpp:430-539 | A request to a handle with one task, a client that is there, accepts requests and has a slot to be had: the client is handed the request with the id of a new reply slot, filled from the header; nothing else leaves and no other slot changes. |
| `Notices.InternalTaskAnswers` | inttask.cpp:16-36 | A request to the internal task is handed over and answered in the same step with one last reply, and no slot stays in use. |
| `Notices.RequestIsRefused` | main.cpp:430-539 | A unicast request to a handle with one live task that does not take it: the last thing its sender is sent is the matching error (ACNET_NCR, ACNET_NOREMMEM, ACNET_BUSY), and no reply slot is left behind. |
| `Notices.BusyIsAnsweredTwice` | main.cpp:498-519 | If the client goes away between being found alive and being given the request, the sender is sent two last replies: ACNET_DISCONNECTED for the slot, then ACNET_BUSY; the exact packets and their order. |
| `Notices.AnsweredOnce` | main.cpp:457-528 | With one live task under the handle, how many last replies a unicast request gets from handleAcnetRequest: at most one if and only if the client did not go away in between. |
| `Notices.EveryRefusalAnswers` | main.cpp:457-528 | With several tasks under the handle, the last replies sent for a unicast request add up over the tasks: one for each live one that refuses it, two for each that goes away in between. |
| `Notices.RequestWithoutTask` | main.cpp:430-456 | A unicast request to a handle without a task, or with one that is dead, is answered with ACNET_NOTASK; the dead task is removed and everyone it had to do with is told. |
| `Notices.NoRequestIsLost` | main.cpp:430-539 | Whatever tasks a handle has, alive, dead or refusing: a unicast request is handed to one of them or its sender is sent an error. |
| `Repliers.CancelledTaskAccepts` | main.cpp:400 | In every reachable state the task of the reply that a CANCEL finds accepts requests: the assertion holds. |
| `Repliers.RepliersAccept` | main.cpp:400 | In every reachable state whoever owes a reply accepts requests. |
| `Repliers.RunGoes` | main.cpp:400 | Over every run: if those who owed a reply accepted requests, those who owe one do, and what a slot's allocation holds stays. |
| `Repliers.StepGoes` | main.cpp:796-884 | Every step keeps both. |
| `Repliers.DeliverCountedGoes` | main.cpp:477-515 | A request delivered makes only a task that accepts requests owe a reply, also when the delivery fails. |
| `Repliers.BlockGoes` | lcltask.cpp:19-29 | Blocking requests keeps both: whoever still owes a reply accepts requests, and held allocations hold what they held. |
| `Repliers.RenameFollows` | taskpool.cpp:334-367 | A rename changes no one's readiness and gives no one a reply to send. |
| `Repliers.PurgeGoes` | taskpool.cpp:54-59 | Deleting the removed objects takes away no task that owes a reply. |
| `Pairs.PairStays` | main.cpp:606-695 | A reply slot and a request slot of two daemons that correspond go on corresponding over any run of either, as long as both hold the same allocations. |
| `Pairs.AgreementOverRuns` | main.cpp:638-678 | So the closing agreement holds at any later time: after both daemons ran on, a reply sent and received leaves both slots over or both open exactly if it is agreeable. |
| `Pairs.HiddenForever` | rpyinfo.cpp:183 | Over any run a reply whose entry was erased with another one's key is found by no key again: no later CANCEL ends it. |
| `Pairs.RpyStays` | rpyinfo.cpp:98-170 | What an allocation of a reply slot holds changes over no run, but for the acknowledgement, and an entry lost in activeMap does not come back. |
| `Pairs.ReqStays` | reqinfo.cpp:7-42 | What an allocation of a request slot holds changes over no run, nor does its owner's task id. |
| `Links.RepliesInOrder` | main.cpp:606-695 | Two daemons and a link that carries the packets of the first in order. Whatever happens to both, as long as a unicast request is open its client has been handed exactly the replies meant for it that left the link, each once and in order, but for ACNET_PENDs. |
| `Links.PairInOrder` | main.cpp:606-695 | For a pair of slots whose key no other request repeats: what the client has been handed is exactly what was sent for that allocation of the reply slot and has left the link, in order. |
| `Links.ClosingArrives` | main.cpp:638-678 | The reply that ends the request is the last the client is handed, and the slot is free. |
| `Links.LateReply` | main.cpp:615-636 | A reply to an earlier allocation of a request's slot is taken for a reply to the later one if and only if node, task name and task id are the same; otherwise it is answered with a CANCEL. |
| `Exchanges.ReplySends` | rpyinfo.cpp:13-95 | A client replies to one of its requests: exactly one packet leaves; its status is the one given, or ENDMULT (513) exactly if a multiple reply is ended with success; its flags are 4 for a last reply and 5 for another; its length is 18 and the data padded to an even count; its addresses are the slot's. The last reply frees the slot, another marks it acknowledged and sets the next ACNET_PEND five seconds off. |
| `Exchanges.NoReplyIsSent` | rpyinfo.cpp:76-95 | An id that is no reply of the client's sends nothing and changes nothing. |
| `Exchanges.WhoGetsReply` | main.cpp:606-695 | A reply that is no ACNET_PEND, with the id of an open request: its client is handed it if and only if task name and task id are the request's and, unless the request was multicast, the node is the request's; the status and flags the client sees, the CANCEL that follows and when the slot is freed, all in numbers. Otherwise exactly one CANCEL to the replying node. |
| `Exchanges.PendRenews` | main.cpp:632-638 | An ACNET_PEND for an open request hands over nothing and renews the time-out by what the request was given. |
| `Exchanges.EveryReplyRenews` | main.cpp:622-632 | So does every reply after which the request is still open. |
| `Exchanges.NoOneGetsReply` | main.cpp:682-693 | A reply to an id that is not in use leaves one CANCEL, with the reply's own addresses. |
| `Exchanges.RequestLinksSlots` | exttask.cpp:241-258 | The packet that sending a request leaves, handled where a client takes it, leaves two slots that stand for each other, unicast or multicast; for a multicast request the reply slot has the responder's own node. |
| `Exchanges.GivenIsSeen` | main.cpp:606-695 | Two daemons, unicast or multicast: of the packet that a reply leaves, the requester's client is handed the status that was given, but for 513 instead of 0 at a unicast end of multiple reply and 0 instead of 513 for a multicast request; the flags and the length of the data in numbers; from whatever node the responder has. |
| `Exchanges.StandsOverRuns` | main.cpp:606-695 | Two slots that stand for each other go on doing so over any runs of both daemons while both allocations are held; so the above holds at any later time. |
| `Expiry.RequestHasItsTime` | reqinfo.cpp:7-42 | A request sent with a time-out: at any time before it is over (400 ms for less, 390 s for more) the time-out loop hands its client nothing. |
| `Expiry.TimeoutsNotEarly` | reqinfo.cpp:140-174 | The time-out loop hands nothing to the client of a request that is not due. |
| `Expiry.TimeoutsComeOnce` | reqinfo.cpp:140-174 | Every request that is due is timed out by the loop exactly once, with ACNET_TMO or ACNET_PEND and the request's own addresses, or its client is removed in the course of the loop. |
| `Expiry.PendsNotEarly` | rpyinfo.cpp:304-317 | The ACNET_PEND loop sends nothing for a reply that is not due or is multicast. |
| `Expiry.PendsComeOnce` | rpyinfo.cpp:304-317 | For every unicast reply that is due it sends exactly one ACNET_PEND to the requester. |
| `Expiry.RemoveTaskFarewell` | taskpool.cpp:438-488 | removeTask sends nothing but CANCELs for requests, ACNET_DISCONNECTED to requesters and CANCELs to its clients; it hands no one a reply. |
| `Expiry.ReplyMeetsTheGone` | main.cpp:622-632 | A reply whose client does not answer is handed to no one; the client is removed, and the request with it. |
| `Inactive.InactiveGo` | taskpool.cpp:46-60 | removeInactiveTasks: a task stays registered if and only if neither it nor another task of its non-zero pid was found dead. |
| `Inactive.DeadAreSilent` | exttask.cpp:101-116 | Who is found dead is a client; one without a pid only if its last command is thirty seconds old. |
| `Inactive.NobodyAnswers` | taskpool.cpp:46-60 | If no question is answered, those left are exactly the internal task and the clients without a pid that sent a command in the last thirty seconds. |
| `Inactive.EveryoneAnswers` | taskpool.cpp:46-60 | If every question is answered, everyone stays, with all slots, and nothing is sent. |
| `Outcomes.RequestOpens` | exttask.cpp:241-258 | A request: the slot's contents, when it is due (the time-out asked for, at least 400 ms and at most 390 s) and the packet that leaves, field by field. |
| `Outcomes.NoSlotNoRequest` | exttask.cpp:259-262 | Without a free slot nothing is sent and nothing changes. |
| `Outcomes.CancelIsSent` | exttask.cpp:331-348 | A client's cancel of its own request frees the slot and sends the node one CANCEL, field by field; of another's, nothing happens. |
| `Outcomes.TimeOutSays` | reqinfo.cpp:144-168 | What a time-out hands to the client and sends to the node, field by field. |
| `Outcomes.NodeGoneEndsRequest` | reqinfo.cpp:62-95 | When a node goes, the request to it in the lowest slot ends, and its client is handed ACNET_DISCONNECTED. |
| `Outcomes.NodeGoneEndsReply` | rpyinfo.cpp:201-238 | The reply to it in the lowest slot ends, and its client is given a CANCEL. |
| `Outcomes.NodeGoneEndsBoth` | ipaddr.cpp:444-445 | The two together, as the daemon makes them: one request and one reply end. |
| `Outcomes.NoRequestToNode` | reqinfo.cpp:62-95 | Without a request to the node nothing happens. |
| `Outcomes.NoReplyToNode` | rpyinfo.cpp:201-238 | Nor without a reply to it. |
| `Outcomes.StatusNumbers` | global.cpp:3-24 | The status codes as numbers. |
| `Arrivals.RequestFillsSlot` | main.cpp:457-505 | A request to a client that listens: the packet it is given, every field of the new reply slot, its ACNET_PEND in five seconds unless it is multicast, and one more request pending up to 256. |
| `Arrivals.RequestMeetsNoTaker` | main.cpp:512-516 | A client that does not listen or is in a multicast group: ACNET_NCR and nothing else. |
| `Arrivals.RequestMeetsFullPool` | main.cpp:482-511 | Without a free reply slot: ACNET_NOREMMEM; the request is discounted even if it was not counted because 256 were pending. |
| `Arrivals.RequestMeetsNobody` | main.cpp:445-449 | Without a task of that name: ACNET_NOTASK, or nothing if the request was multicast. |
| `Arrivals.RequestMeetsTheGone` | main.cpp:498-519 | A client that goes away in between: the four packets, field by field. |
| `Arrivals.InternalAnswerSays` | inttask.cpp:16-36 | The packet with which the internal task answers at once. |
| `Arrivals.NoTaskIfNoneAlive` | main.cpp:527-539 | A unicast request to a handle with tasks is answered with ACNET_NOTASK if and only if none of them is found alive; beside that there are only the packets of the deliveries and of the removal of a dead task. |
| `Arrivals.LastDeadGoes` | main.cpp:518-539 | Of several tasks of a handle found dead in one request, the last one is removed. |
| `Arrivals.MulticastIsNotRefused` | main.cpp:436-449 | Whatever tasks a handle has, a multicast request is answered with no error packet of handleAcnetRequest. |
| `Arrivals.CancelEnds` | main.cpp:359-428 | A CANCEL that names the reply found for its key: the slot is freed, its client is given the CANCEL with the slot's id, and an unacknowledged request is no longer pending. |
| `Arrivals.CancelMeetsTheGone` | main.cpp:405-425 | If the client does not answer, it is removed too. |
| `Arrivals.CancelIsIgnored` | main.cpp:365-400 | A CANCEL that finds or names no reply changes nothing. |
| `Arrivals.EndSays` | rpyinfo.cpp:240-302 | The two packets that an end with an error leaves, field by field, and when they are left out. |
| `Clients.ReconnectKeepsId` | taskpool.cpp:182-185 | A client that is connected already gets the id it has, and nothing changes. |
| `Clients.WhoIsTurnedAway` | taskpool.cpp:187-207 | Without a free id in its range ACNET_NLM, with the name of another task ACNET_NAME_IN_USE, with a group that cannot be joined ACNET_NLM. |
| `Clients.WhoIsLetIn` | taskpool.cpp:187-212 | Everyone else is let in, with the lowest free id of its range: the new object, its entries in both tables, and nothing else. |
| `Clients.ConnectFirst` | taskpool.cpp:164-177 | Without a data port ACNET_INVARG at once; else the dead are removed first, and a blank name becomes one made of the data port. |
| `Clients.FreeNameIsGiven` | taskpool.cpp:334-367 | A free name is given: requests for it go to the task alone, and those for the old name no longer. |
| `Clients.TakenNameIsKept` | taskpool.cpp:341-347 | The name of a task that answers is not given, nor that of a multicast group. |
| `Clients.DeadNameIsGiven` | taskpool.cpp:341-367 | The name of a task that does not answer is, and that task is removed; unless the one who asks goes with it, as one of its process. |
| `Clients.ReplyCounts` | rpyinfo.cpp:24-26 | The first reply to a request takes it from the pending ones of its owner, a later one does not. |
| `Clients.AckMarks` | exttask.cpp:306-329 | An acknowledgement marks the slot; one request less is pending if it had not been marked. |
| `Clients.AckIsIgnored` | exttask.cpp:306-329 | That of another client's request changes nothing. |
| `Clients.IgnoreIsSilent` | exttask.cpp:293-304 | Ignoring a request frees its slot and tells no one; a client that does not listen cannot. |
| `Clients.ListenersTakeRequests` | lcltask.cpp:9-17 | A client that listens takes requests, unless it is in a multicast group. |
| `Clients.BlockersRefuse` | lcltask.cpp:19-29 | A client that blocks loses exactly its own reply slots, and the next request is answered with ACNET_NCR. |
| `Clients.BlockTells` | lcltask.cpp:19-29 | Each requester that waits for it gets ACNET_DISCONNECTED. |
| `Clients.CommandIsAcknowledged` | exttask.cpp:389-391 | After a command the client is removed with all its slots if and only if the acknowledgement does not reach it. |
| `Clients.DisconnectRemoves` | exttask.cpp:126-150 | Disconnecting removes exactly the task and those of its non-zero pid; disconnecting alone, exactly the task. |
| `Clients.StrangersAreNotHeard` | exttask.cpp:389-391 | A command of a task that is not registered does nothing. |
| `Shutdown.ShutdownTells` | taskpool.cpp:429-434 | removeAllTasks, whatever tasks and slots there are: the client of every open request is handed ACNET_DISCONNECTED and its node is sent the CANCEL, everyone who waits for a reply gets ACNET_NODE_DOWN, and no slot is left in use. |
| `Shutdown.DrainSaysLast` | reqinfo.cpp:117-130 | With sendLastReply the client of each cancelled request is handed ACNET_DISCONNECTED. |
| `Routes.PacketsGo` | network.cpp:293-296 | A request or CANCEL joins what goes to its server's node and a reply what goes to its client's; the other nodes' streams do not change. |
| `Routes.RequestGoes` | network.cpp:293-296 | The packet of a request joins what goes to the node asked. |
| `Routes.CancelGoes` | network.cpp:293-296 | Its CANCEL too. |
| `Routes.ReplyGoes` | network.cpp:293-296 | The packet of a reply joins what goes to the node the request came from. |
| `Routes.AnswersGoBack` | network.cpp:293-296 | The refusal of a request joins what goes to its client's node, the CANCEL of a stray reply what goes to its server's. |
| `Routes.DatagramStaysOpen` | network.cpp:90-98 | After a message to a known node its datagram is open for more, and no other node's is closed. |
| `Routes.HeadIsClosed` | network.cpp:360-367 | Only the datagram that leaves is closed. |
| `Routes.SharesDatagram` | network.cpp:53-62 | A message shares the open datagram of its node if and only if the two fit 65506 bytes together; else a new one is begun. |
| `Deliveries.StepSteady` | main.cpp:796-884 | What any step adds to the log: a request that stays open is handed nothing but ACNET_PEND, unless the input is a reply; and a reply that leaves is that of a slot in use, unless the input is a request with its key. |
| `Deliveries.DrainReqsSteady` | taskpool.cpp:459-460 | So does the loop that cancels a task's requests: whoever is handed a packet is freed. |
| `Witnesses.SomeReplyIsHidden` | rpyinfo.cpp:172-187 | In every daemon with two reply slots or more, and for every node that is no multicast one, a run from the fresh state leads to a reply in use that no CANCEL ends. |
| `Witnesses.SomeHeaderIsNotFixed` | main.cpp:569-580 | In every such daemon a run leads to a one-shot request whose client is handed a packet with the MLT flag. |
| `Steps.StepInv` | main.cpp:796-884 | Every packet, command, time-out and task check keeps the invariant over pools, free lists, timer lists, id sets, activeMap, task registry and log. |
| `Steps.RunInv` | taskpool.cpp:20-30 | The invariant holds in every state reachable from a fresh daemon, for every sequence of inputs. |
| `Steps.InitialInv` | taskpool.cpp:20-30 | A new TaskPool satisfies the invariant. |
| `Steps.ExpireReqInv` | reqinfo.cpp:144-168 | Each round of the request time-out loop leaves strictly fewer requests due, thanks to the 400 ms minimum. |
| `Steps.ReqTimeoutsInv` | reqinfo.cpp:140-174 | The time-out loop ends; it returns -1 if and only if no request is live, and otherwise the positive time to the earliest expiration. |
| `Steps.PendRound` | rpyinfo.cpp:304-317 | Each round of the ACNET_PEND loop leaves strictly fewer replies due. |
| `Steps.RpyPendsInv` | rpyinfo.cpp:304-317 | The same for the replies: -1 if and only if there is no unicast reply in use, else the time to the earliest. |
| `Steps.FewerOverdue` | reqinfo.cpp:140-174 | The measure that makes both loops end: the count of list entries that are due. |
| `Steps.FirstIsNext` | reqinfo.cpp:170-171 | The gap to the head of the timer list is the gap to the minimum expiration. |
| `Steps.RenameInv` | taskpool.cpp:334-367 | rename keeps the invariant, also when it removes a dead holder of the name and with it other tasks of the same process. |
| `Steps.HandleFreed` | taskpool.cpp:341-350 | Removing the dead holder of a name leaves the name free. |
| `Steps.RenameMisses` | taskpool.cpp:354-364 | If the renaming task itself went with the dead holder, the search finds nothing, and no one in its place. |
| `Steps.ObeyInv` | exttask.cpp:389-458 | Every client command keeps the invariant and leaves a task that may still be removed safely if its acknowledgement fails. |
| `Steps.ClientCommandInv` | exttask.cpp:389-458 | The same with the acknowledgement and the removal that may follow it. |
| `Handlers.NetReplyInv` | main.cpp:606-695 | handleAcnetReply keeps the invariant and brings no task back. |
| `Handlers.NetCancelInv` | main.cpp:359-428 | So does handleAcnetCancel. |
| `Handlers.NetRequestInv` | main.cpp:430-539 | So does handleAcnetRequest. |
| `Handlers.DeliverInv` | main.cpp:477-515 | Delivering a request to one task: slot, id sets, activeMap and timers stay in step, also when the client cannot be reached. |
| `Handlers.DeliverAllInv` | main.cpp:457-528 | The loop over the tasks of a handle; the dead task it reports is a client of that handle. |
| `Handlers.CancelReqToNodeInv` | reqinfo.cpp:62-93 | Keeps the invariant. |
| `Handlers.EndRpyToNodeInv` | rpyinfo.cpp:201-238 | Keeps the invariant. |
| `Handlers.SendReplyInv` | rpyinfo.cpp:76-95 | Sending a reply, last or not, keeps the invariant. |
| `Handlers.XmitReplyInv` | rpyinfo.cpp:13-67 | A reply that is not the last keeps the invariant and the slot. |
| `Handlers.LastReplyInv` | rpyinfo.cpp:76-95 | The last reply ends the slot in the same step. |
| `Handlers.SendRequestInv` | exttask.cpp:232-272 | Sending a request keeps the invariant. |
| `Handlers.AckCommandInv` | exttask.cpp:306-329 | Acknowledging a request keeps the invariant. |
| `Handlers.BlockInv` | lcltask.cpp:19-29 | Blocking requests keeps the invariant and leaves the task without replies. |
| `Handlers.EnrolReqInv` | reqinfo.cpp:7-42 | Allocating a request keeps the invariant. |
| `Handlers.EnrolRpyInv` | rpyinfo.cpp:98-170 | Allocating a reply keeps the invariant. |
| `Handlers.MayConnect` | taskpool.cpp:182-207 | The task a connect command creates gets an id and a name, or a name and port, that no one has. |
| `Handlers.ConnectInv` | taskpool.cpp:156-213 | Connecting keeps the invariant. |
| `Handlers.RelistInv` | taskpool.cpp:354-364 | Moving a task to a new name keeps the invariant. |
| `Removal.RemoveOnlyShrinks` | taskpool.cpp:438-469 | removeOnlyThisTask takes out this task only: what is left of both pools is what belongs to the tasks left. |
| `Removal.RemovePidInv` | taskpool.cpp:485-487 | The loop removes exactly the registered tasks of the process from the given position on. |
| `Removal.RemoveTaskInv` | taskpool.cpp:471-488 | removeTask removes the one task if its pid is 0, and otherwise exactly the registered tasks with its pid. |
| `Removal.RemoveTaskComplete` | taskpool.cpp:471-488 | Afterwards the task is in no table and owns no request and no reply. |
| `Removal.RemoveDeadInv` | taskpool.cpp:50-52 | Removing tasks that are not alive keeps the invariant, while the table is changed under the loop. |
| `Removal.PurgeInv` | taskpool.cpp:54-59 | Deleting the removed objects leaves no slot, id set or table entry dangling; exactly the registered tasks are left. |
| `Removal.RemoveInactiveInv` | taskpool.cpp:46-60 | removeInactiveTasks as a whole keeps the invariant and no object comes back; who goes is said by `Inactive.InactiveGo`. |
| `Removal.ReqOwner` | reqinfo.cpp:7-48 | The owner of a request in use is registered. |
| `Removal.RpyOwner` | rpyinfo.cpp:98-187 | The owner of a reply in use is registered. |
| `Removal.RemoveAllLeavesAlias` | taskpool.cpp:429-434 | After removeAllTasks no task is registered, yet `active` still lists the removed internal task as ACNAUX. |
| `Preservation.CancelReqIdInv` | reqinfo.cpp:97-138 | cancelReqId keeps the invariant and touches nothing but the request, the log and the id set. |
| `Preservation.EndRpyIdInv` | rpyinfo.cpp:240-302 | endRpyId likewise. |
| `Preservation.DrainReqsInv` | taskpool.cpp:459-460 | The loop over a task's requests ends and leaves exactly the requests of other tasks, unchanged. |
| `Preservation.DrainRpysInv` | taskpool.cpp:461-462 | The loop over a task's replies ends and leaves exactly the replies of other tasks, unchanged. |
| `Preservation.RemoveOnlyInv` | taskpool.cpp:438-469 | removeOnlyThisTask keeps the invariant and leaves nothing of the task but the object. |
| `History.Append` | main.cpp:666-678 | A packet for an allocation that a slot holds never follows one that ended it. |
| `History.NothingAfterClosing` | main.cpp:666-678 | In an orderly log no packet follows the one that ended its allocation. |
| `History.OneDescription` | main.cpp:639-641 | The packets of one allocation agree on what was requested. |
| `Registers.FindsItself` | taskpool.cpp:446-455 | The equals() search for a task hits the task itself. |
| `Registers.UnregisterOk` | taskpool.cpp:438-455 | Unregistering keeps table, names and uniqueness, and the task is then in neither table. |
| `Registers.RetireOk` | taskpool.cpp:468 | The task ends up in `removed`, once. |
| `Registers.NextFreeIdOk` | taskpool.cpp:32-43 | nextFreeTaskId returns the lowest free id of its range, or none if there is none. |
| `Registers.FindClientOk` | taskpool.cpp:125-138 | getTask finds a client of the name and port if and only if there is one. |
| `Registers.EnlistOk` | taskpool.cpp:205-207 | A new task keeps the registry consistent. |
| `Registers.PurgeOk` | taskpool.cpp:54-59 | Deleting removed objects keeps the registry consistent. |
| `Registers.RelistOk` | taskpool.cpp:354-361 | So does renaming to a free name. |
| `Invariant.DropReqOk` | reqinfo.cpp:44-48 | Releasing a request keeps pool, timer list and id sets in step. |
| `Invariant.EnrolReqOk` | reqinfo.cpp:7-42 | Allocating one likewise. |
| `Invariant.TouchReqOk` | reqinfo.cpp:147-166 | Renewing a time-out likewise. |
| `Invariant.DropRpyOk` | rpyinfo.cpp:172-187 | Releasing a reply keeps pool, timer list, id sets and activeMap in step; activeMap then lists exactly the replies in use that no end of another one with their key has hidden, oldest first. |
| `Invariant.EnrolRpyOk` | rpyinfo.cpp:98-170 | Allocating one likewise. |
| `Invariant.TouchRpyOk` | rpyinfo.cpp:60-62 | Renewing the ACNET_PEND delay likewise. |
| `Invariant.MarkAckedOk` | server.h:1116-1122 | Acknowledging changes none of this. |
| `TaskPools.TaskPool.Handle` | main.cpp:796-884 | One step of the daemon made of objects is exactly the step of the state machine; it keeps the invariant, and from a reachable state it leads to a reachable one. |
| `TaskPools.TaskPool.Serve` | main.cpp:796-884 | Any sequence of inputs takes the objects to the state of the run of the state machine: so all that is proved of runs holds of the objects. |
| `TaskPools.TaskPool.HandleReply` | main.cpp:606-695 | handleAcnetReply on the objects makes the step whose outcome `Exchanges.WhoGetsReply` states. |
| `TaskPools.TaskPool.PassOn` | main.cpp:638-678 | The Karnaugh conditions of the code on the objects. |
| `TaskPools.TaskPool.HandleCancel` | main.cpp:359-428 | handleAcnetCancel with its loop, which ends after one round. |
| `TaskPools.TaskPool.HandleRequest` | main.cpp:430-539 | handleAcnetRequest on the objects. |
| `TaskPools.TaskPool.DeliverRequest` | main.cpp:477-515 | Delivery to one task. |
| `TaskPools.TaskPool.AnswerAtOnce` | inttask.cpp:16-36 | The internal task's last reply, and the end of the slot. |
| `TaskPools.TaskPool.AllocReq` | reqinfo.cpp:7-42 | RequestPool::alloc fills and times the slot as `Outcomes.RequestOpens` states; addRequest reports no duplicate. |
| `TaskPools.TaskPool.ReleaseReq` | reqinfo.cpp:44-48 | removeRequest and release. |
| `TaskPools.TaskPool.CancelReqId` | reqinfo.cpp:97-138 | cancelReqId, and whether the id was found. |
| `TaskPools.TaskPool.CancelReqToNode` | reqinfo.cpp:62-93 | Cancels the request of the node with the lowest index, and stops there. |
| `TaskPools.TaskPool.TimeOut` | reqinfo.cpp:147-168 | A request that is due. |
| `TaskPools.TaskPool.SendRequestTimeoutsAndGetNextTimeout` | reqinfo.cpp:140-174 | The loop over the oldest request, with its termination. |
| `TaskPools.TaskPool.AllocRpy` | rpyinfo.cpp:98-170 | ReplyPool::alloc; addReply reports no duplicate. |
| `TaskPools.TaskPool.ReleaseRpy` | rpyinfo.cpp:172-187 | removeReply and release, which erases all entries of the key. |
| `TaskPools.TaskPool.EraseLink` | rpyinfo.cpp:285-299 | The loop over the entries of a key: for the erasure that follows it makes no difference. |
| `TaskPools.TaskPool.EndRpyId` | rpyinfo.cpp:240-302 | endRpyId on the objects. |
| `TaskPools.TaskPool.XmitReply` | rpyinfo.cpp:13-67 | xmitReply sends the packet that `Exchanges.ReplySends` states, and says whether it was the last reply. |
| `TaskPools.TaskPool.SendReplyToNetwork` | rpyinfo.cpp:76-95 | sendReplyToNetwork makes the step that `Exchanges.ReplySends` states, and says whether the reply was found. |
| `TaskPools.TaskPool.EndRpyToNode` | rpyinfo.cpp:201-238 | Ends the reply to the node with the lowest index, and stops there. |
| `TaskPools.TaskPool.SendReplyPendsAndGetNextTimeout` | rpyinfo.cpp:304-317 | The loop over the oldest reply, with its termination. |
| `TaskPools.TaskPool.Create` | taskpool.cpp:20-30 | A new TaskPool is the initial state, which is reachable, with banks drawn as bankGen draws them. |
| `TaskPools.TaskPool.NextFreeTaskId` | taskpool.cpp:32-43 | The loop over the table. |
| `TaskPools.TaskPool.GetTask` | taskpool.cpp:125-138 | The loop over the tasks of a name. |
| `TaskPools.TaskPool.HandleConnect` | taskpool.cpp:156-213 | handleConnect: the new state, the status and the task id. |
| `TaskPools.TaskPool.Rename` | taskpool.cpp:334-367 | rename, and whether it succeeded. |
| `TaskPools.TaskPool.RemoveOnlyThisTask` | taskpool.cpp:438-469 | removeOnlyThisTask on the objects. |
| `TaskPools.TaskPool.CancelRequests` | taskpool.cpp:459-460 | The loop that empties a task's request set, with its termination. |
| `TaskPools.TaskPool.EndReplies` | lcltask.cpp:23-24 | The loop that empties a task's reply set, with its termination. |
| `TaskPools.TaskPool.FindActive` | taskpool.cpp:446-455 | The search by equals(). |
| `TaskPools.TaskPool.RemoveTask` | taskpool.cpp:471-488 | removeTask on the objects. |
| `TaskPools.TaskPool.RemoveProcess` | taskpool.cpp:485-487 | Its loop over the table. |
| `TaskPools.TaskPool.RemoveInactiveTasks` | taskpool.cpp:46-60 | removeInactiveTasks on the objects removes the tasks that `Inactive.InactiveGo` states. |
| `TaskPools.TaskPool.DeleteRemoved` | taskpool.cpp:54-59 | The loop that deletes the removed objects. |
| `TaskPools.TaskPool.StillAlive` | exttask.cpp:101-116 | The question whether a client is alive. |
| `TaskPools.TaskPool.SendDataToClient` | exttask.cpp:46-59 | A packet handed to a client, and whether the client was there. |
| `TaskPools.TaskPool.TaskEquals` | exttask.cpp:26-31 | equals() |
| `TaskPools.TaskPool.HandleSendRequest` | exttask.cpp:232-272 | Sending a request leaves the slot, its time-out and the packet that `Outcomes.RequestOpens` states. |
| `TaskPools.TaskPool.HandleCancelCommand` | exttask.cpp:331-348 | Cancelling a request that is the caller's own. |
| `TaskPools.TaskPool.HandleRequestAck` | exttask.cpp:306-329 | Acknowledging a request. |
| `TaskPools.TaskPool.HandleBlockRequests` | lcltask.cpp:19-29 | Blocking requests. |
| `TaskPools.TaskPool.ObeyCommand` | exttask.cpp:389-458 | What each command does. |
| `TaskPools.TaskPool.HandleClientCommand` | exttask.cpp:389-458 | A command with its acknowledgement. |
| `Tasks.TaskObjects.AddRequest` | server.h:1291 | Adds an id to a task's requests, tells if it is new, and changes no other task. |
| `Tasks.TaskObjects.RemoveRequest` | server.h:1295 | Removes one, likewise. |
| `Tasks.TaskObjects.AddReply` | server.h:1290 | Adds an id to a task's replies, likewise. |
| `Tasks.TaskObjects.RemoveReply` | server.h:1294 | Removes one, likewise. |
| `Tasks.TaskObjects.DecrementPendingRequests` | taskinfo.cpp:30-37 | Counts down, not below zero. |
| `Tasks.TaskObjects.TestPendingRequestsAndIncrement` | taskinfo.cpp:39-52 | Counts up to 256, for clients only. |
| `IdPools.BankGenOk` | idpool.h:168-171 | Whatever random() gives, the bank is a non-zero multiple of the size with room for all ids in 16 bits: the quotient of the number by the size, made odd and cut to what is left of 16 bits, times the size. |
| `IdPools.BankedIdsRoundTrip` | idpool.h:127-145 | entry(id(e)) is e; ids are distinct, not 0, and fit 16 bits. |
| `IdPools.LookupRoundTrip` | idpool.h:127-145 | A raw id that entry() accepts is the id of the slot found. |
| `IdPools.IdPool.constructor` | idpool.h:59-66 | All slots are free, in order. |
| `IdPools.IdPool.Push` | idpool.h:24-28 | The ring buffer as a queue: put at the end. |
| `IdPools.IdPool.Pop` | idpool.h:30-38 | Take from the front. |
| `IdPools.IdPool.Alloc` | idpool.h:87-97 | Hands out the slot that has been free the longest, or fails exactly if none is free. |
| `IdPools.IdPool.Release` | idpool.h:99-113 | Puts a slot in use at the end of the line. |
| `IdPools.IdPool.Entry` | idpool.h:127-133 | Finds exactly the ids of slots in use. |
| `IdPools.IdPool.Id` | idpool.h:135-145 | The id of a slot. |
| `IdPools.IdPool.Next` | idpool.h:73-85 | The next slot in use, or none if there is none. |
| `IdPools.IdPool.ActiveIdCount` | idpool.h:152-155 | The count kept is the number of bits set in inUse. |
| `IdPools.FirstFreeFirstOut` | idpool.h:87-113 | Over any run of allocations and releases, slots come out in the order in which they became free. |
| `IdPools.ReleasedSlotWaitsItsTurn` | idpool.h:99-113 | A released slot is not handed out before every slot that was free at its release. |
| `Timers.Node.Detach` | node.cpp:13-18 | The node is alone and its neighbours are linked. |
| `Timers.Node.InsertBefore` | node.cpp:20-24 | The node stands between the given one and its predecessor. |
| `Timers.TimerList.Update` | timesensitive.cpp:12-30 | The circular list stays well formed in both directions; the node stands after all that are due no later; the others keep their order. |
| `Timers.TimerList.Walk` | timesensitive.cpp:17-25 | The walk from the tail stops at the insertion point. |
| `Timers.TimerList.Detach` | node.cpp:13-18 | Takes a slot off the list and leaves the rest in order. |
| `Timers.TimerList.Oldest` | reqinfo.cpp:55-60 | The head of the list, or none if it is empty. |
| `Timers.InsertedAscends` | timesensitive.cpp:12-30 | The list stays sorted by expiration. |
| `Timers.InsertedMembers` | timesensitive.cpp:12-30 | Nothing is lost or added. |
| `Timers.UpdateKeepsOthers` | timesensitive.cpp:12-30 | The other nodes keep their order. |
| `Timers.OldestIsMinimum` | reqinfo.cpp:55-60 | What oldest() returns is due no later than anything else. |
| `SlotPools.SlotPool.Alloc` | reqinfo.cpp:7-28 | Id pool, slots and timer list together: a slot is taken and filled. |
| `SlotPools.SlotPool.Release` | reqinfo.cpp:44-48 | A slot leaves the timer list and is free. |
| `SlotPools.SlotPool.Touch` | timesensitive.cpp:12-30 | A slot gets a new time and its place in the list. |
| `SlotPools.SlotPool.Oldest` | rpyinfo.cpp:69-74 | The slot due first, and when. |
| `SlotPools.TakenOk` | idpool.h:87-97 | Free slots and slots in use stay complementary. |
| `SlotPools.GivenOk` | idpool.h:99-113 | So they do when one is released, which also leaves the timer list. |
| `SlotPools.TouchedOk` | timesensitive.cpp:12-30 | The timer list stays sorted and free of duplicates. |
| `Wire.HeaderLayout` | server.h:379-409 | Where each field of a header is in its 18 bytes, and in which byte order. |
| `Wire.HeaderRoundTrip` | server.h:379-409 | A header written field by field is read back. |
| `Wire.SwapExchangesBytes` | network.cpp:14-17 | swap() exchanges the bytes of a word. |
| `Wire.SwapWords` | network.cpp:243-247 | The loop in place swaps every word received and leaves the rest of the buffer. |
| `Wire.SwappedTwice` | network.cpp:14-17 | Swapping twice changes nothing. |
| `Wire.SplitJoined` | main.cpp:891-920 | Taking apart a datagram made of legal messages gives back exactly their bytes, in order. |
| `Wire.MessageArrives` | network.cpp:53-62 | From the bytes of a message come its header and its payload, an odd one with one zero byte more. |
| `Wire.ReadPacket` | main.cpp:908-919 | One round of the splitting loop: the packet lies in the datagram and the next offset is even and in it too. |
| `Wire.HandleDatagram` | main.cpp:891-920 | For arbitrary bytes the loop ends, the unsigned subtraction never wraps, and it handles exactly the packets of Split. |
| `Wire.SplitIsSound` | main.cpp:1072-1096 | Every packet handled has the length its header says, between the least and the largest allowed. |
| `Wire.LegalFits` | network.cpp:57 | Any payload up to the largest allowed fits an empty packet. |
| `Network.QueuedInOrder` | network.cpp:293-323 | sendDataToNetwork queues a message exactly if its payload is not too long, for the client's node if it is a reply and for the server's otherwise; each node's messages stay in the order sent; packets that left are not touched; partial buffers stay the last queued packet of their node. |
| `Network.PoppedOk` | network.cpp:360-367 | Dealing with the head of the queue keeps that. |
| `Network.HeadIsOwn` | network.cpp:364-365 | If the head is a partial buffer it is that of its own node. |
| `Network.BatchingIsTransparent` | network.cpp:293-369 | For every sequence of messages given to sendDataToNetwork and departures in between: what a node finds by unswapping and splitting all its datagrams is exactly the messages sent to it (all that are not rejected as too long), in order, and what it finds in those that left so far is a prefix of that. |
| `Network.MessagesArriveIntact` | network.cpp:53-62 | Over such a run the k-th packet a node finds has the header of the k-th message sent to it, and its payload, padded with one zero byte if odd. |
| `Outgoing.DataOut.AddBytes` | network.cpp:24-49 | The bytes go to the end of the buffer swapped, an odd number padded with a zero. |
| `Outgoing.DataOut.AddData` | network.cpp:53-62 | A message is added exactly if there is room, and the buffer is then the swapped bytes of all its messages. |
| `Outgoing.OutQueue.AllocPacket` | network.cpp:90-98 | A new packet is queued and is the partial buffer of its node if that is known. |
| `Outgoing.OutQueue.SendDataToNetwork` | network.cpp:293-323 | The objects do what the specification of the queue says, of which `Routes.PacketsGo` states the node; 1 exactly if the message was queued. |
| `Outgoing.OutQueue.PopHead` | network.cpp:329-368 | The head leaves the queue with the bytes of its messages and is no longer a partial buffer. |
| `Outgoing.OutQueue.SendPendingPackets` | network.cpp:328-370 | The loop stops exactly when the queue is empty or the socket is full, and says which; each packet handed to the socket has the target and the swapped bytes of the datagram whose turn it was. |
| `Outgoing.OutQueue.Serve` | network.cpp:293-370 | Any run of a new queue, on the objects: what the packets dealt with bring to a node is a prefix of the messages given for it (all that are not rejected as too long), in order, and all of them when the queue is empty. |
| `Outgoing.PacketsBring` | network.cpp:293-370 | The same for the run of the specification. |
| `Outgoing.LossesAreWhole` | network.cpp:340-360 | Of what the packets bring, a node finds in those the socket took a subsequence: a loss drops whole messages and changes neither the others nor their order. |
| `Outgoing.NoneIsLost` | network.cpp:340-360 | If the socket took every packet for a node, nothing is missing there. |
| `Outgoing.SentArrives` | network.cpp:328-370 | So what a node finds in the packets handed to the socket is what it would find in those datagrams. |
| `Tcp.SocketBuffer.Append` | server.h:1497-1513 | What fits is appended, what does not is returned; together they are what was given. |
| `Tcp.SocketBuffer.Consume` | server.h:1515-1519 | Takes bytes off the front. |
| `Tcp.Sender.Send` | tcpclient.cpp:358-383 | Bytes taken at once and bytes that wait make up what was given, in order; it fails only on a hard error with nothing waiting. |
| `Tcp.Sender.SendPendingPackets` | tcpclient.cpp:385-412 | For any answers of the socket: the bytes written come from the front of what waits and with what still waits make it up; each write took no more than its answer said; it stops only when nothing waits, the socket is full, or took less than there was, and reports a loss only for a hard error. |
| `Tcp.Sender.Serve` | tcpclient.cpp:358-412 | Any run of a new connection: what the socket took is a prefix of what send() was given, with what waits it is all of it, and nothing is lost, doubled or out of order until the connection is. |
| `Tcp.ConsumedOk` | tcpclient.cpp:401-404 | Bytes taken plus bytes waiting stay the bytes offered. |
| `Rad50.Ator` | rad50.cpp:39-57 | The loop computes the two halves, and its 16-bit accumulators never overflow. |
| `Rad50.Rtoa` | rad50.cpp:72-92 | The loop writes the six characters and the zero. |
| `Rad50.DecodeEncoded` | rad50.cpp:39-92 | rtoa(ator(s)) is s in upper case, unknown characters as spaces, padded or cut to six. |
| `Rad50.EncodeDecoded` | rad50.cpp:39-92 | ator(rtoa(r)) reduces each half modulo 64000, so it is r if and only if both are below. |
| `Rad50.SameCodeSameName` | rad50.cpp:39-57 | Names have the same code if and only if they are the same once normalised. |
| `Rad50.PortNamesDiffer` | taskpool.cpp:173-177 | Anonymous clients on different data ports get different names. |

## Left out

- What the diagnostics of the internal task (acnaux.cpp) do beside replying: reports, debug switches, the killer message to clients and new node table entries. Its reply is an arbitrary last reply.
- Promiscuous tasks, USM delivery and `handleSend`: no slot is involved.
- Routing: which of several TaskPools a packet goes to, the default-node fallback and the checks of client and server nodes (main.cpp:700-888); a step is given the packet for its own pool.
- Rejected task names, unknown nodes and wrong command lengths: such commands only send an error, and are not among the commands here.
- Steps.RunInv: a run ends before `removeAllTasks`; what that does in any state with the invariant is stated in `Shutdown.ShutdownTells` and `Removal.RemoveAllLeavesAlias`.
- Clients.CommandIsAcknowledged: what an acknowledgement says is not modelled, but for the status and id of a connect and whether a rename or a reply succeeded; only whether it reaches the client is.
- The throttle of `stillAlive(5000)` and the socket error counters: the answer is arbitrary each time it is asked, which covers both.
- Counters and statistics, reports, logging and the task list encoders.
- Reference counts of multicast groups: joining succeeds or fails as the environment says.
- Outgoing.OutQueue.SendPendingPackets: the datagram counts as dealt with whether the socket took it, failed or the node has no address, as in the program; loss on the way is not modelled.
- Links.RepliesInOrder: the link neither loses nor reorders packets; loss is a matter of `Outgoing.LossesAreWhole`, and reordering on the way is not modelled. A client is also handed ACNET_PENDs made up on the way, which are not counted.
- Erasing a node from the node table while packets for it are queued.
- Tcp.Sender.Send: after a hard error nothing is claimed of the stream.
- WebSocket framing, the handshakes, DNS, signals, forking and configuration.
- The NO_SWAP and PINGER builds.
- Tasks.TaskInfo: identity and the fields that commands change are two records, where the program has single fields; task objects are reached through a table from numbers to objects, which stands for their addresses.
- RpyInfo::initTime and the packet counters of the slots.
