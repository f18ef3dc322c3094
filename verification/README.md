# The GPS location engine, modelled and proved in Dafny

This project models the stateful core of the GPS library under `gps/` and proves what it keeps over all inputs
and all runs.

- **AGPS resource machines** (`AgpsModel`, `AgpsInvariants`, `AgpsTransitions`, `AgpsLedger`, `AgpsGrants`,
  `Subscribers`, `AgpsStateMachine`, `AtlRelease`). `AgpsModel` is the machine as a function of state and event, for
  the base machine and for the DS machine. `AgpsTransitions` says from outside, for every state and event, when each
  call leaves the machine and what becomes of its state; the theorems over all runs build on that. The class
  `AgpsStateMachine` is the code's own form, a reassigned state over a mutable list that is searched and deleted from
  in passes; each of its methods is proved to do what the function says. `AtlRelease` is the release of an ATL handle over three machines.
- **The doubly linked list** (`LinkedList`), with head, tail, next and prev rewritten in place, and an account of
  where each datum has gone.
- **The blocking queue and its consumer** (`MsgQueueModel`, `MsgQueue`, `MsgTask`): threads as steps (calling, asleep,
  woken but not yet running, returned), spurious wakeups allowed. What is queued, who waits and what each call returns
  is read off the history of calls alone.
- **Network-initiated sessions** (`NiModel`, `NiHistory`, `NiEngine`): two sessions, a timer thread per request, engine
  restarts that leave threads behind. `NiHistory` reads off the history of calls which request is outstanding, what was
  answered to it and what the modem has to be sent, and proves that the model does so.
- **NMEA sentences** (`NmeaText`, `NmeaChecksum`, `NmeaBuffer`, `NmeaGsv`, `NmeaGsa`, `NmeaGenerator`): the 200-byte
  buffer with its marker, checksum, packing of satellites, expansion of the mask, the cache between reports, and for
  each sentence a receiver written independently of the sender, which reads back what was meant.
- **The adapter table** (`AdapterTable`) and **muting one session** (`MuteSession`).

A class here has the fields and loops of the code. Its methods are proved equal to a function on values, and the
properties are lemmas about runs of that function. Each object keeps, as a ghost, the run it has made: `Valid()` says
that the object is where its run leads, so every theorem over runs holds of every object (`RequestsBalance`,
`GrantsCohere`, `ResolvesAsHeard`, `HoldsWhatWasSent` and others state it). Outcomes that the environment
decides (results of the data call and of timers, which sleeping thread a signal wakes, whether the modem accepts a
start) are parameters of the steps, so the theorems hold for all of them.

Only the SUPL and internet machines are flushed by an engine restart (loc_eng.cpp lines 2570-2577). The invariants of
unflushed runs therefore hold of the WIFI and DS machines on every run.

## What turned out not to hold

- A client of the DS machine that has left and waits for its close, and subscribes again before the close, is not taken
  on. It is answered GRANTED if the machine is Acquired, and nothing otherwise (`AgpsLedger.LostSubscriptions` and
  `GrantedButNotTakenOn` say exactly when, `ResubscriptionLost` and `GrantedWhileClosing` give runs). The WIFI machine
  answers such a client DENIED.
- On a machine that takes one subscriber, a listed client that asks again is told DENIED although it stays listed; and
  a client that leaves a DS machine while that is Released is told UNSUBSCRIBE and stays listed. There is no other such
  case (`AgpsLedger.DeniedWhileListed`).
- The modem is told that a handle is closed while the DS machine lists it as active, if and only if an ATL machine
  lists the handle too or the DS machine is Released (`AtlRelease.EntrySurvivesRelease`). A fallback to ordinary ATL
  leads to either (`FallbackThenRelease`, `FallbackAloneThenRelease`).
- An NI request can be answered by nobody, timed out by another request's timer, or freed unanswered, if and only if a
  thread of its session had not left its wait when it was taken (`NiHistory.ResolvedAsHeard` and `UncleanRunGoesWrong`;
  four runs are given, three of them with an engine restart).
- `loc_eng_nmea_put_checksum` is documented to return the total length of the sentence; it returns one less
  (`NmeaChecksum.PutChecksum`).
- An elevation below -0.5 degrees is in general not rounded to the nearest integer (`NmeaGsv.RoundedIsNearest`).
- A position report that only sends blank sentences keeps the cached mask but clears the cached precision that came
  with it (`NmeaGsa.CachedMaskIsLatest`, `NmeaGsa.CachedDopIsLatest`).
- A mute request during a muted session ends the muting until the next session begins (`MuteSession.MutedExactly`
  counts from the latest request).

## Assumptions

- In the NI protocol the request handler, the respond function, the reset and a thread's exit from its wait are one
  atomic step each. The code does a part of them outside the lock (loc_eng_ni.cpp lines 259-260 and 283-284).
- `msg_q_rcv` is cut where it waits; a signal wakes at least one sleeper if there is one, and perhaps more.
- The receiver of a notification is kept by value. The code keeps a pointer to an entry that it may have deleted.
- The subscribers of one list are of one kind, because the BIT comparison casts its argument.
- The DS machine is told apart by its kind instead of by virtual dispatch.
- A thread for an accepted NI request can always be created.

## Model

| member | source | states |
|---|---|---|
| `AgpsTransitions.StepOutputs` | gps/loc_api/libloc_api_50001/loc_eng_agps.cpp:258-579 | For both machine kinds, in every state that meets the invariant and for every event: each call that can leave the machine (a client told one of the statuses, a caller answered, a clone linked, a request, a release, a close reported, a fallback and for whom, the retry timer, a retry and for whom) is made exactly once when a condition on the state and the event holds, and otherwise not at all. GRANTED, for instance, reaches exactly the active clients of a Pending machine, and a release goes out exactly when the last active client leaves a Pending or Acquired machine. |
| `AgpsTransitions.StepControl` | gps/loc_api/libloc_api_50001/loc_eng_agps.cpp:258-579 | The control state after every event in every state, for both machine kinds. |
| `AgpsTransitions.StepClients` | gps/loc_api/libloc_api_50001/loc_eng_agps.cpp:715-748 | Who is listed after every event in every state, in which order, and who of them waits for its close. |
| `AgpsTransitions.StepRetries` | gps/loc_api/libloc_api_50001/loc_eng_agps.cpp:852-911 | The retry counter after every event: it counts busy results of the DS machine, and starts over when a client is told DENIED and when the data call is given up. |
| `AgpsTransitions.StepOrder` | gps/loc_api/libloc_api_50001/loc_eng_agps.cpp:270-568 | The order of the calls of a step: the caller is answered, then listed clients are told, in list order, then the connection is asked for or released, then the outcome of asking is dealt with. |
| `AgpsLedger.RequestLedger` | gps/loc_api/libloc_api_50001/loc_eng_agps.cpp:258-579 | For every run of either machine kind, list flushes included, and whatever the order of events: requests sent = releases sent + connections ended by the manager + data calls of the DS machine that were not started for a new client + 1 if the machine is Pending or Acquired. |
| `AgpsLedger.StepBalanced` | gps/loc_api/libloc_api_50001/loc_eng_agps.cpp:750-777 | A request goes out exactly when the machine starts to hold a connection or a data call fails to start; a release or an ending by the manager happens exactly when it stops to hold one. |
| `AgpsLedger.DsReleases` | gps/loc_api/libloc_api_50001/loc_eng_agps.cpp:852-867 | A DS machine gives its data call up exactly when it goes from Pending or Acquired to Releasing. |
| `AgpsLedger.OnlyDsFails` | gps/loc_api/libloc_api_50001/loc_eng_agps.cpp:750-777 | On the base machine no connection fails to start, so its requests balance with releases and endings alone. |
| `AgpsLedger.SubscriptionLedger` | gps/loc_api/libloc_api_50001/loc_eng_agps.cpp:715-748 | For every run of either machine kind and every key: the subscriptions that entered the list + the times a subscriber was told UNSUBSCRIBE and kept = the closing notifications (UNSUBSCRIBE, RELEASED, DENIED) delivered to that key + the entries dropped by a flush + 1 if it is listed. |
| `AgpsLedger.OnlyDsKeeps` | gps/loc_api/libloc_api_50001/loc_eng_agps.cpp:286-295 | Only the DS machine keeps a subscriber that it told UNSUBSCRIBE, namely one that leaves while it is Released. |
| `AgpsLedger.StepCloses` | gps/loc_api/libloc_api_50001/loc_eng_agps.cpp:69-81 | A closing notification reaches a listed subscriber exactly once, in the very step that removes it, or when it leaves a machine that is Released; and a clone is linked exactly when the subscriber enters the list. |
| `AgpsLedger.DeniedWhileListed` | gps/loc_api/libloc_api_50001/loc_eng_agps.cpp:779-787 | A listed client hears of a closing, or is answered DENIED, and stays listed, if and only if it asks again on a machine that takes a single subscriber, or leaves a machine that is Released. |
| `AgpsLedger.SubscribeTakesEffect` | gps/loc_api/libloc_api_50001/loc_eng_agps.cpp:738-748 | Subscribing leaves the caller with an active entry if and only if it had one, or was not listed at all and was not turned away; so a client waiting for its close loses its new subscription. |
| `AgpsLedger.LostSubscriptions` | gps/loc_api/libloc_api_50001/loc_eng.cpp:2119-2127 | For the machines as they are built, exactly which subscriptions leave their caller without an active entry, and what the caller hears: none on ATL and BIT machines; on the WIFI machine those of whoever is not the one active client while somebody is listed, answered DENIED; on the DS machine those of a client that waits for its close, answered GRANTED in Acquired and not at all otherwise. |
| `AgpsLedger.GrantedButNotTakenOn` | gps/loc_api/libloc_api_50001/loc_eng_agps.cpp:427-439 | A caller is answered GRANTED and left without an active entry if and only if the machine is Acquired, takes several subscribers, and lists the caller as waiting for its close. |
| `AgpsLedger.ResubscriptionLost` | gps/loc_api/libloc_api_50001/loc_eng_agps.cpp:521-568 | A run of the DS machine: a client leaves, subscribes again before the release is over, hears nothing, is told RELEASED and forgotten, and nothing is requested for it. |
| `AgpsLedger.GrantedWhileClosing` | gps/loc_api/libloc_api_50001/loc_eng_agps.cpp:427-452 | A run of the DS machine to Acquired with another client active, in which a client that waits for its close is answered GRANTED and the machine does not change. |
| `AgpsInvariants.RunKeepsInv` | gps/loc_api/libloc_api_50001/loc_eng_agps.cpp:258-579 | Every reachable state of both machine kinds, flushes included: keys pairwise different; only clients that wait for their close are ever inactive; at most 4 retries; nobody inactive in Released, and in the base machine nobody listed at all; in Pending or Acquired a non-empty list has somebody active. |
| `AgpsInvariants.StepKeepsInv` | gps/loc_api/libloc_api_50001/loc_eng_agps.cpp:325-497 | One event of any kind keeps that invariant. |
| `AgpsInvariants.RunKeepsUnflushed` | gps/loc_api/libloc_api_50001/loc_eng_agps.cpp:258-579 | Without a flush, Pending or Acquired means that somebody is active, and Releasing that somebody is inactive; the WIFI and DS machines are never flushed. |
| `AgpsInvariants.StepKeepsUnflushed` | gps/loc_api/libloc_api_50001/loc_eng.cpp:2570-2577 | Every event but the flush of an engine restart, which only the SUPL and internet machines see, keeps that. |
| `AgpsGrants.GrantCoherence` | gps/loc_api/libloc_api_50001/loc_eng_agps.cpp:421-568 | For every run of both machine kinds, flushes included: an active listed subscriber has been told GRANTED since it joined, in whatever state it joined, exactly when the machine is Acquired. |
| `AgpsGrants.StepGrants` | gps/loc_api/libloc_api_50001/loc_eng_agps.cpp:369-377 | The same for one step: who is newly told, who keeps what it was told. |
| `AgpsGrants.DsReleasedEvent` | gps/loc_api/libloc_api_50001/loc_eng_agps.cpp:913-944 | After RELEASED the DS machine is Pending if it was Releasing with somebody active, otherwise Released. |
| `AgpsGrants.FiveBusyFallBack` | gps/loc_api/libloc_api_50001/loc_eng_agps.cpp:852-911 | From any reachable state, any events during which the engine was busy five times include a fallback to ordinary ATL. |
| `AgpsGrants.BusyWithoutFallback` | gps/loc_api/libloc_api_50001/loc_eng_agps.cpp:946-959 | While nothing falls back, the retries counted and the busy results still to come stay within 4. |
| `AgpsGrants.DsFallbackHasHandle` | gps/loc_api/libloc_api_50001/loc_eng_agps.cpp:870-911 | Giving up the data call always names a client that is listed and active. |
| `AtlRelease.ReleaseAnsweredOnce` | gps/loc_api/libloc_api_50001/loc_eng.cpp:1133-1167 | For every combination of machines and states: releasing a handle yields exactly one close status, for that handle, saying whether any machine listed it; the first machine that lists it takes the step of a leaving subscriber, and the others stay as they are. |
| `AtlRelease.HandlesAreClosed` | gps/loc_api/libloc_api_50001/loc_eng_agps.cpp:146-183 | Over every run of an ATL machine: each time a handle was taken on, the modem was told once that it is closed, or its subscriber was told DENIED, or it was dropped by a flush, or it is still listed. |
| `AtlRelease.StatusReports` | gps/loc_api/libloc_api_50001/loc_eng_agps.cpp:946-970 | What the modem hears of a handle: UNSUBSCRIBE and a reported close say that it is closed, and RELEASED does so for an ATL machine only. |
| `AtlRelease.EntrySurvivesRelease` | gps/loc_api/libloc_api_50001/loc_eng.cpp:1133-1161 | The modem is told that its handle is closed, and an active entry of the DS machine for it lives on if and only if an ATL machine lists the handle too or the DS machine is Released. |
| `AtlRelease.FallbackKeepsEntry` | gps/loc_api/libloc_api_50001/loc_eng_agps.cpp:891-902 | A data call that cannot be had asks for ordinary ATL with the same handle and leaves the DS machine Released with the entry active. |
| `AtlRelease.FallbackThenRelease` | gps/loc_api/libloc_api_50001/loc_eng.cpp:1136-1142 | The run from there: the SUPL machine takes the handle on, the modem releases it and is told that it is closed, and the DS machine lists it as active. |
| `AtlRelease.FallbackAloneThenRelease` | gps/loc_api/libloc_api_50001/loc_eng.cpp:1154-1161 | The same without any ATL machine: the DS machine itself is asked, in Released. |
| `AtlRelease.AtlAnswersOnce` | gps/loc_api/libloc_api_50001/loc_eng_agps.cpp:146-183 | An ATL machine that lists the handle answers with exactly one close status, in every state. |
| `AtlRelease.DsAnswersOnce` | gps/loc_api/libloc_api_50001/loc_eng_agps.cpp:234-238 | The DS machine does so in every state, also in Released, where it tells the caller and keeps the entry. |
| `AtlRelease.ReleaseAtl` | gps/loc_api/libloc_api_50001/loc_eng.cpp:1133-1167 | The release handler over the three machine objects, whatever has happened to them: exactly one close status, for the handle, saying whether any machine listed it; the machines end as the release function says. |
| `AtlRelease.TurnsAreRelease` | gps/loc_api/libloc_api_50001/loc_eng.cpp:1133-1167 | What the three machines do in turn is the release. |
| `AtlRelease.UnsubscribeFrom` | gps/loc_api/libloc_api_50001/loc_eng_agps.cpp:789-801 | True exactly if the handle was listed; then its state and outputs are those of UNSUBSCRIBE, otherwise nothing changed. |
| `AgpsStateMachines.AgpsStateMachine.OnResourceEvent` | gps/loc_api/libloc_api_50001/loc_eng_agps.cpp:700-713 | GRANTED, RELEASED and DENIED leave state, list, retries and outputs as the model of the event says, for either machine kind. |
| `AgpsStateMachines.AgpsStateMachine.ReleasedOnDs` | gps/loc_api/libloc_api_50001/loc_eng_agps.cpp:913-944 | A RELEASED that leaves the DS machine in its state is followed by a DENIED. |
| `AgpsStateMachines.AgpsStateMachine.SubscribeResource` | gps/loc_api/libloc_api_50001/loc_eng_agps.cpp:779-787 | A subscription leaves the machine as the model of SUBSCRIBE says. |
| `AgpsStateMachines.AgpsStateMachine.UnsubscribeResource` | gps/loc_api/libloc_api_50001/loc_eng_agps.cpp:789-801 | True exactly if the client was listed; the machine ends as the model of UNSUBSCRIBE says. |
| `AgpsStateMachines.AgpsStateMachine.NotifyAndDelete` | gps/loc_api/libloc_api_50001/loc_eng_agps.cpp:715-736 | The repeated search-and-delete passes end, delete exactly the clients a notification is for, in list order, and tell each of them once. |
| `AgpsStateMachines.AgpsStateMachine.NotifyOnly` | gps/loc_api/libloc_api_50001/loc_eng_agps.cpp:69-81 | A notification without deletion tells everybody it is for once, in order, and keeps the list. |
| `AgpsStateMachines.AgpsStateMachine.DeleteSearch` | gps/loc_api/libloc_api_50001/loc_eng_agps.cpp:718-735 | One pass tells and deletes exactly the first client the notification is for, and nobody if there is none. |
| `AgpsStateMachines.AgpsStateMachine.RequestsBalance` | gps/loc_api/libloc_api_50001/loc_eng_agps.cpp:258-579 | The request ledger for every machine object, over the events it has handled. |
| `AgpsStateMachines.AgpsStateMachine.SubscriptionsBalance` | gps/loc_api/libloc_api_50001/loc_eng_agps.cpp:715-748 | The subscription ledger for every machine object. |
| `AgpsStateMachines.AgpsStateMachine.GrantsCohere` | gps/loc_api/libloc_api_50001/loc_eng_agps.cpp:421-568 | Grant coherence for every machine object. |
| `AgpsStateMachines.AgpsStateMachine.AddSubscriber` | gps/loc_api/libloc_api_50001/loc_eng_agps.cpp:738-748 | An active clone is prepended unless an equal subscriber is listed. |
| `AgpsStateMachines.AgpsStateMachine.SendRsrcRequest` | gps/loc_api/libloc_api_50001/loc_eng_agps.cpp:750-777 | REQUEST goes out if somebody is active, RELEASE if nobody is; the DS machine starts its data call or counts a retry instead. |
| `AgpsStateMachines.AgpsStateMachine.DataCallReturned` | gps/loc_api/libloc_api_50001/loc_eng_agps.cpp:852-911 | What each result of starting the data call leads to: waiting, a retry timer, or a fallback for the first active client. |
| `AgpsStateMachines.AgpsStateMachine.HasActiveSubscribers` | gps/loc_api/libloc_api_50001/loc_eng_agps.cpp:803-810 | True exactly if some listed client is active; nothing changes. |
| `AgpsStateMachines.AgpsStateMachine.SettleState` | gps/loc_api/libloc_api_50001/loc_eng_agps.cpp:341-368 | After a client left a Pending or Acquired machine: Released with a release if nobody is left, Releasing with a release if nobody active is left. |
| `AgpsStateMachines.AgpsStateMachine.CloseReleasing` | gps/loc_api/libloc_api_50001/loc_eng_agps.cpp:550-568 | The end of a release: inactive clients are told and deleted; a new request goes out if somebody active waits. |
| `AgpsStateMachines.AgpsStateMachine.ReleasedOnSubscribe` | gps/loc_api/libloc_api_50001/loc_eng_agps.cpp:270-285 | A subscriber of a Released machine is added and a request tried; the next state says whether it started. |
| `AgpsStateMachines.AgpsStateMachine.AcquiredOnSubscribe` | gps/loc_api/libloc_api_50001/loc_eng_agps.cpp:427-439 | A subscriber of an Acquired machine is told GRANTED at once and added. |
| `AgpsStateMachines.AgpsStateMachine.WaitingOnSubscribe` | gps/loc_api/libloc_api_50001/loc_eng_agps.cpp:331-340 | A subscriber of a Pending or Releasing machine is only added. |
| `AgpsStateMachines.AgpsStateMachine.LeaveList` | gps/loc_api/libloc_api_50001/loc_eng_agps.cpp:341-368 | A client that waits for its close is marked inactive, any other is told and deleted. |
| `AgpsStateMachines.AgpsStateMachine.SetSubscriberInactive` | gps/loc_api/libloc_api_50001/loc_eng_agps.h:387-413 | Marks exactly that client; a DS client reports its close at once. |
| `AgpsStateMachines.AgpsStateMachine.PendingOnEvent` | gps/loc_api/libloc_api_50001/loc_eng_agps.cpp:369-403 | GRANTED, RELEASED and DENIED in Pending, as the model says, of which StepOutputs and StepControl say what it does. |
| `AgpsStateMachines.AgpsStateMachine.AcquiredOnEvent` | gps/loc_api/libloc_api_50001/loc_eng_agps.cpp:468-497 | GRANTED, RELEASED and DENIED in Acquired. |
| `AgpsStateMachines.AgpsStateMachine.ReleasingOnEvent` | gps/loc_api/libloc_api_50001/loc_eng_agps.cpp:550-577 | GRANTED, RELEASED and DENIED in Releasing. |
| `AgpsStateMachines.AgpsStateMachine.DropAllSubscribers` | gps/loc_api/libloc_api_50001/loc_eng_agps.h:242-243 | The list is emptied, nobody is told, the state stays. |
| `AgpsStateMachines.AgpsStateMachine.RetryCallback` | gps/loc_api/libloc_api_50001/loc_eng_agps.cpp:838-850 | The retry timer asks again for the first active client, if there is one. |
| `Subscribers.EqualsIsSameKey` | gps/loc_api/libloc_api_50001/loc_eng_agps.cpp:106-113 | Among subscribers of one kind, equals is equality of keys, so an equivalence; BIT subscribers without IPv4 address are equal if and only if their IPv6 buffers agree up to a NUL that ends both, or altogether. |
| `Subscribers.ForMeIsTarget` | gps/loc_api/libloc_api_50001/loc_eng_agps.cpp:94-105 | Which subscribers a notification is for, by receiver or by group. |
| `Subscribers.Subscriber.Clone` | gps/loc_api/libloc_api_50001/loc_eng_agps.h:319-410 | A clone is a new, equal and active subscriber. |
| `LinkedLists.LinkedList.Add` | gps/utils/linked_list.c:110-155 | Prepends a node; head, tail, next and prev again describe one sequence. |
| `LinkedLists.LinkedList.Remove` | gps/utils/linked_list.c:162-204 | Hands out and unlinks the last element; an empty list is an error and stays as it is. |
| `LinkedLists.LinkedList.Empty` | gps/utils/linked_list.c:211-223 | True exactly if the sequence is empty. |
| `LinkedLists.LinkedList.Flush` | gps/utils/linked_list.c:230-260 | Empties the list, disposing of each datum that came with a deallocation function. |
| `LinkedLists.LinkedList.Search` | gps/utils/linked_list.c:267-327 | Calls the callback on the elements from the head up to the first match, and copies out and unlinks exactly that one, as asked. |
| `LinkedLists.LinkedList.Unlink` | gps/utils/linked_list.c:298-310 | The four cases (only, first, last, middle) each take exactly the node at its position out of the sequence. |
| `LinkedLists.RunConserves` | gps/utils/linked_list.c:110-327 | Over any run of operations every datum added is in exactly one place: linked, handed out, disposed of, or let go. |
| `LinkedLists.RunAdds` | gps/utils/linked_list.c:110-155 | What a run of operations has added are exactly the data of its add operations, in order. |
| `LinkedLists.FlushSorts` | gps/utils/linked_list.c:230-260 | A flush hands nothing out: from the head on, data with a deallocation function are disposed of and the others let go. |
| `LinkedLists.LinkedList.ConservesData` | gps/utils/linked_list.c:110-327 | Every datum that was added to a list object by its operations, and nothing else, is in exactly one place. |
| `MsgQueueModel.NoLostWakeup` | gps/utils/msg_q.c:185-267 | Every reachable state of any number of threads, spurious wakeups included: if a receiver sleeps, at least as many are due to run as messages are queued, and such a receiver gets the oldest message; after unblock nobody sleeps. |
| `MsgQueueModel.RunKeepsInv` | gps/utils/msg_q.c:185-331 | The invariant behind it is kept by every step. |
| `MsgQueueModel.AcceptedInOrder` | gps/utils/msg_q.c:185-299 | As long as nobody flushes the queue: the messages that receivers were handed, followed by those still queued, are the messages of all sends before the queue was unblocked, in order. |
| `MsgQueueModel.HistoryDecides` | gps/utils/msg_q.c:185-331 | For every run, read off its steps alone: the queue holds the messages of the sends before the unblock, in order, without those that a flush or a receiver has taken; it is unblocked exactly if an unblock came; a thread sleeps, or is woken and due, exactly if it found nothing when it last looked and was, or was not yet, woken since. |
| `MsgQueueModel.Answers` | gps/utils/msg_q.c:185-331 | What every call returns, read off the earlier steps alone: a send is accepted exactly if no unblock came before it, and a receiver gets the oldest message that has not left, waits, or is turned away. |
| `MsgQueueModel.UnblockIsFinal` | gps/utils/msg_q.c:306-331 | After unblock no message is added, what is queued only leaves from the front, nobody falls asleep, and no more threads become due. |
| `MsgQueues.MsgQueue.Send` | gps/utils/msg_q.c:185-221 | The queue after a send is that of the model, and the message is accepted exactly if no unblock came before. |
| `MsgQueues.MsgQueue.Receive` | gps/utils/msg_q.c:228-250 | The queue after it is that of the model; the receiver gets the oldest message sent that has not left or falls asleep, and is turned away once an unblock has come. |
| `MsgQueues.MsgQueue.Resume` | gps/utils/msg_q.c:247-269 | The queue after it is that of the model; a receiver back from its wait takes the oldest message sent that has not left, leaves because of an unblock, or falls asleep again. |
| `MsgQueues.MsgQueue.Flush` | gps/utils/msg_q.c:276-299 | Removes all queued messages and wakes nobody. |
| `MsgQueues.MsgQueue.Unblock` | gps/utils/msg_q.c:306-336 | Sets the flag once and wakes everybody. |
| `MsgQueues.MsgQueue.NobodySleepsBesideMessages` | gps/utils/msg_q.c:201-264 | In every queue object: while a receiver sleeps beside a message, another one is due to run and gets the oldest message. |
| `MsgQueues.MsgQueue.HoldsWhatWasSent` | gps/utils/msg_q.c:185-331 | The list of every queue object holds the messages sent that have not left, the oldest last, and the threads inside a wait are those that found nothing. |
| `MsgTask.ProcessedInOrder` | gps/core/MsgTask.cpp:104-140 | With one consumer: the messages posted before Stop = those processed, in hand, queued and destroyed, in that order; it exits only after the stop, and until then nothing is destroyed. |
| `MsgTask.ConsumerDecides` | gps/core/MsgTask.cpp:117-140 | Where the consumer goes next: it takes the oldest message or waits; after the stop it takes none on its own and exits when it comes back empty-handed. |
| `MsgTask.ConsumerIsOnItsWay` | gps/core/MsgTask.cpp:117-140 | The consumer never waits beside a queued message: its next step takes the oldest one. |
| `MsgTask.RunKeepsTaskInv` | gps/core/MsgTask.cpp:108-140 | The invariant of queue and consumer loop together. |
| `NiHistory.PayloadsConserved` | gps/loc_api/libloc_api_50001/loc_eng_ni.cpp:112-304 | For every run from the start, threads left over from a restart included: the payloads of the requests that were taken are, each once, outstanding, forwarded, freed as ignored or freed by a restart; which are taken, outstanding and freed by a restart is read off the calls. |
| `NiModel.StepKeepsSessions` | gps/loc_api/libloc_api_50001/loc_eng_ni.cpp:126-195 | Every step keeps: threads have ids given out so far and the counter never decreases; if both sessions are outstanding the emergency request has the larger id; each outstanding request has its own live timer thread. |
| `NiModel.TimeoutResolves` | gps/loc_api/libloc_api_50001/loc_eng_ni.cpp:221-260 | A timeout can always resolve what is outstanding, and forwards it once, as unanswered. |
| `NiModel.AcceptedIdIsFresh` | gps/loc_api/libloc_api_50001/loc_eng_ni.cpp:126-153 | An accepted request gets an id no request had before. |
| `NiHistory.RunAgrees` | gps/loc_api/libloc_api_50001/loc_eng_ni.cpp:112-195 | In every reachable state, read off the calls alone: which request is outstanding in each session, with its payload and its id, how many requests were taken, and for which session each was. |
| `NiHistory.VerdictIsHeard` | gps/loc_api/libloc_api_50001/loc_eng_ni.cpp:372-414 | In every reachable state the verdict on an outstanding request is the latest answer addressed to it: the response of the last respond call with its id while it was outstanding, or IGNORE if the emergency request was accepted after that. |
| `NiHistory.ResolvedAsHeard` | gps/loc_api/libloc_api_50001/loc_eng_ni.cpp:221-260 | As long as no request is taken into a session while a thread of it has not left its wait, what is forwarded and what is freed as ignored is exactly, and in order, what the calls demand: each outstanding request is resolved by its own thread, with the latest answer addressed to it if the thread was woken, and as unanswered if its time was up. |
| `NiHistory.ResponseIsForwarded` | gps/loc_api/libloc_api_50001/loc_eng_ni.cpp:402-408 | In every reachable state: once the user responds to an outstanding request its own thread can leave its wait, and then the modem is sent exactly that response, or the payload is freed if it is IGNORE. |
| `NiHistory.RestartWakes` | gps/loc_api/libloc_api_50001/loc_eng_ni.cpp:282-304 | A restart leaves nothing outstanding and lets the threads of what was outstanding leave their waits. |
| `NiHistory.LogsAgree` | gps/loc_api/libloc_api_50001/loc_eng_ni.cpp:126-153 | The payloads taken, rejected and freed by a restart, read off the calls: an ordinary request is rejected while either session has an outstanding request, an emergency one while its own has. |
| `NiHistory.LeftOverIsServing` | gps/loc_api/libloc_api_50001/loc_eng_ni.cpp:208-260 | In every reachable state something is left over in a session if and only if a thread of it has not left its wait. |
| `NiModel.LeftOversResolveRequest` | gps/loc_api/libloc_api_50001/loc_eng_ni.cpp:126-153 | Right after a request is accepted, some thread can resolve it otherwise if and only if, before, an answer was noted in its session or a thread still served it. |
| `NiHistory.UncleanRunGoesWrong` | gps/loc_api/libloc_api_50001/loc_eng_ni.cpp:227-260 | And only then: every run that takes a request into a session with a thread left over has a next step that resolves the request although no answer to it was heard, and not by its own timer. |
| `NiHistory.WithoutRestartClean` | gps/loc_api/libloc_api_50001/loc_eng_ni.cpp:271-304 | A thread is left over only after an engine restart or a request with a null payload. |
| `NiModel.RestartAnswersNextRequest` | gps/loc_api/libloc_api_50001/loc_eng_ni.cpp:282-304 | A run in which the thread left over from before a restart forwards the next request with a response nobody gave. |
| `NiModel.LeftOverThreadTimesRequestOut` | gps/loc_api/libloc_api_50001/loc_eng_ni.cpp:238-243 | A run in which a left-over thread times a later request out while that request's own timer runs on, no answer having been noted when it was accepted. |
| `NiModel.NullRequestTimesNextRequestOut` | gps/loc_api/libloc_api_50001/loc_eng_ni.cpp:126-153 | The same without a restart, after a request with a null payload. |
| `NiModel.RestartDropsNextRequest` | gps/loc_api/libloc_api_50001/loc_eng_ni.cpp:250-260 | A run in which the next request is freed unanswered, because the session still holds the IGNORE of an earlier emergency. |
| `NiEngine.NiData.RequestHandler` | gps/loc_api/libloc_api_50001/loc_eng_ni.cpp:112-195 | The handler on the session objects does what the model says: busy sessions reject, others accept and start a timer. |
| `NiEngine.NiData.Respond` | gps/loc_api/libloc_api_50001/loc_eng_ni.cpp:372-414 | A response reaches the session with that id; accepting the emergency request makes the ordinary one ignored; NiHistory.ResponseIsForwarded says what comes of it. |
| `NiEngine.NiData.ResetOnEngineRestart` | gps/loc_api/libloc_api_50001/loc_eng_ni.cpp:271-307 | Both sessions: the payload is freed, the thread is told to leave. |
| `NiEngine.NiData.LeaveWait` | gps/loc_api/libloc_api_50001/loc_eng_ni.cpp:221-269 | The end of a timer thread: forwards or frees the payload and resets the session. |
| `NiEngine.NiData.Init` | gps/loc_api/libloc_api_50001/loc_eng_ni.cpp:325-354 | Resets both sessions once. |
| `NiEngine.NiData.ResolvesAsHeard` | gps/loc_api/libloc_api_50001/loc_eng_ni.cpp:221-260 | What every NI object has forwarded or freed as ignored is what the calls demand, unless it took a request into a session with a thread left over. |
| `NiEngine.NiData.HoldsWhatIsOpen` | gps/loc_api/libloc_api_50001/loc_eng_ni.cpp:112-414 | Every NI object holds the requests that the calls left outstanding. |
| `NmeaChecksum.PutChecksum` | gps/loc_api/libloc_api_50001/loc_eng_nmea.cpp:84-98 | In place: the buffer ends with as much of the checksum field as fits, a NUL within the buffer; the value returned is the length of the text plus 4, one less than that of the sentence. |
| `NmeaChecksum.RoundTrip` | gps/loc_api/libloc_api_50001/loc_eng_nmea.cpp:84-98 | For every text led by a dollar sign and without star, a receiver that checks the sentence gets the text back. |
| `NmeaChecksum.ChecksumIsParity` | gps/loc_api/libloc_api_50001/loc_eng_nmea.cpp:84-98 | The field is a star, two hexadecimal digits and the end of the line; a bit of the number they denote is set exactly if an odd number of the bytes after the dollar sign have it. |
| `NmeaChecksum.BufferHoldsSentence` | gps/loc_api/libloc_api_50001/loc_eng_nmea.cpp:97-98 | If and only if there is room, the buffer holds the whole sentence; otherwise exactly as much as fits. |
| `NmeaChecksum.OneWrongByteIsNoticed` | gps/loc_api/libloc_api_50001/loc_eng_nmea.cpp:91-95 | A sentence with one character of its text changed to another byte is refused. |
| `NmeaChecksum.DecodeWithField` | gps/loc_api/libloc_api_50001/loc_eng_nmea.cpp:84-98 | A receiver accepts a text with a checksum field exactly if the field is the exclusive or of the text. |
| `NmeaText.ParsePadded` | gps/loc_api/libloc_api_50001/loc_eng_nmea.cpp:689-693 | Every integer written with %d, %02d or %03d, negative ones included, reads back as itself. |
| `NmeaText.FillsWidth` | gps/loc_api/libloc_api_50001/loc_eng_nmea.cpp:689-693 | A number that fits the width of its conversion is printed in exactly that width. |
| `NmeaGsv.ReportRoundTrip` | gps/loc_api/libloc_api_50001/loc_eng_nmea.cpp:645-788 | For any report the device can make: from the sentences of a constellation a receiver reads exactly as many readings as the report has satellites with numbers 1-32 or 65-96, in order; the i-th has the number of the i-th satellite, its elevation and azimuth to the nearest integer (for values from -0.5 up), and a signal exactly if it is positive, to the nearest integer. |
| `NmeaGsv.SentenceRoundTrip` | gps/loc_api/libloc_api_50001/loc_eng_nmea.cpp:659-714 | Each sentence reads back as its total, its place, the number in view and its own satellites. |
| `NmeaGsv.RoundedIsNearest` | gps/loc_api/libloc_api_50001/loc_eng_nmea.cpp:692-693 | Adding one half and truncating gives the nearest integer if and only if the value is at least -0.5 or lies midway between two integers. |
| `NmeaGsv.Packing` | gps/loc_api/libloc_api_50001/loc_eng_nmea.cpp:652-657 | n satellites take n/4 sentences, rounded up; all but the last have four blocks, the last has one to four. |
| `NmeaGsv.NeverOverflows` | gps/loc_api/libloc_api_50001/loc_eng_nmea.cpp:659-714 | With at most 32 satellites, no values that C can convert to int make a sentence overflow the 200-byte buffer, checksum and NUL included. |
| `NmeaGsv.StandardLength` | gps/loc_api/libloc_api_50001/loc_eng_nmea.cpp:659-714 | For elevation 0-90, azimuth 0-360 and signal 0-99 a sentence has at most 70 characters. |
| `NmeaGsv.BlockColumns` | gps/loc_api/libloc_api_50001/loc_eng_nmea.cpp:689-705 | In the standard's ranges a block has fixed columns, two for the number, two for the elevation, three for the azimuth and two or none for the signal, and each reads back. |
| `NmeaGenerator.CountInView` | gps/loc_api/libloc_api_50001/loc_eng_nmea.cpp:621-632 | Counts the satellites of each constellation; others are in neither. |
| `NmeaGenerator.FillSentence` | gps/loc_api/libloc_api_50001/loc_eng_nmea.cpp:659-709 | The marker loop fills one sentence with the header and the next at most four satellites of the constellation, or stops exactly if that text does not fit. |
| `NmeaGenerator.GenerateGsv` | gps/loc_api/libloc_api_50001/loc_eng_nmea.cpp:638-718 | The sentences sent for a constellation, the blank one included; false exactly if one did not fit. |
| `NmeaGenerator.NmeaCache.GenerateSv` | gps/loc_api/libloc_api_50001/loc_eng_nmea.cpp:603-831 | What a satellite report sends, of which ReportIsWhole says what a receiver reads, and what it leaves in the cache; a sentence that does not fit ends it before the cache is touched. |
| `NmeaGenerator.ReportIsWhole` | gps/loc_api/libloc_api_50001/loc_eng_nmea.cpp:603-831 | A report that the device can make is handled to its end: what is sent is a first part from which a receiver reads all GPS satellites as the report has them, or one sentence that tells of none, then the same for GLONASS, and then four blank sentences exactly if no satellite is used. |
| `NmeaGenerator.NmeaCache.GeneratePos` | gps/loc_api/libloc_api_50001/loc_eng_nmea.cpp:138-583 | A position report sends the GSA sentence of the cached mask and clears it, or sends blank sentences and keeps it; either way the cached precision is cleared. |
| `NmeaGenerator.NmeaCache.HoldsWhatWaits` | gps/loc_api/libloc_api_50001/loc_eng_nmea.cpp:790-812 | A cache object holds a mask exactly while one waits in it. |
| `NmeaGenerator.BlankTellsNoFix` | gps/loc_api/libloc_api_50001/loc_eng_nmea.cpp:561-563 | A receiver of the blank GSA sentence reads that there is no fix, no satellite and no precision. |
| `NmeaGenerator.GenerateGsa` | gps/loc_api/libloc_api_50001/loc_eng_nmea.cpp:142-213 | The GSA sentence built in the buffer for a mask. |
| `NmeaGsa.ExpandMask` | gps/loc_api/libloc_api_50001/loc_eng_nmea.cpp:142-152 | The shift loop lists exactly the positions of the mask and never runs past its array of 32. |
| `NmeaGsa.PositionsAreBits` | gps/loc_api/libloc_api_50001/loc_eng_nmea.cpp:145-150 | A position is listed exactly if its bit is set. |
| `NmeaGsa.PositionsIncrease` | gps/loc_api/libloc_api_50001/loc_eng_nmea.cpp:145-150 | Positions strictly increase, from 1 to the width of the mask. |
| `NmeaGsa.PositionsDetermineMask` | gps/loc_api/libloc_api_50001/loc_eng_nmea.cpp:145-150 | The positions add up to the mask. |
| `NmeaGsa.PositionsCount` | gps/loc_api/libloc_api_50001/loc_eng_nmea.cpp:145-150 | There are as many as bits set. |
| `NmeaGsa.GsaRoundTrip` | gps/loc_api/libloc_api_50001/loc_eng_nmea.cpp:154-213 | A receiver reads no fix for no satellite, a fix in two dimensions for up to three and in three for more, the first twelve positions, and the position, horizontal and vertical dilution of precision to the tenth, in that order, or none. |
| `NmeaGsa.GsaLength` | gps/loc_api/libloc_api_50001/loc_eng_nmea.cpp:162-183 | The sentence fits into the buffer for every 32-bit mask and every float precision. |
| `NmeaGsa.SlotWidth` | gps/loc_api/libloc_api_50001/loc_eng_nmea.cpp:162-183 | Each used satellite takes two columns. |
| `NmeaGsa.CachedMaskIsLatest` | gps/loc_api/libloc_api_50001/loc_eng_nmea.cpp:790-812 | In any interleaving of reports, the cached mask is that of the latest report to store one, unless a position report consumed it since. |
| `NmeaGsa.CachedDopIsLatest` | gps/loc_api/libloc_api_50001/loc_eng_nmea.cpp:577-580 | The cached precision is that of the latest report to store a mask; unlike the mask it does not outlive a position report that only sends blank sentences. |
| `NmeaGsa.FeedsOnce` | gps/loc_api/libloc_api_50001/loc_eng_nmea.cpp:151-152 | A stored mask is listed by at most one GSA sentence. |
| `NmeaGsa.ListsWhatFeedsIt` | gps/loc_api/libloc_api_50001/loc_eng_nmea.cpp:138-213 | The GSA sentence of a position report tells the lowest twelve satellites of the one mask that feeds it and the kind of fix that their number means, and no fix if none does. |
| `NmeaGsa.TellsLatestDop` | gps/loc_api/libloc_api_50001/loc_eng_nmea.cpp:188-208 | Its precision is that of the position report; failing that, that of the latest satellite report to store a mask, if all three values are above zero and no position report came since; otherwise none. |
| `AdapterTable.RunKeepsInv` | gps/core/LocApiBase.cpp:156-202 | Over any run of adds and removes: no adapter twice, at most 10, and listed exactly if added while there was room and not removed since. |
| `AdapterTable.RemovesExactly` | gps/core/LocApiBase.cpp:168-189 | A removal deletes exactly the given adapter. |
| `AdapterTable.RemovalEffects` | gps/core/LocApiBase.cpp:190-200 | Close exactly if the last adapter goes; otherwise the mask opened has exactly the events that some remaining adapter wants and that are not excluded. |
| `AdapterTable.AdditionEffects` | gps/core/LocApiBase.cpp:156-166 | Adding opens the adapter's own events exactly if it is new and fewer than ten are listed, and does nothing otherwise. |
| `AdapterTable.LocApiBase.AddAdapter` | gps/core/LocApiBase.cpp:156-166 | Adds after the last adapter and opens its events; a full table or a listed adapter changes nothing. |
| `AdapterTable.LocApiBase.RemoveAdapter` | gps/core/LocApiBase.cpp:168-202 | The loop ends, the array has no hole before its last adapter, and the table and the effects are those of the removal. |
| `AdapterTable.LocApiBase.HoldsWhoStands` | gps/core/LocApiBase.cpp:156-202 | A table object holds exactly the adapters added while there was room and not removed since. |
| `AdapterTable.LocApiBase.MoveLast` | gps/core/LocApiBase.cpp:174-200 | The last adapter takes the removed one's place. |
| `AdapterTable.LocApiBase.GetEvtMask` | gps/core/LocApiBase.cpp:134-141 | The union of the masks of all adapters without the excluded bits. |
| `AdapterTable.LocApiBase.IsInSession` | gps/core/LocApiBase.cpp:143-154 | True exactly if some adapter is in a session. |
| `AdapterTable.UnionIsUnion` | gps/core/LocApiBase.cpp:138-138 | An event is in the union exactly if some adapter wants it. |
| `MuteSession.MutedExactly` | gps/loc_api/libloc_api_50001/loc_eng.cpp:2487-2507 | For every run with any number of requests: muted exactly from the first session begin or engine on after the latest request until the first session end or engine off after that. |
| `MuteSession.SilencedExactly` | gps/loc_api/libloc_api_50001/loc_eng.cpp:2508-2522 | A status, position or satellite report is kept from the client exactly while muted, the begin report included and the end report not. |
| `MuteSession.SentencesExactly` | gps/loc_api/libloc_api_50001/loc_eng.cpp:789-799 | NMEA sentences are generated for a position exactly while not muted and for a fix from satellites, for real exactly if the client was given the fix. |
| `MuteSession.CallsExactly` | gps/loc_api/libloc_api_50001/loc_eng.cpp:736-812 | Over any run, for every event and every call (a status told, a position, sentences, satellites, starting and stopping the engine): it is made exactly if a condition on the event, on whether the client is navigating and on whether a session is muted holds, once, and in a fixed order. |
| `MuteSession.WantedByStatus` | gps/loc_api/libloc_api_50001/loc_eng.cpp:743-774 | What the client wants: every failure, a fix from satellites, and an intermediate or another fix if intermediate ones are accepted and it is accurate enough. |
| `MuteSession.MutesOneSession` | gps/loc_api/libloc_api_50001/loc_eng.cpp:1820-1825 | With a single request, the reports kept are those from the first begin after it to the first end after that. |
| `MuteSession.LocEngine.MutesWhatWasAsked` | gps/loc_api/libloc_api_50001/loc_eng.cpp:2487-2507 | An engine object is muted exactly as the requests and reports it has handled demand. |
| `MuteSession.StatusesAreLatest` | gps/loc_api/libloc_api_50001/loc_eng.cpp:2524-2535 | Over any run, muted or not, engine and fix session status are the latest reported. |
| `MuteSession.NoStatusYet` | gps/loc_api/libloc_api_50001/loc_eng.cpp:2524-2535 | Before any report there is no status. |
| `MuteSession.NavigatingExactly` | gps/loc_api/libloc_api_50001/loc_eng.cpp:775-788 | Over any run: the client is navigating exactly if a start was accepted and no stop, refused restart or unmuted single-shot fix came since. |
| `MuteSession.OwnSessionsAreTold` | gps/loc_api/libloc_api_50001/loc_eng.cpp:1732-1750 | What the client is told of its own start and stop does not depend on muting. |
| `MuteSession.LocEngine.Report` | gps/loc_api/libloc_api_50001/loc_eng.cpp:2487-2536 | Mute state, engine and fix status and what is told, for every status. |
| `MuteSession.LocEngine.ReportPosition` | gps/loc_api/libloc_api_50001/loc_eng.cpp:736-812 | A muted position changes nothing; otherwise the client hears of it, the engine is stopped, the session ended and sentences generated under exactly the conditions of the handler. |
| `MuteSession.LocEngine.ReportSv` | gps/loc_api/libloc_api_50001/loc_eng.cpp:835-851 | A satellite report is passed on unless muted. |
| `MuteSession.LocEngine.HandleEngineUp` | gps/loc_api/libloc_api_50001/loc_eng.cpp:2566-2588 | Engine on is reported and an interrupted session restarted. |
| `MuteSession.LocEngine.StartFixing` | gps/loc_api/libloc_api_50001/loc_eng.cpp:1732-1754 | A start out of session that the modem accepts opens the session and is told. |
| `MuteSession.LocEngine.StopFixing` | gps/loc_api/libloc_api_50001/loc_eng.cpp:1784-1800 | A stop ends the session, and is told if the modem accepts it. |

## Left out

- Allocation failure, errors of `pthread_create`, null handles and the error codes for bad parameters.
- Logging, properties, sockets, pipes, and the adapters' pass-through calls.
- What notifications carry beyond status and key: bearer, APN, addresses, WIFI credentials.
- Choosing a machine for a type and handling `LocEngRequestATL`: a plain selection followed by the subscription that is modelled.
- Destroying a queue, a list or a machine while it is in use.
- Wrap-around of `reqIDCounter`.
- Floating-point text: positions, times, speeds and bearings (the VTG, RMC and GGA sentences of a position report) are not modelled, and of a dilution of precision only the printed tenths and whether it is above zero are kept. Satellite values are real numbers, rounded as the code rounds them.
- NmeaGenerator.NmeaCache.GeneratePos: states the GSA sentence and the cache only; a formatting error in a later sentence of the same report, which would leave the cached precision in place, is not modelled.
- NmeaGenerator.GenerateGsa: does not return early when a field does not fit, because by `NmeaGsa.GsaLength` each of them fits.
- MuteSession.LocEngine.ReportPosition: passes a position on as located or not, without its coordinates, and says that sentences are generated without saying which; `NmeaGenerator` has the GSA sentence.
- Event masks are sets of bit numbers below 32 instead of machine words.
- `loc_timer.c`, the configuration reader, the address decoders and the Java and build files.
