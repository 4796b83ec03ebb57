# A verified model of the VDA 5050 controllers

This project models the logic of a TypeScript library for VDA 5050 version 1.1, the protocol between a master control
and automated guided vehicles (AGVs), and proves what it promises. A master assigns orders (chains of nodes and edges
with actions) to a vehicle; the vehicle validates them, stitches them onto the order it is executing, drives, schedules
the actions by their blocking types, and publishes states, from which the master reconstructs what happened.

## What is modelled

| file | component |
|---|---|
| `Orders.dfy` | orders, their validation, and stitching |
| `ActionLists.dfy`, `ListController.dfy` | blocking types on one list of node or edge actions, with endings inside the dispatching call |
| `AgvEngine.dfy`, `AgvController.dfy` | the order engine of the vehicle: as a state machine, and as the class that updates its fields |
| `AgvInvariants.dfy`, `AgvRuns.dfy`, `AgvProperties.dfy` | what every run of the engine keeps, over many orders, some of them canceled |
| `AgvOrders.dfy` | which arriving orders are taken over, and how update ids rise |
| `AgvCalls.dfy`, `AgvExecution.dfy` | the calls to the adapter: their arguments and order, and that each action is executed and each edge traversed once |
| `AgvStitching.dfy` | exactly when a stitched order goes on, and what happens otherwise |
| `AgvCancelation.dfy`, `AgvLateReports.dfy` | the cancelation protocol, and what late reports do to it |
| `AgvReports.dfy`, `ReportChain.dfy` | which states are published, and how each follows from the one before |
| `Master.dfy`, `MasterController.dfy` | the order tracking of the master: on values, and as linked objects updated in place |
| `MasterAgreement.dfy`, `System.dfy` | both ends together, over a queue of orders and a queue of states, in any interleaving |
| `InstantActions.dfy`, `InstantController.dfy` | the queue of instant actions |
| `VirtualActions.dfy`, `VirtualPause.dfy`, `VirtualOutcome.dfy`, `VirtualTiming.dfy`, `VirtualMachine.dfy` | the action state machine of the virtual vehicle |
| `Estimator.dfy` | the estimated execution time, against the scheduler |
| `VehicleMotion.dfy` | straight-line motion and battery drain, over reals |
| `Multiples.dfy` | multiples of an interval, for the bounds in time |
| `MqttUtils.dfy`, `MqttTopics.dfy` | UTF-8 lengths, topic formats |
| `Subscriptions.dfy`, `SubscriptionManager.dfy`, `BrokerFilters.dfy` | the subscription index, the flat list it stands for, and the filters a broker holds |

Where the library changes state step by step there is a class whose methods are tied to functions on values; the
properties of all runs are proved about these functions. A class with a ghost field (`agv`, `tracker`, `queue`, `live`)
keeps the value its real fields stand for in it. `Run`, `After`, `Course`, `Play`, and `Meanwhile` give the state after a sequence
of events, each of which has to be possible when it comes.

## Assumptions

- Action ids are unique within an order, and every dispatched action and every traversal reports its end once.
- In runs over several orders (`AgvInvariants.Ordinary`) the lists of actions are clean: the actions after the last HARD
  one are none, a single one, or all SOFT. Orders are aligned: an edge is released exactly if its end node is. If an order
  that is stitched carries actions on its first node, something still leads to them (`AgvInvariants.Continues`). A
  cancelation finds a status reported for every dispatched action (`AgvRuns.Proper`). What happens otherwise is stated
  below.
- For the agreement of both ends, an assigned order has a base and a pair of ids that was not used before, unless it
  repeats that of a tracked order, and no order is canceled. The links between vehicle and master are queues that neither lose nor reorder.
- The vehicle is not paused while it executes orders; pausing is modelled inside the action state machine.

## What the code does not keep

Each of these is proved together with the exact condition under which the code does keep it.

- A list that is not clean can start the following edge twice (`ActionLists.ProceedsOnceIffClean`).
- The validation also admits orders with every edge released and some node not; stitching onto such an order never gives
  an order the validation admits (`Orders.StitchWellFormedIffAligned`).
- An order that is stitched goes on with the actions of its first node if and only if it has none, or the end of the base
  is still ahead, or one of the HARD actions there has not ended, or any has not and the first new one is HARD
  (`AgvStitching.StitchContinuesIff`, for one list `ActionLists.AppendedServedIff`). Otherwise it is accepted, but these
  actions are never executed, and the order stays active, whatever arrives short of a cancelation
  (`AgvStitching.OverlookedForever`): the vehicle stops there for good (`AgvStitching.StitchAtBaseEndProceedsIff`,
  `AgvStitching.StuckForever`), or drives on without them (`AgvStitching.LeftBehind`).
- An action that was dispatched but has not reported a status is set to FAILED by a cancelation although the adapter still
  executes it. If its report comes before the stop is confirmed, it requests the stop a second time
  (`AgvCancelation.StopsOnceIffAllStarted`); if it comes later, as with an adapter that confirms the stop at once
  (`src/adapter/virtual-agv-adapter.ts:718-723`), the canceled order is started again, if anything comes after the action
  (`AgvLateReports.RestartsIffLateLeadsOn`). The comment at `src/controller/agv-controller.ts:1578-1581` assumes that no
  such action exists; `AgvLateReports.LateStateReached` gives one.
- An instant action that ends inside a dispatch loop, as `stateRequest` always does, makes the loop leave out the action
  after it or run past the end of the queue (`InstantActions.StepKeepsIffOrderly`, `InstantActions.LoopSkipsOrCrashes`).
- The estimate of a list is its makespan only if the actions after the last HARD one take no time
  (`Estimator.EstimateIsMakespanIff`).
- The duration walk of the virtual vehicle counts a status without a duration as taking no time, while the machine never
  leaves it: an action comes to its end if and only if every status on its path has a duration
  (`VirtualTiming.EndsIffPathTimed`). The format of definitions makes durations mandatory
  (`src/adapter/virtual-agv-adapter.ts:182` and `:208`), so that only a definition that breaks it is affected.
- An action paused before its first status and then canceled fails without ever having been in its first status
  (`VirtualPause.StepCore`).
- With a topic format that has no place for manufacturer or serial number, two patterns share a topic, and the end of one
  subscription takes the broker's filter away from the other (`BrokerFilters.FiltersAgreeIff`).

One further place differs from its documentation: the comment of the client at `src/common/client.ts:492-493` has unknown
subscription ids ignored, but `src/common/client.ts:508` destructures the `undefined` that it gets for them, so that the
promise is rejected. `BrokerFilters.Client.Unsubscribe` reports such an id as not found and changes nothing.

## Model

| member | source | states |
|---|---|---|
| Orders.ValidateNodes | src/controller/agv-controller.ts:1379-1407 | the node loop accepts exactly the chains of nodes with even first sequence id, steps of two, and base before horizon, and finds where the horizon starts |
| Orders.ValidateEdges | src/controller/agv-controller.ts:1409-1431 | the edge loop accepts exactly edges that lie between their nodes and are all released or released with their end nodes |
| Orders.ValidateOrderConstraints | src/controller/agv-controller.ts:1379-1432 | an order is accepted if and only if it is such a chain, as a whole |
| Orders.StitchParts | src/controller/agv-controller.ts:1504-1528 | after stitching the old base is the unchanged start of the route, its end node has the new actions as well, the old horizon is gone and the new nodes and edges follow |
| Orders.StitchKeepsAlignedChain | src/controller/agv-controller.ts:1441-1452 | stitching two aligned chains that meet at the base end gives an aligned chain |
| Orders.StitchWellFormedIffAligned | src/controller/agv-controller.ts:1418-1425 | of the orders the validation admits, stitching onto one gives such an order again if and only if it is aligned |
| Orders.TrailingEdgeOnChain | src/controller/agv-controller.ts:1925-1927 | on a valid order the edge that leaves a node is the one at its position |
| Orders.EndNodeOnChain | src/controller/agv-controller.ts:1921-1923 | on a valid order the end node of an edge is the node after it |
| ActionLists.SchedulerSafety | src/controller/agv-controller.ts:2195-2215 | whatever the order of endings, also inside the dispatching call: actions are dispatched in list order without repetition, a HARD one runs alone, exactly the SOFT and HARD ones and those that run together with a SOFT one stop the vehicle, and the edge is not started while a SOFT or HARD one is unfinished |
| ActionLists.StopsDrivingIff | src/controller/agv-controller.ts:2195-2215 | in every run an action is dispatched with stopDriving if and only if it is SOFT or HARD, or a SOFT action is next to it with no HARD one in between |
| ActionLists.SchedulerProgress | src/controller/agv-controller.ts:2102-2149 | when nothing more can happen to a list, all of it was dispatched and has ended and the edge was started, exactly once if the list is clean |
| ActionLists.ProceedsOnceIffClean | src/controller/agv-controller.ts:2113-2122 | the edge is started at most once in every run if and only if the list is clean |
| ActionLists.ProceedsTwice | src/controller/agv-controller.ts:2113-2122 | for every list that is not clean there is a run that starts the edge twice |
| ActionLists.AppendedServedIff | src/controller/agv-controller.ts:1525-1526 | actions appended to a list under way are all executed in every run if and only if a HARD action before them has not ended, or any has not and they start with a HARD one; otherwise none of them ever is |
| ActionLists.AppendKeepsIff | src/controller/agv-controller.ts:1525-1526 | under the same condition, and only then, the longer list is in order |
| ActionLists.EndKeeps | src/controller/agv-controller.ts:2102-2149 | the end of an action keeps the shape of a list under way: a dispatched prefix, at most one dispatch loop right behind it |
| ActionLists.ReturnKeeps | src/controller/agv-controller.ts:2211-2214 | so does the next round of a dispatch loop |
| ListControllers.FindHard | src/controller/agv-controller.ts:2197 | the index of the next HARD action, or -1 |
| ListControllers.FindSoft | src/controller/agv-controller.ts:2198 | the index of the next SOFT action, or -1 |
| ListControllers.AreParallelActionsEnded | src/controller/agv-controller.ts:2026-2064 | true exactly if all other actions (or all SOFT ones) between the surrounding HARD actions have ended |
| ListControllers.ListController.ProcessActions | src/controller/agv-controller.ts:2195-2215 | opening a list is a step of the scheduler, for an adapter that may report endings inside the call |
| ListControllers.ListController.ProcessBlock | src/controller/agv-controller.ts:2211-2214 | the dispatch loop leaves the call stack as it found it, and every ending it sees counts |
| ListControllers.ListController.UpdateActionStatus | src/controller/agv-controller.ts:2102-2123 | a reported ending is a step of the scheduler |
| ListControllers.ListController.Execute | src/controller/agv-controller.ts:2195-2215 | a whole execution dispatches in order and proceeds once all of a clean list has ended |
| AgvInvariants.StepKeeps | src/controller/agv-controller.ts:1931-2000 | every message, callback and return keeps the invariant of the engine: place in the order, statuses before and after it, the list under way, calls outstanding |
| AgvRuns.RunsKeep | src/controller/agv-controller.ts:1257-1377 | so does every run over any number of orders, of which any may be canceled; until the vehicle stands the protocol of the cancelation holds instead |
| AgvRuns.ProperKeeps | src/controller/agv-controller.ts:1574-1708 | a step of such a run, also from an order to its cancelation and from there to the next order |
| AgvInvariants.BeginKeeps | src/controller/agv-controller.ts:1471-1503 | a new order, or an update of a completed one, is started properly |
| AgvInvariants.ExtendKeeps | src/controller/agv-controller.ts:1504-1552 | a stitched order goes on from whatever the vehicle is doing: processing a list, driving, or waiting at the base end; with actions on its first node if something still leads to them |
| AgvInvariants.EdgeTraversedKeeps | src/controller/agv-controller.ts:1993-2000 | the end of a traversal leads to the next node and its list |
| AgvInvariants.ActionUpdateKeeps | src/controller/agv-controller.ts:2066-2149 | so does every reported status |
| AgvInvariants.CallReturnsKeeps | src/controller/agv-controller.ts:2211-2214 | and every round of a dispatch loop |
| AgvProperties.StatesAreSuffix | src/controller/agv-controller.ts:1931-1965 | nodeStates and edgeStates are exactly the nodes and edges not reached yet, the last node is the one before them, and at most one edge is being traversed, with nothing else outstanding |
| AgvProperties.SequenceIdNeverDecreases | src/controller/agv-controller.ts:1953-1961 | the last sequence id does not decrease as long as the order id stays the same |
| AgvProperties.NoLateCallbacks | src/controller/agv-controller.ts:1360-1375 | an order replaces another one only when no call or callback of that one is outstanding |
| AgvProperties.NoStall | src/controller/agv-controller.ts:1967-1979 | when nothing is outstanding, the whole base has been walked and all its actions have ended |
| AgvOrders.OrderTakenOverIff | src/controller/agv-controller.ts:1257-1376 | an arriving order becomes the present one if and only if it is well formed and executable, nothing is being canceled, it has another order id or a greater update id, and it starts at the base end of an active order, or else at the last node (an update) or near the vehicle (a new order); one with the ids of the present order only makes the state be published, and any other adds exactly one rejection with its ids |
| AgvOrders.UpdateIdsRise | src/controller/agv-controller.ts:1326-1334 | in every run, from one published state to the next, the update id does not decrease while the order id stays the same, and each order that is taken over under that order id has a greater one |
| AgvOrders.CourseIds | src/controller/agv-controller.ts:1471-1552 | the published ids are those of the present order, in every run |
| AgvCalls.ExecutedStopsIff | src/controller/agv-controller.ts:2195-2251 | in every run, with any orders and cancelations, each executeAction call carries stopDriving exactly if the list demands it, for nodes and for edges |
| AgvCalls.StepStops | src/controller/agv-controller.ts:2195-2251 | a step keeps that of the calls made and of those its dispatch loops will make |
| AgvCalls.TraversedFinishes | src/controller/agv-controller.ts:2280-2296 | when an edge has been traversed, exactly its actions that have not ended are finished, each once, in list order, before anything of the node is dispatched |
| AgvExecution.ExecutesSoFar | src/controller/agv-controller.ts:1931-1991 | from the message that begins an order on, with any orders stitched onto it: exactly the actions up to the place of the vehicle were executed, each once, and exactly the edges up to there traversed, each once |
| AgvExecution.ExecutesEachOnce | src/controller/agv-controller.ts:1931-1991 | when nothing is outstanding, each action and each edge of the base was asked for exactly once, and nothing of the horizon |
| AgvExecution.StepExecutes | src/controller/agv-controller.ts:2066-2149 | a step that begins no other order keeps that count |
| AgvStitching.StitchContinuesIff | src/controller/agv-controller.ts:1504-1552 | for a vehicle on its way, wherever it is: an accepted stitching order keeps the invariant of the engine if and only if something still leads to the actions of its first node; otherwise nothing is called and they are overlooked |
| AgvStitching.OverlookedForever | src/controller/agv-controller.ts:2102-2123 | an overlooked action stays waiting, nothing of its node is executed any more, the order stays active and no other one is begun, in every run short of a cancelation |
| AgvStitching.StepOverlooks | src/controller/agv-controller.ts:2113-2122 | every message, callback and return keeps that, also when the node is left, and when further orders are stitched |
| AgvStitching.LeftBehind | src/controller/agv-controller.ts:2118-2122 | a reachable vehicle that accepts a stitching order, and leaves the node without having executed the action added there |
| AgvStitching.StitchAtBaseEndProceedsIff | src/controller/agv-controller.ts:1530-1552 | at the base end, with everything ended, a stitched order goes on at once if its first node carries no actions, and is stuck if it does |
| AgvStitching.StuckForever | src/controller/agv-controller.ts:1530-1552 | a stuck vehicle makes no further call, whatever arrives short of a cancelation |
| AgvCancelation.CancelStarts | src/controller/agv-controller.ts:1574-1647 | a cancelation fails what waits and leaves exactly the actions under way |
| AgvCancelation.CancelRequests | src/controller/agv-controller.ts:1574-1641 | the arrival of a cancelation reports exactly the waiting actions as FAILED and all others unchanged, and makes one call: to cancel exactly the actions that have started and not ended, or to stop if there are none |
| AgvCancelation.WaitingStaysFailed | src/controller/agv-controller.ts:1578-1587 | an action that waited stays reported as FAILED until the vehicle stands |
| AgvCancelation.StoppingKeepsNode | src/controller/agv-controller.ts:1678-1689 | while the vehicle drives on to the node where it can stop, exactly that node is reported and the order stays active |
| AgvCancelation.CancelKeeps | src/controller/agv-controller.ts:2105-2108 | every step until the vehicle stands keeps the protocol, and stopping ends it |
| AgvCancelation.CancelProtocol | src/controller/agv-controller.ts:1574-1708 | if all dispatched actions have reported: until the vehicle stands no order is accepted and nothing is started, the stop is requested once all actions have ended and only once, and afterwards no order is active |
| AgvCancelation.StopsOnceIffAllStarted | src/controller/agv-controller.ts:1578-1587 | the stop is requested at most once in every continuation if and only if all dispatched actions had reported |
| AgvLateReports.RestartsIffLateLeadsOn | src/controller/agv-controller.ts:2102-2149 | short of the acceptance of another order, a canceled order is started again in some continuation, before or after the confirmed stop, if and only if an action was dispatched that had not reported a status and something comes after it |
| AgvLateReports.NothingRestarts | src/controller/agv-controller.ts:1690-1707 | in particular, nothing of the canceled order is started any more if all dispatched actions had reported |
| AgvLateReports.LateStateReached | src/controller/agv-controller.ts:2195-2215 | a reachable vehicle with a dispatched action that has not reported and leads on |
| AgvCancelation.StopsTwice | src/controller/agv-controller.ts:1675-1708 | otherwise there is a continuation that requests it twice |
| AgvCancelation.AllEndedIff | src/controller/agv-controller.ts:1649-1668 | the check over the leading released nodes and edges finds every unended action that is reported |
| AgvControllers.AgvController.constructor | src/controller/agv-controller.ts:786-791 | a new controller has the initial state of the engine and has published it |
| AgvControllers.AgvController.ReceiveOrder | src/controller/agv-controller.ts:1257-1377 | the whole new state, published states and adapter calls for an arriving order are those of the engine |
| AgvControllers.AgvController.ReceiveExecutableOrder | src/controller/agv-controller.ts:1326-1376 | so they are once the vehicle can execute it: update, stitching, new order, or rejection |
| AgvControllers.AgvController.IsOrderBaseStitching | src/controller/agv-controller.ts:1441-1452 | the check compares the end of the current base with the first node |
| AgvControllers.AgvController.AcceptOrder | src/controller/agv-controller.ts:1471-1503 | accepting a new order or an update |
| AgvControllers.AgvController.StitchOrder | src/controller/agv-controller.ts:1504-1552 | accepting a stitching order |
| AgvControllers.AgvController.RejectOrder | src/controller/agv-controller.ts:1556-1559 | a rejection only adds an error, which is published |
| AgvControllers.AgvController.ArriveAtNode | src/controller/agv-controller.ts:1931-1965 | reaching a node |
| AgvControllers.AgvController.FinishEdgeActions | src/controller/agv-controller.ts:2280-2296 | the actions of the edge that have not ended are finished, in order |
| AgvControllers.AgvController.ProcessNextEdge | src/controller/agv-controller.ts:1967-1979 | leaving a node by its released edge |
| AgvControllers.AgvController.StartTraversal | src/controller/agv-controller.ts:1981-1991 | starting the traversal of an edge |
| AgvControllers.AgvController.UpdateEdgeTraversed | src/controller/agv-controller.ts:1993-2000 | the callback of a traversal |
| AgvControllers.AgvController.ProcessActions | src/controller/agv-controller.ts:2195-2251 | processing a node or edge list from an index on |
| AgvControllers.AgvController.ProcessBlock | src/controller/agv-controller.ts:2211-2214 | the dispatch loop makes exactly the calls of the engine, one after the other |
| AgvControllers.AgvController.UpdateActionStatus | src/controller/agv-controller.ts:2066-2149 | a reported status |
| AgvControllers.AgvController.ContinueAfter | src/controller/agv-controller.ts:2102-2149 | what the end of an action triggers, also while an order is canceled |
| AgvControllers.AgvController.AreAllOrderActionsCanceled | src/controller/agv-controller.ts:1649-1668 | true exactly if all actions of the leading released nodes and edges have ended |
| AgvControllers.AgvController.CancelCurrentOrder | src/controller/agv-controller.ts:1574-1641 | the instant action cancelOrder |
| AgvControllers.AgvController.FailWaitingActions | src/controller/agv-controller.ts:1582-1586 | the loop over the statuses fails exactly the waiting ones, in place |
| AgvControllers.AgvController.CollectUnended | src/controller/agv-controller.ts:1597-1636 | the actions to be canceled are exactly the unended ones |
| AgvControllers.AgvController.OnDrivingToNextNode | src/controller/agv-controller.ts:1678-1689 | only the state of the next node is kept |
| AgvControllers.AgvController.OnStopped | src/controller/agv-controller.ts:1690-1707 | the vehicle stands, no node or edge state is left, and orders are accepted again |
| AgvControllers.StepSettles | src/controller/agv-controller.ts:2195-2215 | every message and callback leaves at most one dispatch loop, which can go on |
| AgvControllers.SettledStepReachable | src/controller/agv-controller.ts:1257-2149 | what a method does is a run of the engine, so the properties of its runs hold of the object |
| AgvReports.StepSends | src/controller/agv-controller.ts:1203-1224 | the states each step publishes, in order; the last one is the present state |
| ReportChain.StepTells | src/controller/agv-controller.ts:1203-1224 | each published state follows from the one before: an action, a node, a rejection, a new order, or a stitched one |
| ReportChain.FollowsFaithful | src/controller/agv-controller.ts:1931-1965 | each such state describes the place in the current order faithfully |
| ReportChain.NoDiscard | src/controller/agv-controller.ts:1331-1334 | an order with fresh ids is never silently discarded |
| MasterAgreement.DispatchKeeps | src/controller/master-controller.ts:433-503 | dispatching the next state keeps master and vehicle in agreement and raises exactly the events for what the vehicle did in between |
| MasterAgreement.WalkToCurrent | src/controller/master-controller.ts:779-792 | the walk over the links skips rejected orders and ends at the one being executed |
| MasterAgreement.CombineAgrees | src/controller/master-controller.ts:576-617 | the combined order of a stitched one is the order of the vehicle, with its place and action states |
| MasterAgreement.RefuseKeeps | src/controller/master-controller.ts:440-493 | a reported rejection removes exactly that order and raises its event |
| MasterAgreement.ReachKeeps | src/controller/master-controller.ts:654-686 | a state with the next node reached raises the edge event before the node event, once each |
| MasterAgreement.OutcomeOf | src/controller/master-controller.ts:820-838 | an order counts as processed exactly if its base is completed, and as still active exactly if a horizon is left |
| OrderSystem.RunsKeepInv | src/controller/master-controller.ts:433-705 | in every interleaving of assignments, deliveries, vehicle steps and dispatches both ends agree on what the master has seen |
| OrderSystem.RepeatedIsDiscarded | src/controller/master-controller.ts:346-350 | an order with the ids of a tracked one changes nothing and is not sent |
| OrderSystem.EventsAreStory | src/controller/master-controller.ts:530-705 | the master has raised exactly the events of the states dispatched so far |
| OrderSystem.EventsAreRoute | src/controller/master-controller.ts:530-686 | the node and edge events are the routes of all orders, one after the other: nodes in sequence order with each edge between its end nodes, of the earlier orders as a whole, of the present one up to the place of the vehicle; a node has the actions it had when it was reached |
| OrderSystem.EachOnce | src/controller/master-controller.ts:530-686 | of the present order each node reached was reported exactly once, each edge behind it exactly once, and no other; if its base is completed these are all nodes and edges of the base |
| OrderSystem.CombinedOrderAgrees | src/controller/master-controller.ts:574-621 | once all states are dispatched the combined order equals the current order of the vehicle, nodes, edges, releases and action lists, over any stitched and rejected orders |
| OrderSystem.ProcessedAtMostOnce | src/controller/master-controller.ts:688-704 | no order is reported as processed twice |
| OrderSystem.ProcessedAfterLastNode | src/controller/master-controller.ts:688-704 | an accepted order is reported as processed only when the last node of its base was reported |
| MasterControllers.MapActions | src/controller/master-controller.ts:794-812 | the nested loops map exactly the actions of the leading released nodes and edges |
| MasterControllers.MasterController.AssignOrder | src/controller/master-controller.ts:346-353 | an assigned order is tracked and linked to the one before, unless its ids are tracked already |
| MasterControllers.MasterController.EnterOrder | src/controller/master-controller.ts:707-736 | the new cache becomes the last one, and is found under its ids |
| MasterControllers.MasterController.GetLastActiveOrderStateCache | src/controller/master-controller.ts:779-792 | the loop over the links ends, at the most recent order that is still tracked |
| MasterControllers.MasterController.RemoveOrderStateCache | src/controller/master-controller.ts:738-757 | the entry goes away; with the last entry also the link for the next order |
| MasterControllers.MasterController.CombineWith | src/controller/master-controller.ts:583-617 | taking over order, place and action states from the order stitched onto, in place |
| MasterControllers.MasterController.StitchOntoLastActive | src/controller/master-controller.ts:574-621 | the walk and the take-over together |
| MasterControllers.MasterController.DispatchActionStates | src/controller/master-controller.ts:627-651 | the reported statuses of the mapped actions are remembered, all others ignored |
| MasterControllers.MasterController.ProcessEdgeEvents | src/controller/master-controller.ts:531-562 | the edge behind the last node is reported as traversed once its state is gone, and once only |
| MasterControllers.MasterController.ProcessNodeEvents | src/controller/master-controller.ts:653-686 | first the edge behind the last node, then the next node, then the edge behind that |
| MasterControllers.MasterController.IsOrderProcessed | src/controller/master-controller.ts:820-838 | completed, completed but active, or neither |
| MasterControllers.MasterController.ReportProcessed | src/controller/master-controller.ts:688-704 | the handler is invoked once, and a completed order is no longer tracked |
| MasterControllers.MasterController.DispatchErrors | src/controller/master-controller.ts:440-493 | rejections are handled one after the other |
| MasterControllers.MasterController.DispatchState | src/controller/master-controller.ts:433-503 | the whole new state of the tracker and its events for a reported state |
| InstantActions.StepKeepsIffOrderly | src/controller/agv-controller.ts:2298-2341 | the queue stays in order after a step if and only if no action ends while a dispatch loop goes on and ids are fresh |
| InstantActions.QueueSafety | src/controller/agv-controller.ts:2298-2341 | actions are dispatched in the order of their arrival, each once; a HARD action runs alone; a queue that is not empty has something running, and an empty one has dispatched and ended all |
| InstantActions.LoopSkipsOrCrashes | src/controller/agv-controller.ts:2335-2360 | if an action ends inside its own dispatch and the loop has more to do, the next one is left out, or the loop runs past the end |
| InstantActions.ArriveKeeps | src/controller/agv-controller.ts:2313-2320 | an arriving message keeps the queue in order |
| InstantActions.EndKeeps | src/controller/agv-controller.ts:2151-2167 | so does the end of an action |
| InstantControllers.InstantController.ProcessInstantActions | src/controller/agv-controller.ts:2313-2320 | the new queue and the dispatched actions for an arriving message |
| InstantControllers.InstantController.ProcessChunk | src/controller/agv-controller.ts:2323-2341 | the next NONE and SOFT actions, or the next HARD one |
| InstantControllers.InstantController.UpdateActionStatus | src/controller/agv-controller.ts:2151-2167 | the queue is spliced in place, and the HARD action behind an ended block starts |
| VirtualActions.RunKeeps | src/adapter/virtual-agv-adapter.ts:1487-1548 | what every run of ticks, pauses, cancelations and terminations keeps |
| VirtualActions.OneFinalStatus | src/adapter/virtual-agv-adapter.ts:1595-1613 | at most one final status is reported, as the last report, under any events |
| VirtualPause.StepCore | src/adapter/virtual-agv-adapter.ts:1492-1530 | a step is one of the machine that is never paused, or invisible to it, except for an end requested before the first status |
| VirtualPause.PauseTransparent | src/adapter/virtual-agv-adapter.ts:1492-1503 | under any pauses the action has the statuses, times and reports it would have had without, apart from PAUSED and the status repeated after it |
| VirtualOutcomes.OutcomeAsAsked | src/adapter/virtual-agv-adapter.ts:1487-1543 | under any events: an action for which a cancelation was accepted ends as FAILED, a terminated one that was not canceled with the status for termination, and otherwise the statuses are those of the path of the definition, in order, up to its end |
| VirtualOutcomes.RequestedEnd | src/adapter/virtual-agv-adapter.ts:1511-1526 | the first tick after such a request that neither starts the action nor enters or leaves a pause reports that final status, and nothing is reported after it |
| VirtualOutcomes.PausedStays | src/adapter/virtual-agv-adapter.ts:1492-1503 | a tick enters a pause that was asked for, and while it lasts ticks change nothing |
| VirtualOutcomes.ParameterBeatsDefault | src/adapter/virtual-agv-adapter.ts:1418-1435 | under any events an action with a duration given by a parameter is as one with that duration written out: the value of the parameter if it is given, the default if not |
| VirtualTiming.GetNodeActionDuration | src/adapter/virtual-agv-adapter.ts:1025-1038 | the duration walk ends, and adds up the durations on the way |
| VirtualTiming.TickTiming | src/adapter/virtual-agv-adapter.ts:1532-1543 | a tick uses up its interval, up to what a status is overrun by |
| VirtualTiming.DurationBounds | src/adapter/virtual-agv-adapter.ts:1532-1543 | with durations on its path an undisturbed action takes between the computed duration and one longest interval more per status, and does end |
| VirtualTiming.EndsIffPathTimed | src/adapter/virtual-agv-adapter.ts:1536-1542 | some ticks bring an action to its end if and only if every status on its path has a duration |
| VirtualMachines.VirtualActionStateMachine.constructor | src/adapter/virtual-agv-adapter.ts:1452-1463 | a new machine has no status |
| VirtualMachines.VirtualActionStateMachine.Tick | src/adapter/virtual-agv-adapter.ts:1487-1544 | the whole new state of the machine after a tick; it is finalized exactly once |
| VirtualMachines.VirtualActionStateMachine.Transition | src/adapter/virtual-agv-adapter.ts:1595-1612 | a final status switches off all requests and finalizes the action |
| VirtualMachines.VirtualActionStateMachine.Terminate | src/adapter/virtual-agv-adapter.ts:1551-1557 | only an edge action is terminated, and only once |
| VirtualMachines.VirtualActionStateMachine.Cancel | src/adapter/virtual-agv-adapter.ts:1566-1572 | only a cancelable node or edge action is canceled |
| VirtualMachines.VirtualActionStateMachine.Pause | src/adapter/virtual-agv-adapter.ts:1578-1581 | pausing takes effect on the next tick |
| VirtualMachines.VirtualActionStateMachine.Unpause | src/adapter/virtual-agv-adapter.ts:1587-1590 | so does resuming |
| Estimator.EffectiveActionDuration | src/adapter/virtual-agv-adapter.ts:1389-1402 | the loops add up, list by list, the times at which the trailing blocks start |
| Estimator.AddListDuration | src/adapter/virtual-agv-adapter.ts:1392-1401 | the maximum of a run counts once a HARD action ends it |
| Estimator.EstimateIsMakespanIff | src/adapter/virtual-agv-adapter.ts:1389-1402 | the estimate of a list is its makespan if and only if the actions after the last HARD one take no time; so it is for lists that are empty or end with a HARD action |
| Estimator.SchedulerOnSchedule | src/controller/agv-controller.ts:2195-2215 | when each action takes its duration, the scheduler of the controller starts every action at the time of that schedule and completes the list at the makespan |
| Estimator.SchedulerMeetsMakespan | src/controller/agv-controller.ts:2195-2215 | such a run exists for every list and durations: it completes the list, at the makespan |
| Estimator.OrderTakesEstimateIff | src/adapter/virtual-agv-adapter.ts:1389-1402 | executed list by list by the scheduler, an order takes at least the estimated time, and exactly that if and only if in each list the actions after the last HARD one take none |
| Estimator.OrderTakesEstimate | src/adapter/virtual-agv-adapter.ts:1389-1402 | in particular an order whose lists are empty or end with a HARD action takes the estimated time |
| Estimator.OrderCompletes | src/controller/agv-controller.ts:2195-2215 | such an execution exists for every order |
| Estimator.EstimateAdds | src/adapter/virtual-agv-adapter.ts:1390-1396 | the estimates of consecutive parts of an order add up |
| VehicleMotion.StaysOnSegment | src/adapter/virtual-agv-adapter.ts:1168-1208 | under any ticks, stops and restarts the vehicle is on the segment to the end node, with the charge for the distance driven, or has arrived exactly there |
| VehicleMotion.TickKeeps | src/adapter/virtual-agv-adapter.ts:1168-1208 | one tick keeps it on the segment, or brings it to the end |
| VehicleMotion.ArrivesInTime | src/adapter/virtual-agv-adapter.ts:1180-1197 | with enough charge it arrives within a number of ticks given by distance, speed and least interval |
| VehicleMotion.StandsStill | src/adapter/virtual-agv-adapter.ts:1168-1171 | a paused or charging vehicle keeps its position, charge and edge, whatever happens |
| VehicleMotion.LowBatteryStops | src/adapter/virtual-agv-adapter.ts:1179-1208 | the tick that finds the battery low stops the vehicle, which does not start again |
| VehicleMotion.DrainedTwice | src/adapter/virtual-agv-adapter.ts:1103-1110 | the charge taken step by step is that taken by the whole distance, also at zero |
| VehicleMotion.VirtualVehicle.AdvanceTraverse | src/adapter/virtual-agv-adapter.ts:1168-1208 | the whole new state of the vehicle after a tick |
| VehicleMotion.VirtualVehicle.Traverse | src/adapter/virtual-agv-adapter.ts:1054-1062 | the target speed exceeds neither the speed of the vehicle nor the limit of the edge |
| VehicleMotion.VirtualVehicle.UpdateBatteryState | src/adapter/virtual-agv-adapter.ts:1103-1110 | the charge decreases linearly with the distance, down to zero |
| VehicleMotion.VirtualVehicle.StartPause | src/adapter/virtual-agv-adapter.ts:1309-1319 | a pause stops the vehicle |
| MqttUtils.GetUtf8BytesCount | src/common/mqtt-utils.ts:17-41 | the count is the length of the encoding by section 3 of RFC 3629, for every well-formed UTF-16 string |
| MqttUtils.CountIsEncodedLength | src/common/mqtt-utils.ts:17-41 | surrogates counted by themselves add up to the four bytes of their character |
| MqttUtils.AssertMqttTopicLength | src/common/mqtt-utils.ts:5-9 | the shortcut for short topics never changes the outcome: it throws exactly if the count exceeds 65535 |
| MqttTopics.FormatMeaning | src/common/subscription-manager.ts:206-214 | a format is accepted exactly if the topic placeholder occurs and every placeholder occurs at most once, as a level of its own |
| MqttTopics.CheckFormat | src/common/subscription-manager.ts:206-214 | the loops of the check decide that |
| MqttTopics.CompileMqttTopic | src/common/subscription-manager.ts:202-214 | a format is compiled exactly if it is accepted |
| MqttTopics.SplitOfJoin | src/common/subscription-manager.ts:215-230 | levels without slashes survive being joined and split |
| MqttTopics.RoundTrip | src/common/subscription-manager.ts:215-230 | a constructed topic is taken apart into the values it was constructed from, for the parts the format has a place for, and into nothing for the others |
| MqttTopics.CountOfJoin | src/common/subscription-manager.ts:231-238 | the sum over the levels and slashes is the count of the joined topic |
| MqttTopics.MajorVersionIs | src/common/subscription-manager.ts:202-204 | the major version is `v` with the part of the protocol version before its first dot |
| MqttTopics.MqttTopicFormat.FillLevels | src/common/subscription-manager.ts:216-220 | the shared array holds exactly the values of this call, whatever it held before |
| MqttTopics.MqttTopicFormat.ConstructMqttTopic | src/common/subscription-manager.ts:215-222 | the topic does not depend on earlier calls |
| MqttTopics.MqttTopicFormat.GetMqttTopicUtf8Length | src/common/subscription-manager.ts:231-238 | the length is the UTF-8 byte count of the topic that would be constructed |
| MqttTopics.MqttTopicFormat.DeconstructMqttTopic | src/common/subscription-manager.ts:223-230 | the parts are read at their places, if there are such |
| Subscriptions.FindsExactlyOnce | src/common/subscription-manager.ts:184-200 | a live subscription is found if and only if its pattern matches, exactly once if all parts of the topic are known, and nothing else is found |
| Subscriptions.MatchesIsFilterMatching | src/common/subscription-manager.ts:184-200 | for formats with a place for every part this is matching of MQTT filters by section 4.7.1.3 of MQTT 3.1.1 |
| Subscriptions.TopicsInjective | src/common/subscription-manager.ts:54-56 | different patterns have different topics, for such formats |
| SubscriptionManagers.InboundPath | src/common/subscription-manager.ts:172-182 | what is published for a vehicle is looked up under the ids in its topic, and under those in the object where the format has no place for them |
| SubscriptionManagers.SubscriptionManager.Add | src/common/subscription-manager.ts:91-119 | the subscription joins the live ones unless its topic is too long; a broker subscription is required exactly if it is the first of its pattern |
| SubscriptionManagers.SubscriptionManager.Remove | src/common/subscription-manager.ts:128-138 | the subscription leaves the live ones; the broker subscription is to be ended exactly if it was the last of its pattern; unknown ids change nothing |
| SubscriptionManagers.SubscriptionManager.GetAll | src/common/subscription-manager.ts:145-159 | the topics of exactly the live subscriptions, one entry for each pattern |
| SubscriptionManagers.SubscriptionManager.FindHandlers | src/common/subscription-manager.ts:172-182 | the subscriptions for an inbound topic, with parts missing in the format taken from the object |
| SubscriptionManagers.SubscriptionManager.Clear | src/common/subscription-manager.ts:75-78 | no subscription is left |
| BrokerFilters.RunsAgree | src/common/client.ts:1028-1036 | if different patterns have different topics, the filters of the broker are those of the live subscriptions in every run |
| BrokerFilters.FiltersAgreeIff | src/common/client.ts:500-535 | that is so in all runs if and only if the format has a place for manufacturer and serial number |
| BrokerFilters.SharedTopicDisagrees | src/common/client.ts:508-519 | two patterns with one topic: the end of one subscription ends the filter of both |
| BrokerFilters.Client.SubscribeTopic | src/common/client.ts:795-842 | subscriptions and filters after subscribing, online and offline |
| BrokerFilters.Client.Unsubscribe | src/common/client.ts:500-535 | subscriptions and filters after unsubscribing |
| BrokerFilters.Client.OnConnect | src/common/client.ts:1028-1036 | the listener restores the filters of all live subscriptions |

## Left out

- Pause while executing orders: the paused node is resumed without the edge that led to it (`src/controller/agv-controller.ts:2379`), and is not cleared by a cancelation.
- Callbacks of an adapter inside its own calls, for the whole engine as a class: `AgvController` serves adapters that report after their calls have returned; `ListController` has the full re-entrant form for one list, and the machine in `AgvEngine` admits endings between the rounds of a dispatch loop.
- Object identity in the orders: node and edge objects are values here, so sharing them between the order of the caller, the current order and the caches of the master is not modelled.
- Sharing of the inner maps of the subscription trie: they are values in one field, and an id refers to its place by its pattern.
- Handlers onEdgeTraversing and onActionStateChanged, and the reference of an event to the next edge and its nodes.
- Removal of ended instant actions and their errors after a number of published states, and the errors of instant actions.
- The order of action states, and instant actions among them: the statuses of order actions are a map by id, instant actions have a queue of their own.
- Matching of rejected instant actions by the number of messages, which the code itself calls a heuristic.
- Cancelation in the runs of both ends (`OrderSystem`, `AgvReports`, `ReportChain`): a canceled order that was already reported as processed keeps its cache.
- Trajectories, error references and descriptions, header ids, connection states, schema validation of messages, and checks of maps and angles.
- Initial positions, random speeds, loads, and the charging of the battery.
- The list of machines that is ticked: an ending shortens it while it is iterated, so that the next machine misses a tick; the timing holds for the ticks a machine receives.
- MQTT transport itself: publishing appends to a queue, and a session of the broker is empty after every connect.
- AgvControllers.AgvController.OnStopped: requires that a stop was requested, while a second confirmation would fail in the code.
- VirtualActions.OneFinalStatus: for definitions whose statuses do not name PAUSED as the next one, and edge actions with a transition for termination, as the format of definitions demands.
- VehicleMotion.ArrivesInTime: for a speed that stays the same over the edge.
- AgvInvariants.StepKeeps: for messages and callbacks of `AgvInvariants.Ordinary`; cancelations are added by `AgvRuns.ProperKeeps`, orders that do not go on are the subject of `AgvStitching`, lists that are not clean that of `ActionLists.ProceedsOnceIffClean`, and orders that are not aligned that of `Orders.StitchWellFormedIffAligned`.
- AgvInvariants.BeginKeeps: for orders with clean lists and aligned releases, as above.
- AgvInvariants.ExtendKeeps: for orders for which `AgvInvariants.Continues` holds; for the others see `AgvStitching.OverlookedForever`.
- AgvRuns.RunsKeep: for orders as in `AgvInvariants.Ordinary`, and cancelations that find every dispatched action started; for the others see `AgvLateReports`.
- AgvProperties.StatesAreSuffix: for the runs of `AgvRuns.RunsKeep`, as are the other members of `AgvProperties` and `AgvControllers.SettledStepReachable`.
- AgvReports.StepSends: for runs without cancelation, as is `ReportChain.StepTells`; a cancelation publishes the failed statuses, then whatever each report changes.
- OrderSystem.RunsKeepInv: for assignments with a base, and ids that were not used before or are those of a tracked order; ids of an order that is no longer tracked are not used again.
- MasterControllers.MasterController.AssignOrder: requires a released first node, without which the vehicle rejects the order, but the master of the code tracks it until then.
- InstantActions.QueueSafety: for runs in which no action ends while its dispatch loop goes on; `InstantActions.LoopSkipsOrCrashes` says what happens otherwise.
- InstantControllers.InstantController.ProcessInstantActions: no action ends inside the dispatch, as in `InstantControllers.InstantController.ProcessChunk`, which also leaves out the flag stopDriving.
- VirtualPause.PauseTransparent: for actions that are not asked to end while paused before their first status; `VirtualPause.StepCore` states that exception.
- AgvControllers.AgvController.CancelCurrentOrder: the calls of cancelAction are one call with the set of their ids, without order and contexts.
- MasterControllers.MapActions: maps the ids, not the actions with their nodes and edges.
- MasterControllers.MasterController.CombineWith: leaves out the state changes of edges and the number of handler invocations.
- MasterControllers.MasterController.DispatchActionStates: remembers statuses; the handler for their changes is left out.
- MasterControllers.MasterController.ProcessEdgeEvents: leaves out onEdgeTraversing and the skip while an order is canceled.
- MasterControllers.MasterController.ProcessNodeEvents: the event names the node, not the edge and node behind it.
- MasterControllers.MasterController.ReportProcessed: leaves out the flag that the order was canceled.
- MasterControllers.MasterController.DispatchErrors: takes the rejections of orders; their selection by topic, type and references is left out.
- MasterControllers.MasterController.DispatchState: the part for instant actions is left out.
- VirtualMachines.VirtualActionStateMachine.Transition: leaves out linked states and the descriptions of results and errors.
- VehicleMotion.VirtualVehicle.AdvanceTraverse: leaves out orientation, position reports and the error for a low battery.
- VehicleMotion.VirtualVehicle.Traverse: leaves out distributions of speed and time.
- VehicleMotion.VirtualVehicle.UpdateBatteryState: leaves out the reach of the battery.
- VehicleMotion.VirtualVehicle.StartPause: leaves out the pausing of the action machines.
- BrokerFilters.Client.Unsubscribe: an unknown id is reported as not found, where the promise of the code is rejected.
