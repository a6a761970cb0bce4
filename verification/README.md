# Verified model of the stateful parts of bcos-rpc

bcos-rpc is the RPC module of FISCO BCOS. This project models three of its components in Dafny and
proves what they do over whole runs.

* **Event subscription** (`bcos-rpc/event`). A worker thread drains a cancel queue and an add queue
  and polls every task; a poll asks the ledger for its height; the reply opens a window of blocks that
  is walked through callbacks; matched logs are pushed and the cursor advances; failures abandon the
  window until a later poll. The chain is a fixed function from group and block number to a block;
  heights, failures, lost replies, vanished groups, disconnected sessions and the order of everything
  are arbitrary.
* **Group manager** (`bcos-rpc/jsonrpc/groupmgr`). A registry of node services and an index of the
  nodes at the highest block, updated by notifications and by a three-phase sweep, with other
  notifications falling between the phases.
* **AMOP topic table** (`bcos-rpc/amop`). Topics, endpoints and sessions, the announced topics, and
  what the gateway holds as a result of the messages sent to it.

## How it is built

Each component is a state machine over values (`Step`/`Exec` for one task, `Apply`/`Run` for the
engine, the manager and the topic table); an action that is not possible in a state changes nothing,
so every list of actions is a run, and theorems are about all of them. Beside each machine stands the
object of the source: a class with its fields, whose methods loop and update in place as the source
does. The methods on a task, the group manager and the AMOP client are proved to make exactly the step
of their machine; the queue and tick methods of the engine object are proved equal to the functions
over queues and task maps (`Purged`, `Registered`, `Polled`) that the engine machine is made of.

| file | contents |
|---|---|
| `EventParams.dfy`, `EventMatcher.dfy` | the filter, and matching of log entries, receipts and blocks |
| `EventParsing.dfy`, `EventRequest.dfy` | what a request value says; parsing, printing and their round trip |
| `EventTask.dfy` | one task as a state machine, and the invariants of all its runs |
| `EventStream.dfy`, `EventCompletion.dfy` | what a task delivers, gaps, order, completion |
| `EventQueues.dfy`, `EventEngine.dfy`, `EventRuns.dfy` | queues and ticks; theorems about engine runs |
| `EventSteps.dfy` | what polls, replies and cancellations change, and who is on the cancel queue |
| `EventProgress.dfy` | the exact number of ticks a bounded subscription takes |
| `EventEndToEnd.dfy` | from the client's request to the client's stream |
| `EventSub.dfy` | the task and engine objects |
| `GroupHeights.dfy`, `GroupRegistry.dfy`, `GroupHistory.dfy`, `GroupManager.dfy` | height index, registry and sweep, their history, the object |
| `AmopTopics.dfy`, `AmopClient.dfy` | topic tables and gateway, the object |

`dafny verify dfyconfig.toml` checks everything.

## Where the code does less than one would expect

Each of these is a lemma; where a property fails, the exact condition under which it holds is proved.

* Several height queries of one task can be outstanding, because the busy flag is set only when the
  reply arrives. With `fromBlock <= 0` two of them can skip blocks (`GapRun`); no run has a gap exactly
  if `fromBlock > 0` or `toBlock == 1` (`NoGapsExactly`).
* Two overlapping queries can also push a block again after the completion notice. No run at all does so
  exactly if the subscription can never complete or no block of its range has anything to push
  (`LatePushExactly`).
* `toBlock == 0` ends a subscription but does not bound its windows (line 370 of EventSub.cpp, line 88 of
  EventSubTask.h). Even with one query at a time blocks are matched after the notice for exactly the
  subscriptions described by `Overruns` (`QuietExactly`), and entries are pushed after it exactly if such
  a subscription has something to push in a later block of its one window (`PushesEndExactly`).
* A range with `fromBlock > toBlock > 0` delivers nothing and never completes (`NeverOverruns`).
* Cancels run before adds, so an unsubscription that overtakes its own subscription is lost
  (`UnsubscribeLost`); one that a tick finds on its queue takes effect in it exactly if no subscription
  with its id is waiting when the tick comes to its second drain (`UnsubscribeTakesEffect`).
* The match count is 32 bits wide and a count of zero suppresses the push; the stream equals the plain
  filter exactly if no block's number of matches is a positive multiple of 2^32 (`StreamRefinement`).
* A printed and parsed request accepts the same logs exactly if its addresses are lower-case and
  unprefixed and normalising brings up no topic that was not asked for, or if some position holds no topic
  even when normalised (`MeaningSurvives`); a prefixed or upper-case topic, which the matcher never finds, comes back as one
  that it does find (`MeaningLost`). A topic given as a single string is not normalised at all.
* A block report by a node without a service makes selection return nothing although a registered
  service exists (`ReportHidesService`); when it always succeeds is `SelectionExact`.
* A node that is notified again while a sweep is about to remove its service is neither listed nor, after
  the removal, served (`ReturnLost`); otherwise a later notification always serves and lists a node that
  can be built (`LaterNotification`).
* Only the first topic of a subscription is announced (`SecondTopicUnannounced`); a topic is announced
  exactly if some subscription named it first and it has had a client ever since
  (`TablesFollowHistory`).

## Model

| member | source | states |
|---|---|---|
| EventTypes.EventSubParams.AddTopic | bcos-rpc/event/EventSubParams.h:48-58 | an index of four or more is refused; otherwise the table has length index + 1, holds the topic there and keeps all lower positions |
| EventTypes.EventSubParams.AddAddress | bcos-rpc/event/EventSubParams.h:47 | the address joins the set, nothing else changes |
| EventMatcher.MatchesLog | bcos-rpc/event/EventSubMatcher.cpp:75-103 | the loop with its flag decides the declarative filter `Accepts`, in both directions |
| EventMatcher.MatchesReceipt | bcos-rpc/event/EventSubMatcher.cpp:41-73 | appends an entry for each accepted log of one receipt, in order, each telling block number, address, data, indices, transaction hash and topics of its log as the chain has them, and counts them modulo 2^32 |
| EventMatcher.MatchesBlock | bcos-rpc/event/EventSubMatcher.cpp:28-39 | appends such entries for the whole block; the count is the number of accepted logs modulo 2^32 |
| EventMatcher.BlockMatchingIsFilter | bcos-rpc/event/EventSubMatcher.cpp:28-103 | an entry is produced if and only if it tells, field by field, of an accepted log at its own indices; entries are strictly ordered by transaction and log index, hence each occurs once |
| EventMatcher.TruthfulIsWanted | bcos-rpc/event/EventSubMatcher.cpp:55-103 | judged by the entry alone, its address is one asked for and each of the first four positions that asks for something carries, behind its 0x, a topic asked for |
| EventMatcher.EntriesCount | bcos-rpc/event/EventSubMatcher.cpp:28-73 | there are as many entries as accepted logs in the block |
| EventMatcher.MeaningIsTables | bcos-rpc/event/EventSubMatcher.cpp:75-103 | over logs whose topics are 32-byte hashes in the text form compared, two filters accept the same logs if and only if both accept none, or they agree on the addresses, on how many topics a log needs, and on the topics allowed at each of the first four positions |
| EventMatcher.UnsatisfiableExactly | bcos-rpc/event/EventSubMatcher.cpp:75-103 | a filter accepts no log at all if and only if one of the first four positions asks only for texts that are no topics |
| EventMatcher.SameMeaningSameEntries | bcos-rpc/event/EventSubMatcher.cpp:28-103 | filters that accept the same logs produce the same entries of every block |
| EventParsing.ParsingExact | bcos-rpc/event/EventSubRequest.cpp:174-298 | a value parses to a request if and only if it says so, field by field: identifiers by their text, blocks by their 64-bit number or -1, addresses in lower case without 0x or 0X, array topics in lower case without 0x, single texts as they stand, positions from four on ignored |
| EventRequest.FromJson | bcos-rpc/event/EventSubRequest.cpp:174-298 | the parser that fills the parameter object in place returns a request if and only if the value says it, and nothing for every input on which the source reports failure or throws |
| EventRequest.AddAddresses | bcos-rpc/event/EventSubRequest.cpp:225-238 | the addresses are exactly those the elements ask for, in lower case without prefix; it fails exactly when some element has no text |
| EventRequest.AddTopics | bcos-rpc/event/EventSubRequest.cpp:240-272 | in spite of the resizing, each of the first four positions of the table holds exactly the topics asked for there, and the table does not end with an empty one; it fails exactly when some element has no text |
| EventRequest.AddInnerTopics | bcos-rpc/event/EventSubRequest.cpp:252-266 | an array position holds exactly the topics its elements ask for, and the positions before it keep theirs |
| EventRequest.AddressForms | bcos-rpc/event/EventSubRequest.cpp:225-238 | a plain address given with 0x, with 0X or as it is becomes exactly that address, and the request accepts exactly the logs of that address that its topics allow |
| EventRequest.TopicForms | bcos-rpc/event/EventSubRequest.cpp:252-266 | a hash in an array, with or without 0x, becomes exactly that topic at its position |
| EventRequest.TextIsVerbatim | bcos-rpc/event/EventSubRequest.cpp:267-270 | a position given as a single text is kept as it stands |
| EventRequest.Defaults | bcos-rpc/event/EventSubRequest.cpp:214-243 | without the fields the blocks are -1 and the tables empty |
| EventParsing.TopicParsing | bcos-rpc/event/EventSubRequest.cpp:240-272 | below four each position holds exactly the topics given there, later ones are ignored, and the length is one past the last non-empty position |
| EventRequest.GenerateJson | bcos-rpc/event/EventSubRequest.cpp:110-172 | the printed value has exactly the fields id, group and params, and params the first block moved past a positive cursor, the last block, every address once, and per position null or every topic once |
| EventRequest.RoundTrip | bcos-rpc/event/EventSubRequest.cpp:110-298 | parsing any printed form succeeds; id, group and last block are kept, the first block is the cursor plus one or else kept, and the tables come back normalised, including positions past four and trailing empty ones |
| EventRequest.MeaningSurvives | bcos-rpc/event/EventSubRequest.cpp:110-298 | the parsed filter accepts the same logs as the printed one if and only if every address is lower-case and unprefixed and normalising brings up no topic that was not asked for, or some position holds no topic even when normalised |
| EventRequest.MeaningLost | bcos-rpc/event/EventSubRequest.cpp:110-298 | a filter on one prefixed or upper-case hash accepts other logs after printing and parsing than before |
| EventRequest.PlainSurvives | bcos-rpc/event/EventSubRequest.cpp:110-298 | every lower-case unprefixed filter accepts the same logs after printing and parsing |
| EventTask.StepKeepsBounds | bcos-rpc/event/EventSub.cpp:345-427 | under any interleaving the cursor is one past the highest matched block, and windows and matched blocks stay in the range asked for |
| EventTask.StepKeepsGapless | bcos-rpc/event/EventSub.cpp:345-427 | every step keeps all blocks behind the cursor and behind every live window matched |
| EventTask.StepKeepsCompleteLast | bcos-rpc/event/EventSub.cpp:429-444 | every step keeps each completion notice behind all blocks of the range |
| EventTask.StepKeepsNotStuck | bcos-rpc/event/EventSub.cpp:380-412 | a busy task keeps a live window unless its group vanished, in which case its id was put on the cancel queue |
| EventTask.RunKeepsInvariant | bcos-rpc/event/EventSub.cpp:345-540 | all of these hold after every sequence of polls, replies and failures |
| EventStream.OpenWindow | bcos-rpc/event/EventSub.cpp:347-378 | the source's statements in wrapping 64-bit arithmetic compute the window of unbounded arithmetic for all heights up to 2^63 - 2 and all limits above -2^63, without overflow |
| EventStream.WindowArithmetic | bcos-rpc/event/EventSub.cpp:347-421 | a block is in the window if and only if it lies from the origin up to the height, up to a positive last block, and within the limit |
| EventStream.StreamFollowsBlocks | bcos-rpc/event/EventSub.cpp:490-540 | in every run the concatenation of all pushes is the matcher's output over the blocks matched, in that order |
| EventStream.PushedExact | bcos-rpc/event/EventSub.cpp:490-540 | in every run each block matched pushed, of every accepted log, the one entry that tells of it field by field and that the filter asks for, in order; nothing if their number is a multiple of 2^32 |
| EventStream.NoGapsAnyInterleaving | bcos-rpc/event/EventSub.cpp:345-427 | with a positive first block, any number of overlapping windows that advance, fail or finish in any order leave no block unmatched before the cursor or before a live window |
| EventStream.NeverOverruns | bcos-rpc/event/EventSub.cpp:369-373 | a positive last block is never passed by the cursor or a push; an empty range delivers and reports nothing |
| EventStream.StartIsAskedOrReplied | bcos-rpc/event/EventSub.cpp:348-352 | in every run the first block matched is the first block asked for, or else one of the replied heights |
| EventStream.FetchesBounded | bcos-rpc/event/EventSub.cpp:384-424 | in every run the blocks matched and still to be fetched never exceed the limit times the number of height replies |
| EventStream.StepWork | bcos-rpc/event/EventSub.cpp:384-412 | every block reply, good or bad, strictly decreases the remaining length of the windows, so the callback recursion ends |
| EventStream.GapRun | bcos-rpc/event/EventSub.cpp:345-427 | a run of two overlapping queries that skips a block, for every filter with first block at most 0 and last block not 1 |
| EventStream.NoGapsExactly | bcos-rpc/event/EventSub.cpp:345-427 | no run of a task has a gap if and only if its first block is positive or its last block is 1 |
| EventStream.RunIsSolo | bcos-rpc/event/EventSub.cpp:380-447 | with at most one outstanding query, query and window exclude each other, the window stands at the cursor, and the matched blocks are consecutive |
| EventStream.StreamRefinement | bcos-rpc/event/EventSub.cpp:345-540 | with at most one outstanding query, for every limit, heights, failures and retries, the blocks matched are start..cursor-1 in order, and the pushes are the plain filter of them if and only if no block's 32-bit count wraps to zero |
| EventStream.BatchingInvisible | bcos-rpc/event/EventSub.cpp:375-427 | two such runs with the same start and cursor have delivered the same stream whatever their limits, failures and retries |
| EventCompletion.QuietExactly | bcos-rpc/event/EventSub.cpp:370-444 | with at most one outstanding query, no run matches a block after a completion notice if and only if the subscription is not of the overrunning kind |
| EventCompletion.OverrunningRun | bcos-rpc/event/EventSub.cpp:370-444 | for every overrunning subscription and every later block its window can reach, a run that ends by matching that block after the notice, handing over its entries |
| EventCompletion.PushesEndExactly | bcos-rpc/event/EventSub.cpp:370-540 | with at most one outstanding query, no run pushes after a completion notice if and only if the subscription does not overrun into a block with something to push |
| EventCompletion.OverlapPushesLate | bcos-rpc/event/EventSub.cpp:429-540 | for every subscription that can complete and every block of its range, a run of overlapping queries that ends by matching that block after the notice, handing over its entries |
| EventCompletion.LatePushExactly | bcos-rpc/event/EventSub.cpp:345-540 | with any number of queries, no run pushes after a completion notice if and only if the subscription can never complete or no block of its range has anything to push |
| EventCompletion.CompletionSound | bcos-rpc/event/EventSub.cpp:439-444 | under any interleaving a completion notice comes only after all blocks of the range were matched |
| EventQueues.PurgedIs | bcos-rpc/event/EventSub.cpp:298-325 | cancelling removes exactly the ids named |
| EventQueues.RegisteredIs | bcos-rpc/event/EventSub.cpp:267-296 | adding keeps every task there is and gives each new id to the first of the queue that carries it |
| EventSteps.PollExact | bcos-rpc/event/EventSub.cpp:429-488 | a poll cancels the task if and only if the session is gone, or the range is finished, or the task is not busy and its group is gone; it sends the notice exactly if there is a session and the range is finished, asks for a height exactly if there is a session, a group and work to begin, and changes nothing else |
| EventSteps.HeightErrorExact | bcos-rpc/event/EventSub.cpp:467-475 | a failed height query is no longer outstanding and changes nothing else |
| EventSteps.HeightExact | bcos-rpc/event/EventSub.cpp:345-427 | a height reply opens one window of exactly the blocks to read and makes the task busy, or cancels it if its group is gone, or only answers the query if the chain is not there yet |
| EventSteps.BlockErrorExact | bcos-rpc/event/EventSub.cpp:402-407 | a failed fetch ends its own window and frees the task; the other windows, the cursor and the history stay |
| EventSteps.BlockOkExact | bcos-rpc/event/EventSub.cpp:384-540 | a fetched block is matched and rightly pushed, the cursor moves behind it but never back, its window goes on with the next block, ends, or cancels the task for want of the group; the other windows stay |
| EventSteps.CancelQueueFollowsHistory | bcos-rpc/event/EventSub.cpp:236-325 | in every run an id is on the cancel queue if and only if a client, a poll or a ledger reply has asked for its cancellation since the worker last took the queue |
| EventSteps.CancellationTakesEffect | bcos-rpc/event/EventSub.cpp:236-325 | whoever asks, no task is filed under the id once the worker has next taken the queue |
| EventSteps.LostIsDropped | bcos-rpc/event/EventSub.cpp:429-465 | a poll that finds the session gone, or the group of an idle task, leaves the task object as it was, and the task is no longer active after the next drain of the cancel queue |
| EventSteps.EachPolledOnce | bcos-rpc/event/EventSub.cpp:542-551 | a tick does not end before every task that was in the map after its second drain was polled, and polls none twice, whatever happens between the polls |
| EventEngine.ApplyConserves | bcos-rpc/event/EventSub.cpp:227-325 | every step of clients, worker or ledger keeps the counters equal to the queue lengths and the four fates of a subscription exhaustive and exclusive |
| EventEngine.Conservation | bcos-rpc/event/EventSub.cpp:227-325 | in every run each submitted subscription is exactly one of pending, active, rejected as duplicate, or cancelled |
| EventSteps.FatesFollowHistory | bcos-rpc/event/EventSub.cpp:267-325 | in every run the cancelled subscriptions are those that were active once and no longer are, the rejected ones those that left the add queue without ever being active |
| EventRuns.Projection | bcos-rpc/event/EventSub.cpp:227-540 | in every engine run each task object goes through a run of the task machine, with one query outstanding if the engine run has it so |
| EventRuns.NoGapsInEngine | bcos-rpc/event/EventSub.cpp:227-540 | in every engine run, a task object with a positive first block has matched every block up to its cursor and to each live window |
| EventRuns.CompletionSoundInEngine | bcos-rpc/event/EventSub.cpp:227-540 | in every engine run, a notice of such a task object comes only after all blocks of its range were matched |
| EventRuns.PushesEndInEngine | bcos-rpc/event/EventSub.cpp:227-540 | in every engine run, a task object with one query at a time pushes nothing after its notice, unless it overruns into a block with something to push |
| EventRuns.CompletionOnce | bcos-rpc/event/EventSub.cpp:244-343 | in every run a task object's client gets at most one completion notice |
| EventRuns.NoStuckTask | bcos-rpc/event/EventSub.cpp:380-507 | in every reachable state a busy task of the map has a live window or is on the cancel queue; right after draining that queue it has a live window |
| EventRuns.Delivery | bcos-rpc/event/EventSub.cpp:345-540 | in every engine run, a task object with one query at a time has delivered the filter of consecutive blocks from its start to its cursor |
| EventRuns.CompletionExact | bcos-rpc/event/EventSub.cpp:244-540 | a client that holds the notice of 0 < from <= to has received blocks from..to, each once and in order, and then the notice, once and last |
| EventRuns.BatchRefinement | bcos-rpc/event/EventSub.cpp:244-325 | a tick turns the task map into the map it found minus the cancels of its first drain plus the adds of its second, the first of equal ids winning, whatever clients and the ledger do between the two drains |
| EventRuns.UnsubscribeTakesEffect | bcos-rpc/event/EventSub.cpp:244-325 | an unsubscription that a tick finds takes effect in it if and only if no subscription with its id is waiting at the second drain |
| EventRuns.UnsubscribeLost | bcos-rpc/event/EventSub.cpp:244-325 | a subscription unsubscribed before the tick stays active |
| EventProgress.RepliesWork | bcos-rpc/event/EventSub.cpp:345-427 | with a ledger that answers at once, a queried task reads one whole window and comes to rest |
| EventProgress.CursorAfter | bcos-rpc/event/EventSub.cpp:244-488 | a new subscription waiting on the add queue has, after k ticks counting the one that registers it and amid arbitrary other activity, the cursor min(to + 1, from + k * limit) and no notice, up to the number of windows of the range; so has a registered task that has read nothing |
| EventProgress.WindowsExact | bcos-rpc/event/EventSub.cpp:375-378 | the number of windows is the length of the range divided by the limit, rounded up |
| EventProgress.ExactProgress | bcos-rpc/event/EventSub.cpp:244-488 | for such a subscription the notice comes on the tick after the last window, not before, and the next drain of the cancel queue drops the task |
| EventProgress.WaitingIsDue | bcos-rpc/event/EventSub.cpp:227-325 | in every engine run, between ticks, a waiting subscription that is the first with its id, the id being free or about to be cancelled, is such a subscription |
| EventProgress.ProgressHappens | bcos-rpc/event/EventSub.cpp:227-488 | the ticks of the progress theorem exist: from a subscription to an idle engine to its notice, for every range and limit |
| EventEndToEnd.AcceptedExactly | bcos-rpc/event/EventSub.cpp:67-115 | in every run a received request adds a task object if and only if it can be read and its group is known: one fresh object with what the request says, at the end of the add queue; otherwise nothing changes |
| EventEndToEnd.RequestIsSubmitted | bcos-rpc/event/EventSub.cpp:67-115 | a request that parses and whose group is known has from then on a task object with its id, group and filter, whatever happens before and after |
| EventEndToEnd.RequestToStream | bcos-rpc/event/EventSub.cpp:67-540 | a request that was printed, received, parsed and submitted amid any other activity delivers the plain filter, by the client's own filter, of consecutive blocks from the printed first block, exactly when no block's count wraps |
| EventSub.EventSubTask.SetCurrentBlockNumber | bcos-rpc/event/EventSubTask.h:41-52 | the cursor becomes the maximum and never moves back |
| EventSub.EventSubTask.IsCompleted | bcos-rpc/event/EventSubTask.h:86-94 | true exactly if the last block is not negative and the cursor is past it |
| EventSub.EventSub.SubscribeEventSub | bcos-rpc/event/EventSub.cpp:227-234 | the task joins the end of the add queue and the counter follows |
| EventSub.EventSub.UnsubscribeEventSub | bcos-rpc/event/EventSub.cpp:236-242 | the id joins the end of the cancel queue and the counter follows |
| EventSub.EventSub.ExecuteCancelTasks | bcos-rpc/event/EventSub.cpp:298-325 | drains the queue unless its 32-bit counter reads zero; below 2^32 entries it removes exactly the ids named |
| EventSub.EventSub.ExecuteAddTasks | bcos-rpc/event/EventSub.cpp:267-296 | drains the queue unless its 32-bit counter reads zero, registering in order with duplicates rejected |
| EventSub.EventSub.ExecuteEventSubTask | bcos-rpc/event/EventSub.cpp:429-488 | makes the poll step of the task machine, and enqueues the id exactly if the session is gone, the range is finished, or the task is not busy and its group is gone |
| EventSub.EventSub.OnBlockNumber | bcos-rpc/event/EventSub.cpp:345-427 | makes the height-reply step of the task machine, the window being computed in 64-bit arithmetic |
| EventSub.EventSub.ProcessBlock | bcos-rpc/event/EventSub.cpp:384-412 | finishes the window, gives up for want of the group, or starts the next fetch, as the machine does |
| EventSub.EventSub.OnBlockData | bcos-rpc/event/EventSub.cpp:510-539 | makes the block-reply step: matching, callback unless the count is zero, cursor, next block |
| EventSub.EventSub.OnBlockError | bcos-rpc/event/EventSub.cpp:402-407 | the window ends, the task is free, cursor and history stay |
| EventSub.EventSub.ExecuteEventSubTasks | bcos-rpc/event/EventSub.cpp:542-551 | each task of the map is polled exactly once, and exactly the ids whose poll must cancel are enqueued |
| EventSub.EventSub.ExecuteWorker | bcos-rpc/event/EventSub.cpp:244-250 | cancels, then adds, then one poll of every task then in the map, in the state it had at the start |
| GroupHeights.IndexRefinesHistory | bcos-rpc/jsonrpc/groupmgr/GroupManager.h:98-138 | after any reports and removals, negative reports counting as block 0, the recorded height is the maximum reported since the group's last reset, and the latest nodes are exactly those that reported it since and were not removed afterwards |
| GroupHeights.HeightFallsOnlyByReset | bcos-rpc/jsonrpc/groupmgr/GroupManager.cpp:229-257 | the recorded height never falls except that a removal resets it to nothing |
| GroupHeights.TopAfterSeen | bcos-rpc/jsonrpc/groupmgr/GroupManager.h:127-134 | a new highest report stands alone, an equal one joins, a lower one is ignored |
| GroupRegistry.RegistryInvariant | bcos-rpc/jsonrpc/groupmgr/GroupManager.cpp:29-228 | however notifications fall between the phases, every service is for a known group, no group maps to an empty table, and every service the sweep has not doomed is for a listed node |
| GroupRegistry.IndexOfRun | bcos-rpc/jsonrpc/groupmgr/GroupManager.cpp:158-172 | in every run of the manager the index is the one its own reports and removals determine |
| GroupHistory.ServicesFollowHistory | bcos-rpc/jsonrpc/groupmgr/GroupManager.cpp:29-228 | in every run a node has a service if and only if some notification that is not the first of its group named it as buildable and no sweep that held it as lost has removed services since |
| GroupHistory.ListsFollowHistory | bcos-rpc/jsonrpc/groupmgr/GroupManager.cpp:29-203 | in every run a node is listed if and only if a notification put it there, the first of the group or a later one that could build it while it had no service, and no check has found it without a service or unreachable since |
| GroupHistory.FirstNotification | bcos-rpc/jsonrpc/groupmgr/GroupManager.cpp:29-39 | in every run the first notification of a group lists exactly its nodes and builds nothing |
| GroupHistory.LaterNotification | bcos-rpc/jsonrpc/groupmgr/GroupManager.cpp:40-68 | in every run a later notification leaves every buildable node it names with a service, and listed unless a sweep is about to remove its service |
| GroupHistory.ReturnLost | bcos-rpc/jsonrpc/groupmgr/GroupManager.cpp:29-228 | a run in which a node that is notified again between the check that loses it and the removal of its service ends up with neither service nor listing |
| GroupHistory.CheckExact | bcos-rpc/jsonrpc/groupmgr/GroupManager.cpp:174-203 | a check takes exactly the listed nodes without a service or out of reach off the lists, and a sweep holding exactly these is under way unless there are none |
| GroupHistory.SweepExact | bcos-rpc/jsonrpc/groupmgr/GroupManager.cpp:158-257 | whatever is notified between its phases, a sweep comes to its end, and a node it found is then not a latest node and has no service unless notified again after the services were removed |
| GroupRegistry.CheckSplits | bcos-rpc/jsonrpc/groupmgr/GroupManager.cpp:174-203 | the check splits each list into kept and lost, kept exactly if registered and reachable, and loses no node |
| GroupRegistry.SweptStaysAway | bcos-rpc/jsonrpc/groupmgr/GroupManager.cpp:205-257 | over every continuation, a swept node is not returned by name or by selection, whenever its name was drawn, until it registers again, nor drawn by height until it reports again |
| GroupRegistry.SelectionExact | bcos-rpc/jsonrpc/groupmgr/GroupManager.cpp:81-156 | drawing in one state and looking up in another, selection succeeds for every draw if and only if every named node latest at the draw has a service at the lookup and the fallback, where reachable, has one to offer |
| GroupRegistry.FallbackComplete | bcos-rpc/jsonrpc/groupmgr/GroupManager.cpp:109-135 | if a run knows no latest node at the draw, the lookup in any later state finds a service whenever one exists that is not doomed |
| GroupRegistry.ReportHidesService | bcos-rpc/jsonrpc/groupmgr/GroupManager.cpp:81-107 | a run after which selection can fail although a listed service is registered |
| GroupManager.GroupManager.UpdateGroupInfo | bcos-rpc/jsonrpc/groupmgr/GroupManager.cpp:29-45 | the first notification lists exactly its nodes and builds nothing; a later one leaves every buildable node it names with a service and lists those that had none |
| GroupManager.GroupManager.UpdateNodeService | bcos-rpc/jsonrpc/groupmgr/GroupManager.cpp:47-68 | a node that can be built has a service afterwards, and is listed if it had none; otherwise nothing changes |
| GroupManager.GroupManager.UpdateGroupBlockInfo | bcos-rpc/jsonrpc/groupmgr/GroupManager.h:98-138 | makes the report step of the height index, negative heights included |
| GroupManager.GroupManager.CheckNodeStatus | bcos-rpc/jsonrpc/groupmgr/GroupManager.cpp:174-203 | the nested loops take exactly the listed nodes without a service or out of reach off the lists, and return exactly these |
| GroupManager.GroupManager.RemoveUnreachableNodeService | bcos-rpc/jsonrpc/groupmgr/GroupManager.cpp:205-228 | exactly the lost nodes lose their services, and a group left empty loses its table |
| GroupManager.GroupManager.RemoveGroupBlockInfo | bcos-rpc/jsonrpc/groupmgr/GroupManager.cpp:229-257 | makes the removal step of the height index, resets included |
| GroupManager.GroupManager.SelectNodeByBlockNumber | bcos-rpc/jsonrpc/groupmgr/GroupManager.cpp:90-107 | some latest node, or the empty name if there is none |
| GroupManager.GroupManager.SelectNodeRandomly | bcos-rpc/jsonrpc/groupmgr/GroupManager.cpp:109-135 | a listed node with a service, found if and only if there is one |
| GroupManager.GroupManager.SelectDrawn | bcos-rpc/jsonrpc/groupmgr/GroupManager.cpp:81-135 | looking up a name drawn from any earlier index gives the present service of that node; without a name, a listed node with a service if and only if there is one |
| GroupManager.GroupManager.GetNodeService | bcos-rpc/jsonrpc/groupmgr/GroupManager.cpp:137-156 | by name the service of that node or nothing; without a name only what selection may return |
| GroupManager.GroupManager.GroupList | bcos-rpc/jsonrpc/groupmgr/GroupManager.h:72-85 | exactly the groups that list a node |
| AmopTopics.GatewayAgreement | bcos-rpc/amop/LocalAMOPClient.h:51-75 | over every run of handlers the gateway holds exactly the announced topics, each has a session, and no topic has an empty session map |
| AmopTopics.AnnouncingRestores | bcos-rpc/amop/LocalAMOPClient.h:51-64 | whatever the gateway has lost, announcing again gives it exactly the announced topics again, and so does the next subscription |
| AmopTopics.UnicastFindsSession | bcos-rpc/amop/AMOPClient.cpp:280-306 | a unicast for a topic the gateway holds always finds a session |
| AmopTopics.TablesFollowHistory | bcos-rpc/amop/AMOPClient.cpp:50-75 | the sessions of a topic are exactly those of the endpoints whose last subscription naming it no disconnect has followed; the topic is in the table while there is one, and announced if and only if some subscription named it first after which it always had a client |
| AmopTopics.InfoFollowsHistory | bcos-rpc/amop/AMOPClient.cpp:66-73 | what is recorded with an announced topic is the text of the last subscription that named it first |
| AmopTopics.DisconnectExact | bcos-rpc/amop/AMOPClient.cpp:366-394 | from every reachable table the endpoint leaves every topic, no other session changes, and the dropped topics are exactly those it alone served |
| AmopTopics.AnnouncedExactly | bcos-rpc/amop/AMOPClient.cpp:66-73 | when a subscription leaves every subscribed topic announced, in both directions |
| AmopTopics.SingleTopicsAnnounced | bcos-rpc/amop/AMOPClient.cpp:66-73 | if no subscription names two different topics, every topic with a session is announced |
| AmopTopics.SecondTopicUnannounced | bcos-rpc/amop/AMOPClient.cpp:66-73 | the second topic of a subscription has a session that the gateway does not know of |
| AmopClient.AMOPClient.UpdateTopicInfos | bcos-rpc/amop/AMOPClient.cpp:50-75 | every topic gets the session under the endpoint, and only the first is recorded for announcement |
| AmopClient.AMOPClient.OnRecvSubTopics | bcos-rpc/amop/AMOPClient.cpp:79-101 | makes the subscription step, announcement included |
| AmopClient.AMOPClient.SubscribeTopicToAllNodes | bcos-rpc/amop/LocalAMOPClient.h:51-64 | the gateway then holds all recorded topics besides what it held |
| AmopClient.AMOPClient.GenerateTopicInfo | bcos-rpc/amop/AMOPClient.cpp:511-522 | lists each recorded topic exactly once |
| AmopClient.AMOPClient.RemoveTopicInfo | bcos-rpc/amop/AMOPClient.h:174-182 | exactly that topic is no longer recorded |
| AmopClient.AMOPClient.OnClientDisconnect | bcos-rpc/amop/AMOPClient.cpp:366-394 | makes the disconnect step; the list sent to the gateway holds each dropped topic once |
| AmopClient.AMOPClient.QuerySessionsByTopic | bcos-rpc/amop/AMOPClient.h:133-142 | the sessions of the topic, none if it is unknown |
| AmopClient.AMOPClient.RandomChooseSession | bcos-rpc/amop/AMOPClient.cpp:332-364 | finds a session if and only if the topic has one; a disconnected one is returned only after one draw more than there are sessions, all disconnected |

## Left out

- JSON-RPC method handlers, dispatch and response building (`bcos-rpc/jsonrpc/JsonRpcImpl_2_0.cpp`): thin forwarding, would only add easy members.
- JSON text: requests are value trees; number values other than integers are not modelled; the order in which a set is printed is any order, not the sorted one.
- `sendEvents` and `sendResponse` (`bcos-rpc/event/EventSub.cpp:146-225`): "pushed" means handed to the task's callback, whose result the source ignores; that the session sends it on is not modelled.
- Sessions, message encoding, proxies, endpoint discovery and the remote gateway client (`bcos-rpc/amop/AMOPClient.cpp:396-476`): only the answers connected, reachable and buildable, and the effect of messages on the gateway, are kept.
- Random draws are arbitrary choices; timers, sleeping, logging, the group-info notifier and `reportEventSubTasks` have no effect on the modelled state.
- Handlers and callbacks are atomic steps: the unguarded load and store inside `setCurrentBlockNumber` and the unlocked write to `m_topicInfos` are not split.
- Replied heights are taken from 0 to 2^63 - 2, as a ledger gives them.
- EventStream.OpenWindow: takes heights up to 2^63 - 2 and limits above -2^63; one height more and the next cursor would overflow.
- EventEngine.Conservation: assumes, like all theorems about whole engine runs, that neither queue ever holds 2^32 requests (`Fits`); the two drain methods of the object model the 32-bit counters and their test for zero without that assumption.
- EventSub.EventSub.ExecuteEventSubTasks: client calls and ledger replies that arrive while the loop polls are not part of this method; the engine machine interleaves them freely with its steps.
- EventSub.EventSub.ExecuteWorker: the same holds within the tick, and the queues are taken to hold fewer than 2^32 requests at its start.
- EventSub.EventSub.OnBlockNumber: takes the replied heights and limits that EventStream.OpenWindow takes.
- GroupManager.GroupManager.GetNodeService: draw and lookup see one state here; GroupManager.GroupManager.SelectDrawn and GroupRegistry.SelectionExact state the lookup for a later one.
- EventProgress.ExactProgress: the activity around the polls may be anything that does not cancel the task's id; a client that does, or an older task object with the same id that loses its group, would cut the task short. The add and cancel queues are taken to hold fewer than 2^32 requests when the registering tick drains them.
- AmopTopics.TablesFollowHistory: the topics of a subscription are a list in the order the parser yields them; the parser itself is not part of this model.
- `EventSubRequest` has no way to set its cursor in the source, so the printer takes the cursor as an argument.
- A node service is identified by its group and node; `GroupInfo` is the set of its node names.
- RpcFactory, Rpc, ProtocolVersion, EventSubResponse, LocalGroupManager and the unsubscribe request: wiring or objects of one or two fields.
