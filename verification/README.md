# Wheel: synchronisation, boards and keys in Dafny

This project models the parts of Wheel in which state is shared, interleaved or replayed, and proves what
they keep. `dafny verify dfyconfig.toml` checks everything.

| files | what they model |
|---|---|
| `SseLines`, `SseEvents` | the SDK's incremental decoder of server-sent events, against sections 9.2.5 and 9.2.6 of the WHATWG HTML Standard |
| `Rpc` | the SDK's request/response client with its ids and timers |
| `BoardState`, `Handshake`, `HandshakeSafety`, `SharedBoard` | the one stored board through which the explorer and its node panes talk: peers, the spawn handshake with any number of explorer calls under way, and the handlers that close, respawn and recover nodes |
| `PaneMaps`, `BoardSync`, `BoardSyncLaws`, `BoardSyncRuns` | the node/pane maps of `BoardSync`: its handlers as whole programs, the laws between them, and every interleaving of their segments between awaits |
| `WheelEvents` | the reconnecting event source |
| `MockBoard`, `MockRoutes` | the mock engine's node, wire and vault routes: what every sequence of requests keeps, and what each accepts, refuses and does |
| `LocalAuth` | the mock API's sign-in throttle |
| `VaultKey` | re-encoding of stored vault keys (sections 4 and 5 of RFC 4648) |
| `DepsClosure`, `PollMessages`, `FreshName`, `Grid` | the dependency closure, the message cursor, the default node name, grid rounding |
| `Options`, `NodeTypes`, `Decimals` | shared types and decimal numerals |

Code that updates fields is a class whose methods are proved equal to a step function on the object's
state; the runs and laws are then proved about those step functions. Protocols are step machines: a
`Legal` sequence of steps is one interleaving, and every theorem quantifies over all of them.

## Assumptions

- The canvas answers a spawn with a pane id never used before, or with none, or throws; a spawn that
  throws has created no pane. The engine's node ids are fresh and not empty; project ids in the shared
  board are not empty.
- Clocks do not go backwards. Canvas coordinates are reals, and the scale is not zero.
- Each read of the stored board is one snapshot and each write one overwrite; writes of it succeed. A pane
  stays within its polling deadline.
- `Handshake` lets explorer calls overlap and kills fail, and follows a run up to the first pane that goes
  astray. `SharedBoard` takes each handler whole.
- Handlers called by the event source return normally, and `new WebSocket` does not throw.
- Emails are already trimmed and lower-cased. Text has already been decoded to characters.
- Message sequence numbers, `seq` or else `id`, are positive and strictly increasing in the log.

## Where the code falls short of the obvious claim

Each of these is proved as an exact condition, so the claim holds precisely when the condition does.

- An SSE id that contains NUL is ignored, so such an event does not round-trip (`SseEvents.RoundTripIff`).
  A CR followed by an empty line that ends in LF is one CRLF, which costs the end of an event
  (`SseLines.MergingLosesBlank`).
- If `postMessage` throws, the promise is rejected while the request stays pending with its timer armed,
  and is rejected again later (`Rpc.StepExactlyOnceIff`).
- A ticket still being fetched at disposal opens a socket afterwards (`WheelEvents.DisposalFinalIff`). The
  frame `null` makes the dispatcher throw, and the rest of its batch is lost (`WheelEvents.FifoIff`).
- A click on a stale closed-node row puts a node on two panes, and a respawn that gets no pane loses the
  node (`SharedBoard.RespawnIff`, `SharedBoard.FailedRespawnLosesIff`). A click that finds no stored board
  leaves pane removals suppressed (`SharedBoard.MutedRun`).
- The explorer does not keep its own calls apart: two closed rows clicked within one spawn, a close being
  filed while a row is clicked, or a polling pane that survives a sync can make a spawned pane recover a
  wrong node or be taken for a new one (`HandshakeSafety.EveryRunSafeIff`, with the concrete cases
  `OverlappingRespawnStrays`, `SurvivorStrays` and `DoubleClickStrays`).
- Spawning over a mapped node leaves its old pane behind, with whole handlers when a board is opened or a
  delta applied over mapped nodes, and with overlapping handlers even when each only fills gaps
  (`BoardSyncLaws.EveryRunInverseIff`, `BoardSyncRuns.EveryInterleavingInverseIff`).
- Closing a pane that was left behind takes its node off the pane it is on
  (`BoardSyncLaws.ClosedTakesOffIff`). A project with the empty id is not restored
  (`BoardSyncRuns.NextSessionTakesOver`).
- The ambiguous-credential check runs only when a wire is made: writing keys afterwards is not checked,
  and a shared key whose name is empty counts as no clash (`MockBoard.StepNoClashIff`).
- Grid cells survive the canvas exactly for scales above 1 or at most -1 (`Grid.RoundTripIff`), and
  snapping twice is snapping once exactly for scales other than 1 (`Grid.SnapIdempotentIff`).

## Model

| member | source | states |
|---|---|---|
| SseLines.SseStream.ReadLines | extension/panel/explorer.js:282-292 | for every text and every way of cutting it into chunks, empty ones and cuts inside a CRLF included, the lines are the terminated lines of the whole text and the buffer ends as its unterminated rest |
| SseLines.SseStream.DrainCompleteLines | extension/panel/explorer.js:293-301 | yields the terminated lines of the buffer; a CR at its end is held back unless the stream has ended |
| SseLines.SplitSound | extension/panel/explorer.js:298-299 | the split loses and invents nothing: a text is its lines, each with its own break, followed by the rest |
| SseLines.SplitConcat | extension/panel/explorer.js:298-299 | splitting a concatenation cut outside a CRLF keeps the left lines and re-reads only the left rest with the right part |
| SseLines.DrainStep | extension/panel/explorer.js:293-301 | after one more chunk the buffer alone, not the text behind it, decides the new lines and the new buffer |
| SseLines.FinishStep | extension/panel/explorer.js:290-291 | at the end of the stream the buffer and the decoder's last text give exactly the lines still missing |
| SseLines.LinesRenderIff | extension/panel/explorer.js:298-299 | lines written with any choice of CRLF, CR and LF are read back exactly when no CR is followed by an empty line that ends in a bare LF |
| SseLines.MergingLosesBlank | extension/panel/explorer.js:298-299 | otherwise at least one empty line, and so the end of an event, is lost |
| SseLines.HeldBackAtMostOne | extension/panel/explorer.js:294-300 | lines once yielded are never taken back, and at most one terminated line is late |
| SseEvents.ReadEvents | extension/panel/explorer.js:259-276 | whatever the chunks, the events are those decoded from the concatenated text; this carries every claim about decoded texts below to any chunking |
| SseEvents.PendingEvent.ApplyField | extension/panel/explorer.js:306-333 | one line updates the pending event as the field rules say: comments, the optional space, an id with NUL, a retry that is not digits |
| SseEvents.FieldReadBack | extension/panel/explorer.js:311-314 | a field however spelled (space or none, bare name for an empty value) is read back as its name and value |
| Decimals.ReadNext | extension/panel/explorer.js:327-331 | a retry time is read digit by digit in tens |
| SseEvents.DecodesLikeTheStandard | extension/panel/explorer.js:259-340 | for every list of lines the event names and data are those of the interpretation rules of section 9.2.6 of the WHATWG HTML Standard |
| SseEvents.DecodeWritten | extension/panel/explorer.js:259-340 | events laid out in any order of fields, with comments and other fields anywhere, repeated fields and every spelling section 9.2.5 allows, are decoded one for one to the same names, data and retry times, and to the same ids except those with NUL |
| SseEvents.RoundTripIff | extension/panel/explorer.js:259-340 | for every layout and every choice of line breaks, decoding the written text gives the written events exactly when no id contains NUL and no CR merges with a following bare LF; with ReadEvents, under any chunking |
| SseEvents.EveryEventSpelled | extension/panel/explorer.js:306-340 | every event with at least one data line and fields free of CR and LF can be written |
| SseEvents.UnclosedNeverEmitted | extension/panel/explorer.js:268-272 | text that adds no blank line adds no event |
| SseEvents.NeverTakenBack | extension/panel/explorer.js:259-276 | the events of the lines drained so far are a prefix of the events of every longer text |
| Rpc.Client.Request | extension/panel/explorer.js:107-118 | a request takes the next id, arms one timer and is pending; if posting throws the promise is rejected but stays pending with its timer armed |
| Rpc.Client.Notify | extension/panel/explorer.js:119-123 | a notification takes the next id and leaves no request behind |
| Rpc.Client.SettleRequest | extension/panel/explorer.js:152-163 | a response settles the request with its id, with its result or with its error text, and does nothing when there is none |
| Rpc.Client.Timeout | extension/panel/explorer.js:112-115 | a timer that fires rejects its own request only |
| Rpc.Client.Destroy | extension/panel/explorer.js:133-141 | every pending request is rejected once, its timer cleared, and nothing stays pending |
| Rpc.IdsDistinct | extension/panel/explorer.js:93-123 | no two messages ever sent carry the same id, requests and notifications together |
| Rpc.StepExactlyOnceIff | extension/panel/explorer.js:107-163 | a step keeps "pending = live timers = issued and unsettled, nothing settled twice" exactly when it is not a request whose post throws |
| Rpc.EveryRunExactlyOnceIff | extension/panel/explorer.js:93-163 | over every run of a new client that discipline holds in every state exactly when no post throws |
| Rpc.LateResponseIgnored | extension/panel/explorer.js:152-156 | a response to an unknown or settled request changes nothing |
| Rpc.SettledStays | extension/panel/explorer.js:107-163 | a settled promise sees no further call in any continuation |
| Rpc.DestroySettlesAll | extension/panel/explorer.js:133-141 | everything requested before destroy is settled by it, and with posts that do not throw exactly once whatever follows |
| Rpc.DeafOnceDestroyed | extension/panel/explorer.js:133-163 | once destroyed, whatever follows, no response changes anything |
| Rpc.OutcomeAt | extension/panel/explorer.js:107-163 | a pending promise is resolved with the result of its response, rejected with its error text or the standard one, rejected as timed out by its timer and cancelled by destroy |
| Rpc.FirstOutcomeWins | extension/panel/explorer.js:107-163 | over every run without a throwing post the one call a promise sees is that of the first of its response, its timer and destroy |
| Rpc.RequestStarts | extension/panel/explorer.js:107-118 | a request whose post succeeds is pending under its method with no call made; one whose post throws is rejected with that failure |
| Rpc.EveryPostNumbered | extension/panel/explorer.js:107-123 | over every run the messages sent are as many as the requests and notifications, and carry the next numbers in order |
| Handshake.WaitForBoardEntry | extension/src/node-pane.ts:227-294 | the polling loop ends at the first snapshot that is not a reason to wait: with the recorded entry, with a closed node the pane may take over, or, with the flag down and neither, by giving up |
| Handshake.LookUpMeans | extension/src/node-pane.ts:245-290 | a read finds the entry exactly when it is recorded, recovers exactly when the recovery of some closed node is open to the pane, gives up exactly when the flag is down and there is neither, and waits otherwise |
| Handshake.ResolveEntry | extension/src/node-pane.ts:227-294 | the pane takes its own entry and writes nothing, or takes over a closed node of a snapshot it read and overwrites the store with that |
| Handshake.SpawnNodePanes | extension/src/explorer.ts:233-257 | records a pane per node in the stored board and lowers the flag; a spawn that throws leaves the flag up with what was recorded so far |
| Handshake.RecordedForItsNode | extension/src/explorer.ts:233-257 | each pane the host names is recorded for the node it was spawned for, of several spawns naming it the last |
| Handshake.WholeBoardShown | extension/src/explorer.ts:233-257 | with spawns that each name another pane exactly the fetched nodes are on canvas |
| Handshake.ResolvesToItsEntry | extension/src/node-pane.ts:245-259 | in every interleaving, overlapping calls and missed kills included, a pane that resolves resolves to exactly the entry it was spawned for |
| HandshakeSafety.CannotStrayIff | extension/src/explorer.ts:151-423 | no continuation of the calls under way, bulk, sync, respawn, stop, close or delete, makes a pane recover or give up exactly when every polling pane is spared by all their last writes and by the store, no call lowers the flag beside one that may still spawn, and a call about to spawn stands announced |
| HandshakeSafety.StepProtectedIff | extension/src/explorer.ts:151-423 | a step leaves such a state exactly when it begins a call that leaves a polling pane out or rivals another, or misses a polling pane with a kill |
| HandshakeSafety.EveryRunSafeIff | extension/src/explorer.ts:151-423 | over every run from the start, reloads of the explorer included, the calls under way can never lead a pane astray exactly when each call was welcome when it began and no kill missed a polling pane |
| HandshakeSafety.EveryPaneResolves | extension/src/node-pane.ts:227-294 | in those runs a pane within its deadline never takes the recovery or give-up path, resolves only to its own entry, and does so at the next successful read once the flag is down |
| HandshakeSafety.OneCallAtATime | extension/src/explorer.ts:151-423 | runs in which no call begins during another or is lost in a reload, no polling pane outlives a kill, and a pane is gone before its node is deleted are all of that kind |
| HandshakeSafety.OverlappingRespawnStrays | extension/src/explorer.ts:346-423 | a click on a second closed node while a call that will lower the flag is under way has a continuation in which a pane goes astray |
| HandshakeSafety.SurvivorStrays | extension/src/explorer.ts:208-218 | so has a sync whose kill of a polling pane fails |
| HandshakeSafety.TwoClicksStray | extension/src/explorer.ts:346-423 | wherever nothing is under way and no pane polls, a click on a closed row is safe and a second one before it is done is not |
| HandshakeSafety.DoubleClickStrays | extension/src/explorer.ts:151-423 | a run from the start that gets there: a project with one node is opened, its pane closed and the closed row double-clicked |
| Handshake.StepsDoTheLoop | extension/src/explorer.ts:233-257 | the explorer's atomic steps, run alone, store what the spawning loop stores |
| Handshake.OpenAlone | extension/src/explorer.ts:151-257 | opening a project, left alone, stores the fetched board with a pane for each node that got one, nothing closed and the flag down |
| Handshake.SyncAlone | extension/src/explorer.ts:190-257 | a sync, left alone, keeps the project, forgets the closed nodes and records the new panes, in whatever order the old ones are killed and whichever kills fail |
| Handshake.RespawnAlone | extension/src/explorer.ts:383-423 | a click on a closed node, left alone, leaves for each answer to the spawn what the handler leaves when taken as a whole |
| Handshake.CloseAlone | extension/src/explorer.ts:303-320 | the same for a closed pane |
| Handshake.DeleteAlone | extension/src/explorer.ts:425-462 | the same for a deleted node, closed or on canvas |
| Handshake.StopAlone | extension/src/explorer.ts:505-516 | the same for a stopped project |
| Handshake.ReloadEndsCalls | extension/src/explorer.ts:43-91 | after a reload of the explorer none of its calls goes on, and removals of recorded panes are filed again |
| Handshake.UnreadClickMutes | extension/src/explorer.ts:383-389 | after a click that found no board no removal is filed |
| SharedBoard.Explorer.HandlePaneRemoved | extension/src/explorer.ts:303-327 | a removed pane's node moves to the closed list unless removals are suppressed or no board can be read |
| SharedBoard.Explorer.RespawnClosedNode | extension/src/explorer.ts:383-423 | a closed node gets a new pane; without a pane, or when the spawn throws, it is on neither list; without a board the handler returns with removals still suppressed |
| SharedBoard.NodePane.RecoverFromClosed | extension/src/node-pane.ts:259-282 | the pane takes over the closed entry and its id leaves the closed list |
| SharedBoard.NodePane.MigrateBoardEntry | extension/src/node-pane.ts:1281-1295 | the entry moves to the new pane id |
| SharedBoard.CloseConserves | extension/src/explorer.ts:303-327 | closing keeps the tracked nodes and soundness: no node on two panes, none both open and closed, closed nodes under their own id |
| SharedBoard.RespawnIff | extension/src/explorer.ts:383-423 | respawning on a new pane conserves the tracked nodes and soundness exactly when the node is still closed |
| SharedBoard.FailedRespawnLosesIff | extension/src/explorer.ts:410-415 | a respawn without a pane keeps the tracked nodes exactly when the node was not closed any more |
| SharedBoard.RecoverConserves | extension/src/node-pane.ts:259-282 | recovery conserves the tracked nodes and soundness |
| SharedBoard.MigrateConserves | extension/src/node-pane.ts:1281-1295 | migration conserves the tracked nodes and soundness |
| SharedBoard.EveryRunConservesIff | extension/src/explorer.ts:303-516 | over every run of whole handlers from an empty board each state is sound and each move conserves the tracked nodes exactly when a click gets a pane if and only if its node is still closed |
| SharedBoard.StaleClickDoubles | extension/src/explorer.ts:383-423 | a click on a node that a pane has meanwhile recovered puts it on two panes |
| SharedBoard.CloseFiledIff | extension/src/explorer.ts:303-320 | a closed pane's node is filed as closed exactly when removals are not suppressed and the board could be read |
| SharedBoard.CloseThenReopen | extension/src/explorer.ts:303-423 | closing a pane and reopening its node on another moves the entry there with its details |
| SharedBoard.CloseThenRecover | extension/src/node-pane.ts:259-282 | a pane that recovers the closed node does the same, except that the entry counts as committed |
| SharedBoard.MigrateBack | extension/src/node-pane.ts:1281-1295 | migrating back undoes a migration |
| SharedBoard.OtherStepsTrack | extension/src/explorer.ts:151-516 | opening, creating, deleting, dropping and stopping bring and lose exactly the nodes they name |
| SharedBoard.RecordKept | extension/src/explorer.ts:151-516 | only opening and stopping change the project, moving a node about changes no record, and deleting takes a node off the record exactly when it is deleted from the closed list |
| SharedBoard.MutedRun | extension/src/explorer.ts:384-389 | after a click that found no board no close is filed until the next action that ends with removals noticed |
| SharedBoard.SuppressedIff | extension/src/explorer.ts:303-516 | after any run removals are suppressed exactly when a click found no board and no action since ended with removals noticed |
| SharedBoard.FreshListTimely | extension/src/explorer.ts:329-353 | on a list just rendered exactly the closed nodes can be clicked, and such a click conserves when it gets a pane |
| BoardState.AssociatePanes | extension/src/board-state.ts:40-57 | the peer sets contain exactly the panes linked by some wire with both ends on canvas |
| BoardState.PaneOfIsLast | extension/src/board-state.ts:44-47 | of several panes that show a node the last one stands for it |
| BoardState.PeersSymmetric | extension/src/board-state.ts:49-57 | peers are symmetric and independent of the order and repetition of the wires |
| BoardState.PeersAreWiredPairs | extension/src/board-state.ts:44-57 | while each node is on one pane the peers are the pairs of panes whose nodes a wire joins, independent of the order of the panes |
| BoardSync.BoardSync.SpawnBoard | extension/src/board-sync.ts:50-74 | links a pane for every node that gets one, notes the topology, stores; the failures counted and listed are those whose spawn threw |
| BoardSync.BoardSync.LinkPane | extension/src/board-sync.ts:385-390 | links node and pane both ways; an empty pane id links nothing |
| BoardSync.BoardSync.SpawnPaneForNode | extension/src/board-sync.ts:76-104 | a pane is linked as a worker for an agent and as a note otherwise; a spawn that throws links nothing |
| BoardSync.BoardSync.SpawnTopologyNote | extension/src/board-sync.ts:106-120 | nothing without wires; a spawn that throws keeps the old note |
| BoardSync.BoardSync.OpenProject | extension/src/board-sync.ts:43-48 | sets the project, then spawns its board |
| BoardSync.BoardSync.HandleBoardChanged | extension/src/board-sync.ts:224-251 | spawns the added nodes, then takes off the removed ones and kills exactly their panes |
| BoardSync.BoardSync.ReconcileBoard | extension/src/board-sync.ts:259-281 | takes off and kills what is not on the board, and asks for panes for exactly the nodes without one |
| BoardSync.BoardSync.HandlePaneClose | extension/src/board-sync.ts:294-308 | closing the topology note only forgets the note; closing a node's pane unlinks both ways |
| BoardSync.BoardSync.PersistState | extension/src/board-sync.ts:340-353 | stores the project, both maps and the topology pane, or nothing when the host throws |
| BoardSync.BoardSync.RestoreState | extension/src/board-sync.ts:355-371 | a stored snapshot replaces the project, the maps and the topology pane, an empty id counting as none |
| BoardSyncLaws.ChangedKeys | extension/src/board-sync.ts:224-251 | a delta leaves mapped exactly (old and placed) less removed |
| BoardSyncLaws.ReconciledKeys | extension/src/board-sync.ts:259-281 | a reconcile keeps survivors on their panes and maps the whole board exactly when every node without a pane is given one |
| BoardSyncLaws.BothReachTheBoard | extension/src/board-sync.ts:224-281 | with spawns that succeed, whatever panes they name, a delta and a reconcile of the resulting board map the same nodes, those on the board, and a reconcile after the delta kills, asks and changes nothing |
| BoardSyncLaws.IncrementalIsFullIff | extension/src/board-sync.ts:224-281 | from a synced state, for a host that gives the same new nodes the same panes, the delta leaves exactly the maps a reconcile of the resulting board leaves, in whatever order that board lists its nodes and whichever spawns fail, if and only if it gives no mapped node another pane |
| BoardSyncLaws.SecondReconcileQuietIff | extension/src/board-sync.ts:259-281 | a second reconcile kills nothing, and asks nothing exactly when the first gave every node a pane |
| BoardSyncLaws.SpawnedOnLast | extension/src/board-sync.ts:50-104 | spawning a list of nodes leaves each on the last pane it is given, as a worker exactly for an agent |
| BoardSyncLaws.FailedCount | extension/src/board-sync.ts:54-70 | the failures are as many as the spawns that threw |
| BoardSyncLaws.OpenedKnows | extension/src/board-sync.ts:43-74 | openProject knows exactly the nodes of the board, of several with one id the last, and its wires; the note is the pane named for it, none when none is named, and the old one without wires or on a throw |
| BoardSyncLaws.ChangedKnows | extension/src/board-sync.ts:224-251 | a delta forgets a removed node exactly when it has a pane, knows the added ones, and replaces the wires where it brings any |
| BoardSyncLaws.ReconciledKnows | extension/src/board-sync.ts:259-281 | a reconcile knows every node of the board and forgets none |
| BoardSyncLaws.ClosedTakesOffIff | extension/src/board-sync.ts:294-308 | closing a pane takes off the node mapped to it and nothing else, exactly unless it was left behind by a node mapped elsewhere |
| BoardSyncLaws.ClosedNote | extension/src/board-sync.ts:294-298 | closing the topology note forgets the note and nothing else |
| BoardSyncLaws.HandedOver | extension/src/board-sync.ts:340-371 | after a handler that stored, a new object that restores has the same maps, and the same project and note unless they are the empty text |
| PaneMaps.LinkInverseIff | extension/src/board-sync.ts:385-390 | linking keeps the maps inverse exactly when the node had no pane or gets none |
| PaneMaps.LinkConsistent | extension/src/board-sync.ts:76-104 | linking a fresh pane keeps: a mapped node's pane shows it, and is a worker exactly for an agent |
| PaneMaps.TakeOffConsistent | extension/src/board-sync.ts:235-244 | taking nodes off keeps the maps consistent, and inverse if they were |
| PaneMaps.CloseConsistent | extension/src/board-sync.ts:294-308 | closing a pane keeps the maps consistent, and inverse if they were |
| BoardSyncLaws.ChangedInverseIff | extension/src/board-sync.ts:224-251 | a delta keeps the maps inverse exactly when it gives no mapped node another pane |
| BoardSyncLaws.EveryRunInverseIff | extension/src/board-sync.ts:50-371 | in runs of whole handlers, through any number of sessions with a restore of the stored snapshot in each, the maps are inverses in every state exactly when no handler spawns over a mapped node |
| BoardSyncRuns.StepSafe | extension/src/board-sync.ts:50-371 | every segment between two awaits, of any handler, keeps the maps and all stored snapshots consistent and the topology note apart |
| BoardSyncRuns.EveryAwaitPoint | extension/src/board-sync.ts:76-371 | at every await of every interleaving, restarts and restores of earlier sessions included: nodeToPane is injective, paneToNode answers it, the link is a worker exactly for an agent, the topology note is nobody's pane |
| BoardSyncRuns.EveryInterleavingInverseIff | extension/src/board-sync.ts:50-371 | through any number of sessions the maps are inverses at every await exactly when each pane lands on a node that is still without one |
| BoardSyncRuns.NextSessionTakesOver | extension/src/board-sync.ts:340-371 | after any interleaving through any number of sessions, a new session that loads what the host holds has the maps and the note of the moment the last call stored them, and its project exactly unless that has the empty id |
| BoardSyncRuns.OverlapLeavesAPane | extension/src/board-sync.ts:259-281 | two overlapping reconciles of one board leave a pane behind that shows a node mapped elsewhere |
| BoardSyncRuns.SpawnBoardAlone | extension/src/board-sync.ts:50-74 | a spawnBoard call that nothing interrupts leaves what the handler leaves when taken as a whole |
| BoardSyncRuns.BoardChangedAlone | extension/src/board-sync.ts:224-251 | the same for handleBoardChanged |
| BoardSyncRuns.ReconcileAlone | extension/src/board-sync.ts:259-281 | the same for reconcileBoard |
| WheelEvents.WheelEventSource.Connect | extension/src/wheel-events.ts:49-52 | asks for a ticket unless disposed |
| WheelEvents.WheelEventSource.ResumeConnect | extension/src/wheel-events.ts:52-82 | opens a socket with the ticket, or schedules a reconnect without one |
| WheelEvents.WheelEventSource.OnOpen | extension/src/wheel-events.ts:63-66 | an open socket resets the reconnect count |
| WheelEvents.WheelEventSource.OnClose | extension/src/wheel-events.ts:72-79 | forgets the socket and schedules a reconnect unless disposed |
| WheelEvents.WheelEventSource.Disconnect | extension/src/wheel-events.ts:84-99 | disarms the timer, unhooks and forgets the socket |
| WheelEvents.WheelEventSource.HandleFrame | extension/src/wheel-events.ts:126-141 | queues a parsed frame and requests one animation frame |
| WheelEvents.WheelEventSource.FlushFrames | extension/src/wheel-events.ts:143-149 | empties the queue and dispatches it in order, up to a frame that is null |
| WheelEvents.WheelEventSource.ScheduleReconnect | extension/src/wheel-events.ts:181-193 | arms one timer with the doubled, capped delay unless disposed or armed |
| WheelEvents.WheelEventSource.OnTimer | extension/src/wheel-events.ts:189-192 | the timer disarms itself and connects |
| WheelEvents.StepOrderly | extension/src/wheel-events.ts:49-99 | every callback keeps the connection orderly: one activity until disposal, no timer and no hooked stray socket after it |
| WheelEvents.OneActivity | extension/src/wheel-events.ts:49-99 | from one initial connect exactly one of awaiting a ticket, holding a socket and waiting to reconnect, until disposal; never a timer after it |
| WheelEvents.DisposalFinalIff | extension/src/wheel-events.ts:49-99 | after disposal no socket ever exists again exactly when no ticket was being fetched |
| WheelEvents.DelaysGrow | extension/src/wheel-events.ts:181-193 | delays since the last open never shrink and stay between 1000 and 30000 ms |
| WheelEvents.FifoIff | extension/src/wheel-events.ts:126-149 | parsed frames are dispatched ones followed by waiting ones, in arrival order, exactly when no null frame has been taken; waiting frames have one flush requested |
| WheelEvents.AllFramesParsed | extension/src/wheel-events.ts:126-141 | over every run the frames taken in are exactly those the sockets sent that parse, in order |
| WheelEvents.SentFifoIff | extension/src/wheel-events.ts:126-149 | the frames sent are the dispatched ones followed by the waiting ones exactly when no null frame has been taken |
| WheelEvents.FlushDispatches | extension/src/wheel-events.ts:143-149 | a flush hands on everything that waits, in order, up to a null frame |
| WheelEvents.TimerFollowsFailures | extension/src/wheel-events.ts:181-193 | the delay is one second doubled for each failure since the last open, capped at thirty seconds |
| MockBoard.ProjectRecord.CreateNode | web/mock/server.ts:156-172 | a node is added unless its name is taken or it has no config |
| MockBoard.ProjectRecord.UpdateNode | web/mock/server.ts:179-196 | a rename is refused for a running agent or a taken name; the config is merged |
| MockBoard.ProjectRecord.RemoveNode | web/mock/server.ts:198-206 | the node goes, and with it every wire that ends at it |
| MockBoard.ProjectRecord.CreateWire | web/mock/server.ts:209-221 | the wire is added unless an end is missing, the matrix forbids it, it exists, or a credential would be ambiguous |
| MockBoard.ProjectRecord.RemoveWire | web/mock/server.ts:222-228 | exactly the wires with that end and type go |
| MockBoard.ProjectRecord.AmbiguousCredential | web/mock/server.ts:512-528 | refuses exactly when, on some vault the agent reads, the first key shared with the new vault has a name |
| MockBoard.ProjectRecord.PutKey | web/mock/server.ts:417-431 | the key is written and the declared keys become the written ones; a missing vault or an empty value is refused |
| MockBoard.ProjectRecord.SaveCredential | web/mock/server.ts:341-348 | the key is written into the vault of that name |
| MockBoard.ProjectRecord.SetAgentState | web/mock/state.ts:71-75 | only the state of that node changes |
| MockBoard.StepIntegrity | web/mock/server.ts:156-228 | every request keeps names unique, wire targets present, no self-wire, no repeated wire, every wire allowed |
| MockBoard.EveryBoardSound | web/mock/state.ts:113-140 | from an empty project every sequence of requests keeps the board sound |
| MockBoard.StepNoClashIff | web/mock/server.ts:512-535 | an accepted request leaves no agent reading two vaults with a common key exactly when the keys it brings, or brings together, are free |
| MockBoard.EveryRunNoClashIff | web/mock/server.ts:512-535 | over every run no agent ever reads two vaults sharing a key exactly when every key write is free and no wire joins vaults whose first common key has the empty name |
| MockBoard.KeyWriteClashes | web/mock/server.ts:417-431 | writing a key that another vault of the same reader holds is accepted and makes the credential ambiguous |
| MockBoard.KeyWriteCanClash | web/mock/server.ts:417-431 | such a board and key |
| MockBoard.EmptyNameSlipsThrough | web/mock/server.ts:519-520 | a board and a wire on which a shared key of empty name passes the check |
| MockRoutes.PostNodeAcceptedIff | web/mock/server.ts:156-172 | a node with a config is accepted exactly when the board with it is sound |
| MockRoutes.PatchNodeAcceptedIff | web/mock/server.ts:179-196 | a patch is accepted exactly when it does not rename a busy agent and the board after it is sound |
| MockRoutes.PostWireAcceptedIff | web/mock/server.ts:209-221 | a wire is accepted exactly when the board with it is sound and no agent reads two vaults sharing a key, keys of empty name apart |
| MockRoutes.NodeReplies | web/mock/server.ts:156-206 | which status each node route replies with, case by case |
| MockRoutes.WireReplies | web/mock/server.ts:209-228 | the same for the wire routes |
| MockRoutes.KeyReplies | web/mock/server.ts:341-431 | the same for the two ways of writing a key |
| MockRoutes.PostNodeDoes | web/mock/server.ts:167-169 | a posted node is found under its new id with its config and no wires; all else is as it was |
| MockRoutes.PatchNodeDoes | web/mock/server.ts:185-192 | a patch changes the name and keys of its node where it brings any, and nothing else |
| MockRoutes.DeleteNodeDoes | web/mock/server.ts:198-206 | the node is gone, and every other one has lost exactly its wires to it |
| MockRoutes.PostWireDoes | web/mock/server.ts:221 | a wire is added after the others of its node; all else is as it was |
| MockRoutes.DeleteWireDoes | web/mock/server.ts:222-228 | exactly that wire is taken off |
| MockRoutes.PutVaultKeyDoes | web/mock/server.ts:417-431 | the key is written and the vault declares what has been written; all else is as it was |
| MockRoutes.SaveToVaultDoes | web/mock/server.ts:346-348 | the credential is in the vault and no node has changed |
| MockRoutes.SetBusyDoes | web/mock/state.ts:71-75 | only the state of that node changes |
| LocalAuth.Auth.Login | web/mock/local-auth.ts:86-114 | answers 429 while paused, 401 for a wrong email or password alike, else signs in; counts, pauses and forgets attempts accordingly |
| LocalAuth.StepValid | web/mock/local-auth.ts:95-113 | a pause is pending exactly when five failures are counted |
| LocalAuth.RetryAfterTight | web/mock/local-auth.ts:91-96 | Retry-After is between 1 and 30; waiting that long lifts the pause and one second less does not |
| LocalAuth.FailuresGrouped | web/mock/local-auth.ts:95-110 | between sign-ins the failures come in groups of five with thirty seconds between groups |
| LocalAuth.SixSpanAPause | web/mock/local-auth.ts:101-110 | among any six failures in a row lie thirty seconds |
| LocalAuth.RateBound | web/mock/local-auth.ts:86-114 | between successful sign-ins any half-open window of k times 30 s holds at most 5k evaluated failures for one email |
| LocalAuth.AccountIndistinguishableIff | web/mock/local-auth.ts:86-114 | for every sequence of attempts the answers, Retry-After included, are the same with and without the account exactly when it is never signed in to |
| LocalAuth.SignedInIff | web/mock/local-auth.ts:86-114 | an attempt is signed in exactly when no pause is running and the password is that of the account |
| LocalAuth.AnswersFollowHistory | web/mock/local-auth.ts:86-114 | over every run the answer follows from the history alone: 429 while a fifth failure in a row lies less than thirty seconds back, else a sign-in for the right password and 401 for any other |
| VaultKey.DecodeEncode | crates/wheel-api/src/crypto.rs:55-62 | each of the four engines reads back what it writes, for every byte string (sections 4 and 5 of RFC 4648) |
| VaultKey.EncodeDecode | crates/wheel-api/src/crypto.rs:55-62 | an engine accepts only the one spelling it would write |
| VaultKey.EnginesAgree | crates/wheel-api/src/crypto.rs:58-62 | a text accepted by two engines means the same bytes to both |
| VaultKey.FirstDecodedSound | crates/wheel-api/src/crypto.rs:58-62 | the first engine that accepts speaks for all that accept |
| VaultKey.OrderIrrelevant | crates/wheel-api/src/crypto.rs:58-62 | the answer does not depend on the order in which the engines are tried |
| VaultKey.CanonicalIff | crates/wheel-api/src/crypto.rs:55-69 | accepted with result s exactly when the trimmed key is one of the four spellings of 32 bytes and s is their standard padded spelling |
| VaultKey.WrongLengthIff | crates/wheel-api/src/crypto.rs:63-67 | refused for its length exactly when it spells a number of bytes other than 32, which is the number reported |
| VaultKey.EverySpellingHeals | crates/wheel-api/src/crypto.rs:50-69 | every spelling of every 32-byte key, with any white space around it, becomes the standard padded spelling |
| VaultKey.CanonicalIdempotent | crates/wheel-api/src/crypto.rs:55-69 | canonicalising twice is canonicalising once |
| VaultKey.GeneratedIsCanonical | crates/wheel-api/src/crypto.rs:42-48 | a generated key is already canonical |
| VaultKey.KeyMaterialKept | crates/wheel-api/src/crypto.rs:50-69 | two keys with one canonical form hold the same bytes |
| VaultKey.SymbolInTable | crates/wheel-api/src/crypto.rs:55-62 | each six-bit value is written as its entry in the tables of sections 4 and 5 of RFC 4648 |
| VaultKey.DigitsSpellBytes | crates/wheel-api/src/crypto.rs:55-62 | three bytes and their four digits spell one number of 24 bits |
| VaultKey.TestVector | crates/wheel-api/src/crypto.rs:55-62 | a test vector of section 10 of RFC 4648 |
| VaultKey.AsciiWhitespace | crates/wheel-api/src/crypto.rs:57 | which ASCII characters are trimmed |
| VaultKey.TrimSplits | crates/wheel-api/src/crypto.rs:57 | trimming takes white space off both ends, and as much of it as there is |
| DepsClosure.Closure | qa/tools/deps_gate.py:51-59 | ends on every finite graph, cyclic ones included, with exactly the packages reachable from the root |
| DepsClosure.CountDependencies | qa/tools/deps_gate.py:68 | the number reported is the number of distinct transitive dependencies other than the package itself |
| PollMessages.PollInStep | extension/src/main.ts:86-94 | a poll returns exactly what was appended since the last one |
| PollMessages.PollCatchesUp | extension/src/main.ts:86-94 | after a poll everything in the log has been seen and the cursor stands at its last number |
| PollMessages.FreshIsSuffix | extension/src/main.ts:90 | filtering an increasing log by the cursor cuts it in two and keeps the later part |
| PollMessages.NothingLost | extension/src/main.ts:86-94 | over every interleaving of appends and polls the batches concatenated are a prefix of the log, and the whole log after a poll |
| FreshName.NextAvailableName | extension/src/node-pane.ts:217-225 | ends, with a free name whose number is the least free one and at most one more than the distinct taken names |
| FreshName.Pigeonhole | extension/src/node-pane.ts:222 | if the first n candidate names are taken there are at least n taken names |
| FreshName.CandidateReads | extension/src/node-pane.ts:217-225 | a candidate is the node type, an underscore for a table and a hyphen otherwise, and its number without leading zeros |
| Grid.PointIsNear | extension/src/spawn-plan.ts:38-43 | a cell is drawn within half a pixel of its place, on each axis with that axis' offset |
| Grid.CellIsNearest | extension/src/board-sync.ts:393-398 | a point belongs to the cell whose place is within half a cell of it, on each axis |
| Grid.RoundTripIff | extension/src/board-sync.ts:393-398 | every cell comes back from the canvas at every offset exactly when the scale is above 1 or at most -1 |
| Grid.SnapIdempotentIff | extension/src/spawn-plan.ts:38-43 | snapping twice is snapping once for every point and offset exactly when the scale is not 1 |
| Grid.UnitScaleDrifts | extension/src/spawn-plan.ts:38-43 | at scale 1 and offset one half each snap moves the point another pixel |
| Grid.SnapIsNear | extension/src/spawn-plan.ts:38-43 | for every scale, negative ones included, snapping moves a point by at most half a cell and half a pixel per axis |

## Left out

- The text decoder and JSON parsing: lines and events start from decoded characters, and event data stays the joined text that `parseJsonOrText` is given. `Number` on retry times beyond double precision is read exactly.
- The Standard's last-event-id and reconnection-time state across events: the decoder has none. `SseEvents.DecodesLikeTheStandard` compares names and data only, because the decoder reports an id only with the event that carries it.
- Event topics and listeners of `Rpc`, and the wording of its timeouts and cancellations.
- The other writers of the stored board (polling timer, palette, inspector, panes the user makes): absent from `Handshake`. The pane's wall-clock deadline: `Handshake` covers panes within it. What a stray pane writes afterwards is in `SharedBoard` only.
- What a board entry contains besides its node id: type, name, configuration and wire summaries are one opaque text that is copied unchanged.
- Prompts, note bodies and the topology text of spawned panes, agent log polling, pane moves and node status in `BoardSync`.
- Opening a socket twice at once (`connect` called by hand while connected): `WheelEvents` starts from one initial `connect`. Which handler a frame is routed to.
- The contents of the wire matrix: any relation on node types. Node positions and configuration other than vault keys, and requests that overlap while a body is being read: each route runs to its end.
- Message delivery, tables, chests and agent sessions of the mock; `seedBulk`, which wires nodes without the legality check.
- Sign-up and token expiry, and the normalisation of emails.
- AES-GCM sealing, the random source (its 32 bytes are a parameter) and the `Secret` wrapper.
- Rendering, settings and the remaining quality gates.
