# ThreatOrbit: a verified model of the stateful backend

This project models the algorithms of ThreatOrbit's backend that keep state, and
proves what they promise. Tables are maps and sequences, a transaction is one step,
and the clock is a parameter. Code that works step by step is a method or a class
with its loops and fields; each is proved against a specification, and the promises
are lemmas about that specification. Protocols that several processes take part in
are state machines over every interleaving of their atomic steps, with crashes,
delays and lost replies as steps of their own.

| file | what it models |
|---|---|
| `CtiGraph.dfy` | the relationship graph: assembly from the stores, breadth-first path with its rebuild, k-hop neighbourhood, pivot |
| `EventQueue.dfy`, `DetectionPool.dfy`, `SkipLocked.dfy`, `Detection.dfy` | the lease queue of events, the worker pool that drains it under a write lock and under PostgreSQL's `SKIP LOCKED`, one detection pass over a batch |
| `LeaderLease.dfy` | leader election by a lease row, with late UPDATEs and skewed clocks |
| `AuditSink.dfy`, `GatedDrain.dfy` | the audit outbox: cursor, drain passes, failures, overlapping drainers; the worker that drains behind a lease |
| `BulkImport.dfy` | bulk import of a feed in sub-batches, against an import row by row |
| `LogCollector.dfy`, `CollectorPass.dfy` | the log shipper: offsets, batches, checkpoints, crashes of one file; the pass over several files with one state file |
| `ThreatMatching.dfy`, `ThreatBacklog.dfy` | matching of events against the indicator store, and when a waiting event has its turn |
| `Decay.dfy`, `Lifecycle.dfy` | decay with age, expiry dates, reaction points; score, sightings, the maintenance pass, the whitelist |
| `SqlScripts.dfy`, `SqlPieces.dfy` | the two splitters of SQL scripts; a script as a sequence of pieces |
| `AsnRanges.dfy` | hex-keyed address ranges: loading and lookup |
| `RateLimit.dfy` | the two sliding-window limiters |
| `RegistrableDomain.dfy` | the registrable domain of a host |
| `CefHeader.dfy` | the header splitter for the ArcSight Common Event Format |
| `FirstReceipts.dfy`, `OrderedLimit.dfy`, `Collections.dfy`, `Text.dfy`, `Options.dfy` | shared: first receipts of an at-least-once stream, `ORDER BY ... LIMIT`, sequences as sets, string operations, missing values |

`dafny verify dfyconfig.toml` checks the whole project.

Where the code and its own documentation disagree, the model follows the code:

- The pool's documentation calls its result identical for every number of workers
  (`dashboard_api/detection_pool.py:77-79`). That holds of which events are completed.
  It is not claimed for alerts, since a rule that aggregates sees one batch at a time.
- The collector's checkpoint is described as never re-shipping a line
  (`collector/threatorbit_collector.py:49-50`). Delivery is at least once;
  `LogCollector.RepeatsIff` and, for several files, `CollectorPass.AllRepeatsIff` say
  exactly which faults repeat a line.
- The audit cursor is described as only advancing (`dashboard_api/audit_sink.py:92-93`).
  With overlapping drainers it can move back (`AuditSink.MovesBackIff`). Behind the lease
  it only advances when every drain ends within the lease it began under
  (`GatedDrain.GateAdvances`), and may not otherwise (`GatedDrain.OutlastingMovesBack`).
  No row is dropped all the same.
- A backlog of unmatched events is described as draining over consecutive passes
  (`dashboard_api/ingest.py:1187-1189`). It does unless events of the same second or an
  earlier one keep coming in: `ThreatBacklog.NoneWaitsIff`,
  `ThreatBacklog.ExaminedWhateverTies`, `ThreatBacklog.WaitsWhateverTies`.
- A batch import is described as matching an import row by row
  (`dashboard_api/connectors.py:809-812`). It does, except for `malware_family`: see
  `BulkImport.FamiliesAgreeIff` for exactly when.
- An indicator's countdown and its stored date disagree at or below the revoke score
  (`Decay.CountdownAgreesIff`).

## Model

| member | source | states |
|---|---|---|
| `CtiGraph.GraphBuilder.AddActor` | dashboard_api/cti_graph.py:49-57 | an adversary row adds its links in order, and as nodes exactly itself and the ends of those links, each shown by its name; nodes that were there stay as they are |
| `CtiGraph.GraphBuilder.AddReport` | dashboard_api/cti_graph.py:69-82 | the same for a report row, whose own node is shown by at most 60 characters of its title |
| `CtiGraph.GraphBuilder.AddIoc` | dashboard_api/cti_graph.py:89-100 | an indicator is linked only to an adversary and a report that already have nodes, and gets a node only if it is linked |
| `CtiGraph.AccountedFor` | dashboard_api/cti_graph.py:33-101 | in the finished graph an adversary or report has a node exactly when the stores know it, and the empty id never does |
| `CtiGraph.LinksAreTold` | dashboard_api/cti_graph.py:33-101 | a link is in the graph exactly when some row tells of it: an adversary uses its malware, employs its techniques and targets its sectors; a report is attributed to its adversaries and documents its malware and techniques; an adversary that is known indicates, and a report that has a row reported, an indicator that names it |
| `CtiGraph.FullGraph` | dashboard_api/cti_graph.py:33-101 | the links are exactly those told by the rows, in their order, one for each name of an adversary or report row and at most two for an indicator; the nodes are exactly the rows and link ends, so every link joins two nodes, each under its own id and shown by its name, a report by the title of its first row |
| `CtiGraph.Adjacency` | dashboard_api/cti_graph.py:104-109 | two nodes are adjacent exactly when some link joins them, either way round |
| `CtiGraph.WalkBound` | dashboard_api/cti_graph.py:157-166 | while the loop runs, a walk no longer than the distance of the queue's head ends at a discovered node no further away than the walk is long |
| `CtiGraph.Search` | dashboard_api/cti_graph.py:154-166 | breadth-first search ends; `prev` is a tree of real links; the distance found is minimal over all walks; what it does not find is not connected |
| `CtiGraph.Rebuild` | dashboard_api/cti_graph.py:169-174 | the loop over `prev` ends at the empty id and yields a walk from source to destination of exactly the found distance |
| `CtiGraph.LinkKinds` | dashboard_api/cti_graph.py:175-176 | each ordered pair of linked nodes has an entry: the kind of the last link stored the other way round, and only without one that of the last stored this way |
| `CtiGraph.Label` | dashboard_api/cti_graph.py:175-179 | every hop of the chain is shown with that kind, so the fallback word is never needed |
| `CtiGraph.ShortestPath` | dashboard_api/cti_graph.py:147-180 | found exactly when both nodes exist and are connected; the path is a walk of links from source to destination and no walk has fewer hops |
| `CtiGraph.PathBetween` | dashboard_api/cti_graph.py:147-180 | the same from the stores themselves, for every content of the stores; and two ids that a row links directly are found, at most one hop apart |
| `CtiGraph.HopOnce` | dashboard_api/cti_graph.py:118-122 | the ends of walks of k + 1 hops are the neighbours of the ends of walks of k hops |
| `CtiGraph.Build` | dashboard_api/cti_graph.py:112-131 | with a known focus, kept are exactly the nodes within max(1, depth) hops and exactly the links between kept nodes, in their order; without one, everything |
| `CtiGraph.Neighbours` | dashboard_api/cti_graph.py:134-144 | one entry for each link at the node, in order, with the other end and the kind; nothing for an unknown node |
| `CtiGraph.ListedIsOneHop` | dashboard_api/cti_graph.py:134-144 | who the pivot lists is who the neighbourhood search puts at one hop |
| `OrderedLimit.SelectFirst` | dashboard_api/event_queue.py:44-46 | the first rows by key up to the limit: no row left out precedes one that was taken |
| `EventQueue.Queue.Claim` | dashboard_api/event_queue.py:36-52 | leases up to the batch size of the events that are not done and either nobody's or stamped more than a lease ago, newest first, leaving out none that is newer; stamps exactly those and changes no other |
| `EventQueue.Queue.Complete` | dashboard_api/event_queue.py:55-60 | the given events are processed and their lease dropped, whoever asks |
| `EventQueue.Queue.RequeueStale` | dashboard_api/event_queue.py:63-70 | exactly the leases older than the window are released, and their number is returned |
| `EventQueue.ClaimIsStep` | dashboard_api/event_queue.py:36-52 | whatever a claim returns is a step of the protocol in every state whose clock has reached its readings, with this effect and this entry in the history |
| `EventQueue.CallIsStep` | dashboard_api/event_queue.py:55-70 | so are completing any ids, requeueing at any reading, the arrival of an event and the death of a worker, each with its effect |
| `EventQueue.ClaimMoves` | dashboard_api/event_queue.py:36-82 | a claim leaves the backlog as it is and puts in flight exactly those of its events that were not, so an expired lease that changes hands counts once |
| `EventQueue.CompleteMoves` | dashboard_api/event_queue.py:55-82 | a completion takes out of the backlog and out of flight exactly the events it finds there |
| `EventQueue.RequeueMoves` | dashboard_api/event_queue.py:63-82 | requeueing takes out of flight exactly as many as it reports and none out of the backlog |
| `EventQueue.InWorkIsPending` | dashboard_api/event_queue.py:73-82 | what is in flight is part of the backlog |
| `EventQueue.NoDoubleGrant` | dashboard_api/event_queue.py:36-70 | over every run of claims, completions, requeues and crashes, two claims that got the same event are apart by more than the lease |
| `EventQueue.NeverAfterCompletion` | dashboard_api/event_queue.py:55-60 | over every run, no claim returns an event that was completed |
| `EventQueue.AbandonedComesBack` | dashboard_api/event_queue.py:36-70 | over every run, whoever was granted an event and whatever became of that worker: if it is not done it is claimable at every later moment more than a lease away, requeued or not |
| `DetectionPool.TrackClaim` | dashboard_api/detection_pool.py:39-71 | a claim moves exactly its events from the queue to one worker; every initially claimable event stays in exactly one place |
| `DetectionPool.TrackComplete` | dashboard_api/detection_pool.py:100-106 | completing a batch moves exactly its events to done, and none was completed before |
| `DetectionPool.TrackFail` | dashboard_api/detection_pool.py:107-113 | a worker that fails leaves its batch pending and touches nothing else |
| `DetectionPool.NothingLeftBehind` | dashboard_api/detection_pool.py:91-122 | when all workers have ended, with leases expiring and events changing hands on the way: no failure means all done, and what is not done carries no lease that begins after the end |
| `DetectionPool.WorkerStep` | dashboard_api/detection_pool.py:91-113 | every atomic step of a worker keeps the accounting of events and totals, and either an event is finished or less work is left |
| `DetectionPool.Drain` | dashboard_api/detection_pool.py:115-122 | the pool ends under every schedule, every failure and any passage of time |
| `DetectionPool.RunPool` | dashboard_api/detection_pool.py:74-122 | whatever the number of workers: `batches` is the number of batches completed, none empty and none larger than allowed, and `events` the number of events in them; without a failure every event claimable at the start - not done, and nobody's or stamped more than a lease ago - is done, however long it took; and within one lease each is completed exactly once, or its worker failed and it is still pending under a lease no later than the end, or - only when every worker failed - it is still queued |
| `DetectionPool.BatchesHold` | dashboard_api/detection_pool.py:103-113 | the events counted are at least as many as the batches and at most that times the batch size |
| `DetectionPool.LeftoversComeBack` | dashboard_api/detection_pool.py:74-122 | what a pool leaves undone because workers failed is claimable at every moment more than a lease after it ended |
| `SkipLocked.Refines` | dashboard_api/detection_pool.py:45-60 | to the queue every run of the pool is a run of claims, each made where it commits, with the same grants: what is proved of the queue holds of it |
| `SkipLocked.NoDoubleGrant` | dashboard_api/detection_pool.py:45-60 | over every run, whatever the claims skip and whoever fails, two batches that share an event are more than a lease apart |
| `SkipLocked.AllDone` | dashboard_api/detection_pool.py:74-122 | a claim may return any unlocked claimable events, and none while others hold what there is; without a failure every event free at the start is done when all workers have ended all the same |
| `SkipLocked.Bounded` | dashboard_api/detection_pool.py:91-113 | no run holds more steps of workers than the potential it starts with |
| `SkipLocked.PoolEnds` | dashboard_api/detection_pool.py:91-122 | and while a worker is left some worker has a step that is no failure: every run can be brought to the end |
| `Detection.DroppedIff` | dashboard_api/engine.py:430-437 | a match is raised exactly when no suppression for its rule, or for all, has the value of a field the event has; else it is dropped and charged to the first suppression that does |
| `Detection.CountOne` | dashboard_api/engine.py:439-486 | counting one match keeps alerts, suppressed total and per-suppression hits in balance |
| `Detection.RunDetection` | dashboard_api/engine.py:439-502 | match by match in the order of the rules that evaluate: alerts are exactly the uncovered matches in order, the others are counted as suppressed, each suppression's counter grows by the number of matches it is the first to cover, exactly the rules of the alerts are stamped, and exactly the claimed batch is completed whatever the rules did |
| `LeaderLease.LeaseTable.Acquire` | dashboard_api/leader.py:53-68 | won exactly when the row names us or its expiry is before the clock reading, a missing row counting as free; then the row is ours until the reading plus ttl, else it stays; always won with election off |
| `LeaderLease.LeaseTable.IsLeader` | dashboard_api/leader.py:71-80 | leader exactly when the row names the holder and has not expired |
| `LeaderLease.LeaseTable.Release` | dashboard_api/leader.py:83-90 | only the holder's own row is freed |
| `LeaderLease.LeaseTable.Status` | dashboard_api/leader.py:93-109 | held exactly when some holder leads; that holder and its remaining time |
| `LeaderLease.AcquireIsTwoSteps` | dashboard_api/leader.py:53-68 | in the protocol an acquire is a clock reading, allowed within the skew, and an UPDATE that does to the row as it then is what the call does |
| `LeaderLease.OthersAreSteps` | dashboard_api/leader.py:83-90 | a release is a step in every state with the effect of the call, and any call may be cut short |
| `LeaderLease.InvStep` | dashboard_api/leader.py:53-90 | every step keeps: a holder still has the row until its latest reading plus ttl, or that time is over less the skew |
| `LeaderLease.ExclusiveSinceLatest` | dashboard_api/leader.py:53-68 | however late UPDATEs run and however calls overlap, another holder wins only after the latest successful reading plus ttl, less the clock skew |
| `LeaderLease.StaysLeader` | dashboard_api/leader.py:71-80 | until then the holder is told it leads, whichever clock asks |
| `LeaderLease.Exclusive` | dashboard_api/leader.py:53-90 | with calls of one holder in sequence the guarantee holds for every successful acquire since its last release |
| `LeaderLease.SafeIff` | dashboard_api/leader.py:53-90 | in every reachable state: a holder that has the row is safe from every other node up to the time it was told if and only if its latest UPDATE was also the one with the latest reading |
| `LeaderLease.InOrderIff` | dashboard_api/leader.py:53-90 | over every run from the start: whoever has the row is at every point safe from every other node up to the time it was told, if and only if no UPDATE lands after one of the same node with a later reading |
| `LeaderLease.ExclusiveInOrder` | dashboard_api/leader.py:53-90 | the guarantee for every acquire since the last release needs no more than that condition |
| `LeaderLease.OverlappingCallsShorten` | dashboard_api/leader.py:53-68 | a run that breaks the condition: a late renewal shortens the lease |
| `AuditSink.InvStep` | dashboard_api/audit_sink.py:76-118 | every step of every drainer, failed or timed-out posts and crashes included, keeps: first receipts are a prefix of the log and cursor and drainers stand within it |
| `AuditSink.NeverDropsNeverReorders` | dashboard_api/audit_sink.py:91-118 | over every run, first receipts are a prefix of the audit log in id order and every id at or below the cursor was delivered |
| `AuditSink.FromTheStart` | dashboard_api/audit_sink.py:76-118 | from an empty log: the same, and once the cursor is at the last id the receiver holds the whole log in order |
| `AuditSink.CursorMayMoveBack` | dashboard_api/audit_sink.py:81-88 | a run of two overlapping drainers in which the persisted cursor decreases |
| `AuditSink.MovesBackIff` | dashboard_api/audit_sink.py:81-118 | a step moves the cursor back exactly when a drain that delivered something writes a position older than the one written meanwhile |
| `AuditSink.LoneDrainerAdvances` | dashboard_api/audit_sink.py:91-118 | over every run in which no two drains are under way at once, the cursor never decreases |
| `GatedDrain.InvStep` | dashboard_api/audit_sink.py:121-138 | every step of the workers keeps: what a worker was told by its last acquire is what the lease records of it |
| `GatedDrain.GateAdvances` | dashboard_api/audit_sink.py:121-138 | behind the lease the cursor never decreases, over every run of any number of processes in which each drain ends within the lease it began under, less the clock skew |
| `GatedDrain.OutlastingMovesBack` | dashboard_api/audit_sink.py:121-138 | that condition is needed: whatever the ttl, a drain that outlasts its lease can move the cursor back |
| `AuditSink.Outbox.PostRows` | dashboard_api/audit_sink.py:104-113 | posts in order up to the first that is reported failed |
| `AuditSink.Outbox.DrainOnce` | dashboard_api/audit_sink.py:91-118 | one pass is a run of the protocol; for every behaviour of the network it delivers, in order and up to the first post that fails, the least ids beyond the cursor, 200 at most; the cursor moves to the last delivered, and as many ids beyond the old cursor are pending as there were less those delivered |
| `AuditSink.SelectedLeast` | dashboard_api/audit_sink.py:101-118 | the rows a pass selects are the least ids above the cursor, min(200, m) of the m there are, in order |
| `AuditSink.Drains` | dashboard_api/audit_sink.py:101-118 | from every reachable state, when nothing commits and no post fails, k passes of one drainer leave max(0, m - 200 k) of the m ids above the cursor; once that is 0 the cursor is at the last id and first receipts are the whole log |
| `AuditSink.MayCrash` | dashboard_api/audit_sink.py:91-118 | any drainer may crash at any moment, and nothing is lost but its place |
| `FirstReceipts.ReceiveInOrder` | dashboard_api/audit_sink.py:104-113 | receiving one of the first n + 1 items of a list, when the first n are kept, again keeps a prefix of it |
| `FirstReceipts.ReceiveStretch` | collector/threatorbit_collector.py:131-146 | the same for a stretch received in one go |
| `BulkImport.FirstsAreNews` | dashboard_api/connectors.py:809-827 | every first occurrence of a value the store does not hold is added |
| `BulkImport.NewsAreFirsts` | dashboard_api/connectors.py:809-827 | nothing else is added |
| `BulkImport.NewsConcat` | dashboard_api/connectors.py:729-752 | importing two parts of a feed one after the other adds the same rows as importing the whole |
| `BulkImport.NewsByFilter` | dashboard_api/connectors.py:809-914 | deduplicating in memory and then dropping what the store holds is the same as looking each value up in turn |
| `BulkImport.Collect` | dashboard_api/connectors.py:813-853 | the candidates are the first items of each value; candidates, repeats and skipped add up to the feed |
| `BulkImport.Store.ProbeAll` | dashboard_api/connectors.py:859-878 | probing in parts finds exactly the stored, and the stored but unattributed, among the values |
| `BulkImport.Store.FillFamilies` | dashboard_api/connectors.py:896-910 | grouped and chunked updates fill exactly the blanks the batch names a family for, with that family, and count the rows filled |
| `BulkImport.Store.RaiseAlerts` | dashboard_api/connectors.py:917-932 | alerts are the critical and confident among the new rows, in feed order, cut at the budget |
| `BulkImport.Store.Import` | dashboard_api/connectors.py:787-938 | one batch: rows after, alerts, imported, duplicates, skipped, attributed, each exactly; the counts add up to the feed |
| `BulkImport.AfterAllIs` | dashboard_api/connectors.py:729-752 | the effect of all sub-batches on the table: the rows the feed adds as a whole, after the old ones, with only families filled in |
| `BulkImport.TableOfAnyBatch` | dashboard_api/connectors.py:729-752 | up to families the table does not depend on the sub-batch size |
| `BulkImport.ValuesStayUnique` | dashboard_api/connectors.py:912-916 | values unique before the import are unique after it |
| `BulkImport.RowByRowIs` | dashboard_api/connectors.py:809-813 | the import that looks at one indicator at a time adds the same rows, raises the same alerts and counts the same |
| `BulkImport.ImportIndicators` | dashboard_api/connectors.py:729-752 | for every feed, store and sub-batch size: the same rows up to families, the same alerts in order within one shared budget, and the same counts as row by row; and item by item what `ImportedAsFed` says |
| `BulkImport.ImportedAsFed` | dashboard_api/connectors.py:729-938 | old rows stay and keep a family they have; then come exactly the items that are first of their value and not stored, in feed order; a row without a family gets that of the first item with one that leads its sub-batch; alerts are for the first ten of the new that are critical and confident; the counts are of these items, and `attributed` of the rows that had no family and have one |
| `BulkImport.FamiliesAgreeIff` | dashboard_api/connectors.py:741-910 | for every feed and sub-batch size, batched and row by row leave a value with the same family exactly when it had one, or the first family named at the head of a sub-batch is the first named at all |
| `BulkImport.FamilyOfBatches` | dashboard_api/connectors.py:741-910 | the family a value ends up with: the one it had, else the first named by an item that is the first of its value in its sub-batch |
| `BulkImport.FirstLeadingIs` | dashboard_api/connectors.py:741-910 | that first named family, by positions in the feed: of an item that no other of its value precedes in its sub-batch, all such items before it having none |
| `BulkImport.TablesAgreeIff` | dashboard_api/connectors.py:729-752 | the whole tables, families included, are equal to the row-by-row import's exactly when that holds of each row that starts without a family |
| `LogCollector.ReadFromIs` | collector/threatorbit_collector.py:83-104 | what a read returns is exactly the non-blank complete lines between its two offsets, it stops after a newline, and returning fewer than asked means no complete line is left |
| `LogCollector.ReadNewLines` | collector/threatorbit_collector.py:83-104 | the reader's loop, truncated files included; byte by byte: each text is not empty and does not end in CR, and the file reads the text, CRs and the first newline from a line's start; every such line between the two offsets is returned, in order, up to the limit |
| `LogCollector.NonBlankIs` | collector/threatorbit_collector.py:83-104 | a line is among those read exactly when the bytes from its start are its text, which is not empty, zero or more CR and the line's newline: left out are exactly the complete lines with nothing but CR |
| `LogCollector.EndsALine` | collector/threatorbit_collector.py:83-104 | every newline ends exactly such a line, blank or not |
| `LogCollector.AllLinesGrow` | collector/threatorbit_collector.py:83-104 | appending to a file, even in the middle of a line, only adds lines at the end |
| `LogCollector.InvStep` | collector/threatorbit_collector.py:169-197 | every step keeps: first receipts are the file's first lines, and both checkpoints and the pass stand at boundaries within them |
| `LogCollector.AtLeastOnceInOrder` | collector/threatorbit_collector.py:48-104 | over every run of appends, passes, failed ships, failed saves, crashes and lost state files: checkpoints are at 0 or after a newline, every non-blank line before them was received, first receipts are in file order |
| `LogCollector.ExactlyOnce` | collector/threatorbit_collector.py:169-197 | over every run, restarts included, in which no restart resumes behind shipped lines and no ship that arrived is taken for a failure: the lines received are exactly those before the checkpoint, once each |
| `LogCollector.RepeatsIff` | collector/threatorbit_collector.py:169-197 | that condition is exact: after such a run a step is harmless if and only if no harmless continuation ever receives a line twice; a restart repeats exactly when non-blank shipped lines lie beyond the offset it resumes from |
| `LogCollector.HarmRepeats` | collector/threatorbit_collector.py:169-197 | after a harmful fault the very next ship sends a line again |
| `LogCollector.FaultsRepeat` | collector/threatorbit_collector.py:184-189 | both kinds of harmful fault occur: a concrete run for each in which a line arrives twice |
| `CollectorPass.Checkpoint.constructor` | collector/threatorbit_collector.py:52-59 | a start loads the state file, and a missing or unreadable one is empty |
| `CollectorPass.Checkpoint.Set` | collector/threatorbit_collector.py:69-70 | only this path's record changes, and only in memory |
| `CollectorPass.Checkpoint.Save` | collector/threatorbit_collector.py:72-79 | the state file becomes the memory's content or stays as it was |
| `CollectorPass.ShipFile` | collector/threatorbit_collector.py:176-197 | a pass over one file is a run of the protocol, leaves other paths' records alone but saves them along, counts the lines whose checkpoint was saved, and when nothing fails has shipped every line there was |
| `CollectorPass.RunPass` | collector/threatorbit_collector.py:169-197 | the pass over all files is a run of the protocol over several files; everything received is, byte by byte, a non-blank complete line of a file beyond its checkpoint; of every file for which nothing fails all of them arrive, each once and in order, whatever fails for the others; and when nothing fails at all, the number returned is how many |
| `CollectorPass.AllExactlyOnce` | collector/threatorbit_collector.py:169-197 | over every run of any number of files with one state file, restarts included, in which no restart does harm to any of them and no ship that arrived is taken for a failure: of every file the lines received are exactly those before its checkpoint, once each |
| `CollectorPass.AllRepeatsIff` | collector/threatorbit_collector.py:169-197 | that condition is exact: after such a run a step is harmless to all files if and only if no harmless continuation ever receives a line of any file twice |
| `CollectorPass.MayRestart` | collector/threatorbit_collector.py:48-79 | the process may die at any moment, and every file goes on from its checkpoint in the state file, or from its top when that cannot be read |
| `CollectorPass.SavedTogether` | collector/threatorbit_collector.py:72-79 | right after a save for any one path a restart repeats no line of any file: the checkpoints of paths whose own save failed went with it |
| `CollectorPass.Discover` | collector/threatorbit_collector.py:107-117 | every path that some pattern matches, each once, in order of first appearance |
| `ThreatMatching.Store.RecordSighting` | dashboard_api/ioc_lifecycle.py:226-252 | one sighting: the row's count, date, capped confidence and status, and the log entry |
| `ThreatMatching.Store.Candidates` | dashboard_api/ingest.py:1246-1251 | the values of a batch in order of first appearance, each with its events once per channel |
| `ThreatMatching.MentionsShow` | dashboard_api/ingest.py:1246-1251 | how often a batch mentions a value is how many of those four fields of its events equal it, and 0 for the empty value |
| `ThreatMatching.Store.MatchThreatIntel` | dashboard_api/ingest.py:1216-1304 | one pass, on the fields of the events: the oldest unexamined events up to the limit are examined and marked; the indicator that a value hits gains a sighting, and the log an entry, for each source address, destination address, lower-cased stripped host and url that equals the value; the values alerted are those that had an alert and those shown that hit a critical or high indicator or one scored 75 or more |
| `ThreatMatching.ToAlertFrom` | dashboard_api/ingest.py:1265-1299 | new alerts have distinct values, each hit by an alertable indicator and without a standing alert, and all such values get one |
| `ThreatMatching.ExaminedOnce` | dashboard_api/ingest.py:1216-1304 | over every run of ingests, imports, status changes and passes: exactly the examined events are marked, each examined once, and no value has two alerts |
| `ThreatMatching.PassTakesOldest` | dashboard_api/ingest.py:1236-1242 | a pass takes all waiting events or as many as the limit allows, and none left is older than one taken |
| `ThreatBacklog.LeftWaiting` | dashboard_api/ingest.py:1236-1304 | over every run, whatever the ties and whatever comes in: how many events of a timestamp or before are waiting is the number that was, plus one for each that comes in, less 500 for each pass but not below 0 |
| `ThreatBacklog.NoneWaitsIff` | dashboard_api/ingest.py:1187-1304 | so everything of a timestamp or before has been examined if and only if that count is 0, a condition on arrivals and passes alone |
| `ThreatBacklog.TurnComes` | dashboard_api/ingest.py:1236-1304 | an event with m waiting events not newer than it, and k more of its second or an earlier one coming in, has been examined once the passes make room for m + k events |
| `ThreatBacklog.ExaminedExactlyOnce` | dashboard_api/ingest.py:1236-1304 | every event is examined in exactly one pass: over every run, whatever came before it, once the number of waiting events not newer than it has been down to nothing |
| `ThreatBacklog.BacklogDrains` | dashboard_api/ingest.py:1236-1304 | with nothing coming in, as many passes as the backlog fills leave nothing unexamined |
| `ThreatBacklog.OnTime` | dashboard_api/ingest.py:1113-1164 | when no request commits more than a given time after its stamp, later arrivals can hold an event up only until that time past its own; from then on the passes its backlog fills are enough |
| `ThreatBacklog.ExaminedWhateverTies` | dashboard_api/ingest.py:1236-1242 | the exact condition, in arrivals and passes alone: an event is examined in every run with these arrivals and passes, whichever of its equals the passes take first, if and only if at some point the number of those not newer is down to nothing |
| `ThreatBacklog.WaitsWhateverTies` | dashboard_api/ingest.py:1236-1242 | and it is waiting still after every such run if and only if before every pass at least a whole batch of older events is there |
| `ThreatBacklog.WaitsIff` | dashboard_api/ingest.py:1236-1242 | for an event whose timestamp no other shares nothing is in between: it waits still if and only if that number never was down to nothing |
| `ThreatBacklog.Starves` | dashboard_api/ingest.py:1236-1242 | an event can be kept waiting: for any number of passes there is a run after which it waits still. It takes a batch of events of an earlier second before every pass; an ingest stamps the second in which it began, so these come from requests that read the clock earlier and commit later, or over a clock that lags |
| `ThreatMatching.SightingsCountChannels` | dashboard_api/ingest.py:1263-1274 | an active indicator of unique value that is left alone gains exactly one sighting for each of those fields of an examined event that equals its value, and its confidence is min(100, c + 8k) |
| `ThreatMatching.SeenIsAlerted` | dashboard_api/ingest.py:1275-1299 | a value that one of those fields of an event of the pass shows has its alert afterwards, when its sole indicator is worth one |
| `ThreatMatching.ShownIsAlerted` | dashboard_api/ingest.py:1263-1299 | the same over every run: once an event that shows it has been examined, it is alerted |
| `Decay.NeverRisesWithAge` | dashboard_api/ioc_lifecycle.py:69-81 | effective confidence never rises with age |
| `Decay.AgedIs` | dashboard_api/ioc_lifecycle.py:69-81 | the aged confidence is the integer nearest, ties to even, to the confidence times the curve at days over half-life, at least 0 |
| `Decay.TargetDay` | dashboard_api/decay.py:168-173 | before rounding, the score is above, at or below a target exactly before, on or after the day computed for it |
| `Decay.DatedIs` | dashboard_api/decay.py:163-191 | the stored date is the whole second after the days in which the confidence falls to the revoke score, or after the age ceiling when that comes first or the score is not above the revoke score |
| `Decay.NotExpiredWhileValid` | dashboard_api/decay.py:176-191 | above the revoke score an indicator is never expired at or before its stored date |
| `Decay.ExpiredIff` | dashboard_api/ioc_lifecycle.py:186-190 | expired exactly past the age ceiling, or more than half a point under the revoke score, or half a point under an odd one, which rounds down |
| `Decay.ExpiredIs` | dashboard_api/ioc_lifecycle.py:186-190 | the same in days of 86400 seconds and the nearest integer |
| `Decay.ExpiredForGood` | dashboard_api/ioc_lifecycle.py:84-99 | without a sighting, expired stays expired |
| `Decay.CountdownAgreesIff` | dashboard_api/ioc_lifecycle.py:122-132 | before the stored date, the countdown reaches that date exactly when the score is above the revoke score |
| `Decay.NextReaction` | dashboard_api/decay.py:194-208 | the largest positive reaction point below the current score, with the days to one decimal up to the moment, still ahead, at which the curve is at that point; none exactly when there is none |
| `Lifecycle.SightingsAddUp` | dashboard_api/ioc_lifecycle.py:226-252 | k sightings in closed form: count, capped confidence, date, status |
| `Lifecycle.ScoreIndicator` | dashboard_api/intel_scoring.py:100-189 | the explanation in full: the claim, aged by the half-life of the type and weighted by the grade; 0, 16, 20, 24 or 26 for up to 1, 2, 3, 4 or more sources; 0, 32, 36, 40 or 44 for the local sightings; 8 for a report or actor, else 5 for a family that is not blank; the conclusions; each part present exactly when it is not 0, in this order, the parts adding up to the score, with a last part exactly when the scale cut it off |
| `Lifecycle.ScoreIs` | dashboard_api/intel_scoring.py:37-189 | the score is the sum of those terms kept between 0 and 100 |
| `Lifecycle.SightingBeatsCorroboration` | dashboard_api/intel_scoring.py:55-97 | a first local sighting with one source outranks any number of sources without one, strictly when the scale does not cut both off |
| `Lifecycle.IocStore.DecayIocs` | dashboard_api/ioc_lifecycle.py:135-223 | row by row what `PassIs` says, and the updates collected in the loop and written at the end amount to that |
| `Lifecycle.PassIs` | dashboard_api/ioc_lifecycle.py:135-223 | known-good rows stay; every other row gets the status, the date and, where it differs, the score of the moment, from who asserts its value, the best grade and its local sightings, and keeps the rest; and the tallies are how many rows were looked at, became expired, became active, changed their score, changed their date |
| `Lifecycle.PassMakesCurrent` | dashboard_api/ioc_lifecycle.py:135-223 | afterwards the stored status, score and date of a row are what they compute to from that row; known-good rows are untouched |
| `Lifecycle.SecondPassIsQuiet` | dashboard_api/ioc_lifecycle.py:135-223 | a second pass at the same moment changes nothing and reports zeros |
| `Lifecycle.TalliesBalance` | dashboard_api/ioc_lifecycle.py:196-201 | expired rows after = expired rows before + expired - reactivated |
| `Lifecycle.DateIsKept` | dashboard_api/ioc_lifecycle.py:186-201 | until the stored date a later pass finds the indicator active; once expired, later passes keep it so |
| `Lifecycle.SightingRevives` | dashboard_api/ioc_lifecycle.py:226-252 | right after a sighting a pass finds the indicator active exactly when the boosted confidence reaches the revoke score |
| `Lifecycle.KnownGoodStays` | dashboard_api/ioc_lifecycle.py:135-264 | over every run of passes, sightings and whitelistings, a known-good row stays known-good and only sightings change it |
| `Lifecycle.IocStore.SetKnownGood` | dashboard_api/ioc_lifecycle.py:255-264 | marks or unmarks one row, and reports whether there was one |
| `SqlScripts.PgSplitStatements` | dashboard_api/db_backend.py:184-219 | the backend's loop computes its scan |
| `SqlScripts.DbSplitStatements` | dashboard_api/db.py:1504-1577 | the loader's loop with its four flags computes its scan |
| `SqlPieces.HasPieces` | dashboard_api/db.py:1504-1577 | in the dialect of either splitter every script is a sequence of characters, quoted stretches, comments and separators |
| `SqlPieces.SplitIs` | dashboard_api/db.py:1504-1577 | either splitter returns what those pieces keep between the separators - all but the comments - stripped, without the statements of which nothing is left |
| `SqlPieces.ConditionsAre` | dashboard_api/db.py:1504-1577 | the two conditions of the comparison, on the pieces: no block comment, and no single quote - nor, for agreement, a semicolon or a double dash - in a double-quoted one |
| `SqlScripts.SplittersAgree` | dashboard_api/db_backend.py:184-219 | both give the same list on every script that opens no block comment outside quotes and line comments and holds no semicolon, single quote or double dash inside double quotes |
| `SqlScripts.SplittersAgreeIff` | dashboard_api/db.py:1504-1577 | exactly then, among the scripts that open no block comment and hold no single quote inside double quotes: the lists are equal if and only if no semicolon and no double dash stands inside double quotes |
| `SqlScripts.SplittersAgreeSimply` | dashboard_api/db.py:1504-1577 | in particular on every script without a double quote or `/*` |
| `SqlScripts.DoubleQuotesDiffer` | dashboard_api/db.py:1504-1577 | a quoted name with a semicolon is split differently |
| `SqlScripts.StatementsAreGood` | dashboard_api/db_backend.py:184-219 | every output is stripped and not empty, holds no unquoted `;` or `--`, and closes its strings unless it is the last |
| `SqlScripts.SplitJoinSplit` | dashboard_api/db_backend.py:184-219 | splitting the outputs joined with `;` gives the same list, for every script |
| `AsnRanges.HexOrder` | dashboard_api/asn.py:64-67 | text order of fixed-width hex keys is numeric order, and keys are equal only for equal addresses |
| `AsnRanges.AsnTable.LoadRows` | dashboard_api/asn.py:115-137 | the table becomes exactly the feed, each row once and in order, whatever the batch size leaves over |
| `AsnRanges.Seek` | dashboard_api/asn.py:158-161 | the row no candidate starts after, or none exactly when there is no candidate |
| `AsnRanges.SeekFindsCover` | dashboard_api/asn.py:140-165 | on disjoint ranges the seek returns the range that covers the address |
| `AsnRanges.LookupIsExact` | dashboard_api/asn.py:140-165 | a lookup names the owner of the covering range, and says "not announced" exactly when no range covers the address |
| `AsnRanges.LookupGoesByStart` | dashboard_api/asn.py:157-165 | on any data set: when one line starts last at or before the address, the answer is its owner, and "not announced" if and only if that line ends before the address |
| `AsnRanges.NestedRangeHidesOuter` | dashboard_api/asn.py:140-165 | so without disjointness a covered address can be missed: a nested range hides the one around it |
| `RateLimit.SimpleRateLimiter.Allow` | threat_api/rate_limit.py:12-21 | what one call does to the deque and answers |
| `RateLimit.AssistantLimiter.RateLimited` | dashboard_api/assistant.py:55-62 | what one call does to the list and answers |
| `RateLimit.PoppingIsFiltering` | threat_api/rate_limit.py:14-17 | popping old entries from the front is filtering them out, on sorted deques |
| `RateLimit.RecentIs` | dashboard_api/assistant.py:55-62 | the filter keeps exactly the entries of the last 60 seconds, in order, the end of that time included by one limiter and not by the other |
| `RateLimit.TableIsRecent` | threat_api/rate_limit.py:12-21 | what is stored for a key amounts to the admitted calls of the last window, over every run |
| `RateLimit.RefusedExactlyWhenFull` | dashboard_api/assistant.py:55-62 | refused exactly when `limit` or more of the admitted calls of the key lie within 60 seconds before it |
| `RateLimit.AtMostLimitPerWindow` | threat_api/rate_limit.py:12-21 | in any window of 60 seconds, wherever it starts, at most `limit` calls of a key are admitted |
| `RegistrableDomain.ResultIsLabelSuffix` | dashboard_api/db.py:1673-1694 | the result is the host's own ending, cut at a dot, of two to four labels |
| `RegistrableDomain.NormalisedIs` | dashboard_api/db.py:1679 | the host without the spaces at its ends, then without the dots, in lower case |
| `RegistrableDomain.NoAnswerIff` | dashboard_api/db.py:1680-1686 | there is no answer exactly when the host has a slash, a colon, an empty label, only one label, or a number for its last |
| `RegistrableDomain.AnswerIs` | dashboard_api/db.py:1687-1694 | else it is the last two labels, or one label more than the longest listed suffix of three or two that the host goes on before |
| `RegistrableDomain.NeverAPlatform` | dashboard_api/db.py:1687-1694 | the longest listed suffix wins: a listed suffix comes out only when it went in |
| `RegistrableDomain.IdempotentIff` | dashboard_api/db.py:1673-1694 | applying it to its result changes nothing exactly when, in the host, the first kept label does not begin and the last label does not end with a space |
| `RegistrableDomain.IdempotentWithoutSpaces` | dashboard_api/db.py:1673-1694 | in particular for hosts without spaces |
| `RegistrableDomain.SpacesBreakIdempotence` | dashboard_api/db.py:1679-1694 | a host with a space after a dot whose result a second call changes, under every list that does not hold that text |
| `RegistrableDomain.PrependLabel` | dashboard_api/db.py:1673-1694 | one more label in front, in any case, changes nothing exactly when the host is not itself a listed suffix of two or three labels |
| `CefHeader.CefSplit` | dashboard_api/ingest.py:933-945 | the loop computes its scan and returns between one part and eight |
| `CefHeader.SplitInvertsPrinter` | dashboard_api/ingest.py:933-945 | seven escaped fields and an escaped extension come back unchanged, whatever they hold |
| `CefHeader.NeverMoreThanEight` | dashboard_api/ingest.py:933-945 | never more than eight parts, on any input |
| `CefHeader.PipesAfterSeventhAreLiteral` | dashboard_api/ingest.py:933-945 | after the seventh separator pipes are text |
| `Text.StripTwice` | dashboard_api/db_backend.py:208-218 | stripping is idempotent |
| `Text.StripIs` | dashboard_api/db_backend.py:208-218 | stripping takes away the white space at both ends, all of it and nothing else |

## Left out

- Rule evaluation, and with it alert counts: what a rule matches is a parameter, and nothing is claimed about alerts across batch sizes.
- Detection.RunDetection: takes rule evaluation, and which suppressions are active, as given; the inline path that claims without the pool's write lock, the backtest of a single rule, and the fields of an alert are left out. Ids of suppressions are not empty.
- DetectionPool.RunPool: the claim under a write lock, which misses nothing claimable; the claim with `SKIP LOCKED` is `SkipLocked`, on sets of events, where the newest-first order of a batch is left out.
- The audit worker's timer and backoff: a worker may ask for the lease at any moment. In `AuditSink` drains may also overlap at will, which covers a deployment with election off. Retention of audit rows is not part of this model, and rows are taken to commit in id order.
- Node ids are pairs of a group and a name instead of prefixed strings; the size and level of a node are left out, and the SQL limits on the rows of the graph are inputs.
- BulkImport.ImportIndicators: takes the normalisation of one indicator (`strip_port`, type guessing, severity) as given, and leaves out source assertions and progress records. Families are stated apart, by `FamiliesAgreeIff` and `TablesAgreeIff`, since they do depend on the sub-batches.
- CollectorPass.RunPass: the content of the files does not change during the pass (in the protocol over several files it does), and the dry run is left out. Decoding to text, rotated files with unread tails and the order of receipts across files are not modelled.
- SqlScripts.SplittersAgreeIff: is about scripts that open no block comment and hold no single quote inside double quotes; with either, the lists may or may not be equal.
- ThreatMatching.SightingsCountChannels: asks that no import or status change touches the indicator's value during the run, since an inactive indicator is not matched at all.
- Lower-casing is that of ASCII; digits are the ASCII digits.
- 0.5 ** x and log2 are any strictly decreasing function and its inverse over the reals; the rounding of the countdown to one decimal is left out, as is the cache of decay rules.
- Decay.NotExpiredWhileValid: asks for a rule the settings page accepts (half-life, revoke score and age factor at least 1).
- Analyst verdicts and their effect on the score enter as a number.
- `trim_history`, the placeholder rewriting of the PostgreSQL backend, feed fetchers, HTTP, routers, tokens and the frontend.
- AsnRanges.LookupIsExact: takes which addresses are reserved as a parameter, and leaves the trimming of country and description out of the rows.
- Wall clocks and locks: each method that the program guards by a lock or a transaction is one step.
