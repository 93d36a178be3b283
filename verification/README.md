# Verified model of the xbc core

xbc is a Go application framework: it plans and constructs a graph of plugins, opens traffic,
reloads configuration while running, and takes everything down again under one shutdown
budget; around that core it masks secrets in logs, names configuration through environment
variables and retries HTTP calls. This project models the parts of it whose correctness is
hard to see by reading, and proves what they promise for all inputs, all heaps, all
interleavings and all runs. `dafny verify dfyconfig.toml` checks the whole project.

| file | what it models |
|---|---|
| `Common.dfy` | what the others share: options, the first occurrence of a character, 64-bit wrap-around |
| `MaskKey.dfy` | splitting a field name into words and matching word groups against the blacklist |
| `MaskValue.dfy`, `MaskLeak.dfy`, `MaskView.dfy`, `MaskWalk.dfy` | the recursive copy-on-first-hit masking of an arbitrary, possibly cyclic value graph; what a reader of the result can learn; the JSON view told on the cells of the heap; the walk itself |
| `Ordering.dfy` | the stable topological sort and its cycle report |
| `Budget.dfy`, `Tasks.dfy` | the workload semaphore with its lazily made broadcast channel; admission windows and reclamation of managed tasks |
| `Watch.dfy` | the debounced file watch |
| `Assembly.dfy`, `Unwind.dfy`, `UnwindInTime.dfy`, `Reserve.dfy`, `Walker.dfy`, `Settings.dfy` | construction, the ingress closure, the three-phase shutdown walk on a clock, the stop reserve, the budgets |
| `Gate.dfy` | stop requests racing startup and unwind |
| `EnvNames.dfy`, `Universe.dfy`, `Overlay.dfy`, `OverlayExact.dfy` | environment-variable names, the environment overlay, and exactly when a variable takes effect |
| `Console.dfy`, `ConsoleEncoder.dfy` | the key=value section of a console line |
| `Retry.dfy` | backoff and the HTTP attempt loop |
| `Reload.dfy` | configuration reload |

Protocols are state machines whose steps are the regions the source holds a lock for; a run is
any sequence of steps, so a statement about `Run(Start(..), es)` for every `es` is a statement
about every interleaving. The classes are the mutable halves of those protocols: each method
is one region and is proved equal to its step.

Four promises do not hold of the code as it is. For each of them there is a
concrete input and the exact condition under which the code keeps it:

- The comment on `Unwind` says phase C keeps three quarters of the stop reserve whatever an
  ingress Stop does. `Reserve.ReserveSpentByJoin` shows a walk that leaves it nothing, because
  `afterStop` joins managed tasks under the walk's own deadline (`runtime/shutdown.go:92`).
  `Reserve.ReserveKeptExactly` gives the condition.
- The comment on `deriveDrainTimeout` says a derived drain budget is always smaller than the
  shutdown budget: `Settings.DerivedDrainWraps`, `Settings.DerivedDrainFits`.
- Accepted settings keep drain plus reserve below the shutdown budget:
  `Settings.SumWraps`, `Settings.AcceptedContained`.
- The backoff doubles up to its cap: `Backoff.OverflowExample`, `Backoff.RightExactly`.

## Model

| member | source | states |
|---|---|---|
| `MaskKey.Split` | log/mask.go:106-143 | fills the buffers with the normalised bytes and word offsets of the key, and reports failure exactly when a buffer is too small for them |
| `MaskKey.LayoutIsWords` | log/mask.go:106-143 | the normalised bytes are the words laid end to end and each offset is where its word begins |
| `MaskKey.Normalize` | log/mask.go:148-159 | the normal form of a key of any length, whichever buffer it needed |
| `MaskKey.Hit` | log/mask.go:168-186 | the fixed-buffer fast path with its slow fallback answers the unbounded rule: some group of trailing words is blacklisted |
| `MaskKey.HitSlow` | log/mask.go:238-252 | the slow path answers the same rule whatever bytes its buffers held before |
| `MaskKey.HitWindow` | log/mask.go:264-288 | some contiguous group of words is blacklisted, for keys of any length |
| `MaskKey.MatchWindow` | log/mask.go:293-306 | the double loop over offsets decides exactly that |
| `MaskKey.WordsConcat` | log/mask.go:106-143 | splitting p, one of `_`, `-`, `.`, space and tab, and r gives the words of p followed by the words of r |
| `MaskKey.PrefixedEntryHits` | log/mask.go:168-186 | any scope joined to a blacklist entry by one of the five separators is a hit |
| `MaskKey.WordsAtHump` | log/mask.go:106-143 | a capital after a lower-case letter or a digit, or before a lower-case letter inside a run of capitals, splits the key there: the words of the whole are the words before it followed by the words from it on |
| `MaskKey.UnbrokenIsOneWord` | log/mask.go:106-143 | a key without a separator and without such a capital is one word, its own lower case |
| `MaskKey.HumpedEntryHits` | log/mask.go:168-186 | an entry joined to any scope by such a capital is a hit |
| `MaskKey.OneWordHitsExactly` | log/mask.go:168-186 | a key of one word is a hit if and only if that word is in the blacklist |
| `MaskKey.HitSplits` | log/mask.go:168-186 | a key split in two is a hit exactly when its second part is, or when trailing words of the first followed by all of the second are listed |
| `MaskKey.WindowCoversPieces` | log/mask_reflect.go:380-419 | the window rule on a repaired tag catches whatever the suffix rule catches on any piece of it |
| `MaskKey.WindowCoversTruncatedName` | log/mask_reflect.go:380-419 | in particular on the part before the first reserved character, the name encoding/json v2 would use |
| `MaskKey.NewMasker` | log/mask.go:44-55 | the blacklist is the normal forms of the built-in and the extra names, empty ones excluded |
| `MaskKey.BuiltinAlwaysHits` | log/mask.go:18-55 | whatever is configured beside them, every built-in name is masked: alone, under any scope joined by a separator, and capitalised after a lower-case letter or a digit |
| `MaskWalk.MaskReflected` | log/mask_reflect.go:108-118 | the entry point: a rewritten value discloses only what is reached past no blacklisted name; a value is handed back untouched only when it reaches no such name; it terminates on every finite heap, cyclic ones included |
| `MaskWalk.Walk.MaskValue` | log/mask_reflect.go:132-186 | a value is rewritten exactly when the rewrite predicate says so, into a permitted result, and the visited set is restored; terminates by remaining depth, addresses not yet entered, and inline structure |
| `MaskWalk.Walk.MaskStruct` | log/mask_reflect.go:196-286 | the same for a struct: named members first, then flattened embeds, the map made on the first hit and filled in with what had been passed |
| `MaskWalk.Walk.MaskMember` | log/mask_reflect.go:196-286 | one named member: masked by its name, or rewritten inside, or untouched |
| `MaskWalk.Walk.HitFieldName` | log/mask_reflect.go:402-419 | a field is masked for its JSON name, its Go name, or any window of a tag encoding/json refuses |
| `MaskWalk.Walk.MaskUnexported` | log/mask_reflect.go:453-484 | what an unexported embed contributes: its masked members, or the placeholder where it cannot be read |
| `MaskWalk.Walk.MaskEmbed` | log/mask_reflect.go:522-538 | what a flattened embed contributes, and that an embedded self-pointer stops |
| `MaskWalk.Walk.NamedRaw` | log/mask_reflect.go:544-567 | the named members of a struct as they stand |
| `MaskWalk.Walk.StructRaw` | log/mask_reflect.go:578-622 | merges the unmasked members an encoder would promote, outer names winning, within the level budget |
| `MaskWalk.Walk.MaskSlice` | log/mask_reflect.go:644-675 | elementwise, copied on the first hit |
| `MaskWalk.Walk.MaskMap` | log/mask_json.go:20-146 | whatever the iteration order, an encodable map is rewritten exactly when an entry is, into the masked and the plain entries |
| `MaskWalk.Walk.HitMapKey` | log/mask_json.go:153-165 | a key is masked for the name it encodes to or for its raw string |
| `MaskLeak.JustValue` | log/mask_reflect.go:132-186 | every permitted result of a rewritten value is justified: each plain value in it is reached from the original past no blacklisted name |
| `MaskLeak.QuietIsClean` | log/mask_reflect.go:132-186 | a value that is not rewritten exposes no blacklisted name on any path an encoder would follow |
| `MaskLeak.RewrittenIffReason` | log/mask_reflect.go:132-186 | a value is rewritten if and only if some path leads to a blacklisted name or to a place the walk refuses to enter |
| `MaskLeak.RewrittenIffExposed` | log/mask_reflect.go:132-186 | where the walk refuses nothing, exactly for blacklisted names |
| `MaskView.MemberName` | log/mask_reflect.go:626-642 | an encoder calls a field by what its tag holds before the first comma, by its own name where that is empty, and not at all for `-` |
| `MaskView.OrdinaryMember` | log/mask_reflect.go:304-316 | which exported fields are members, and under which name |
| `MaskView.MemberExactly` | log/mask_reflect.go:304-316 | exactly which fields are members and which are promoted; an unexported field that embeds no struct is neither |
| `MaskView.PromotedEmbed` | log/mask_reflect.go:486-512 | which fields are promoted |
| `MaskView.SensitiveMember` | log/mask_reflect.go:402-419 | a member is sensitive for its JSON name and for its Go name, and an untagged one for nothing else |
| `MaskView.CorruptedTagHits` | log/mask_reflect.go:402-432 | a tag with a backslash, quote or backquote masks its field for what stands on either side of it |
| `MaskView.SoundTagHits` | log/mask_reflect.go:402-432 | any other tag masks its field for its two names only |
| `MaskView.KeySpelled` | log/mask_json.go:153-250 | how each kind of map key is spelled, and when it is sensitive |
| `MaskView.ElementsAreReached` | log/mask_reflect.go:644-675 | a slice and an array expose exactly what their elements expose; bytes expose nothing |
| `MaskView.PointeeIsReached` | log/mask_reflect.go:132-186 | a pointer and a boxed value expose exactly what they hold |
| `MaskView.EntriesAreReached` | log/mask_json.go:20-146 | a map whose keys all have names exposes an entry exactly for its key and for what is in it |
| `MaskView.UnencodableIsClosed` | log/mask_json.go:97-146 | a map with a key that cannot be encoded exposes nothing and is left alone |
| `MaskView.MembersAreReached` | log/mask_reflect.go:196-286 | a struct exposes a member exactly for its name and for what is in it |
| `MaskView.EmbedsAreReached` | log/mask_reflect.go:453-538 | the fields of a promoted embed and of an unexported member are exposed through it, behind a pointer too |
| `MaskView.MemberSurvives` | log/mask_reflect.go:196-286 | in a rewritten struct a member with a name of its own stands as it was unless it is sensitive or something in it is rewritten, and then in its own masked form |
| `MaskView.ElementsSurvive` | log/mask_reflect.go:644-675 | the elements of a rewritten slice or array stand in their places, untouched or in their own masked form |
| `MaskView.EntriesSurvive` | log/mask_json.go:20-146 | the same for map entries; a sensitive one is the placeholder |
| `MaskView.PointeeSurvives` | log/mask_reflect.go:132-186 | masking sees through pointers and boxes without going deeper |
| `MaskView.PromotedSurvive` | log/mask_reflect.go:196-286 | a promoted embed keeps adding its members under every name its struct does not use |
| `MaskView.UntouchedEmbedKeeps` | log/mask_reflect.go:578-622 | what an embed without secrets adds is its own members as they are |
| `MaskView.NestedEmbedKeeps` | log/mask_reflect.go:578-622 | and what that embed promotes itself, one level less deep, under the names it does not use |
| `MaskView.StopsOnlyDeep` | log/mask_reflect.go:132-186 | without pointers that lead back, the walk refuses to enter only more than eight levels down or at an unexported member |
| `Sorter.Graph.Sort` | plugin/ordering/graph.go:132-191 | returns the lexicographically least topological order by insertion and all misses of soft edges; or a real cycle; or, if and only if some hard edge has a missing end, the first such edge; and, when no hard edge is broken, fails if and only if there is a cycle |
| `Sorter.Graph.AddNode` | plugin/ordering/graph.go:46-53 | idempotent, first insertion fixes the position |
| `Sorter.Graph.AddHardEdge` | plugin/ordering/graph.go:59-61 | adds a hard edge and changes nothing else |
| `Sorter.Graph.AddSoftEdge` | plugin/ordering/graph.go:66-68 | adds a soft edge and changes nothing else |
| `Sorter.Graph.Emit` | plugin/ordering/graph.go:132-191 | the main loop emits a greedy sequence: each time the earliest inserted node that waits for nothing |
| `Sorter.ReadEdges` | plugin/ordering/graph.go:132-214 | counts incoming live edges, collects the misses of soft ones in order, stops at the first broken hard one |
| `Sorter.CycleFinder.Find` | plugin/ordering/graph.go:226-276 | when every remaining node has a remaining predecessor the search returns a cycle: consecutive edges, first node repeated at the end |
| `Sorter.CycleFinder.Visit` | plugin/ordering/graph.go:226-276 | depth-first: a cycle, or everything reachable is finished |
| `Sorter.IdHeap.Pop` | plugin/ordering/graph.go:281-296 | removes one element, the earliest inserted |
| `Ordering.GreedyIsTopological` | plugin/ordering/graph.go:132-191 | a greedy sequence as long as the node list is a topological order |
| `Ordering.GreedyIsLeast` | plugin/ordering/graph.go:132-191 | and precedes every other topological order |
| `Ordering.OrderedIsAcyclic` | plugin/ordering/graph.go:132-191 | a graph with an order has no cycle, so the two outcomes exclude each other |
| `Ordering.MissesExactly` | plugin/ordering/graph.go:193-214 | a miss is reported for exactly the edges with one end in the graph, attributed to that end |
| `Budget.NoLostWakeup` | runtime/task.go:516-569 | in every interleaving a sleeper whose workload has room sleeps on a closed channel, and one on an open channel sleeps on the channel the next release closes |
| `Budget.ReleaseWakesAll` | runtime/task.go:554-569 | after any release every sleeper's channel is closed |
| `Budget.ChargedExactly` | runtime/task.go:476-498 | after every run a charge is refused if and only if as many slots of that workload are out as its limit allows, and otherwise takes exactly one |
| `Budget.EnteredExactly` | runtime/task.go:516-549 | an acquire parks if and only if the slots out fill the limit, and otherwise takes exactly one |
| `Budget.WokenExactly` | runtime/task.go:516-549 | and a woken sleeper, likewise |
| `Budget.SlotsConserved` | runtime/task.go:476-587 | in every reachable state the running count is the number of slots out, and never above the limit |
| `Budget.IdleIsDropped` | runtime/task.go:554-569 | a workload has a running entry only while slots of it are out |
| `Budget.ReleaseInQuiet` | runtime/task.go:554-569 | a release that nobody waits for closes nothing |
| `Budget.ReleaseIsIdempotent` | runtime/task.go:578-587 | giving a slot back again changes nothing, whatever happened in between |
| `Budget.RunKeeps` | runtime/task.go:476-587 | the invariant behind these, with no channel ever closed twice |
| `Budget.WorkloadBudget.ChargeOne` | runtime/task.go:476-498 | one non-blocking charge is the charge step |
| `Budget.WorkloadBudget.AcquireRegion` | runtime/task.go:516-549 | one pass of the acquire loop under the lock is the enter-or-park step |
| `Budget.WorkloadBudget.CancelRegion` | runtime/task.go:516-549 | a cancelled wait leaves and takes its waiter count with it |
| `Budget.WorkloadBudget.ReleaseOne` | runtime/task.go:554-569 | one release gives the slot back and closes the current channel if anybody waits |
| `Tasks.BudgetKept` | runtime/task.go:87-192 | submitting, running and admitting keep the semaphore's invariant in every run |
| `Tasks.RefusalChangesNothingElse` | runtime/task.go:87-137 | a refused submission changes at most its workload's rejection count |
| `Tasks.WindowsFollowHistory` | runtime/task.go:70-85 | a window is open if and only if it was opened before any shutdown and not closed since |
| `Tasks.AdmittedExactlyInWindow` | runtime/task.go:87-137 | over whole runs a submission is admitted if and only if it carries a function, is inside its own plugin's window, and fewer slots of its workload are out than its limit |
| `Tasks.AdmittedJoinsGroup` | runtime/task.go:87-137 | an admitted task joins its plugin's group, or founds the one the plugin has until it stops |
| `Tasks.NothingNew` | runtime/task.go:237-243 | once admission is closed no group is ever created again |
| `Tasks.EveryGroupReclaimed` | runtime/task.go:245-271 | after closing and draining, whatever else interleaves at any time, the table stays empty and every group ever created is cancelled once or about to be |
| `Tasks.CancelledExactlyOnce` | runtime/shutdown.go:41-104 | at the end of unwind, whichever instances its walk reached and whatever interleaved with it, every group ever created has been cancelled exactly once |
| `Tasks.GroupRun` | runtime/task.go:87-271 | in every reachable state each group ever created is in the table, detached, or cancelled once |
| `Tasks.TaskRuntime.Open` | runtime/task.go:70-79 | opens the window unless shutting down |
| `Tasks.TaskRuntime.Close` | runtime/task.go:81-85 | closes one window |
| `Tasks.TaskRuntime.SubmitTask` | runtime/task.go:87-137 | is the submit step, admitted or refused |
| `Tasks.TaskRuntime.CloseAll` | runtime/task.go:237-243 | raises the flag and clears the windows |
| `Tasks.TaskRuntime.StopPlugin` | runtime/task.go:245-256 | detaches one plugin's group and cancels it |
| `Tasks.TaskRuntime.DrainRemaining` | runtime/task.go:258-271 | detaches every group left and cancels exactly those, in some order |
| `Watch.NoReportLost` | config/watch.go:269-325 | in every interleaving a change accepted since the last callback began is covered by an armed timer, a timer goroutine in flight, or a running callback that owes a follow-up; callbacks never overlap; the timer a callback re-arms exists |
| `Watch.OwedIsDelivered` | config/watch.go:269-325 | from every reachable state the enabled steps begin a callback that every accepted change precedes |
| `Watch.QuietAfterStop` | config/watch.go:327-349 | once stop has returned no callback is executing and none begins in any continuation |
| `Watch.NothingAfterStopping` | config/watch.go:269-337 | from the moment stop holds the lock no change is accepted and no callback begins |
| `Watch.StopWaits` | config/watch.go:327-349 | stop returns only when every file goroutine has left and every callback ever begun has told the wait group |
| `Watch.StopCompletes` | config/watch.go:327-349 | and it does return, from every reachable state, once they have |
| `Watch.NoWriteDropped` | config/watch.go:171-260 | a write made while nothing watched the file still has a reporting arm ahead of it; excepted is a file present at the start and written before its first arm attempt, which that arm passes over in silence |
| `Watch.WriteIsOwed` | config/watch.go:171-260 | and every other write is remembered as missed or as an event on its way |
| `Watch.RearmReports` | config/watch.go:171-260 | an arm reports if and only if a gap lies behind it |
| `Watch.FailedArmRetries` | config/watch.go:171-260 | a failed arm reports nothing, leaves the file unwatched, and the arm that succeeds at last reports |
| `Watch.LoopRearms` | config/watch.go:171-260 | a file that goes away and comes back is watched again; its going and the arm over the gap are both reported |
| `Watch.EventReports` | config/watch.go:171-284 | an event is reported if and only if its file is watched and nothing stops; while a change is pending further ones collapse into it |
| `Watch.NoSpuriousCallback` | config/watch.go:269-325 | in every run there are at most two callbacks to each accepted change |
| `Watch.CallbackSettles` | config/watch.go:295-323 | a callback during which nothing is reported leaves nothing under way |
| `Watch.QuietStays` | config/watch.go:269-325 | and then none begins in any continuation without a new change |
| `Watch.ReportsAreCarried` | config/watch.go:269-325 | there is at most one accepted change for each provider event or reporting arm: nothing is reported of its own accord |
| `Watch.RunKeeps` | config/watch.go:171-349 | the invariant behind these |
| `Watch.FileWatch.ChangedUnderWatch` | config/watch.go:269-284 | is the change step |
| `Watch.FileWatch.BeginFire` | config/watch.go:295-313 | is the first half of fire |
| `Watch.FileWatch.EndFire` | config/watch.go:315-323 | is what runs when the callback returned |
| `Watch.FileWatch.BeginStop` | config/watch.go:327-337 | is stop's lock-held half |
| `Assembly.Construct` | plugin/assembly/construct.go:218-284 | succeeds if and only if producers come first and every factory and Init does; factories run at most once, in order; whatever is owned at the end, success or not, has producers before consumers and carries the values its own factories made |
| `Assembly.MaterializeSlots` | plugin/assembly/construct.go:309-332 | the slots exist if and only if every producer is owned, and hold the producers in binding order with their own values |
| `Assembly.DirectDependencies` | plugin/assembly/construct.go:290-307 | exactly the bound producers, each once |
| `Assembly.IngressClosure` | plugin/assembly/construct.go:845-883 | the least set that holds every traffic opener and everything that depends on a member, whatever the queue order |
| `Walker.ConstructOrUnwind` | plugin/assembly/construct.go:218-365 | a failed construction takes down everything it owns within its budget, each instance exactly once and every consumer before its producers |
| `Unwind.EveryInstanceOnce` | plugin/assembly/construct.go:1158-1235 | phases A and C together visit every instance exactly once |
| `Unwind.ConsumerFirst` | plugin/assembly/construct.go:1158-1235 | every consumer is visited before each of its producers, across the two phases |
| `Unwind.ReportIsVisits` | plugin/assembly/construct.go:1125-1272 | the report lists exactly the visits, in order |
| `Unwind.DrainReportNames` | plugin/assembly/construct.go:1172-1219 | phase B names exactly the drainers outside the closure, in reverse start order, and nobody without a budget |
| `Unwind.WalkBounded` | plugin/assembly/construct.go:1125-1238 | the whole walk is over by its deadline even if no hook and no join ever returns |
| `Unwind.StartedOnce` | plugin/assembly/construct.go:512-555 | however often an instance is visited its Stop is started at most once |
| `Unwind.NothingAfterAbandoned` | plugin/assembly/construct.go:1244-1272 | after an abandoned Stop nothing else of its phase is attempted |
| `Unwind.NoDrainAfterAbandoned` | plugin/assembly/construct.go:1195-1219 | nor any drain after an abandoned one |
| `Unwind.StartedAreReported` | plugin/assembly/construct.go:1244-1272 | the Stops started are exactly those reported finished or abandoned, in that order |
| `Unwind.ConsumedAreStopped` | plugin/assembly/construct.go:512-555 | a visit consumes its instance's Stop unless it was not attempted, which leaves it to a later walk |
| `UnwindInTime.EverythingStops` | plugin/assembly/construct.go:1125-1272 | when hooks, joins and drains return and fit the deadlines, every instance that has a Stop had it run to its end, none is abandoned or left out, and every due drain finishes |
| `Reserve.ReserveKeptExactly` | plugin/assembly/construct.go:1140-1238 | phase C keeps at least reserve minus reserve/4 for every duration of every Stop if and only if no ingress plugin's tasks can be joined late, a condition on joins and on which Stops exist |
| `Reserve.InstantJoinsNeverOverrun` | plugin/assembly/construct.go:1140-1238 | that condition holds when `afterStop` takes no time in the closure |
| `Reserve.ReserveSpentByJoin` | runtime/shutdown.go:88-93 | an ingress Stop and a join that leave phase C nothing |
| `Walker.Constructed.StopBounded` | plugin/assembly/construct.go:512-555 | one bounded Stop: skipped, finished, or abandoned when the wait is over, and never twice |
| `Walker.Constructed.Visit` | plugin/assembly/construct.go:1244-1272 | one visit is the visit step: no Stop past the deadline, the join unless abandoned |
| `Walker.Constructed.StopPhase` | plugin/assembly/construct.go:1158-1173 | a phase is its visits in reverse start order |
| `Walker.DrainPhase` | plugin/assembly/construct.go:1195-1219 | phase B's clock and report |
| `Walker.Constructed.UnwindPhases` | plugin/assembly/construct.go:1125-1238 | the three phases over the ingress closure |
| `Settings.AcceptedContained` | runtime/settings.go:614-689 | accepted settings have drain plus reserve below the shutdown budget if and only if the products and sums formed stay in range |
| `Settings.AcceptedExactly` | runtime/settings.go:614-689 | which durations are accepted, and that explicit ones are taken as they are |
| `Settings.DefaultsAre` | runtime/settings.go:587-603 | the defaults where nothing wraps: three fifths for draining, and for the reserve the smaller of a fifth and half of what is left |
| `Settings.SmallIsContained` | runtime/settings.go:274-279 | in particular for budgets below a third of the range, and then the ingress budget is positive |
| `Settings.DerivedDrainFits` | runtime/settings.go:601-603 | the derived drain budget lies inside the shutdown budget if and only if three times the latter does not turn negative |
| `Settings.DerivedReserveFits` | runtime/settings.go:591-593 | the derived reserve always leaves room beside the drain budget |
| `Settings.DerivedDrainWraps` | runtime/settings.go:601-603 | an accepted shutdown budget with a negative drain budget |
| `Settings.SumWraps` | runtime/settings.go:684-688 | accepted explicit budgets that exceed the shutdown budget |
| `Settings.ContainedFeedsWalk` | runtime/settings.go:274-279 | a contained budget gives the walk ingress time, room for the whole drain budget, and the premise of the reserve |
| `Gate.ClosedOnce` | runtime/execute.go:326-371 | in every interleaving the stop channel and the traffic gate are each closed at most once, and exactly when their flags are set |
| `Gate.FirstStopWins` | runtime/execute.go:326-371 | after a recorded stop the reason and the gate never change again |
| `Gate.UnwindOnceInOrder` | runtime/shutdown.go:34-180 | the effects of unwind occur at most once and in order, only under a recorded stop; pre-stop hooks run if and only if the gate had opened and the budget is positive, before any Stop and after admission closed |
| `Gate.TeardownComplete` | runtime/shutdown.go:34-110 | in every interleaving, once execute has returned with something owned, the watch was stopped, admission closed, the reverse walk made and the leftovers drained, and the hooks run exactly when the gate had opened and the budget is positive |
| `Gate.StopIsServed` | runtime/execute.go:31-260 | whatever came before, a recorded stop is served: from every reachable state with one, nine phases that succeed bring the run to its end |
| `Gate.StartServes` | runtime/execute.go:31-260 | a start that nothing disturbs opens the gate and waits, with nothing taken down |
| `Gate.GateOpensLate` | runtime/execute.go:31-260 | traffic is let in only after every stage of the start succeeded |
| `Gate.EarlyCompletes` | runtime/execute.go:31-260 | a constructed run that serves nothing is taken down as completed with the gate never opened |
| `Gate.FailureIsServed` | runtime/execute.go:31-260 | a start that fails with something owned is taken down as failed, unless a stop was recorded first |
| `Gate.FirstReasonStands` | runtime/execute.go:326-358 | the first stop is recorded with its own reason, closes admission, and is what every later state shows, whatever follows |
| `Gate.RequestsDuringUnwind` | runtime/execute.go:326-358 | stop requests landing inside an unwind change nothing |
| `Gate.RunKeeps` | runtime/execute.go:31-260 | the invariant over every run of execute against stop requests |
| `Gate.App.RequestStopWithCause` | runtime/execute.go:326-358 | is the request step, and says whether it was the first |
| `Gate.App.ReleaseTrafficGate` | runtime/execute.go:360-371 | is the release step, and fails exactly when stopping |
| `Gate.App.Unwind` | runtime/shutdown.go:34-110 | runs its body once and has then closed admission and drained if there is a task runtime, walked if anything is owned, and run the hooks exactly when the gate had opened and the budget is positive; a second call only records the stop |
| `Gate.App.RunPreStopPhase` | runtime/shutdown.go:150-180 | runs the hooks exactly when the gate opened, something is owned and there is a budget |
| `EnvNames.NamesAgree` | config/universe.go:222-256 | the name of a rooted leaf is its section's prefix followed by the leaf's spelling, collapsed root or not: the two derivations agree |
| `EnvNames.SegmentAt` | config/universe.go:199-201 | character by character: `.` and `-` become `_`, everything else its upper case |
| `EnvNames.RootSpelled` | config/universe.go:222-240 | when the root segment of a path spells the prefix it is dropped, and a path that is only that root is spelled by nothing |
| `EnvNames.ValidParts` | config/universe.go:141-148 | a name without dots is a valid path unless empty, and a dotted path exactly when its parts are |
| `Universe.NewUniverse` | config/universe.go:92-139 | accepts exactly valid, distinct paths with schemas on typed sections and a namespace as the nearest declared section above each nested one |
| `Universe.CheckSectionParent` | config/universe.go:150-170 | finds the nearest declared section above and requires a namespace |
| `Universe.SingleSection` | config/universe.go:92-139 | a single top-level section is accepted exactly when it is named and holds a schema only as a typed or an instanced one |
| `Universe.OnlyUnderNamespaces` | config/universe.go:150-170 | in an accepted universe nothing lies beneath a section that is not a namespace, at any distance |
| `Universe.OnlyItsOwn` | config/universe.go:591-673 | no other section can offer the path of a typed leaf |
| `Universe.OnlyItsName` | config/universe.go:591-736 | no other name can mean a typed leaf |
| `Universe.ResolvesToLeaf` | config/universe.go:591-673 | resolving the name of a typed leaf claims it and yields that leaf as a declared candidate |
| `Overlay.NameRoundTrip` | config/universe.go:416-458 | the name of every typed leaf that is not reserved sets exactly that leaf or is reported; it never sets another path and is never ignored |
| `OverlayExact.SetsExactly` | config/universe.go:416-458 | the name of a typed leaf sets it, to the value parsed, if and only if one variable can carry the leaf, the value parses and no other path that the filter keeps answers to the name; otherwise it is reported |
| `OverlayExact.AloneSets` | config/universe.go:591-736 | told on the declarations: where no other section and no other leaf answers to the name, the variable takes effect whenever its value parses |
| `OverlayExact.OffersExactly` | config/universe.go:723-802 | what a section offers for a name, both ways: the leaf or toggle it spells, the instance spelled before it, a hint where the instance is missing |
| `OverlayExact.ClaimsExactly` | config/universe.go:591-673 | a section answers for every name under its own prefix, and a collapsed root only for the names it offers something for |
| `OverlayExact.NoAnswerNoCandidate` | config/universe.go:591-780 | a section whose declaration has no room for the name offers nothing |
| `OverlayExact.StrangerIsReported` | config/universe.go:416-458 | a variable under the prefix that nothing answers to is reported; only the bare prefix and PROFILE are ignored |
| `OverlayExact.OverlaySucceeds` | config/universe.go:416-458 | an environment of foreign, reserved and such variables gives an overlay |
| `OverlayExact.InstanceIsOffered` | config/universe.go:738-802 | a variable that spells an instance between its section and a leaf offers exactly that path, declared or not |
| `OverlayExact.InstanceSetsExactly` | config/universe.go:416-497 | where that is the only reading, the instance is set if and only if the leaf can be carried, the value parses and the lower layers declare no other instance that is spelled like it |
| `Overlay.ReservedOnlyAtRoot` | config/universe.go:84-90 | which leaves are excepted: those of a collapsed root that spell PROFILE |
| `Overlay.LeafIsSet` | config/universe.go:416-458 | end to end: when the overlay of an environment that spells a typed leaf succeeds, it holds for that leaf the value the last entry that spells it parses to |
| `Overlay.EntryParts` | config/universe.go:416-458 | an entry is split at its first `=`, is ours exactly when its name has the prefix, and nobody's without one |
| `Overlay.DeclaredSurvives` | config/universe.go:692-710 | a declared candidate survives the filter and is the only one that can be set |
| `Overlay.Resolve` | config/universe.go:591-673 | the loop over sections computes the candidates and the claim |
| `Overlay.MatchTyped` | config/universe.go:723-736 | what a typed section adds |
| `Overlay.MatchInstanced` | config/universe.go:738-780 | what an instanced section adds, inferred instances included |
| `Overlay.PreferDeclared` | config/universe.go:692-719 | drops inferred readings beside a declared one unless they name a declared instance |
| `Overlay.CheckInstanceCollision` | config/universe.go:470-497 | refuses exactly when an inferred instance would fork a declared one that spells the same |
| `Overlay.EnvOverlay` | config/universe.go:416-458 | fails if and only if some variable does, and otherwise holds what the variables set, a later one winning |
| `Console.SectionReadsBack` | log/console.go:341-361 | for any values and any keys without '=' the uncoloured section reads back as exactly its fields |
| `Console.SectionOneLine` | log/console.go:556-583 | the section breaks a line if and only if a key does: no value contributes a line break |
| `Console.ValueBack` | log/console.go:556-583 | every value, quoted or plain, reads back |
| `Console.BareExactly` | log/console.go:556-583 | a value is written as it is exactly when it is not empty and holds no blank, line break, quote or `=` |
| `ConsoleEncoder.ShownExactly` | log/console.go:285-322 | whatever the maps, cyclic ones included, exactly the ends of the unhidden routes of at most nine keys are shown |
| `ConsoleEncoder.HiddenNeverShown` | log/console.go:285-322 | a route through `trace_id`, `span_id` or `request_id` is never shown |
| `ConsoleEncoder.ShownUnderItsKeys` | log/console.go:285-322 | a text is shown under its key, and one inside a map under both keys with a dot |
| `ConsoleEncoder.Line.WriteConsoleValue` | log/console.go:556-583 | appends the value's text |
| `ConsoleEncoder.Line.WriteLeaf` | log/console.go:341-361 | appends a separator unless first, and the field |
| `ConsoleEncoder.Line.WriteFieldsPrefixed` | log/console.go:285-322 | appends the flattened fields and keeps the first flag right; terminates on cyclic maps |
| `ConsoleEncoder.Line.WriteKeyValues` | log/console.go:235-240 | context fields then call fields form one section that reads back |
| `Backoff.RightExactly` | extensions/httpclient/retry.go:339-352 | the doubling loop is right for the first n waits if and only if no doubling below the cap overflows |
| `Backoff.HalfRangeIsSafe` | extensions/httpclient/retry.go:339-352 | a cap of at most half the range is enough |
| `Backoff.OverflowExample` | extensions/httpclient/retry.go:339-352 | an initial backoff whose first doubling is negative |
| `Backoff.Wait` | extensions/httpclient/retry.go:339-352 | the loop, the cap and the jitter compute the drawn wait, or panic exactly when the draw does |
| `Backoff.DrawnInRange` | extensions/httpclient/retry.go:339-352 | where nothing overflows the draw succeeds, in the upper half of the capped power |
| `Backoff.OverflowPanics` | extensions/httpclient/retry.go:339-352 | the first doubling that overflows makes the draw panic, whatever is drawn |
| `Backoff.RetryAfter` | extensions/httpclient/retry.go:412-432 | the Retry-After header of section 10.2.3 of RFC 9110, capped, never negative, never overflowing |
| `Retry.Send` | extensions/httpclient/retry.go:132-232 | at most MaxAttempts sends; each after the first follows a retryable outcome of an idempotent, replayable request and exactly the wait drawn for it; and how the call ended, with what was ended and discarded by then, for every kind of end |
| `Retry.EndsExactly` | extensions/httpclient/retry.go:132-232 | the last attempt decides: its response is returned if and only if there is one and no further attempt is called for or fits; it is lost only to a wait cut short or to a panic of the draw, and that happens exactly when the draw is reached and panics |
| `Retry.EndedOnce` | extensions/httpclient/retry.go:132-232 | every attempt has ended exactly once, except the returned one and one whose response was in hand when the draw panicked; those were neither ended nor discarded |
| `Retry.SentOnce` | extensions/httpclient/retry.go:268-309 | a request that is not idempotent or not replayable is sent at most once; the draw panics only where a doubling below the cap overflows |
| `Retry.ResendsOnly` | extensions/httpclient/retry.go:268-309 | a second send follows only 429, 502, 503, 504 or a transport failure, and only GET, HEAD, OPTIONS, PUT, DELETE or a request marked idempotent |
| `Retry.ResendsAlways` | extensions/httpclient/retry.go:268-309 | and such a request is sent again while attempts and time are left |
| `Retry.WaitsInRange` | extensions/httpclient/retry.go:207-216 | for every valid configuration, each wait made lies in the upper half of the capped power, or is the peer's Retry-After where that is longer |
| `Retry.AfterFailure` | extensions/httpclient/retry.go:162-196 | the decision after a failed send |
| `Retry.AfterResponse` | extensions/httpclient/retry.go:206-231 | the decision after a response |
| `Reload.ReloadSafety` | runtime/reload.go:106-151 | after any sequence of reloads the held configuration differs from the boot one only at log.level and under app, and the level in force is the one it stands for |
| `Reload.FollowsExactly` | runtime/reload.go:106-202 | a change at log.level and under app only is taken whole when the level can be read and set; any other changed path keeps everything as it is |
| `Reload.AllOrNothing` | runtime/reload.go:106-151 | a reload takes the new configuration whole or changes nothing, and repeating it changes nothing more |
| `Reload.Reloader.ReloadOnce` | runtime/reload.go:106-151 | accepted if and only if every changed path is reloadable and a changed level can be applied |
| `Reload.Reloader.ApplyLogLevel` | runtime/reload.go:160-172 | moves the level or leaves it |
| `Reload.ClassifyReload` | runtime/reload.go:190-202 | a partition of the changed paths, in order |
| `Reload.ChangedPaths` | config/diff.go:25-41 | the sorted paths whose leaf differs, each once, and no other |

## Left out

- MaskWalk.Walk.MaskMap: the two map walkers of the source (string keys and other keys) are one method, and the text of a number key is a parameter of the model rather than formatted digit by digit.
- MaskKey.HitSlow: pooling of the slow buffers is not modelled; they hold arbitrary bytes instead.
- Masking: the zap plumbing around the walk (`apply`, `maskField`, the masking core) and Go reflection itself, which is abstracted to a value graph with one flag per field.
- Sorter.IdHeap.Pop: the binary heap of container/heap is a linear search for the minimum; its cost is not modelled.
- Tasks.TaskRuntime.SubmitTask: the nested lock of the semaphore inside the submission is one atomic step with it; identities are taken as already normalised.
- Tasks: goroutine labels, panics of managed functions, critical-task reports and the wait for a cancelled group.
- Watch: the provider's own goroutine and fsnotify are events that may arrive in any order; watch intervals carry no time.
- Walker.Constructed.UnwindPhases: a walk whose context has no deadline or is cancelled early is not modelled; the clock advances only in hooks and joins, and a hook that returns at the very deadline counts as returned.
- Assembly.Construct: build contexts, loggers, stage timings and the nil plan; a panic of a factory is a failure of it.
- Gate: the execution context and its cause, the subcommands that construct nothing, exit codes and log lines.
- Budget.ReleaseIsIdempotent: that sync.OnceFunc runs its function once is taken as given; what is proved is that no slot is ever handed out under a name already given back.
- Overlay.LeafIsSet: assumes that the case mapping spells `enabled` as `ENABLED`, which `Overlay.AsciiSpellsToggle` derives for every mapping that is the usual one on ASCII letters; on all other runes the mappings are arbitrary.
- OverlayExact.SetsExactly: takes the leaf paths of one schema as distinct, which building a schema enforces (config/schema.go:155-172); reading schemas off Go types is not part of this model.
- Overlay.EnvOverlay: sections are taken in any order rather than sorted by path, parsing of a value is a parameter, and error texts (with the namespace that only feeds them) are left out; `checkOwnership` of file keys is not modelled.
- ConsoleEncoder.Line.WriteFieldsPrefixed: entries are taken in key order, the sort itself is not modelled; colours, padding, time and caller columns, and turning a value into its text, are left out.
- Retry.Send: spans, metrics and the per-attempt timeout; how long a send takes is part of what each attempt meets.
- Backoff.RetryAfter: parsing of the header text; its three readings are the input.
- Reload: reading and validating the sources, binding the log section beyond its level, and labels in reports.
- Settings.AcceptedContained: process knobs and the service identity, which loadSettings also settles.
- Placement, migration, preflight, metrics, HTTP servers and the other extensions, which are single-branch code or calls into other libraries.
