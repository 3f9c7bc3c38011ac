# Regrow: a verified model

Regrow finds what fills a macOS disk, plans exact deletions, runs them with a
journal that undo reads back, and watches how much room is left. This project
models the parts of it where a mistake deletes the wrong thing or loses a record,
and proves what they promise on every input and over every run.

| file | models |
|---|---|
| Paths, Catalog, Forest | cleaned paths and their sort keys; rules, items, ids; the containment forest |
| Selection, Nesting, Planner, PlanRules, PlanBytes | from a selection to the exact actions, what they may be, and what their bytes mean |
| Ledger | a scan's accounting |
| Aerials | switching aerial picks off and on, across crashes |
| Session, SessionAnswers, Outbox, Lines | the engine protocol: requests and their answers, the event queue, the line reader |
| Journal, JournalFile, Disk, Executor, History, Undoing | a run, its journal as lines and as bytes, its history and its undo |
| Shell | quoting a command line and reading it back |
| Prune | the age histogram of a cache and its cutoff |
| LeastSquares, Forecast, Alerts, Deferral | the disk forecast, its alerts, and putting a prune off while a build runs |
| Docker | which volumes may be offered, over many scans |
| Plist, PlistFile | binary property lists: the reader, and what it makes of a written file |

`dafny verify dfyconfig.toml` checks all of it.

## How to read it

- What the source does in loops over mutable state is a method, with a class where
  the source has an object; each is proved against a predicate or function that says
  what the result means, and the theorems are about those.
- Where steps interleave (the aerials protocol, the session, the outbox) the component
  is also a step system: a state, the events that may happen, an invariant every step
  keeps, and theorems over all runs. The methods of its class are proved to take
  exactly those steps.
- Beside a function or predicate that a contract is stated through stands a lemma that
  says it without naming it, in the fields of its arguments: `Planner` has `PlanRules`,
  `Session` has `SessionAnswers`, others a lemma of their own (`...Exactly`, `...Decides`).
- A Go string is a Dafny string whose characters stand for bytes. Where the source's
  integers could wrap and it matters (the property lists) they are a bounded type and
  every sum is proved to fit; elsewhere they are unbounded.
- What the world answers is a parameter: exit codes, which journal lines go through,
  where a move landed, what time it is.

## Assumptions

- Rule ids are distinct and hold no slash (internal/engine/loader.go:42,
  internal/engine/schema.go:447), where a row says so.
- Aerials: a root step that was stopped commits before the next off or on takes the
  record lock, or never; and while an off is pending, the keys it read still name the
  same picks. `Aerials.RenumberedPickIsLost` shows the second is needed, and
  `Aerials.AllKeptExactly` says of any run exactly what is.
- Session: each plan id is new, as it holds 128 random bits.
- Undo: when a run starts, the folder every item is in exists (`Disk.Closed`); a folder
  made for staging, or an export's tarball, has an identity of its own (`Disk.Makes`).
- Journal: an entry's JSON is one line that opens with the first field's name, holds
  that name nowhere else, decodes to the entry, and of any proper beginning the parser
  complains about its end alone (`JournalFile.Lawful`).
- Docker: within one report the volumes' names are distinct.
- Forecast: free space and times are reals.

## Where the code and its comments differ

- The comment on Outbox close (internal/protocol/outbox.go:88-90) says it reports
  whether the queue drained; the code reports that the writer returned, which is
  also so after a write failed and the queue was dropped. `Outbox.WrittenInOrder` says
  which of the two happened, `Outbox.ClosedAfterFailedWrite` is a case.
- An item's atom given beside its own rule's atom is reported as unmatched, although
  the item is planned (internal/engine/plan.go:228-233): `Selection.UnmatchedExactly`,
  and `Selection.ItemBesideItsRule` for a case.
- A measured export counts its planned size as exported in the run's result and its
  measured size in the history (internal/executor/executor.go:189-217):
  `History.HistoryOfRun` gives the difference, `History.MeasuredExportDiffers` a case.
- A word that starts with a tilde is left unquoted and read back as a home:
  `Shell.RoundTripsExactly` says when a line survives, `Shell.TildeIsLost` shows one
  that does not.
- Undo is to restore the moves whose copy is still there (internal/executor/executor.go:307-309).
  A move whose identity could not be read, and a later copy whose name differs from its
  copy's in case alone, on a volume where case matters: the first copy is there, and is
  reported gone (`Undoing.CaseAloneIsLost`). A later action that moves the folder an
  earlier copy is in: the copies are judged before any is restored, so that one is
  reported gone, though restoring both, last first, would give the disk back
  (`Undoing.FolderMovedIsLost`). And where a later action makes a staging folder anew
  that an earlier one moved away, the earlier move's restore is refused
  (`Undoing.StagedAgainIsLost`). `Undoing.UndoRoundTrip` says exactly when undo gives
  everything back.
- The journal's read fails on a line of a mebibyte or more, which its comment does not
  say (internal/oplog/oplog.go:124-131): `JournalFile.RecoveredExactly` says exactly when.

## Model

| member | source | states |
|---|---|---|
| Paths.KeyPrefixIsContainment | internal/engine/forest.go:29-46 | For cleaned paths, one sort key is a prefix of another exactly when the first path equals or contains the second; equal keys mean equal paths |
| Paths.PrefixBlock | internal/engine/forest.go:49-53 | Between two keys of which one starts the other, everything sorted in between starts with it too: a subtree is contiguous in sort order |
| Paths.Clean | internal/engine/forest.go:40-45 | The cleaned path of any string: no empty component, and no "." or ".." when rooted; rooted exactly when the string is |
| Paths.CleanSkips | internal/trash/guard.go:20-20 | Doubled slashes and "." components change nothing, and a name followed by ".." is as if neither were there, anywhere in a path |
| Paths.CleanRoot | internal/trash/guard.go:20-20 | ".." at the root stays at the root |
| Paths.CleanOfClean | internal/trash/guard.go:20-20 | A path with nothing of this left, written out, cleans to itself |
| Paths.CleanIsNormal | internal/trash/guard.go:20-20 | And what is cleaned has nothing of this left: with the three before, that decides what every path cleans to |
| Forest.AboveChain | internal/engine/forest.go:12-16 | Of two items above a third, exactly one is above the other: containment with the catalog-order tie-break is a forest |
| Forest.AboveIsEarlierPrefix | internal/engine/forest.go:49-61 | In sorted order an item is above another exactly when it comes earlier and its key is a prefix |
| Forest.SortNodes | internal/engine/forest.go:52-61 | The nodes sorted by key, then catalog position, the same nodes as before |
| Forest.TopIsNearest | internal/engine/forest.go:62-73 | Once popped, the top of the stack is the nearest item above the next node, and an empty stack means there is none |
| Forest.Walk | internal/engine/forest.go:62-73 | The stack walk gives every node its nearest container as parent, and lists each child once under its parent, as they come |
| Forest.BuildForest | internal/engine/forest.go:23-75 | For any findings: an item has a parent exactly when something is above it, the parent is the nearest such item, and the children lists are the parent map inverted without repeats, each in sort order |
| Forest.Ancestors | internal/engine/forest.go:78-84 | Exactly the items above the given one, nearest first |
| Forest.Descendants | internal/engine/forest.go:87-97 | Exactly the items below the given one, each once, and the visit ends |
| Forest.SharesPath | internal/engine/forest.go:101-110 | Exactly the items above the given one whose path equals its path, nearest first |
| Catalog.SplitJoined | internal/engine/identity.go:15-23 | An item id splits back into the rule id and key it was joined from, whatever slashes the key holds, as rule ids hold none |
| Catalog.WithItemKeys | internal/engine/plan.go:405-419 | Rules and items stay as they are and where they are, but for keys, and an item that had a key keeps it |
| Selection.ParseSelection | internal/engine/plan.go:201-218 | Exactly the atoms switched on: slash-free ones as rules, the others as a rule and a key, and no rule with no keys |
| Selection.ItemsFor | internal/engine/plan.go:227-245 | Exactly the picked items in catalog order; engaged when any atom names the rule; partial exactly when an item is left out; the ids marked matched are those picked one by one, none when the rule's own atom is on |
| Selection.FindUnmatched | internal/engine/plan.go:251-271 | Exactly the rule atoms of unknown rules and the item atoms that marked nothing |
| Selection.UnmatchedExactly | internal/engine/plan.go:247-271 | For any selection an atom is unmatched exactly when it is on and addresses nothing: no such rule, or no keyed item of a rule whose own atom is off |
| Selection.BesideItsRule | internal/engine/plan.go:227-245 | An item's atom given beside its own rule's is unmatched, and yet the item is picked |
| Selection.ItemBesideItsRule | internal/engine/plan.go:227-245 | One rule with one item, and both atoms, on which that shows |
| Selection.Selectable | internal/engine/plan.go:165-191 | The atoms that tick a row: the ids of the items that were read in the order they first occur, or the rule's id alone when every item was read, or none |
| Selection.OfferedExactly | internal/engine/plan.go:165-191 | An atom is offered exactly when it is an item's that was read, of a rule that deletes items one by one and whose read items all have keys, or the rule's when all was read and that is not so; nothing of a rule only reported or a scan that failed |
| Selection.DefaultSelection | internal/engine/plan.go:131-155 | Exactly the union of each finding's preticked atoms: safe rules only, whole when all was read, else the read items of a per-item rule whose keys are there |
| Selection.PretickedExactly | internal/engine/plan.go:131-155 | A row starts with its rule exactly when the rule is safe and all was read, and with the items that were read when not all was and they can be told apart |
| Selection.OfferedIsRead | internal/engine/plan.go:157-191 | An offered or preticked atom never names an unreadable item, and a rule atom is offered only when every item was read |
| Selection.OffersMatch | internal/engine/plan.go:121-191 | A selection drawn, finding by finding, from what Selectable or DefaultSelection gave leaves no atom unmatched |
| Planner.SurfaceOnlyConflict | internal/engine/plan.go:433-445 | Nothing is found exactly when no surface-only item lies inside the item's path or at it, under an earlier or a later rule; what is found is one |
| Planner.TrashDrafts | internal/engine/plan.go:451-481 | Each item in order is drafted exactly when it has a path, passes the guard and holds nothing surface-only; each other is skipped with the first reason that applies |
| Planner.PerItemDrafts | internal/engine/plan.go:524-545 | The same for per-item commands, with the values their placeholders need |
| Planner.WholeRuleDraft | internal/engine/plan.go:491-523 | One draft of all items when the pick is whole and none conflicts; otherwise one skip of the rule, with the right reason |
| Planner.RefusedSkips | internal/engine/plan.go:654-663 | One skip for the rule when the whole rule was picked, else one for each draft, each with the selector that names it |
| Planner.DraftFinding | internal/engine/plan.go:372-396 | One engaged finding: its picked items are drafted exactly when they may be planned, each other is named, and every skip is justified |
| Planner.DraftAll | internal/engine/plan.go:356-396 | Over all findings: exactly the plannable picked items are drafted, in order, none twice; every skip is true; every engaged surface-only rule is reported |
| Planner.BuildPlan | internal/engine/plan.go:346-401 | For any findings, selection and options the plan is right in full: its targets are exactly the plannable picked items whose action has something of its own, its bytes count what no other action holds, its includes are what goes along unplanned, each item once and on one action only, what empties the Trash comes first and otherwise catalog order, every picked item is a target or named by a skip, every skip is true, and unmatched lists exactly the atoms that address nothing |
| Planner.NeverSurfaceOnly | internal/engine/plan.go:429-449 | No target of any such plan has a path that equals or contains a surface-only item's, whichever rule comes first |
| Planner.WantedIsDeleted | internal/engine/plan.go:547-554 | Every plannable picked item is a target or lies inside one: dropping a covered draft uncovers nothing |
| Planner.DraftedIsWanted | internal/engine/plan.go:356-396 | The items drafted are exactly those a declarative test admits: picked, actionable, not refused, guarded, free of conflicts, and all together for a whole-rule command |
| PlanRules.ActionComesFrom | internal/engine/plan.go:467-545 | Each action of any plan from its rule and item alone: rule id, kind, pre-action, measure, sudo, item key and path, whether it empties the Trash, and which items it deletes: the one, or for a command that runs once every item of its rule |
| PlanRules.EmptiesFirst | internal/engine/plan.go:586-599 | Nothing is moved to the Trash before an action whose rule empties it; what comes before one empties the Trash too, and is of an earlier rule |
| PlanRules.DeletesWhatMayGo | internal/engine/plan.go:346-545 | What a plan deletes is asked for by an atom that is on, of a rule that may be deleted and run, has what its command needs, is neither the root, a folder in it, a volume nor the home, and holds nothing that is only reported, and a whole-rule command has all its items asked for; and whatever is so is deleted, or lies inside what is |
| PlanRules.OneItemBytes | internal/engine/plan.go:564-571 | An action of one item counts exactly its bytes, and nothing else the plan deletes holds that item but a later rule's at the same path |
| PlanRules.IncludedGoesAlong | internal/engine/plan.go:594-621 | What an action says goes along may not be deleted itself, and lies at one of its items' paths or inside, with nothing strictly between but what is deleted too |
| PlanRules.AlongIsIncluded | internal/engine/plan.go:594-621 | All that deleting a target takes along unasked some action says, as itself or as what it lies in |
| PlanRules.SafePathExactly | internal/trash/guard.go:13-36 | The guard lets through exactly the absolute paths that, however they are spelled, are not the root, a folder in it, a volume or the home |
| PlanRules.SkipsAreSo | internal/engine/plan.go:357-400 | Every skip of any plan says what is so, of its rule and item alone: held or only reported, no path, no value, guarded, holding what is only reported and which, part of a whole-rule command, its program not found, needing administrator rights and which selector runs it, or inside what the plan deletes; the earlier reason where two apply |
| PlanRules.LeftOutIsNamed | internal/engine/plan.go:357-400 | Whatever was asked for and is not deleted a skip names, and every asked-for rule that is only reported is |
| Nesting.TopmostPlanned | internal/engine/plan.go:550-554 | Over every covered item there is a planned one that is itself uncovered |
| Nesting.HasPlannedAncestor | internal/engine/plan.go:623-630 | Whether a planned item is above the given one |
| Nesting.RunningAncestor | internal/engine/plan.go:635-648 | The nearest planned ancestor whose action is kept; there always is one, so the loop returns before its end |
| Nesting.UnplannedBelow | internal/engine/plan.go:608-619 | Exactly the topmost unplanned items below, reached through planned ones only, each once, in the sort order of the forest |
| Nesting.UnplannedInside | internal/engine/plan.go:599-621 | Exactly what deleting the item takes along that no draft plans, each once: earlier rules' items at its path and the topmost unplanned ones below; those at its path first, nearest first, then the others in sort order |
| Nesting.AlongOnce | internal/engine/plan.go:599-621 | No item goes along with two planned items that no planned item is above: nothing is listed under two actions |
| Nesting.Weigh | internal/engine/plan.go:564-571 | A draft is kept exactly when some item of it has no planned ancestor; its bytes and includes are those of such items, and no item is included twice |
| Nesting.ResolveNesting | internal/engine/plan.go:555-593 | The kept drafts in order, Trash-emptying ones first, each with its own bytes and, once each, what goes along with it; each dropped draft, and no other, is named with an item of a kept draft above it |
| PlanBytes.TotalIsTheUnion | internal/engine/plan.go:85-93 | When items' bytes are sums over the files under their paths, the plan's total is the sum over the union of all targets, each file once, plus what targets without a path report |
| PlanBytes.TotalIsRoots | internal/engine/plan.go:87-93 | The total is the bytes of the targets that no other target holds |
| PlanBytes.RootsMeasure | internal/engine/plan.go:547-554 | Pairwise non-nested items measure as their union |
| Ledger.OwnBytes | internal/engine/account.go:34-39 | An item's bytes less those of its direct children, never below zero |
| Ledger.Account | internal/engine/account.go:28-47 | Each id holds the own bytes of the items that share it and no other id is there; each bucket holds those of its rules; partial counts the partial items |
| Ledger.Conserved | internal/engine/account.go:28-47 | The five buckets sum to the sum of the exclusive bytes; that is at least the root items' bytes, and equal to them exactly when no item is smaller than its direct children together |
| Ledger.ChildrenTakenOnce | internal/engine/account.go:34-38 | Over all items each child's bytes are taken off once, under its one parent |
| Ledger.Share | internal/engine/account.go:51-62 | The exclusive bytes of a finding's distinct ids, each once |
| Ledger.SharesConserved | internal/engine/account.go:49-62 | The findings' shares add up to the five buckets together |
| Aerials.Gone | internal/aerials/aerials.go:737-749 | The recorded picks, in order, whose identity is not among those read |
| Aerials.Union | internal/aerials/aerials.go:625-633 | The first list whole, then the identities it lacks, each once: no identity lost |
| Aerials.StepKeeps | internal/aerials/aerials.go:571-729 | Every atomic step of an off, an on, a stop, a late commit or another program keeps the invariant: what is owed is in a waiting record |
| Aerials.RunKeeps | internal/aerials/aerials.go:571-729 | So it holds after every step of every run |
| Aerials.NoPickLost | internal/aerials/aerials.go:571-617 | After any step of any run, a carryable pick some off's transaction deleted is in a waiting record, or has been in the database since, or has been tried by a committed on |
| Aerials.MissingExactly | internal/aerials/aerials.go:818-839 | After an on commits, a recorded pick counts as missing exactly when it was not there before and could not be carried or was no longer catalogued |
| Aerials.OffThenOn | internal/aerials/aerials.go:571-682 | In any run, once an off and a later on have both ended with exit 0, each carryable pick the off read or found waiting, whose item and user the catalogue kept, has been back in the database between the two |
| Aerials.StaysWaiting | internal/aerials/aerials.go:571-682 | Every step of the machine leaves a pick that waits in the record waiting there, unless an on tries it or finds it in the database |
| Aerials.OnUndoesOff | internal/aerials/aerials.go:787-839 | With identifiers that name one row each, an off then an on of the same carryable picks leaves the tables exactly as they were |
| Aerials.RenumberedPickIsLost | internal/aerials/aerials.go:787-809 | A run in which another program renumbers rows between an off's read and its delete, after which the deleted pick is in no record, not in the database and never tried: why the keys must keep their meaning meanwhile |
| Aerials.AllKeptExactly | internal/aerials/aerials.go:571-729 | In a run in which other programs may do anything to the database, all that is owed stays in a waiting record, after every step, if and only if no off's commit deletes a pick that is neither recorded nor still there |
| Aerials.DeletesItsOwnExactly | internal/aerials/aerials.go:787-809 | An off's delete takes only picks it read exactly when each key it read still names one of them, or one that cannot be carried |
| Aerials.Aerials.Off | internal/aerials/aerials.go:571-617 | The whole method as steps of the machine: nothing changes when it gives up early; exit 1 puts the record back when it can; otherwise the record holds the waiting picks and the new ones |
| Aerials.Aerials.On | internal/aerials/aerials.go:642-682 | Nothing changes with nothing carryable waiting; otherwise the database is the transaction's. After exit 0, the write going through, the record is restored and nothing waits; after exit 1 it is as it was; any other end restores it exactly when every pick is read back. Missing is the number of recorded picks whose identity is not among those read, and zero when nothing was read |
| Aerials.Aerials.Act | internal/aerials/aerials.go:687-729 | The root step, between its start and its end, as atomic steps: the status is the step's own, or nothing-done when it never ran |
| Aerials.CarriedExactly | internal/aerials/aerials.go:61-91 | A pick is carried exactly when its table is one of the three and its identifiers hold only letters, digits, dots, dashes and underscores, and something of those |
| Aerials.Judge | internal/aerials/aerials.go:655-681 | Marks the record, and counts the missing, exactly as the status and the read-back say |
| Session.StepKeepsPlans | internal/protocol/server.go:387-397 | Every step keeps: an unexpired held plan is of the current scan, finished and not spent, at most one operation is in flight, and a running execute's scan is the current one |
| Session.StepKeepsRequests | internal/protocol/server.go:266-364 | Every step keeps the count of answers: each request handled has had one terminal event, or is in flight, waiting as a cancel, or being answered aside, never two of these |
| Session.ExecuteStarts | internal/protocol/server.go:638-665 | In any run an execute starts exactly when nothing is in flight, its plan is held and unexpired, and the switch is absent or read with every rule of the scan in it; the scan is then the current one, finished. Otherwise the code: rules_failed exactly when the switch cannot be read, rules_changed exactly when a rule of the scan is missing from it |
| Session.StartedWasPlanned | internal/protocol/server.go:467-517 | What runs was planned earlier in the session, from the scan still current, no longer ago than the time to live, with every rule of that scan still running both when it was planned and when it starts |
| Session.OneExecutorPerScan | internal/protocol/server.go:667-712 | Two executes that reach their executors are of different scans, the later one of the newer |
| Session.NoPlanTwice | internal/protocol/server.go:638-665 | No plan id that an execute took runs again, whether that one ran or was refused |
| Session.AnsweredOnce | internal/protocol/server.go:266-364 | With nothing in flight or being answered, every request handled has had exactly one terminal event, under its own id |
| Session.FreeOnceAnswered | internal/protocol/server.go:348-364 | As a terminal event goes out its request no longer holds the slot, and never does again |
| Session.CancelWaits | internal/protocol/server.go:714-730 | A cancel of the operation in flight tells it to stop, and its done comes after that operation's terminal event |
| Session.Session.End | internal/protocol/server.go:352-364 | The slot is freed, the terminal event sent, then the waiting cancels' dones, in order |
| Session.Session.NewScan | internal/protocol/server.go:387-397 | A new scan takes the slot, supersedes the one before and drops every plan |
| Session.Session.StartScan | internal/protocol/server.go:366-383 | Refused as busy, or when the rules cannot be read; otherwise a new scan |
| Session.Session.EndScan | internal/protocol/server.go:399-439 | The scan is finished or canceled, and its request answered |
| Session.Session.FindScan | internal/protocol/server.go:443-465 | The scan a plan may be made from, or exactly the code that says why not |
| Session.Session.Plan | internal/protocol/server.go:467-517 | Refused with the right code, or held under its id, older plans losing their bodies |
| Session.Session.PruneOld | internal/protocol/server.go:507-512 | Expired plans lose their body and keep their id, the others stay |
| Session.Session.StartExecute | internal/protocol/server.go:638-665 | The plan is taken off the shelf before it is judged; it starts, or is refused with the right code |
| Session.Session.Build | internal/protocol/server.go:667-684 | The scan is spent and every plan of it dropped once the executor is built |
| Session.Session.Cancel | internal/protocol/server.go:714-730 | Answered at once when its target is not in flight, else waiting on it |
| Session.Session.StartWork | internal/protocol/server.go:735-767 | Ticks and switches share the one slot: busy, or in flight |
| SessionAnswers.PlanRefused | internal/protocol/server.go:443-465 | A plan of no scan, of one running, canceled or spent, of an older one, or of none there is: each its own code, and nothing changes |
| SessionAnswers.PlanDecided | internal/protocol/server.go:467-517 | A plan of the finished current scan is refused when the switch cannot be read, a rule of the scan no longer runs or an atom matched nothing, in that order; else it is held under its id with its scan and time, and every plan past its time loses its body |
| SessionAnswers.ExecuteDecided | internal/protocol/server.go:650-665 | Else the plan is gone from then on, and the execute refused past its time, or when the switch cannot be read or a rule of the scan no longer runs; else it takes the slot |
| SessionAnswers.CancelAsked | internal/protocol/server.go:714-730 | A cancel without a target is refused, one of nothing in flight done at once, any other tells what is in flight to stop and waits behind the cancels before it |
| SessionAnswers.WorkEnds | internal/protocol/server.go:348-364 | What ends frees the slot as its terminal event goes out, and each waiting cancel's done follows, in order |
| Outbox.StepKeeps | internal/protocol/outbox.go:33-108 | Every step of senders, writer and close keeps: written, the rest of the batch and the queue are the accepted lines in order; a parked writer with work has the token or a signaler coming |
| Outbox.WrittenInOrder | internal/protocol/outbox.go:33-79 | What reaches the stream is a prefix of what was sent in time, and a writer that has returned wrote all of it exactly when no write failed |
| Outbox.ClosedForGood | internal/protocol/outbox.go:33-46 | Once close was called no line sent later is accepted |
| Outbox.ClosedAfterFailedWrite | internal/protocol/outbox.go:88-108 | A run in which a write fails and close then finds the writer returned, an accepted line unwritten |
| Outbox.NoMissedWakeup | internal/protocol/outbox.go:48-79 | A writer parked with work, or on a closed outbox, has the token waiting or a signaler about to leave it |
| Outbox.IdleIsDrained | internal/protocol/outbox.go:55-79 | When no internal step is possible the writer has returned, or is parked on an open outbox with everything written |
| Outbox.BacklogEnds | internal/protocol/outbox.go:55-79 | Once sends stop, every run of the writer and pending signals is bounded by the work there is |
| Outbox.ClosedReturns | internal/protocol/outbox.go:88-108 | A closed outbox whose internal steps are all taken has a writer that returned |
| Outbox.Outbox.Send | internal/protocol/outbox.go:33-46 | An encodable event is queued unless the outbox is closed, and a signal follows; the answer is whether it could be encoded |
| Outbox.Outbox.Run | internal/protocol/outbox.go:55-79 | The writer alone: it ends parked without a token or returned; without a failed write everything accepted is written, with one exactly what came before it |
| Outbox.Outbox.Advance | internal/protocol/outbox.go:55-79 | Each turn of the writer's loop is one enabled step of the machine |
| Lines.ReadLines | internal/protocol/lines.go:21-57 | The lines delivered are those of the byte stream, however it is fragmented, up to the one refused; none holds more than max bytes; it fails exactly when the input ends in a read error and no line a newline ended was refused before |
| Lines.Take | internal/protocol/lines.go:36-46 | A fragment joins the pending line, which never holds more than max bytes, and past that only that it is too long |
| Lines.ReadBack | internal/protocol/lines.go:21-57 | Lines written one after another read back one for one, each that fits as it was and each longer one as too long, an unterminated last one included |
| Journal.MarkReused | internal/oplog/oplog.go:195-215 | A move is marked exactly when a later journaled copy took its name: the same name, or, where no identity was recorded, the same but for case |
| Journal.Runs | internal/oplog/oplog.go:195-236 | Each run id once, with exactly its lines in order, its earliest time and its reused numbers, sorted by start and among equals by journal order |
| Journal.Pending | internal/oplog/oplog.go:270-280 | Exactly the moves not undone, newest number first |
| Journal.PendingHolds | internal/oplog/oplog.go:268-280 | The pending list holds each move that can be undone as often as the run does and nothing else, in descending number |
| Journal.PendingExactly | internal/oplog/oplog.go:258-280 | A line is pending, as often as the run holds it, exactly when it records a move and no undo line without an error bears its number |
| Journal.OnDisk | internal/oplog/oplog.go:246-255 | Pending moves split, in order, into those still where they went and unshared, and the rest |
| Journal.FindUndone | internal/oplog/oplog.go:258-266 | Exactly the numbers with an undo line that records no error |
| Journal.Summarize | internal/oplog/summary.go:42-101 | The counts of its lines, each bucket the sizes of the done actions not undone that went there, and each rule the sizes above zero; prune exactly when every action is one |
| Journal.LineCounted | internal/oplog/summary.go:67-95 | What each line adds to a bucket and to a rule: nothing unless it says an action was done that is not undone, then what was measured, else what the last start line of its number planned, a prune without a measure nothing |
| Journal.CountsExactly | internal/oplog/summary.go:46-66 | The counts are of exactly the lines that say done, failed, put back without an error, and the start of a prune |
| Disk.RenameBack | internal/trash/move.go:129-172 | Renaming a subtree away and back leaves every place as it was |
| Disk.RestoreUndoesMove | internal/trash/move.go:97-172 | A restore after its move, staging folders made on the way or not, succeeds exactly when nothing lies where the item was, whatever else came to lie beside; the disk is then as before the move, beside the folders made and what came since |
| Disk.RestoresExactly | internal/trash/move.go:129-172 | A restore works exactly on a Trash or staging move whose copy is there, the same item where that was recorded, with nothing where it was |
| Executor.MeasuredRun | internal/executor/executor.go:272-289 | It succeeds only when both measures and the command did, and never counts less than zero as freed |
| Executor.Count | internal/executor/executor.go:189-220 | One finished action joins exactly the totals it belongs in, so the result stays the tally of the tries |
| Executor.TallyCounts | internal/executor/executor.go:184-219 | What one attempt more adds to each of the result's nine totals, its bytes as measured when it was, and that a run with none has none |
| Executor.Drive.Move | internal/trash/move.go:97-148 | Finder first, staging else: staging makes every missing folder down to its own before the rename, and leaves them when the rename fails |
| Executor.Act | internal/executor/executor.go:155-180 | The action's receipt, measure and success for its kind, what it made, and the disk as its move and that leave it |
| Executor.Attempt | internal/executor/executor.go:146-223 | No action without its start line; an attempted one leaves its start line and, when it goes through, its end line |
| Executor.Execute | internal/executor/executor.go:119-226 | For any plan and any failures: every attempt is what the world answered to its action, on the disk as the attempts before left it; the result tallies them, in order, with its failures; those not tried are the skipped, in order, just the Trash moves after a failed emptying of the Trash; the journal holds a start and an end line for each, but for the last one's when the end could not be written; and the run goes on to the last action unless it was stopped or a line could not be written |
| Executor.RefusedIsFailed | internal/executor/executor.go:236-245 | An attempt whose pre-action is not registered or whose hook refuses has failed: it is journaled so and not measured, it moves nothing, and the disk gains at most what the hook made |
| Executor.MoveDecides | internal/executor/executor.go:155-166 | A Trash action with no hook, or an agreeing one, is done exactly when its item is there and Finder, or staging once its folders are made, put it somewhere free; the receipt says where and which item, and the disk is as that one rename leaves it |
| Executor.CommandDecides | internal/executor/executor.go:247-289 | A command with no hook, or an agreeing one, comes to what it does, or, measured, to what both measures and it say; its receipt is the hook's tarball, and it moves nothing |
| Executor.SkippedExactly | internal/executor/executor.go:142-145 | Of the actions reached, those not attempted are exactly the moves to the Trash after a failed attempt at emptying it |
| History.HistoryAgrees | internal/oplog/summary.go:42-101 | The summary of a run's journal has the run's done and failed counts, its Trash and staging bytes and its total; its exported bytes differ by exactly what measured exports were planned at beyond their measure |
| History.ExportedAgrees | internal/executor/executor.go:189-219 | With no action both measured and exported the exported bytes agree too |
| History.MeasuredExportDiffers | internal/executor/executor.go:189-219 | A run of one measured export, whose result counts five bytes exported and whose summary three |
| History.HistoryOfRun | internal/oplog/summary.go:42-101 | Executed onto any journal under an id of its own, grouped from all of it and summarized: the summary holds the sums of the attempts whose end line was written, and so agrees with what Execute returned, measured exports apart, unless writing one failed |
| History.HistoryAfterUndo | internal/oplog/summary.go:42-101 | A run's lines and an undo's after them: what an undo line without an error names counts no more, in every bucket and rule; what a failed restore names counts as before |
| History.RulesHoldAll | internal/oplog/summary.go:60-101 | The bytes by rule sum to the run's total less any negative sizes, which no rule is charged |
| History.PossibleIsSensible | internal/executor/executor.go:155-180 | What the executor can do always has receipts and measures of the kinds the history expects |
| Undoing.Undo | internal/executor/executor.go:310-347 | Restores what is on disk, last moved first, one journal line each, until a line fails; reports the gone, and counts the commands and exports it leaves alone |
| Undoing.KeptExactly | internal/executor/executor.go:315-326 | What undo leaves alone are exactly the run's done lines without a receipt, and those with an export's |
| Undoing.PendingIsMoves | internal/oplog/oplog.go:268-280 | Right after a run the pending moves are all its moves, last first |
| Undoing.MovesUndone | internal/executor/executor.go:310-347 | Undoing a run's moves, last first, beside anything later actions made: each works if and only if nothing made lies where its item was, and then the disk is exactly as before the run, beside all that was made |
| Undoing.UndoInverts | internal/executor/executor.go:310-347 | Undo right after a run, with no copy gone and nothing made in the way, restores every move and leaves the disk exactly as before the run, whole subtrees included, beside the folders made for staging |
| Undoing.UndoRoundTrip | internal/executor/executor.go:310-347 | Undo right after a run, read back from the whole journal, restores every Trash and staging move and leaves each place as before the run, with nothing else there but what the run made (nothing else at all when it made nothing), if and only if no later copy of the run bears a move's name, every copy is where it landed (of one whose identity was not recorded: something is), and nothing the run made later lies where a moved item was |
| Undoing.NoneMissingExactly | internal/oplog/oplog.go:246-255 | Nothing of the run is reported gone under the first two of these conditions exactly |
| Undoing.PlacesDecide | internal/executor/executor.go:310-347 | In a run that moves no folder an earlier copy is in and makes nothing inside a copy, undo gives everything back exactly when no later copy bears a copy's name and no later action makes a folder where an item was |
| Undoing.GoneExactly | internal/trash/move.go:52-68 | A copy is judged gone exactly when the item that later moves of the run took along or left is no longer where the copy landed; one without recorded identity, when nothing is there |
| Undoing.TrailDecides | internal/trash/move.go:52-68 | With one name for each item that is when its trail through the later moves does not lead back there |
| Undoing.ReusedExactly | internal/oplog/oplog.go:195-236 | A move of the run is marked reused exactly when a later copy of the run bears its copy's name |
| Undoing.NamesDecide | internal/executor/executor.go:310-347 | In a run that moves no folder an earlier copy is in, every copy is where it landed, so that names alone decide |
| Undoing.LandApart | internal/trash/move.go:97-148 | In such a run no two moves land on one place |
| Undoing.CaseAloneIsLost | internal/oplog/oplog.go:196-212 | A run undo does not give back: a move of unknown identity, and a later copy whose name differs in case alone, where case tells names apart; the first copy is there, and reported gone |
| Undoing.FolderMovedIsLost | internal/oplog/oplog.go:246-255 | Another: a later action moves the folder an earlier copy is in, and the copies are judged before any is restored |
| Undoing.StagedAgainIsLost | internal/trash/move.go:129-168 | A third: one action moves away the folder that holds the staging folder, a later one makes it anew on its way; both copies are there, and the first restore is refused |
| Undoing.SecondUndoIdle | internal/executor/executor.go:310-347 | Once every move is restored and journaled, which takes that nothing made is in the way, a second undo has nothing to attempt |
| Undoing.PendingAfterUndo | internal/oplog/oplog.go:258-280 | After an undo, wherever it stopped, the moves pending are those pending before but the ones put back and journaled: a refused restore, and one not reached, stays pending |
| Undoing.NextUndoTries | internal/executor/executor.go:310-347 | So the next undo attempts exactly those whose copy is there and whose name no later action took, the refused ones again |
| Undoing.HistoryAfterIt | internal/oplog/summary.go:42-101 | And the history of a run and an undo of it counts what that undo did not put back, and how many it did |
| Undoing.NeverAnothersItem | internal/oplog/oplog.go:181-236 | Across any runs that free and reuse names, what lies where a move that is not marked reused or gone went is never another action's item |
| Undoing.UndoTakesItsOwn | internal/oplog/oplog.go:240-255 | So whatever Undo attempts, for any run read from the whole journal at any time, is never another action's item |
| JournalFile.File.Append | internal/jsonl/jsonl.go:13-35 | An append lands the framed line up to the byte it was cut at; ok exactly when all of it went |
| JournalFile.ReadFile | internal/oplog/oplog.go:132-161 | Reads the file's lines as a fold: entries, pieces cut short skipped, anything else an error |
| JournalFile.LineDecides | internal/oplog/oplog.go:132-179 | What each line comes to, white space around it aside: too long, blank, its entry, skipped as the beginning of one entry and nothing else, of which the parser misses the end alone, or a corrupt journal of which nothing is given |
| JournalFile.RecoveredExactly | internal/oplog/oplog.go:122-179 | For any appends, each cut short at any byte, reading returns exactly the entries whose text landed whole, in order, without an error if and only if no piece that landed is a mebibyte or more; otherwise it returns those before the first such piece, and fails |
| JournalFile.FirstTooLong | internal/oplog/oplog.go:132-161 | Where that read stops: the first piece that is too long, after the entries that landed whole before it |
| JournalFile.ShortEntries | internal/oplog/oplog.go:122-161 | Entries of less than a mebibyte never leave such a piece |
| JournalFile.AppendReads | internal/jsonl/jsonl.go:13-35 | One more append, however cut, adds its entry exactly when the text landed whole and disturbs nothing before it; it fails the read exactly when what landed is too long |
| JournalFile.FailureStays | internal/oplog/oplog.go:132-161 | A journal that fails to read goes on failing alike, whatever is appended |
| JournalFile.PieceIsCutShort | internal/oplog/oplog.go:163-179 | Any proper beginning of an entry is recognised as cut short |
| JournalFile.GluedIsLoud | internal/oplog/oplog.go:163-179 | A whole entry glued behind a fragment is never skipped as cut short |
| JournalFile.TooLongFails | internal/oplog/oplog.go:132-161 | A piece of a mebibyte or more, whole or cut, onto any file, fails the read after the entries before it, and so it stays after later appends |
| Shell.ReadWords | internal/scanner/tool_fnm.go:953-1043 | The byte loop gives the words of the line by the reader's rules, or fails where they do |
| Shell.Dollar | internal/scanner/tool_fnm.go:965-1002 | $HOME with no longer name, and HOME in braces with anything after it that is no longer name, are the home, whole; any other dollar sign stands for itself |
| Shell.LeadingTilde | internal/scanner/tool_fnm.go:1015-1068 | A tilde that starts a word is the home of the name up to a slash or the word's end; it stands for itself when the name is quoted, escaped or expanded or there is no such home, and a lookup that fails fails the reading |
| Shell.RoundTrip | internal/engine/plan.go:665-673 | Words quoted and joined by spaces read back as themselves, unless one left unquoted holds a carriage return or starts with a tilde that stands for a home |
| Shell.RoundTripsExactly | internal/engine/plan.go:665-673 | With homes free of carriage returns the line reads back as its words exactly when no word is of that kind |
| Shell.QuotedExactly | internal/engine/plan.go:665-673 | A word is left unquoted exactly when it is not empty, holds none of the bytes a shell reads as its own, starts with no equals sign and has no tilde right behind one |
| Shell.TildeIsLost | internal/scanner/tool_fnm.go:1055-1068 | A word ~a is left unquoted and reads back as a's home |
| Prune.HourBucket | internal/engine/prune.go:340-347 | The hour a time falls in, times before 1970 included |
| Prune.SurveyCache | internal/engine/prune.go:390-426 | Each hour's bucket holds the count and bytes of exactly the entries of that hour |
| Prune.TotalOf | internal/engine/prune.go:349-356 | The buckets add up to the whole cache |
| Prune.CutOff | internal/engine/prune.go:363-384 | The entries at or before the cutoff are exactly those counted, all older than the limit; without the newest hour taken there is less than wanted; and when that is still too little every whole hour before the limit is taken |
| Prune.PrunePlan | internal/engine/prune.go:168-232 | A prune is planned exactly when the cache exceeds what it may keep, free space is below target and some hour is old enough; otherwise the reason is the right one, refused and unreadable only when it was |
| Prune.PruneFrees | internal/engine/prune.go:361-384 | Doomed and surviving entries make up the cache, in files and in bytes |
| Prune.LeavesEnough | internal/engine/prune.go:207-231 | A planned prune leaves the cache above what it may keep less the newest hour taken, does not overshoot the target by more than that hour, and deletes nothing younger than the least age |
| Forecast.ForecastWindow | internal/headroom/forecast.go:59-72 | The longest suffix of the history that stays inside the window and has no jump |
| Forecast.JumpFreeExactly | internal/headroom/forecast.go:59-73 | The stretches it is the longest of: none older than 72 hours, over which free space never rose by 2 GiB from one sample to the next |
| Forecast.Slope | internal/headroom/forecast.go:75-92 | The quotient of the normal equations, zero when its denominator is |
| LeastSquares.DenPositive | internal/headroom/forecast.go:75-92 | The denominator is never negative, and zero exactly when all times are equal |
| LeastSquares.SlopeIsLeast | internal/headroom/forecast.go:75-92 | No straight line misses the samples by less, in squares, than the one of that slope through their mean |
| LeastSquares.ExactOnALine | internal/headroom/forecast.go:75-92 | On a straight line the slope is the line's |
| Forecast.ForecastOrWhy | internal/headroom/forecast.go:41-57 | The outlook of the history: too little exactly with too few samples or too little time in the window, else what the slope fitted over the window means, not falling or the days until the space is gone |
| Forecast.OneOutlook | internal/headroom/forecast.go:41-57 | A history has one outlook: the window, the fitted slope and the days are determined |
| Forecast.SteadyFall | internal/headroom/forecast.go:75-92 | A disk that fills steadily is forecast at its rate whenever the samples were taken |
| Forecast.FitIsLeast | internal/headroom/forecast.go:75-92 | The forecast's slope misses its samples least |
| Alerts.FindMoves | internal/headroom/alerts.go:109-119 | The largest swap rise and free drop of the last samples |
| Alerts.MovesAreLargest | internal/headroom/alerts.go:107-119 | Over the unbroken stretch of near samples no move is larger, and one is as large, unless there was none |
| Alerts.AlertState.Step | internal/headroom/alerts.go:73-105 | After a step with one more sample each field tells whether its condition holds of the longer history |
| Alerts.BandLines | internal/headroom/alerts.go:59-82 | Each band trips below its line of 50, 25, 10 or 5 GiB, and clears at 55, 27.5, 11 or 6 |
| Alerts.MoveLines | internal/headroom/alerts.go:83-119 | The swap alert trips at a rise of 4 GiB since some sample of the last 32 minutes and clears when none is 2 behind, the fall past 5 and under half of that; the forecast trips under 3 days and clears at 4, or when none is foretold |
| Alerts.Replay | internal/headroom/alerts.go:65-71 | Replaying a history gives the state that its conditions define; one sample more is one step more |
| Alerts.Alerts | internal/headroom/alerts.go:124-155 | One tick raises what newly holds: the fall, the swap rise, the lowest newly crossed band only, and the forecast, in that order |
| Alerts.RaisedExactly | internal/headroom/alerts.go:124-155 | Each alert of a tick is there exactly when its condition holds now and did not before, a band's only when no lower band's is, each once and in one order |
| Alerts.HoldsExactly | internal/headroom/alerts.go:55-105 | A condition holds exactly when it tripped at some sample and has not cleared at any since |
| Alerts.ClearedBetween | internal/headroom/alerts.go:55-105 | Between two alerts of one condition it cleared; for a band some sample between was at or above its rearm line |
| Alerts.BandsNest | internal/headroom/alerts.go:73-82 | A tripped band means every higher band is tripped |
| Alerts.OneBandATick | internal/headroom/alerts.go:124-155 | A tick raises at most one free-space alert, whatever the two histories |
| Deferrals.SinceIsStart | internal/autopilot/state.go:41-53 | Over any ticks, a deferral remembers the start of the longest unbroken stretch of deferred ticks with gaps of at most an hour |
| Deferrals.StretchBefore | internal/autopilot/state.go:41-53 | During a build the prune goes ahead exactly when that stretch is two hours old and free space is critical |
| Deferrals.RanWhileBuilding | internal/autopilot/state.go:41-53 | So a prune during a build needs two hours of unbroken deferral and critical space |
| Deferrals.GoesAheadThen | internal/autopilot/state.go:41-53 | With a clock that goes forward any stretch of two hours is enough |
| Deferrals.RareTicksWait | internal/autopilot/state.go:41-53 | Ticks more than an hour apart never override a build |
| Docker.IndexNames | internal/docker/snapshot.go:502-507 | Every name there is, by the last volume that bears it |
| Docker.JoinVolumeUsage | internal/docker/snapshot.go:502-526 | Each named volume gains exactly the containers that mount it, sorted, and the newest use among them; with none, docker's link count stands in |
| Docker.UsersExactly | internal/docker/snapshot.go:101-148 | One scan: a volume's users are what docker said and exactly the containers that mount it, running or not; with none, an unknown one when docker counts a link. All else docker said of it stays |
| Docker.LastUsedExactly | internal/docker/ledger.go:52-66 | Its last use is the newest of what docker said, the times of every container that mounts it, and what the ledger remembers under its name and creation time |
| Docker.LedgerExactly | internal/docker/ledger.go:52-66 | The ledger the scan leaves holds exactly the volumes there are, by name and creation time, each with its last use |
| Docker.Merge | internal/docker/ledger.go:55-66 | Each volume is as new as the ledger remembers it, and the new ledger holds exactly the volumes there are |
| Docker.LedgerRemembers | internal/docker/ledger.go:52-66 | A volume there at every scan since some one carries the newest use any of them derived, and nothing from before it was there |
| Docker.RoundsRemember | internal/docker/ledger.go:52-66 | The same over docker's reports themselves, joined, merged and saved scan after scan |
| Docker.MergeIsMerged | internal/docker/ledger.go:55-66 | The merge in place is the merge the scans are folded with |
| Docker.ClassifyVolumes | internal/docker/classify.go:154-184 | The three tiers hold each volume, as often as the snapshot does, exactly where it belongs, each sorted by name: named and anonymous ones nothing claims, the anonymous only after thirty days of rest, all others kept |
| Docker.OneTier | internal/docker/classify.go:154-184 | Every volume belongs in exactly one of the three |
| Docker.InUseIsKept | internal/docker/classify.go:154-184 | A volume a container mounts, or docker counts links to, is kept |
| Docker.MountedIsUsed | internal/docker/snapshot.go:502-526 | A container that mounts a volume is among its users, and its use is no newer than the volume's |
| Docker.OfferedIsFree | internal/docker/classify.go:154-184 | What is offered is unreferenced, not on the keep list and within the cap |
| Docker.OfferedExactly | internal/docker/classify.go:154-184 | A volume is offered by name exactly when it is unreferenced, off the keep list, within the cap and not anonymous; an anonymous one when besides thirty days have passed since its last use, or with none since its creation; every other is kept |
| Docker.OfferedIsUnused | internal/docker/classify.go:101-184 | From docker's report to the tiers: what a scan offers no container of it mounts, and docker counts no link to |
| Docker.AnonymousRests | internal/docker/classify.go:101-184 | Over any series of scans, from docker's reports to the tiers: an anonymous volume there from scan j to scan n is offered at n only thirty days or more after a container that mounted it at j was created, was last started and last ended, that container gone or not |
| Docker.ScanVolumes | internal/docker/classify.go:101-148 | One scan joins the volumes with their mounts, makes them as new as the ledger remembers, leaves the new ledger and gives the tiers |
| Docker.UseLasts | internal/docker/ledger.go:52-66 | Over any series of scans the ledger never forgets a use of a volume that stays |
| Plist.UintAt | internal/scanner/plist.go:190-198 | The big-endian number at a place, or none when it would pass the limit: no index outside the data, no bit lost |
| Plist.ReadBplist | internal/scanner/plist.go:167-186 | For any bytes the layout accepted has its whole offset table inside the file |
| Plist.AcceptedExactly | internal/scanner/plist.go:167-186 | A file of 40 bytes or more is accepted exactly when it opens with the format's name and version and its trailer's numbers put a table of offsets of one to eight bytes each between the two |
| Plist.ObjectAt | internal/scanner/plist.go:201-210 | An object found starts between the header and the table, and nothing wraps on the way |
| Plist.ObjectExactly | internal/scanner/plist.go:200-210 | An object is where its entry of the table says, exactly when that is past the header and before the table |
| Plist.LengthAt | internal/scanner/plist.go:215-229 | The contents start past the marker and at or before the table |
| Plist.StringKinds | internal/scanner/plist.go:233-262 | Four kinds of object are an error, any other that is no string is passed over, and a string is as long as it says, in bytes or in big-endian units, when that ends before the table, and an error when not |
| Plist.BinaryStrings | internal/scanner/plist.go:71-91 | The strings of every object in table order, or an error at any of them |
| Plist.DictExactly | internal/scanner/plist.go:104-120 | A dictionary is read exactly when it is one, its references take one to eight bytes each and all end before the table |
| Plist.TopStrings | internal/scanner/plist.go:96-149 | The top dictionary's string values by key, a later key replacing an equal one however the two are stored, or an error |
| Plist.StringReadBack | internal/scanner/plist.go:233-262 | A string written anywhere before the table, as bytes or as UTF-16, reads back as itself, whatever its length and however many bytes that is written in |
| PlistFile.LayoutRead | internal/scanner/plist.go:167-186 | A list written out whole, its offsets and references each one to eight bytes wide, is accepted, with the layout it was written with |
| PlistFile.ObjectsFound | internal/scanner/plist.go:201-210 | Every object of a written list is found where it was written, for every width its offsets fit |
| PlistFile.StringsReadBack | internal/scanner/plist.go:67-91 | Any strings, each stored as bytes or as UTF-16, written as a list in any such widths and read, are the same strings in order |
| PlistFile.DictReadBack | internal/scanner/plist.go:93-149 | Any dictionary of strings, each stored as bytes or as UTF-16, written in any such widths and read, has the same pairs, the last one of a repeated key |

## Left out

- Planner.BuildPlan: the argv of each action, its title and the wording of skips are not modelled; an action's targets, which the source keeps only on the draft, are kept beside it, and unmatched is a set where the source sorts a list.
- Planner.PerItemDrafts: which placeholders a command's words hold is two flags; the substitution itself is not modelled.
- Selection.Selectable: the empty list stands for nil.
- Forest.SortNodes: sort.Slice is an insertion sort on values; all keys differ by position, so every sort gives this result.
- Aerials.Aerials.Off: the password, the daemon restart and the reading of lsof, sqlite3 and the record's JSON are outcomes given to the method.
- Session.Session.Plan: a plan's contents are not modelled, only its id, scan and time; whether it left atoms unmatched is an input. Requests answered beside the slot (history, updates, rules) have no state of their own; shutdown is not modelled.
- Outbox.Outbox.Run: the interleaving of goroutines is in the step system; this method is the writer with no one else.
- Executor.Execute: of an action's effects the disk shows moves and what is made for staging and exports; commands and prunes come to a measure and a success. There is one pre-action hook, the volume export. An unknown action kind, which no planner makes, is not modelled.
- Undoing.UndoRoundTrip: nothing else changes the disk between the run and its undo, and all of the run's lines went through; that a moved folder's missing parents are made anew by a restore is modelled, their identity is not.
- Journal.Runs: strings.ToLower is a parameter; sort.SliceStable is an insertion.
- JournalFile.ReadFile: white space is ASCII only, and JSON is an abstract codec; opening, closing and syncing the file are not modelled.
- Shell.ReadWords: the home of a user comes from a parameter.
- Prune.SurveyCache: file times are whole seconds; walking the cache and telling entries by name are not modelled.
- Forecast.Slope: rounding of floats is not modelled.
- Alerts.Alerts: an alert is its condition; its text and the numbers in it are not modelled.
- Docker.ClassifyVolumes: times are whole seconds with 0 for none; images, containers and the build cache have tiers of their own that are not modelled, nor is the join of images.
- Plist.TopStrings: utf16.Decode is a parameter; data are shorter than 2^63 bytes.
- Docker images (joinImages, offerUnusedImage), keepSpec, and the XML side of property lists: table lookups and parsing without a property across them.
- Rule validation, embedded rules, host probing, subprocess calls, flock and fsync, rendering and the command line.
