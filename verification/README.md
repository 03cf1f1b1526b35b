# Spagitty: what its protocols and readers keep

A Dafny model of the parts of Spagitty in which several things happen at once,
or in which a process may stop after any step: the open repository and the
calls on it, the assignments of agents and the file their list is kept in, the
staging of the shipped multiplexer, the confirmation of a comment, the
cancelling of a clone — and of three readers with a contract of their own: the
dependency lists, the daily token count, the scanner of desktop themes.

`dafny verify dfyconfig.toml` checks everything.

## How it is modelled

- **Protocols are machines.** A state, and events that each let one call take
  its next atomic action; what an event does to a state is a function that is
  absent where the event cannot happen (`Runs.dfy`). A run is any sequence of
  events from the start, so a theorem about runs is about every interleaving.
  Fields called history record what happened; no step reads them. What a call
  can always come to is a run of its own actions alone (`RunsAlone`).
- **State that the program updates in place** is also a class. The methods of
  `AppState` and `AgentsState`, and `Confirm` of `Desktop`, are proved to do
  what the machine's steps do to every state with the same fields, and `Ask` of
  `Desktop` to come out as an ask does in every run; `Held` does what each edit
  of the list says, and `Directory` what one change of the file alone does. For
  the staging the class is the model itself (`Bundle`, which keeps what the
  directory was after every single step).
- **Loops of the program are loops here**, proved against functions and
  predicates whose own properties are proved beside them: the worklists of
  `licenses.rs` against paths in a graph, the scanner against printing, the
  byte loop of the clone against the lines of its output.
- **A promise that does not hold in general** is stated with the condition
  under which it does, and with a run or an input for which it fails.

| file | what it models |
|---|---|
| `OpenRepository.dfy`, `Calls.dfy` | `src-tauri/src/commands.rs`: tickets, the session, reads and writes, walks and their tokens; what each call comes to |
| `Assignments.dfy`, `Claims.dfy`, `Starts.dfy` | `src-tauri/src/agents.rs`: jobs, resuming, claims, live handles, the record store; what each start comes to |
| `MachineList.dfy`, `HeldList.dfy`, `MachineFile.dfy` | `src-tauri/src/agents.rs`: the list of agents and the file it is kept in |
| `Spending.dfy` | `src-tauri/src/agents.rs`: tokens counted against an agent's day |
| `Closure.dfy`, `Ordering.dfy`, `Licenses.dfy` | `src-tauri/licenses.rs`: what ships, listed |
| `Staging.dfy` | `tools/multiplexer.ts`: the bundle, its stamp, builds that are cut off |
| `Confirmations.dfy` | `src-tauri/src/extensions.rs`: asking the person before posting |
| `Cloning.dfy` | `src-tauri/src/clone_worker.rs`: git, its output, cancels, the removal |
| `DesktopTheme.dfy` | `src-tauri/src/desktop.rs`: scanning, colours, holding the last palette |
| `Runs.dfy`, `Selection.dfy`, `Text.dfy` | runs of a machine; choosing some of a row; trimming and decimal numbers |

## Findings

Each is a lemma with the input or run that shows it, next to the condition
under which the promise does hold.

- An open that is overtaken may still install, exactly when its check has
  passed already (`OvertakenInstallsOnceChecked`, with a run in
  `OvertakenByAnOpenMayInstall`). A close takes its ticket under the lock, so
  one never comes between (`OvertakenNeverInstalls`).
- The record of a running assignment may say it was stopped
  (`RecordCanSayStoppedWhileItRuns`): a list can write so exactly between the
  launch and the insert (`ListMayCloseExactlyBeforeTheInsert`). After the
  insert, the engine's next write puts it right for as long as it runs
  (`WrittenRecordSaysItRuns`), unless an engine of an earlier run under the id
  writes again (`EarlierEngineOverwrites`). It can also say that the run is over
  when the save before the launch fails, which nothing looks at, where an
  earlier run is carried on (`UnsavedRecordSaysOver`); and a forget can take the
  record of a running assignment away, exactly between the launch and the insert
  (`ForgetMayTakeExactlyBeforeTheInsert`). The claim, not the record, keeps two
  engines off one job.
- `npm_dependencies` lists by `name@version`: of two different packages that
  share a label only one is listed, and this is the only way one is left out
  (`ListIsExact`). They then share name and version, unless a version has an `@`
  in it (`OneLabelIsOnePair`).
- Nothing is reserved when a run starts, and a run is counted some time after
  it is over, so two runs of one agent can use a daily limit twice
  (`UncountedRunsExceed`). A start is safe exactly when it leaves room for
  everything that is not counted yet (`RoomIsWhatItTakes`).
- Of the tokens that were recorded on its day, `spent` forgets some exactly when
  the clock comes back to a day that has tokens (`CountIsTheDaysSum`).
- A run that carries another on keeps its tokens, and the keeper counts all that
  the record has: tokens of a run that was counted and is carried on are counted
  again (`CarriedOnIsCountedAgain`). What a counted run and those it carries on
  have used is counted once exactly when none of those carried on had been
  counted with any tokens, and never less than once
  (`CountedOnceUnlessCarriedOn`). Such a start leaves room in the day only if
  what its record has already still fits (`CountedStartLeavesRoom`).
- The stamp of a staged bundle does not say which files were taken from which
  archive, nor which were taken at all: `isStaged`'s comment promises exactly
  what is pinned, but a pin that differs in this alone counts as staged as long
  as it takes no new file (`OtherTakesAreNotFetched`). So the file of the old
  archive stays where one moves between archives (`MovedFileIsNotFetched`), and
  a file that is no longer taken still ships (`DroppedFileIsNotCleared`). A
  directory that counts as staged holds exactly what is pinned if and only if
  the pin that staged it took each file from the same archive, and no file that
  only it took is there (`StagedIsPinned`); so with one table of pins it always
  does (`StagedFromOneTable`).
- Confirmation ids are times in nanoseconds that nothing checks for being
  distinct; where any two asks share one, a yes to one posts the other
  (`SharedIdMisleads`, `YesGoesToTheOther`). However ids are given, no run takes
  a yes for another's exactly when no two asks are given one
  (`DistinctIdsAreWhatItTakes`).
- A clone can be reported as ok although its directory was removed
  (`CancelCanBeatSuccess`): exactly when the same message says that it was
  stopped, it had created its destination, and removing did not fail
  (`OkMeansOnDisk`). A cancel that reaches git while it runs prevents this
  (`KilledIsStopped`).
- A cancel does not reach git once git and its helpers have closed their output:
  the thread then waits for git with the lock held that a kill needs, and git
  goes on until it ends by itself (`NoCancelReachesAWaitedFor`).

## Model

| member | source | states |
|---|---|---|
| OpenRepository.ReadSawOneSession | src-tauri/src/commands.rs:329-354 | a delivered read: at every moment from taking its handle to its check, the open session was the one the handle is of — not even closed and reopened in between |
| OpenRepository.InstalledInTicketOrder | src-tauri/src/commands.rs:453-502 | over every run the tickets of installed sessions strictly increase |
| OpenRepository.OvertakenNeverInstalls | src-tauri/src/commands.rs:480-502 | an open whose ticket is before that of some close, and that has not installed by then, never installs, however the run goes on |
| OpenRepository.LatestOpenDecides | src-tauri/src/commands.rs:442-502 | once the open that holds the latest ticket has succeeded, the session is its own |
| OpenRepository.LatestCloseDecides | src-tauri/src/commands.rs:2094-2101 | once the close that holds the latest ticket is done, nothing is open |
| OpenRepository.OvertakenInstallsOnceChecked | src-tauri/src/commands.rs:480-502 | of an open whose ticket is not the latest any more, whoever took the later one: some way of going on has it install exactly when its check has passed already |
| OpenRepository.OvertakenBeforeItsCheckNeverInstalls | src-tauri/src/commands.rs:480-486 | an open overtaken by any call before its check has passed installs at no later moment of any run |
| OpenRepository.OvertakenByAnOpenMayInstall | src-tauri/src/commands.rs:480-497 | a run in which an open is overtaken by another after its check, and installs |
| OpenRepository.TokensAreUnique | src-tauri/src/commands.rs:469-477 | no two walks, of any sessions and restarts, ever have one token |
| OpenRepository.RequestsReachTheirOwnWalk | src-tauri/src/commands.rs:514-523 | every request that was handed to a walk was made with that walk's token |
| OpenRepository.ReplacedWalksAreNotReached | src-tauri/src/commands.rs:514-591 | a walk that was the session's and is not any more is reached by no later request |
| OpenRepository.WalkShowsEveryChoice | src-tauri/src/commands.rs:544-591 | over every run the running walk's refs and pins are those of the last visibility command since its repository was opened, or all and none, and its order is that of the last order command, or of the opening |
| OpenRepository.WritesNeverOverlap | src-tauri/src/commands.rs:103-163 | the closures of two commands that write are never running at once |
| OpenRepository.NoneQueuesHoldingTheSession | src-tauri/src/commands.rs:336-346 | no call waits for the write lock while it holds the session lock |
| OpenRepository.SomeCallCanAct | src-tauri/src/commands.rs:299-376 | in every reachable state with an unfinished call, some unfinished call can take a step |
| OpenRepository.StepKeeps | src-tauri/src/commands.rs:217-388 | every action of every call keeps the locks, tickets, installs, walks and handles consistent |
| OpenRepository.AppState.OpenAs | src-tauri/src/commands.rs:480-502 | installs exactly when its ticket is still the latest, and leaves the session alone otherwise; on every state with these fields this is what the machine's check and install do |
| OpenRepository.AppState.CloseRepo | src-tauri/src/commands.rs:2094-2101 | takes a new latest ticket and leaves nothing open, as the machine's two steps of a close do |
| OpenRepository.AppState.TakeHandle | src-tauri/src/commands.rs:335-345 | the path and ticket of the open session, if there is one; in every state with these fields, a call that takes its handle goes on with this one, queued when it writes and running when it reads, or ends when nothing is open |
| OpenRepository.AppState.StillOpen | src-tauri/src/commands.rs:370-376 | true exactly when the open session has this ticket; in every state with these fields, a read at its check is delivered when this is true and replaced when it is not |
| OpenRepository.AppState.GraphRequest | src-tauri/src/commands.rs:514-523 | the running walk when the token is its own, and nothing otherwise; in every state with these fields, exactly this is added to the requests that walks were handed |
| OpenRepository.AppState.Restart | src-tauri/src/commands.rs:528-591 | replaces the walk under a new token, with the refs and pins, or the order, that are asked for and the rest as it was, and without a session changes nothing and takes no token; as the machine's step does |
| Calls.CheckDelivers | src-tauri/src/commands.rs:348-376 | in every run a read at its check is delivered by its next action exactly when the open session has the ticket it was taken from, whatever tickets were taken since, and replaced otherwise |
| Calls.UndisturbedIsNotReplaced | src-tauri/src/commands.rs:329-354 | in every run a read or write during which the session it was taken from stays the open one is never told that it was replaced |
| Calls.ReadRunsAlone | src-tauri/src/commands.rs:329-354 | in every state with the session lock free, a read gets through by its own actions alone, without the write lock, and is delivered from the session that is open, or told that nothing is |
| Calls.WriteRunsAlone | src-tauri/src/commands.rs:329-354 | so does a write with both locks free, and is reported as it is |
| Calls.WritersWrite | src-tauri/src/commands.rs:311-354 | in every run the commands that take turns are those that write, and those that are checked are those that read |
| Calls.CheckLetsTheLatestInstall | src-tauri/src/commands.rs:480-486 | in every run an open at its check goes on to install exactly when its ticket is the latest, and is superseded otherwise |
| Calls.OpenIsAsAsked | src-tauri/src/commands.rs:453-502 | in every run what an open installs is of the repository that this open read, in the order it was asked for, with every branch shown |
| Calls.OpenRunsAlone | src-tauri/src/commands.rs:442-502 | in every state with the session lock free, an open gets through by its own actions alone under the next ticket and token, and leaves the session alone where it finds nothing to read |
| Calls.CloseRunsAlone | src-tauri/src/commands.rs:2094-2101 | so does a close, and nothing is open then |
| Calls.OnlyChoicesChangeTheWalk | src-tauri/src/commands.rs:528-591 | between any two moments of a run the session stays as it is, unless a command restarts its walk as it asked, or an open installs |
| Calls.ChoiceRunsAlone | src-tauri/src/commands.rs:528-591 | in every state with the session lock free, such a command gets through by its own actions alone: what it chose is shown, the rest as before, under the next token |
| Calls.RequestRunsAlone | src-tauri/src/commands.rs:514-523 | and a request for rows is handed, once, to the walk it names when that is the running one, and to no other |
| Assignments.JobsAndRevisions | src-tauri/src/agents.rs:1107-1155 | same job and same revisions are equivalences, the second finer: a job is the same when only titles, strategies, destinations and revisions differ, and the revisions are when only titles, strategies and destinations do |
| Assignments.Resume | src-tauri/src/agents.rs:1062-1103 | the two loops of resuming compute the record that the lemmas below are about |
| Assignments.ResumedKeepsWhatIsDone | src-tauri/src/agents.rs:1062-1103 | resuming supersedes exactly the steps that ran or waited at a gate, changes no other step, sets the level that is asked for, and keeps id, repository, agent, target and proposals |
| Assignments.ResumedIsToldHowFar | src-tauri/src/agents.rs:1062-1091 | the note is what the person says, followed, when any file or conflict is finished, by how many are |
| Assignments.ResumingTwiceIsResumingOnce | src-tauri/src/agents.rs:1062-1103 | carrying on what was just carried on tells the agent the same and leaves the same steps |
| Claims.OneOwnerPerJob | src-tauri/src/agents.rs:980-1005 | in every reachable state whatever holds a claim on a job or runs an engine on it is one start, also when its engine carries an earlier target on |
| Claims.OneEntryPerStart | src-tauri/src/agents.rs:962-978 | the shared vector has exactly one entry for each start in flight, and none besides |
| Claims.DropsItsOwn | src-tauri/src/agents.rs:968-978 | removing the first matching entry removes the dropping start's own |
| Claims.NoRunningHandleIsReplaced | src-tauri/src/agents.rs:1352-1367 | a handle about to be inserted never replaces one whose engine still runs, whatever lists and forgets did to the records |
| Claims.FinishedAtItsRevisions | src-tauri/src/agents.rs:1181-1202 | in every record of every run each finished step was finished at the record's own revisions |
| Claims.ListMayCloseExactlyBeforeTheInsert | src-tauri/src/agents.rs:1433-1457 | in every reachable state, a list that has read the record of a running engine can write it as stopped exactly when its start has launched it, has not inserted the handle, and no earlier handle is under the id |
| Claims.WrittenRecordSaysItRuns | src-tauri/src/agents.rs:1352-1367 | once the handle is inserted and the engine has written its record, the record says that it is not over for as long as it runs, in every run in which no earlier engine of the same id writes again |
| Claims.EarlierEngineOverwrites | src-tauri/src/agents.rs:1412-1427 | and in every reachable state such a write does make the record say that it is over |
| Claims.RecordCanSayStoppedWhileItRuns | src-tauri/src/agents.rs:1433-1457 | a run in which a list writes a record as stopped while its engine runs |
| Claims.ForgetMayTakeExactlyBeforeTheInsert | src-tauri/src/agents.rs:1471-1485 | in every reachable state a forget can take away the record of a running engine exactly when its start has launched it and not inserted the handle |
| Claims.UnsavedRecordSaysOver | src-tauri/src/agents.rs:1347-1362 | wherever an over record is about to be carried on, a save that fails is followed by a launch that leaves the engine running under a record that says over |
| Claims.OpenedIsSound | src-tauri/src/agents.rs:1181-1202 | what a start opens, carried on or fresh, belongs to the requested job at the requested revisions with every finished step stamped by them |
| Claims.StepKeeps | src-tauri/src/agents.rs:948-1005 | every action of starts, engines, lists and forgets keeps the claims, handles and records consistent |
| Claims.AgentsState.Claim | src-tauri/src/agents.rs:983-1004 | refused exactly on a held entry or a live assignment that is not over, of that repository and job, which is when the machine's job is busy; otherwise one entry is added |
| Claims.AgentsState.Drop | src-tauri/src/agents.rs:968-978 | removes the first entry of the job; in every state that runs reach, this is the dropping start's own and no other |
| Starts.CarriesOnWhatIsNamed | src-tauri/src/agents.rs:1181-1202 | in every run a start carries on the record its request names exactly when that is over, of the requested agent and of the requested job and revisions: under its id, with every finished step in its place; in every other case it opens a new assignment with nothing in it but what was asked, and says so where the work has moved |
| Starts.RefusedExactlyWhenOwned | src-tauri/src/agents.rs:983-1004 | in every run a claim is refused exactly when another start owns the job, in flight or with its engine running, and is taken otherwise |
| Starts.StartRunsAlone | src-tauri/src/agents.rs:1167-1372 | in every run a start whose job nobody owns gets through by its own steps alone: its engine works on what it opened, its handle and record are in place, and its claim is let go of |
| Starts.GivingUpLetsGo | src-tauri/src/agents.rs:968-978 | a start that returns early lets go of its own claim and of no other, and leaves store and handles alone |
| Starts.ListClosesWhatIsLeftOver | src-tauri/src/agents.rs:1433-1457 | a list writes a record as stopped exactly when it read it as not over and no handle is under its id |
| Starts.ListRunsAlone | src-tauri/src/agents.rs:1433-1457 | and alone it writes exactly that, with everything else of the record as it was |
| Starts.StoreChangesOnlySo | src-tauri/src/agents.rs:1347-1487 | what each step writes to the store, and that no other step changes it |
| Starts.HandlesChangeOnlySo | src-tauri/src/agents.rs:1352-1487 | handles are put in place by their starts and taken away by forgets, and engines begin, by nothing else |
| Starts.EnginesChangeOnlySo | crates/spagitty-farm/src/assign/engine.rs:798-838 | an engine adds steps to its own assignment, marks them one at a time and ends it, and nobody else changes that |
| Licenses.LinkedFrom | src-tauri/licenses.rs:171-209 | returns exactly the packages that a chain of normal dependencies leads to from a workspace member, on every graph with or without cycles, the last node of an id having the say |
| Licenses.RustDependencies | src-tauri/licenses.rs:138-164 | in dictionary order by name and then version, no pair twice; every entry says what the metadata of a linked package outside the workspace does, and every such package's name and version is listed |
| Licenses.ResolveFindsTheNearest | src-tauri/licenses.rs:293-302 | a name resolves to the directory under the longest ancestor that holds it, and to none only when no ancestor does |
| Licenses.ResolveInTree | src-tauri/licenses.rs:293-302 | the loop over ancestors computes that resolution |
| Licenses.PartsAreBetweenSlashes | src-tauri/licenses.rs:293-302 | a name leads through its parts between slashes, joined they are the name again |
| Licenses.AskedIsWanted | src-tauri/licenses.rs:268-286 | what is asked for is exactly what chains of dependencies and optional ones lead to from the root, each from the directory that the one before resolves to |
| Licenses.NpmDependencies | src-tauri/licenses.rs:223-266 | an error exactly when something wanted is missing, and the error names one such thing and says whether it is absent or cannot be read; otherwise a list in dictionary order, each label once, every entry with the version and terms of an installed package; and where no wanted name has a node_modules of its own in it, the labels listed are exactly those of what is installed, on cyclic trees too |
| Licenses.OneName | src-tauri/licenses.rs:293-302 | where no wanted name has a node_modules of its own in it, no directory is wanted under two names |
| Licenses.ListIsExact | src-tauri/licenses.rs:241-261 | then the list leaves an entry out exactly when two entries share a label |
| Licenses.OneLabelIsOnePair | src-tauri/licenses.rs:241-249 | entries that share a label have one name and version, unless a version has an `@` in it |
| Ordering.Dedup | src-tauri/licenses.rs:161-162 | a sorted list becomes strictly sorted, keeps one of each pair and adds nothing |
| Ordering.SortedIsInOrder | src-tauri/licenses.rs:161-162 | sorted is by name and then by version, each in dictionary order: the beginning first, then the smaller letter where they first differ |
| MachineList.FirstUnused | src-tauri/src/agents.rs:591-597 | the search for a fresh id ends at the first number whose id nobody has |
| MachineList.SearchIsShort | src-tauri/src/agents.rs:591-597 | after at most as many increments as there are agents |
| Text.DecimalIsTheNumber | src-tauri/src/agents.rs:591-597 | a number is written in the digits that stand for it, without a needless zero |
| MachineList.SavedIsAsAsked | src-tauri/src/agents.rs:582-648 | in every list, what is saved has the id it names or the first free one, what came with it without white space, never the farm, the last four of a new key of at least eight, and what was spent and known of a key under that id |
| MachineList.EditKeepsIdsDistinct | src-tauri/src/agents.rs:590-637 | no edit, whatever its input, gives two remote agents one id |
| MachineList.IdsStayDistinct | src-tauri/src/agents.rs:491-676 | neither does any sequence of edits |
| MachineList.RemovedIsGone | src-tauri/src/agents.rs:657-676 | after a removal no list, rule, job or default names the agent, and every other agent is named where it was, with all that is known of it |
| HeldList.Held.UnusedId | src-tauri/src/agents.rs:591-597 | the loop finds the first unused id, which no agent in the list has |
| HeldList.Held.SaveRemote | src-tauri/src/agents.rs:582-648 | refused exactly without a model or when a new key cannot be kept, and then changes nothing; otherwise the list without that id and then the agent as it is asked for |
| HeldList.Held.SetJobs | src-tauri/src/agents.rs:491-509 | changes the jobs of the first remote agent with the id, never offering the farm, and no other agent, or those of the built-in agent |
| HeldList.Held.SaveCustom | src-tauri/src/agents.rs:511-531 | puts the custom agent last, in place of one with its id, and keeps every other |
| HeldList.Held.Record | src-tauri/src/agents.rs:1383-1392 | adds the tokens to the day of the first agent with the id, starting from nothing on another day, and changes no other |
| HeldList.Held.Remove | src-tauri/src/agents.rs:652-678 | is the removal that the lemma above is about |
| Spending.CountIsTheDaysSum | src-tauri/src/agents.rs:1383-1392 | for every sequence of recordings, whatever the clock does: `spent` never exceeds the sum of its day, and equals it exactly when the clock never came back to that day with tokens on it |
| Spending.BooksAreKept | src-tauri/src/agents.rs:1376-1396 | over every run of edits, starts, ends, counts, questions and midnights, each agent's pair is the sum of its whole book for its day |
| Spending.AnyListIsKept | src-tauri/src/agents.rs:264-269 | every list with distinct ids whose days have been reached is one to begin such a run with |
| Spending.StartsWithinTheBook | src-tauri/src/agents.rs:1222-1237 | for every agent: a start is refused exactly when there is a daily limit and the book has used it up, and otherwise gets the least of the limit per run and what the book leaves, each where it is set, and none exactly where neither is |
| Spending.StartIsAdmitted | src-tauri/src/agents.rs:1222-1237 | at every moment of every run a listed agent can start exactly when its day is not used up, and what starts has that limit and the tokens of the run it carries on |
| Spending.RunsChangeOnlySo | src-tauri/src/agents.rs:1376-1396 | a run ends with what it had and used, its keeper counts all of that when it was started with a limit, and nothing else changes a run |
| Spending.RunsEndAndAreCounted | src-tauri/src/agents.rs:1369-1396 | a run that is over is counted exactly when it was started with a limit |
| Spending.BooksChangeOnlySo | src-tauri/src/agents.rs:1376-1396 | the book of a listed agent has one line for each of its runs that is counted and each of its questions, and no other |
| Spending.AsksWithinTheBook | src-tauri/src/agents.rs:1509-1519 | a question's allowance read off the pair is the one read off the book, at most 2000 |
| Spending.NoDayIsExceeded | src-tauri/src/agents.rs:1222-1237 | while each start of an agent leaves room in the day for all of its runs that are not counted yet, no day's sum exceeds its unchanged limit, whatever runs at once and across all midnights |
| Spending.RoomIsWhatItTakes | src-tauri/src/agents.rs:1222-1237 | in every state that has kept to the limit: nothing under way can exceed it however things go on without another start, exactly when the day has room for what is counted and what may still be |
| Spending.CountedStartLeavesRoom | src-tauri/src/agents.rs:1222-1237 | when all earlier runs of the agent are counted, which is all that the code checks, a start leaves room exactly when the tokens its record has already still fit in the day: always, unless it carries a run on |
| Spending.UncountedRunsExceed | src-tauri/src/agents.rs:1376-1396 | two runs of any agent with a daily limit can use it twice, when they overlap and also when the second starts after the first is over and before its keeper has looked |
| Spending.CarriedOnIsCountedAgain | src-tauri/src/agents.rs:1376-1396 | in every state, a run that carries on one that is over is counted with what that one's record had and what it used itself, whether or not that one was counted |
| Spending.CountedOnceUnlessCarriedOn | src-tauri/src/agents.rs:1062-1103 | over every run, for a counted run and the chain of those it carries on: all they used has been counted, and once exactly when none of those carried on had been counted with any tokens |
| MachineFile.ChangesAreLinear | src-tauri/src/agents.rs:290-316 | for any number of concurrent changes and failing calls the file is the successful edits in the order they took the lock, each once and none lost, and each success returns the list as of its own edit |
| MachineFile.UnreadableIsLeftAlone | src-tauri/src/agents.rs:271-288 | a file that does not parse, or was cut off, is never written over, and no change over it succeeds |
| MachineFile.AlwaysAWholeVersion | src-tauri/src/agents.rs:264-299 | at every moment of every run, so also after stopping there and for a reader without the lock, the file holds one whole version of the list |
| MachineFile.LooksNeverGoBack | src-tauri/src/agents.rs:264-316 | of two looks at the file the later never sees an earlier version |
| MachineFile.LaterChangesComeLater | src-tauri/src/agents.rs:301-316 | a change asked for after another has succeeded is applied after it |
| MachineFile.ReadIdsAreDistinct | src-tauri/src/agents.rs:264-316 | no read of the file at any moment shows two remote agents with one id |
| MachineFile.SomeChangeCanGoOn | src-tauri/src/agents.rs:303-316 | while a change is not over some change can take a step |
| MachineFile.ChangeRunsAlone | src-tauri/src/agents.rs:301-316 | in every state with the lock free, a change gets through by its own steps alone: it succeeds exactly when every system call does and the edit is accepted, of an empty list where there is no file yet, and otherwise leaves the file |
| MachineFile.FailsOnlySo | src-tauri/src/agents.rs:271-316 | it fails nowhere but at a call that fails, at a file with no list in it, or at an edit that is refused |
| MachineFile.LoadIsTheListOrNone | src-tauri/src/agents.rs:264-288 | reading gets the list in the file, and an empty one where there is none or it cannot be read |
| MachineFile.Directory.Save | src-tauri/src/agents.rs:290-299 | writes beside the file and renames: it succeeds exactly when each of its three steps does, and otherwise leaves the file alone |
| MachineFile.Directory.Change | src-tauri/src/agents.rs:303-316 | succeeds exactly when every step does and the edit is accepted of the list that is there, or of an empty list where there is no file yet; then the file is the edited list, otherwise it is as it was |
| Staging.CutStampIsSamePin | tools/multiplexer.ts:125-136 | a stamp cut off after any character, if it reads as some pin's stamp, was being written for a pin with the same target, name, version and digests |
| Staging.StampIsJoined | tools/multiplexer.ts:125-129 | the stamp is target, name, version and the digests there are, with a space between them |
| Staging.StagedIsPinned | tools/multiplexer.ts:131-136 | a directory that counts as staged holds every file the pin takes, whole, from archives with the pinned digests; they are the pinned files exactly when the pin that staged them took each from the same archive, and exactly what is pinned is there when besides no file is there that only that pin takes: always when it takes no other files, and only then once all of its own are there |
| Staging.StagedFromOneTable | tools/multiplexer.ts:70-96 | when every build read one table of pins, staged means exactly what is pinned, and nothing else |
| Staging.OtherTakesAreNotFetched | tools/multiplexer.ts:125-136 | two builds in a row, the second of any pin that differs in what it takes and not in what the stamp says: it fetches nothing exactly when that pin takes no new file, and then exactly what it pins is there only if it takes the same files from the same archives |
| Staging.MovedFileIsNotFetched | tools/multiplexer.ts:125-136 | two builds in a row: the second, of a pin that only moves a file between its archives, fetches nothing and leaves what is not as pinned |
| Staging.DroppedFileIsNotCleared | tools/multiplexer.ts:125-136 | and the second, of a pin that only stops taking some file, leaves that file there |
| Staging.Bundle.Clear | tools/multiplexer.ts:181-186 | in whatever order entries are listed, only the marker is left, and every directory on the way is sound |
| Staging.Bundle.Stage | tools/multiplexer.ts:159-173 | copies what is taken exactly when the archive has the pinned digest and can be unpacked, everything that is taken is there, and there is room |
| Staging.Bundle.FetchMultiplexer | tools/multiplexer.ts:176-211 | at every single step sound; does nothing and downloads nothing exactly where it is already staged, and stages exactly when both archives bring what is pinned, the mode can be set where it has to be, the stamp can be written and there is room; then exactly what is pinned is there, otherwise nothing; the marker is always kept |
| Staging.BuildAgainAndAgain | tools/multiplexer.ts:176-211 | after any number of builds of any pins, each cut off after any step, what counts as staged is as pinned wherever the pins agree on the archives, and is exactly what is pinned wherever they agree on what is taken |
| Staging.BuildTwice | tools/multiplexer.ts:191-191 | a build after one that succeeded downloads nothing |
| Confirmations.YesWasSaidToThisOne | src-tauri/src/extensions.rs:93-133 | with distinct ids an ask comes out as yes, and a comment is posted, only on a yes that the window was told to that very confirmation after showing it |
| Confirmations.NoAnswerServesTwice | src-tauri/src/extensions.rs:458-472 | whatever the ids, no answer makes two asks a yes |
| Confirmations.NoEntryOutlivesItsAsk | src-tauri/src/extensions.rs:103-131 | an ask that has ended has no sender in the map |
| Confirmations.CancelWins | src-tauri/src/extensions.rs:132-174 | a cancel that comes before the ask's last check keeps it from coming out as yes, and one before the last check of all keeps the comment from being posted, whatever was answered |
| Confirmations.LateIsNo | src-tauri/src/extensions.rs:107-117 | an ask that cannot be shown, or whose time is up before it looks again, never comes out as yes |
| Confirmations.LastLookDecides | src-tauri/src/extensions.rs:159-175 | at the last look an ask that is cancelled comes out as cancelled, any other as approved or declined as it was answered, and only the approved is posted |
| Confirmations.YesIsHeard | src-tauri/src/extensions.rs:112-175 | once a yes has reached an ask in time, every run in which it is neither cancelled nor late leads to the comment: if it is over, it was posted on that answer |
| Confirmations.YesCanBePosted | src-tauri/src/extensions.rs:112-175 | and its own steps alone get it there |
| Confirmations.YesGoesToTheOther | src-tauri/src/extensions.rs:458-472 | in every state in which the map has another ask's sender under the id that was shown, a yes posts the other |
| Confirmations.SharedIdMisleads | src-tauri/src/extensions.rs:94-106 | for any two asks and any id: a run in which they share it and a yes to one posts the other |
| Confirmations.DistinctIdsAreWhatItTakes | src-tauri/src/extensions.rs:94-106 | for every way of giving ids to asks: in no run an ask comes out as yes on another's answer exactly when no two asks are given one id |
| Confirmations.Desktop.Ask | src-tauri/src/extensions.rs:93-133 | the polling loop comes out as yes exactly when a yes arrives after turns of waiting only, before cancel and deadline, and the flag is unset at the end; its entry is gone however it ends |
| Confirmations.AskComesOutAsInEveryRun | src-tauri/src/extensions.rs:112-132 | in every run, whatever else happens in it, an ask returns what that loop does on the turns it took |
| Confirmations.AsksComeOutAsTheirTurns | src-tauri/src/extensions.rs:93-175 | in every run an ask is approved or posted only when its turns brought a yes in time, declined only when they did not, and cancelled only when it was |
| Confirmations.Desktop.Confirm | src-tauri/src/extensions.rs:458-472 | takes the sender that is under the id, if any, and leaves the map without it, as the machine's step does |
| Cloning.OnlyItsOwnIsRemoved | src-tauri/src/clone_worker.rs:191-199 | a destination that was there before, or a clone nobody cancelled, is never removed |
| Cloning.RemovedStaysRemoved | src-tauri/src/clone_worker.rs:191-199 | at the removal git is reaped and its helpers are gone, and the destination is never back afterwards |
| Cloning.DroppedIsOver | src-tauri/src/clone_worker.rs:76-83 | once a drop of the worker has returned, nothing changes the destination any more |
| Cloning.OkMeansOnDisk | src-tauri/src/clone_worker.rs:191-219 | a clone told as ok is not on disk exactly when the same message says stopped, it had created its destination, and removing it did not fail |
| Cloning.CancelledIsRemoved | src-tauri/src/clone_worker.rs:191-199 | a clone that created its destination and is cancelled before the thread looks is told as stopped and leaves nothing, where removing works |
| Cloning.CancelCanBeatSuccess | src-tauri/src/clone_worker.rs:191-219 | a run in which a clone succeeds, is told as ok, and is gone |
| Cloning.KilledIsStopped | src-tauri/src/clone_worker.rs:68-74 | a cancel that reaches git while it runs decides the end: told as stopped and not as ok, and what was created is gone where removing works |
| Cloning.NoCancelReachesAWaitedFor | src-tauri/src/clone_worker.rs:68-74 | from the moment the thread waits for a git that still runs, no cancel reaches that |
| Cloning.SomethingCanGoOn | src-tauri/src/clone_worker.rs:182-219 | in every reachable state, until the window is told, the thread or a cancel can go on, or git or a helper runs |
| Cloning.ThreadRunsAlone | src-tauri/src/clone_worker.rs:182-219 | once git has ended and its helpers are gone the thread gets through by itself, and tells how git ended and whether a cancel had come |
| Cloning.CancelRunsAlone | src-tauri/src/clone_worker.rs:68-74 | a cancel sets the flag, and with the lock free reaches git by its own steps alone |
| Cloning.DropReturnsWhenDone | src-tauri/src/clone_worker.rs:76-83 | a drop returns exactly when it has cancelled and the window has been told |
| Cloning.Report | src-tauri/src/clone_worker.rs:141-179 | the byte loop tells each new step of the output's lines in order and returns the last step of all |
| Cloning.ToldIsTheNew | src-tauri/src/clone_worker.rs:141-179 | what is told are those of the parsed lines, in order and all of them, that are new after the one before, and the last of all is returned |
| Cloning.LinesAreAllThereIs | src-tauri/src/clone_worker.rs:150-176 | the lines it cuts, joined again, are the output, whichever of the two characters ended them |
| Cloning.LinesAreTheOnly | src-tauri/src/clone_worker.rs:150-176 | and no other lines without line ends are |
| DesktopTheme.Scan | src-tauri/src/desktop.rs:213-259 | the loop computes the function that the lemmas below are about |
| DesktopTheme.LinesSayWhatTheyLookLike | src-tauri/src/desktop.rs:219-255 | for every line: it gives a key a value exactly when it is a bare key, an equals sign and a value of at most 200 bytes in quotes of either kind, with white space between them and anything after, and ends the reading exactly when its first sign is a bracket |
| DesktopTheme.KeysAreOfThese | src-tauri/src/desktop.rs:237-240 | a key is of letters, digits and underscores |
| DesktopTheme.ScanUndoesPrint | src-tauri/src/desktop.rs:213-259 | every map of at most 256 bare keys to values within 200 bytes without quote or newline comes back from its printed lines, in any order |
| DesktopTheme.NothingAfterAHeader | src-tauri/src/desktop.rs:225-229 | for all texts and wherever the line is, first and last included: a line that starts with a bracket and all that follow make no difference |
| DesktopTheme.NothingWrittenAfterAHeader | src-tauri/src/desktop.rs:225-229 | so any text written after a header line leaves the result that of the text before it |
| DesktopTheme.CapsHold | src-tauri/src/desktop.rs:213-259 | for all texts, at most 256 keys, all bare, with values of at most 200 bytes that some line before any header gives them |
| DesktopTheme.LastLineWins | src-tauri/src/desktop.rs:213-259 | for all texts: of the lines before any header as many count as it takes to come to 256 keys, or all; every key has what the last of those for it says, and no other key is there |
| DesktopTheme.ColourIsCanonical | src-tauri/src/desktop.rs:186-199 | every accepted colour is brought to one spelling, which is left alone |
| DesktopTheme.ColourHasItsDigits | src-tauri/src/desktop.rs:186-199 | a value is a colour exactly when it is three, four, six or eight hexadecimal digits with or without a `#`, and the colour has those digits in lower case |
| DesktopTheme.PaletteNeedsTwo | src-tauri/src/desktop.rs:267-275 | there is a palette exactly when a background and a foreground are given as colours |
| DesktopTheme.PaletteStandsInItsFile | src-tauri/src/desktop.rs:267-306 | for all texts, every colour of the palette, each ANSI slot included, is in the one spelling, and a line before any header gives it under that field's own name |
| DesktopTheme.PaletteIsWhatTheFileSays | src-tauri/src/desktop.rs:267-306 | for all texts, of the lines that count: there is a palette exactly when both colours it needs are given; each of its colours is the one given last to the first of its names that is given any, absent when none is; its mode is the one given last |
| DesktopTheme.Debounce | src-tauri/src/desktop.rs:513-550 | the window is told exactly the reads that count, valid ones and others only until one is valid, each that is not the one before over again |
| DesktopTheme.ReadsAreTheBursts | src-tauri/src/desktop.rs:513-550 | what is read is what follows each burst, in order, until the first turn that stops the thread |
| DesktopTheme.DueFollows | src-tauri/src/desktop.rs:502-512 | so it is told only of changes, never loses a palette again, and ends with the last valid one |

## Left out

- OpenRepository.SomeCallCanAct: says that some call can step, not that each call is served; which thread runs is the scheduler's choice.
- MachineFile.SomeChangeCanGoOn: the same for changes of the machine file.
- Spending.NoDayIsExceeded: asks that the agent is asked no questions, because a question's tokens of input are counted and not limited, and that each run uses nothing that takes its record past what it was started with.
- Spending.BooksAreKept: books hold what was recorded; a recording whose change of the file fails is not in either.
- Confirmations.YesWasSaidToThisOne: assumes that confirmation ids are distinct, which the code leaves to the clock.
- Cloning.OnlyItsOwnIsRemoved: assumes that nothing else makes, writes or removes the destination from when the clone is planned, which is also when it is decided whether it was there before; two calls of `clone_start` at once can both plan to create one destination (`commands.rs`, lines 2054-2069).
- Cloning.RemovedStaysRemoved: assumes the same, that git's helpers keep its output open as long as they run, and that waiting for git does not itself fail.
- Cloning.DroppedIsOver: assumes the same of the destination.
- Cloning.CancelledIsRemoved: assumes the same of the destination.
- Cloning.KilledIsStopped: assumes that git, once it is killed, does not succeed; the words of a clone's error are not modelled.
- Cloning.OkMeansOnDisk: assumes the same of the destination, and that git, when it succeeds, has created it; a removal that fails counts as leaving it there, though it may have removed a part.
- Claims.NoRunningHandleIsReplaced: assumes that an id made for a new assignment was never made before; the code takes it from 32 bits of a hash of the path and the time.
- Claims.WrittenRecordSaysItRuns: does not say when a running engine writes its record, which is up to the engine.
- Licenses.ListIsExact: asks that no wanted name has a `node_modules` component of its own, which package names do not have.
- Staging.StagedIsPinned: knows a file by the digest of the archive it came out of, and assumes of every pin what its table keeps to: words without white space, digests of 64 characters, and plain file names other than those of the stamp and the marker.
- MachineFile.AlwaysAWholeVersion: is about a process that stops; nothing is synced to disk, so a computer that stops may keep less.
- Staging.BuildAgainAndAgain: the same for builds.
- MachineFile.ChangesAreLinear: takes a list written out and parsed again to be the same list.
- The exclusion of rebase, network and clone work in `commands.rs`, and of what `commit` and `set_hooks_enabled` do after their turn: the code holds no lock across these.
- Wrap-around of the 64-bit counters for tickets and tokens and of token sums.
- Locks poisoned by a panic, and panics themselves.
- What commands do with git, the engines' own work, the keychain, network calls and windows: the model has their outcomes as parameters.
- In `assignment_start`, the rules, consents and levels checked before the claim, and the choice of driver.
- In the list of agents, options of built-in agents, notifications, consents and the first-start offer; definitions of custom agents are their ids.
- Records that exist and cannot be parsed, which the store reads as absent.
- Dependency names that begin with a slash, and links inside `node_modules`.
- In the staging, the executable bit, sub-directories, file systems that ignore case, removals and directories that cannot be made, which leave what a build cut off there leaves, and two builds at once in one directory.
- In the desktop theme, where files are looked for, the size limit on reading, and the registration of watches.
- Bytes of git's output that are no text, and carriage returns that `lines` strips from a theme: those lines are trimmed before anything looks at them.
- `calls.rs`, `hooks.rs`, `forge_bridge.rs`, `forge_views.rs`, `about.rs`, `command_log.rs`, `accounts.rs`.
- User interface, routes, build configuration and generated viewers.
