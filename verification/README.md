# Clawdline's command line, verified

This project models the parts of Clawdline's command line whose behaviour is a
protocol, a transformation or a bounded memory, and proves what their comments
and documentation promise. `dafny verify dfyconfig.toml` checks all of it.

## What is modelled

Code that works by changing things step by step is imperative here too: classes
with the source's fields, methods with its loops and branches. The world around
it (daemon, clock, memory sampler, command, file system, other goroutines) is a
class whose methods may answer anything and which keeps a ghost record of what
happened. Properties over whole runs are stated about that record.

| module | subject |
|---|---|
| `LeaseWorld` | daemon, clock, sampler and command as the lease clients meet them; the trace, and an observer that counts and judges it event by event |
| `Compiles`, `Heavy` | what counts as a native compile; `clawdline heavy`, which fails open |
| `Coordination` | `clawdline coordination run`, which fails closed |
| `LeaseLaws` | what the observer's verdicts say about the trace, and about both clients together |
| `Flags`, `Handover` | Go's flag reader; the hand-over command line and both of its readers |
| `Guide`, `GuideMerge` | cutting a guide at its headings; merging a translation by its pins |
| `Incidents` | the owner feed's memory of stalls, with its rows and excerpts on the heap |
| `Catalog`, `CatalogAdmission` | format directives, translated forms, which catalogs are loaded and what is shown |
| `TaskWait`, `TaskWaitLine` | `clawdline task wait` and its command line |
| `CloudLine` | the Cloud line's reload and the gate in front of it, with goroutines that end and a shutdown that begins at any moment |
| `Dispatch`, `DispatchRace` | `clawdline dispatch` against a file system and a daemon keyed by task id, killed at any step; any number of overlapping runs of one id |
| `Closure` | the audit of bundled skills and the files they refer to |
| `WorkflowReport`, `WorkflowPrepare`, `WorkflowLaws` | the blinded workflow experiment: report, preparation, and what a complete report's numbers mean |
| `ClipBytes` | cutting a label to a number of bytes |
| `Collections` | options, and counting in sequences and sets |

### Assumptions

* Leases: any request may go unanswered or be answered with anything. A callback
  may be started without its answer being seen; one whose answer names it was
  started. Time never runs backwards and a sleep lasts at least as long as asked.
  The renewer beside a command is any number of renewals before, during and after
  it, since it is started before the command and waited for after it. Nothing is
  known of the answers in advance: they are functions of the number of the request,
  so that a particular world can also be set up.
* Hand-over: printing and reading back are inverse for durations and integers
  within int64; the whole part of a float64 times a power of two is printed as an
  int64 and read back as the same float64; what a float64 outside int64 becomes is
  arbitrary, as Go leaves it to the machine; the working directory is absolute.
* Incidents: encoding is an arbitrary predicate on a snapshot's content. A job
  offered to the memory carries no capture, as the one caller makes them.
* Catalogs: texts are code points after JSON decoding.
* Cloud line: the reload's mutex makes its calls follow one another. Between any
  two steps other goroutines may end and the shutdown may begin.
* Dispatch: the daemon takes a brief from the directory named by the id, a known
  id is never taken again, and an answer of refusal made nothing. Writes, removals
  and reads may fail, and a failed write or removal may leave any part. For
  overlapping runs the daemon's looking up, reading and storing are separate steps
  (internal/app/orchestrator/dispatch.go:108-420, internal/app/orchestrator/broker.go:714-742).
* Closure: the files of a pinned commit do not change during an audit.
* Workflow: digests, the suite's decoding and Python's notion of blank are
  arbitrary functions.

### Where the code and a reading of its promises differ

* `heavy` can run its command although a callback for it was started: when the
  answer of the POST that started it was lost, it goes on waiting and may be let
  through. This can happen exactly for a run that has to wait, wants to hand over,
  can, and has a positive `--max-wait` (`LeaseLaws.MayRunTwice`): otherwise at most
  one of the two runs (`LeaseLaws.OtherwiseRunsOnce`), and for every such run there
  is a world in which both do (`LeaseLaws.RunsTwice`).
* A `--min-available` too large for int64, such as 1e20, is accepted and may come
  out negative (it does on amd64). The inner command line then carries a negative
  size, which the inner `heavy` refuses (`Handover.HeavyReadsHandover`,
  `Handover.LargeFloorIsNotHandedOver`).
* A `lease_lost` answer to a renewal of the memory wait, or to the announcement
  that the command is about to run, is not looked at: the slot is still released.
  Only a loss told to the renewer beside the command suppresses the release
  (`LeaseLaws.ReleasedUnlessLostBeside`).
  `coordination run` releases after every run, also after a loss.
* `coordination run` leaves the queue without a cancel when a request is refused,
  not answered or not readable (status 1).
* The hand-over of `coordination run` does not clamp its time, so it is refused for
  waits of 3 h 1 min and more, while `heavy`'s is never refused for its time.
* The notice of a merged guide is placed before the first line that opens with
  `## ` after the first line. That is behind the introduction only under the
  condition of `GuideMerge.MergeThenCut`, which is about the introduction and the
  first part that were chosen, not the English ones.
* The comparison of a translation with its source asks only the translation to
  have no blank form, so it is symmetric exactly when the source has none either
  (`Catalog.SameTurnsRound`, `Catalog.SameIsNotSymmetric`).
* Dispatch is safe for runs in sequence, but not for overlapping runs of one id: of
  two with the same brief, the one that made the directory may be refused because
  the other's POST was stored first, and then removes the directory of the accepted
  task (`DispatchRace.TwoAtOnce`). A removal is safe exactly when no other run of the
  id has had, or may yet have, something taken (`DispatchRace.SafeExactlyWhenQuiet`,
  `DispatchRace.OnlyOthersDisturb`).

## Model

| member | source | states |
|---|---|---|
| `Heavy.RunHeavy` | cmd/clawdline/heavy.go:271-345 | said of the words, flags and environment alone: below another `heavy` it runs at once under the mark it inherited; what is neither a direct compile behind wrappers nor asked for by `--compile` or `--no-slot` runs at once, unmarked and not through the cache wrapper; a compile under a held restart ends with 2 and does nothing; everything else starts only after a clear look and, with a daemon and a wanted slot, after an answer that does not keep it waiting, or ends with 75 in time or 76; a callback is asked for only when it is possible. Over every daemon answer, sample and clock, seven laws: it runs at most once and, if not, the status is 75 after a full wait, 76 with an accepted callback, or 2 under a held restart lease; a run that needs the slot asks for it and never runs beside a holder while the last answer was to wait; a wanted and possible hand-over is tried before the first pause and before a line is left, at most once, and an observed acceptance excludes a local run; a granted slot is renewed for the command and released exactly once, or never after a loss told to the background renewer; the command's status is the run's; the pauses are one between every two looks and end in time; it starts exactly when memory was last read as clear. Every renewal that came due beside the command was sent until a loss was told. Nothing is waited for without a reason: every request but the last was answered with a place in the queue or 429, and every look at memory but the last asked for a wait |
| `Heavy.RunWaiting` | cmd/clawdline/heavy.go:296-344 | the same seven laws, and no wait without a reason, for a run that has to wait |
| `Heavy.Prepare` | cmd/clawdline/heavy.go:299-335 | slot wait then memory wait: with a daemon and a wanted slot at least one request is sent and 0 is never answered while the last reply was `queued` or 429; 0, 75 or 76, with exactly one release of a granted slot or one cancel of a queue that is given up; every look at memory but the last asked for a wait; a wait bounded by max-wait plus one longest pause |
| `Heavy.PrepareMemory` | cmd/clawdline/heavy.go:330-333 | the memory wait: 0 exactly with memory last read as clear, and every look before the last asked for a wait; a slot that is held when the wait is left is released once |
| `Heavy.Execute` | cmd/clawdline/heavy.go:337-344 | a held slot is renewed exactly once more before the command starts and released once after it unless the renewer beside it was told it is gone; without a slot only the command's start and end are seen |
| `Heavy.HeavySlot.Acquire` | cmd/clawdline/heavy.go:362-424 | 0 exactly when the last answer neither queued nor was 429, with the slot exactly when it granted; 75 and 76 only from an open line, left with exactly one cancel and no release after a hand-over was tried; it asks again only after a place in the queue or 429, one pause, at least a poll, later |
| `Heavy.HeavySlot.Turn` | cmd/clawdline/heavy.go:366-422 | one request: a place in the queue and 429 lead to one turn of waiting, everything else ends the line with the slot or without it |
| `Heavy.HeavySlot.WaitTurn` | cmd/clawdline/heavy.go:381-422 | an open line is left by 75 or 76, or one pause of the larger of a poll and the daemon's own time follows |
| `Heavy.HeavySlot.StayInLine` | cmd/clawdline/heavy.go:383-421 | one turn in line: a hand-over that was wanted has been tried, then the deadline is looked at, each way out leaving with one cancel |
| `Heavy.HeavySlot.Release` | cmd/clawdline/heavy.go:470-478 | one release request exactly when a slot is held |
| `Heavy.HeavySlot.Cancel` | cmd/clawdline/heavy.go:480-486 | one cancel request, after which the slot is never asked about again |
| `Heavy.Handover.Try` | cmd/clawdline/heavy.go:301-313 | a callback is asked for exactly once in all if it is wanted and possible, and otherwise never |
| `Heavy.WaitForMemory` | cmd/clawdline/heavy.go:502-540 | ends at the first clear look, timed out or handed over; a hand-over is tried before the first pause; a held slot is renewed so that less than renew plus poll is slept between two proofs of life |
| `Heavy.MemoryTurn` | cmd/clawdline/heavy.go:505-539 | one look: after a clear one the wait is over with 0, so that all looks before the next one asked for a wait |
| `Heavy.HoldTurn` | cmd/clawdline/heavy.go:521-539 | 75 at the deadline, 76 by a callback the first time, or one poll with the slot renewed when it is due |
| `Heavy.HoldOnce` | cmd/clawdline/heavy.go:534-538 | one poll of the memory wait renews a held slot exactly when its last renewal is old enough, and remembers when |
| `Heavy.LookAtMemory` | cmd/clawdline/heavy.go:505-522 | clear exactly when there is room, or when memory cannot be read at all |
| `Heavy.RoomMeans` | cmd/clawdline/heavy.go:632-644 | room is a floor of one's own, or else a gibibyte or a quarter of the machine, and less than a tenth of the time stalled |
| `Heavy.StatusMeans` | cmd/clawdline/heavy.go:648-666 | the status of a run: the command's own, 128 and the signal, 1 without a code, 127 for one that could not start |
| `LeaseWorld.Ticks` | cmd/clawdline/heavy.go:444-468 | the renewals that come due beside the command: none without a held lease, none after lease_lost, every other failure tried again |
| `LeaseWorld.RunBeside` | cmd/clawdline/heavy.go:341-343 | the command starts and ends once, with every renewal that comes due before, during and after it sent until a loss is told |
| `LeaseWorld.RepliesMean` | cmd/clawdline/heavy.go:375-421 | which answers grant, keep waiting and tell of a loss, and how long a pause they ask for |
| `LeaseLaws.RenewalsStayInsideTheLease` | cmd/clawdline/heavy.go:426-468 | every renewal in a trace has a grant before it, and no release and no observed loss |
| `LeaseLaws.ReleaseIsLast` | cmd/clawdline/heavy.go:340-344 | after a release there is no proof of life, no second release, no start or end of the command and no hand-over |
| `LeaseLaws.StartsAtMostOnce` | cmd/clawdline/heavy.go:301-345 | the command starts at most once in a trace, and never in one that has an observed acceptance, whichever came first |
| `LeaseLaws.HeldSlotNeverLapses` | cmd/clawdline/heavy.go:86-95 | two consecutive proofs of life up to the announcement are under 25 s apart when time passes asleep, inside the broker's 60 s |
| `LeaseLaws.AsksOnOnlyInLine` | cmd/clawdline/heavy.go:57-64 | in any trace a request that is followed by another was answered with a place in the queue or 429 |
| `LeaseLaws.ReleasedUnlessLostBeside` | cmd/clawdline/heavy.go:340-343 | a granted slot is released once unless some renewal beside the command, and not one before it, was answered with lease_lost |
| `LeaseLaws.OtherwiseRunsOnce` | cmd/clawdline/heavy.go:301-345 | unless a wait may be handed over with time left, or when every started callback's answer came through, at most one of the command and a callback for it runs |
| `LeaseLaws.RunsTwice` | cmd/clawdline/heavy.go:301-345 | for all options, words and surroundings that meet the condition, some daemon and sampler make `RunHeavy` run the command after a callback for it was started |
| `LeaseLaws.LostAnswerRunsTwice` | cmd/clawdline/heavy.go:583-606 | any lawful run that is first told to wait, loses its callback's answer and then meets no obstacle runs although the callback was started |
| `LeaseLaws.CallbackNeverChains` | cmd/clawdline/heavy.go:567-569 | a run without hand-over never starts a callback and ends by running, by a full wait, or by a restart lease |
| `LeaseLaws.NoSlotBelowARestart` | cmd/clawdline/coordination_run.go:126-130 | below a restart's command heavy sends no lease request, whatever its flags |
| `Compiles.IsNativeCompile` | cmd/clawdline/heavy.go:200-268 | the loops answer true exactly for a direct compile behind some row of wrappers |
| `Compiles.NativeExactlyWhenWrapped` | cmd/clawdline/heavy.go:200-268 | a command line is a native compile if and only if it is some row of `env`, `xcrun` and cache wrappers, each with any words of its own, in front of a direct compile |
| `Compiles.WrappersAreTransparent` | cmd/clawdline/heavy.go:206-233 | any row of wrappers leaves the answer for the command below them unchanged |
| `Compiles.TestsAreOrdinary` | cmd/clawdline/heavy.go:234-246 | a `test` of a builder is never a native compile, behind any path flags and any wrappers |
| `Compiles.BuilderIsNative` | cmd/clawdline/heavy.go:234-246 | skipping path flags word by word finds the verb exactly of the lines that are path flags, the verb, and anything |
| `Compiles.JudgedByItsName` | cmd/clawdline/heavy.go:204-205 | a command is judged by its program's base name alone, not by its directory or an `.exe` |
| `Compiles.KindsAre` | cmd/clawdline/heavy.go:206-254 | which names are wrappers, builders and compilers |
| `Compiles.WordsAre` | cmd/clawdline/heavy.go:225-263 | which words are wrapper flags, path flags and queries |
| `Compiles.BaseMeans` | cmd/clawdline/heavy.go:204 | the last element of a path, whatever is in front of it and however many slashes are behind it |
| `Coordination.RunCoordinated` | cmd/clawdline/coordination_run.go:59-144 | the command runs exactly once if a grant was read and never otherwise, its status is the run's or 1, with the mark of a restart exactly below one and every due renewal sent until a loss is told, and one release follows the last renewal; 75 and 76 only from the queue, with exactly one cancel; 2 exactly without a known conversation, with nothing asked; every request but the last was answered with a place in the queue; 1 without a run only after an answer that neither grants nor queues |
| `Coordination.ClosedMeans` | cmd/clawdline/coordination_run.go:80-98 | status 1 without a run follows an answer that is no success, or neither a grant nor a place in the queue |
| `Coordination.RunGranted` | cmd/clawdline/coordination_run.go:115-143 | under a grant the command runs once and is released once, and its status, or 1 when it did not finish, is the run's |
| `Coordination.AwaitGrant` | cmd/clawdline/coordination_run.go:78-112 | 0 exactly when granted; every answer but the last was a place in the queue; 1 exactly when the last answer was a refusal, silence or nonsense; 75 and 76 from the queue with one cancel, after a wanted hand-over was tried; the wait ends within one poll of the time allowed |
| `Coordination.Turn` | cmd/clawdline/coordination_run.go:79-111 | one request: a place in the queue leads to one turn of waiting, and after every other answer the queue is over |
| `Coordination.StayInLine` | cmd/clawdline/coordination_run.go:100-111 | a callback is tried once, then the deadline, each leaving the line with one cancel |
| `Flags.ParseOne` | cmd/clawdline/callback.go:51-66 | reading one written flag sets it and reads on behind it, for any words after it |
| `Flags.ParseRender` | cmd/clawdline/callback.go:51-66 | any written flags followed by `--` and any words are read back as their meaning and exactly those words |
| `Flags.AcceptsExactlyWritten` | cmd/clawdline/callback.go:51-66 | the reader accepts a line if and only if it is a row of flags that exist and take their values, with one dash or two, up to `--` or a word that is none, and it reads just their meaning |
| `Handover.BuildHandover` | cmd/clawdline/heavy.go:574-591 | appends step by step the callback line whose command is this invocation over again |
| `Handover.TimeoutIsWholeMinutes` | cmd/clawdline/heavy.go:564-573 | the clamped and rounded time is a whole minute from 1 to 240, and rounds up a time in range |
| `Handover.CallbackTakesHandover` | cmd/clawdline/callback.go:51-93 | the other end accepts the line heavy builds and reads the program, the inner words, the time and the directory from it |
| `Handover.AcceptMeans` | cmd/clawdline/callback.go:66-93 | a callback is accepted exactly with a command, a title, a known intent, one minute to four hours, and ids that are ids; and what is taken from it |
| `Handover.HeavyDefaults` | cmd/clawdline/heavy.go:146-155 | without flags heavy waits up to half an hour, hands over, and asks for nothing else |
| `Handover.HeavyReadsHandover` | cmd/clawdline/heavy.go:576-589 | for any floor that was read from some text, heavy reads its own inner words back if the floor is not negative: reason, floor, wait, compile, no-slot and the exact argv, hand-over off; if it is negative the words are refused |
| `Handover.SizeIsReadAgain` | cmd/clawdline/heavy.go:748-769 | a size that was read is printed and read again as itself exactly if it is not negative, and refused otherwise |
| `Handover.SizesRead` | cmd/clawdline/heavy.go:748-769 | a number with K, M, G or nothing, and B or iB behind it, is that many bytes, rounded down |
| `Handover.OtherSizes` | cmd/clawdline/heavy.go:764-769 | a size below zero is refused, an infinite one or no number is what the machine makes of it |
| `Handover.LargeFloorIsNotHandedOver` | cmd/clawdline/heavy.go:748-769 | 1e20 is accepted as a size and, where it becomes the least int64, its hand-over is refused |
| `Handover.CoordinatedHandoverIsForShortWaits` | cmd/clawdline/coordination_run.go:155 | coordination's hand-over time is accepted exactly when the wait is under 3 h 1 min |
| `Guide.Split` | skills/sections.go:116-137 | the line loop computes the cut at the headings |
| `Guide.HeadingMeans` | skills/sections.go:114-121 | a heading is two or three marks and a space at the start of a line |
| `Guide.CutIsCut` | skills/sections.go:114-137 | the pieces join to the text, each part opens with its own heading and holds no other, and every piece but the last ends its line |
| `Guide.CutIsUnique` | skills/sections.go:114-137 | no other pieces of the text have those properties |
| `GuideMerge.MergeGuide` | skills/skills.go:128-188 | said of the pins, the digests and the cut texts alone: each piece shown is the translated one exactly when both guides have as many parts and the pin's two digests are those of the current English and translated piece, and otherwise the English one; the pending names are those of the latter, no more and no fewer; the text is the pieces in order with the notice, if anything is pending, in front of the first later `## ` |
| `GuideMerge.MergeThenCut` | skills/skills.go:149-188 | cutting the merged guide gives back exactly the chosen parts and the opening with its notice if and only if the chosen introduction ends a line and, when something is pending, is not empty and is followed by a `## ` part |
| `GuideMerge.CutShowsFresh` | skills/skills.go:128-188 | cut again, the merged guide's parts are the fresh translations and English otherwise, and its opening is the introduction chosen so, with the notice |
| `GuideMerge.StaleIsEnglish` | skills/skills.go:128-131 | a part whose source was edited, or whose translation is not the pinned one, is shown in English and named |
| `GuideMerge.StaleIntroIsEnglish` | skills/skills.go:133-161 | the same for the introduction |
| `GuideMerge.NoticeReads` | skills/skills.go:182-187 | the notice is its words and the pending names, in order and set apart by commas |
| `GuideMerge.PlaceIsUsed` | skills/skills.go:176-187 | when the introduction is whole and a `## ` part follows, the inserted notice lies behind the whole introduction and the parts stay as they are |
| `GuideMerge.PendingIsExact` | skills/skills.go:155-175 | a piece is named as pending exactly when English is shown for it |
| `GuideMerge.FreshTranslationIsKept` | skills/skills.go:173-175 | a translation whose every piece is current is shown byte for byte |
| `Incidents.OwnerIncident.Revision` | cmd/clawdline/health.go:657-679 | the longest frame prefix that encodes, or nothing when none does; the returned excerpt is a new object and no existing object changes |
| `Incidents.OwnerIncident.End` | cmd/clawdline/health.go:608-629 | the row's recovery is what the record says, timed only when the clock did not run backwards |
| `Incidents.EndMeans` | cmd/clawdline/health.go:608-627 | which two records end a stall, as what, and when the time it took is known |
| `Incidents.OwnerIncident.Attach` | cmd/clawdline/health.go:646-652 | the row points at the capture and takes its build only where it named none |
| `Incidents.Excerpt` | cmd/clawdline/health.go:683-707 | frames of the matching first goroutine and sources up to their limits, with the rest counted or marked as truncated |
| `Incidents.EveryFrameIsCounted` | cmd/clawdline/health.go:657-707 | through the excerpt and any trimming, frames kept plus frames omitted stay the goroutine's total |
| `Incidents.HeldOnce` | cmd/clawdline/health.go:560-604 | the order of a reachable memory has no duplicates, at most 32 entries and no phase 0 |
| `Incidents.HeldUntilThirtyTwoOthers` | cmd/clawdline/health.go:588-604 | a remembered phase is held until exactly the 32nd later insertion; fewer than 32 other phases never push it out, however often any is remembered again |
| `Incidents.InsertAllStep` | cmd/clawdline/health.go:588-604 | inserting one phase more: one that is held, or is no phase, changes nothing |
| `Incidents.OwnerIncidents.Remember` | cmd/clawdline/health.go:588-604 | the log of insertions grows exactly by a phase that is not held; an old row keeps its capture and recovery; no other row changes; order, rows and log stay in step |
| `Incidents.OwnerIncidents.Admit` | cmd/clawdline/health.go:599-603 | a new phase takes a fresh row and, in a full memory, the oldest one's place |
| `Incidents.OwnerIncidents.Recovered` | cmd/clawdline/health.go:608-629 | a residence answers with at most one recovery revision, whose content is the longest that encodes; every other record changes nothing |
| `Incidents.OwnerIncidents.Captured` | cmd/clawdline/health.go:632-653 | a held stall gets the capture and a revision of its own; a forgotten one is revised from the capture alone and not remembered |
| `Catalog.CliFormatVerbs` | cmd/clawdline/cli_catalog.go:130-153 | accepts exactly the texts made up of plain characters, doubled percents and directives, and lists exactly their directives |
| `Catalog.NextVerb` | cmd/clawdline/cli_catalog.go:132-151 | one step of the scan splits off the same directive as the specification |
| `Catalog.ScanSpell` | cmd/clawdline/cli_catalog.go:130-153 | however a text is made up, scanning it before any rest finds its directives and then the rest's |
| `Catalog.ScanIsSpelled` | cmd/clawdline/cli_catalog.go:130-153 | a text that is not malformed is made up of such pieces |
| `Catalog.ScanJoins` | cmd/clawdline/cli_catalog.go:130-153 | behind a well-formed text, a scan of joined text is the two scans joined, and succeeds exactly when the second does |
| `Catalog.DoubledHasNoDirectives` | cmd/clawdline/cli_catalog.go:128-129 | any text with every percent doubled is well formed and has no directives |
| `Catalog.DoubledMeans` | cmd/clawdline/cli_catalog.go:128-129 | doubling copies a plain character and doubles a percent sign, along the text |
| `Catalog.AlphabetsAre` | cmd/clawdline/cli_catalog.go:144-148 | which characters may stand in a directive and end one |
| `Catalog.FormsRejoin` | cmd/clawdline/cli_catalog.go:108-109 | the forms hold no separator and join back to the text |
| `Catalog.SameCliVerbs` | cmd/clawdline/cli_catalog.go:107-126 | true exactly when there are as many forms, each with the same directives in order, and no selected form is blank |
| `Catalog.SameTurnsRound` | cmd/clawdline/cli_catalog.go:117 | the comparison is symmetric exactly when no form of the source is blank |
| `Catalog.SameIsNotSymmetric` | cmd/clawdline/cli_catalog.go:117 | a blank source form with a filled translation shows that it is not symmetric as it stands |
| `Catalog.SameChains` | cmd/clawdline/cli_catalog.go:107-126 | the comparison is transitive |
| `Catalog.ValidCliCatalog` | cmd/clawdline/cli_catalog.go:94-105 | every entry has an English one that takes the same arguments, no key or text is empty, and a complete catalog has as many entries |
| `Catalog.ValidCliBaseline` | cmd/clawdline/cli_catalog.go:62-71 | the listed keys are distinct, not empty and have English texts |
| `Catalog.HasCliBaseline` | cmd/clawdline/cli_catalog.go:73-80 | every listed key has a text |
| `CatalogAdmission.ReadCliCatalogs` | cmd/clawdline/cli_catalog.go:28-60 | a group is loaded exactly when its English catalog and baseline are good, and a locale exactly when it is one of the eight and passes both checks |
| `CatalogAdmission.ReadGroup` | cmd/clawdline/cli_catalog.go:41-57 | the same for one directory |
| `CatalogAdmission.CopyTakesTheSameArguments` | cmd/clawdline/cli_catalog.go:155-165 | for any loaded group, what is shown is the English text or one with as many forms, the same directives form by form, and nothing blank |
| `CatalogAdmission.ShowCopy` | cmd/clawdline/cli_catalog.go:26-60 | from the files to the text, through the admission of every locale: the translation exactly when the group is good, its English text for the key is the one asked for, the language is one of the eight and its catalog is good and has the key, and otherwise the English text; so always one that takes the same arguments |
| `CatalogAdmission.LoadedMeansTranslated` | cmd/clawdline/cli_catalog.go:94-97 | a loaded Traditional Chinese catalog translates every English key, and every loaded one its baseline |
| `TaskWait.WaitTasks` | cmd/clawdline/task_wait.go:133-210 | the status is the first that applies of 4, 3, 1, 5, 0 for what was read; before every pause, and after the last one unless a task was given up on, every id that had not settled is asked after; nothing is asked after giving up or of what has settled; each settled one is shown and its open notice closed in order; a 3 comes only after the timeout; no pause was to end past it; pauses double up to ten seconds and are never begun with enough settled; rounds and requests are bounded |
| `TaskWait.Round` | cmd/clawdline/task_wait.go:142-183 | one round asks after every id that has not settled, unless it gives up, and it and its pause keep the wait's bookkeeping equal to what was read |
| `TaskWait.EachRound` | cmd/clawdline/task_wait.go:142-183 | between any two pauses every id that had not settled was asked after, and not enough had settled |
| `TaskWait.PollRound` | cmd/clawdline/task_wait.go:142-175 | every id that has not settled is asked after, unless the wait gives up |
| `TaskWait.PollTask` | cmd/clawdline/task_wait.go:143-174 | three misses in a row or one final failure give up; a terminal state is shown at once |
| `TaskWait.AbsorbedFollows` | cmd/clawdline/task_wait.go:146-174 | settled, misses, failed and cancelled after an answer are the folds of the whole log of answers |
| `TaskWait.SuccessIsOfAll` | cmd/clawdline/task_wait.go:35-45 | 0 exactly when something settled, all of it succeeded, nothing was given up on, and without --any everything settled |
| `TaskWait.ShownOnce` | cmd/clawdline/task_wait.go:160-165 | as many views are written as ids settled, and each settled one is among them |
| `TaskWait.ClosedOnce` | cmd/clawdline/task_wait.go:160-165 | as many notices are closed as settled tasks had an open one, and each of those is among them |
| `TaskWait.RoundsAreBounded` | cmd/clawdline/task_wait.go:176-183 | a timeout T of at least 15 s gives at most 5 + ceil((T-15)/10) rounds |
| `TaskWait.Rest` | cmd/clawdline/task_wait.go:178-183 | a pause is whole or ends at the deadline, and the time slept fits the time passed |
| `TaskWait.Conclude` | cmd/clawdline/task_wait.go:185-209 | counting what still runs and the two flags gives the status of the log |
| `TaskWaitLine.WaitArgs` | cmd/clawdline/task_wait.go:76-110 | accepted exactly with 1 to 32 distinct ids, in order of first mention, and a time in (0, 2 h] |
| `TaskWaitLine.TrimMeans` | cmd/clawdline/task_wait.go:88-96 | what is trimmed off an id is white space, and none is left at either end |
| `TaskWaitLine.AnyOrder` | cmd/clawdline/task_wait.go:74-101 | flags before, between or after the ids mean the same |
| `CloudLine.AtMostOne` | cmd/clawdline/main.go:464-519 | at every moment of a safe run at most one line and one poller are live |
| `CloudLine.WhenALineStarts` | cmd/clawdline/main.go:474-517 | when a line starts no earlier line or poller is live, and none starts with a live context after the shutdown |
| `CloudLine.LookedBefore` | cmd/clawdline/main.go:491-503 | before anything is opened, and again before it is shown, the shutdown was looked for and not seen, after every wait and opening |
| `CloudLine.Connection.Reload` | cmd/clawdline/main.go:470-519 | keeps the run safe; a line or poller is called stuck exactly when the wait for it ran out; a stuck line or poller opens nothing, stays to be awaited again and leaves what is shown; otherwise exactly one connection is opened, unless a shutdown was seen; nothing is opened or shown without a fresh look that saw no shutdown; what an opening came back with is what is shown, a failed one as none; exactly a running outcome starts a line, last of all, and a poller under the line's number before it exactly when the link wants one |
| `CloudLine.Connection.OpenLink` | cmd/clawdline/main.go:491-505 | opens once and shows what was opened, or ends only because the shutdown has begun |
| `CloudLine.Connection.StopPrevious` | cmd/clawdline/main.go:473-490 | the line's context is cancelled, and its channels are forgotten only when both were seen closed |
| `CloudLine.Connection.StartLink` | cmd/clawdline/main.go:503-517 | one line, and in front of it, under its number, one poller exactly when the link has work for it, after nothing else is live |
| `CloudLine.Gate.Reload` | cmd/clawdline/cloud_update.go:23-38 | opens only after looking for a shutdown, being admitted and looking again, with nothing touched between; puts off only for one of the two, and remembers exactly that an opening was tried |
| `CloudLine.Gate.Enter` | cmd/clawdline/cloud_update.go:26-34 | goes on only when the shutdown was not seen before and after the admission |
| `CloudLine.Gate.Resume` | cmd/clawdline/cloud_update.go:40-61 | without a shutdown every tick goes through the gate until an opening was tried; over any ticks and any other callers it tries at most one opening of its own, and none once one was tried or the daemon shuts down |
| `CloudLine.StartCloudLine` | cmd/clawdline/main.go:520-531 | the first activation, the ticks and any reloads together make a safe run, in which each of them went through the gate until an opening was tried |
| `Dispatch.AtMostTwoPosts` | cmd/clawdline/dispatch.go:309-333 | no run sends a third POST |
| `Dispatch.SecondPostIsFresh` | cmd/clawdline/dispatch.go:316-333 | a second POST follows a stale answer and carries the generation read after it |
| `Dispatch.RemovedIsOwn` | cmd/clawdline/dispatch.go:321-348 | a directory is removed only by the run that made it, last of all, and only if none of its POSTs was or may have been accepted |
| `Dispatch.WriteTaskFile` | cmd/clawdline/dispatch.go:500-522 | success means both files hold the brief in a directory that did not exist; a failed write takes the directory back; an interrupted one is left for inspection |
| `Dispatch.PlaceBrief` | cmd/clawdline/dispatch.go:280-305 | a run goes on exactly with its own brief as the intent on disk, unless it is killed or meets a named obstacle, and made the directory only if the id was free |
| `Dispatch.PostPlaced` | cmd/clawdline/dispatch.go:310-348 | unless it is killed, an accepted POST is told as dispatched, a lost one as uncertain, and a refusal, or a stale answer that was answered for, as nothing dispatched; takes at most this id with this brief; an uncertain end leaves the intent; a refusal takes back an own directory, and no other |
| `Dispatch.PostTwice` | cmd/clawdline/dispatch.go:310-333 | one POST, and after a stale answer a second one unless the run is killed or the inventory cannot be read; what it answers is the latest POST's reply |
| `Dispatch.DispatchTask` | cmd/clawdline/dispatch.go:273-360 | every step keeps every accepted id's brief as its intent on disk; a different brief under a taken id is never posted; what it says of itself is decided by the latest reply, unless the world killed it; success means that this brief is the one taken; a run that is not killed and meets none of the obstacles (inventory unread, unclear intent, other brief, task without intent, directory or file not made) posts; even if killed at any step |
| `Dispatch.AnyRuns` | cmd/clawdline/dispatch.go:273-360 | any number of runs in sequence, each of them begun: what was taken keeps its brief, and each id is taken at most once |
| `DispatchRace.QuietIsSound` | cmd/clawdline/dispatch.go:290-360 | over every interleaving of any number of runs of one id with the daemon's steps: while intents are removed only in quiet, a taken id keeps its brief as the intent on disk and success is told only of one's own brief |
| `DispatchRace.SafeExactlyWhenQuiet` | cmd/clawdline/dispatch.go:336-356 | after any such interleaving, a removal leaves every continuation sound if and only if nothing was taken and no run may yet have something taken |
| `DispatchRace.OnlyOthersDisturb` | cmd/clawdline/dispatch.go:336-356 | that is so exactly when no other run was accepted or may yet be, so a run alone with its id is always safe |
| `DispatchRace.LoudIsUnsound` | cmd/clawdline/dispatch.go:290-360 | a removal beside a run that may still be accepted has a continuation in which that run's task has no intent on disk |
| `DispatchRace.TwoAtOnce` | cmd/clawdline/dispatch.go:321-356 | two runs with the same brief by which the accepted task's directory is removed |
| `Closure.VerifyBundle` | tools/check-persona-skill-decisions.py:198-210 | ends for any references, also cyclic ones, and accepts exactly when the manifest is the least set that holds the entry and is closed under references, with every digest matching |
| `Closure.VerifyNext` | tools/check-persona-skill-decisions.py:201-209 | one step keeps the found set inside every closed set, and refuses only what no good bundle allows |
| `Closure.VerifyUpstream` | tools/check-persona-skill-decisions.py:175-210 | accepts exactly when every candidate's entry, licence and closed bundle are as recorded, for any order of the worklist |
| `Closure.Cache.Fetch` | tools/check-persona-skill-decisions.py:177-184 | answers what the source holds and asks for a file that is kept no second time |
| `WorkflowPrepare.NamesDiffer` | tools/workflow-eval.py:106-107 | two trial numbers never share a name, past four digits too |
| `WorkflowPrepare.Assign` | tools/workflow-eval.py:98-100 | the nested loops list every case, arm and repeat exactly once |
| `WorkflowPrepare.Shuffle` | tools/workflow-eval.py:101 | exchanges the places from the last one on, each with the one at most as far that chance says |
| `WorkflowPrepare.AnyOrderCanCome` | tools/workflow-eval.py:101 | every order of the assignments comes out for some chance |
| `WorkflowPrepare.PreparedIsComplete` | tools/workflow-eval.py:106-131 | trials and rows written for any order of the assignments meet the report's rules about trials |
| `WorkflowPrepare.Prepare` | tools/workflow-eval.py:76-133 | for every suite, repeat count and shuffle the prepared experiment passes all the report's checks, with no response yet; the trials are numbered in the order that chance makes of all assignments; every trial's prompt on disk is that of its own case and its own arm, each source holds its own input, the rubric is the suite's, and every row is there to be filled in |
| `WorkflowPrepare.BuildPrompt` | tools/workflow-eval.py:110-118 | assembles the prompt piece by piece as the two arms' texts say |
| `WorkflowPrepare.ArmsDifferInTheInstructions` | tools/workflow-eval.py:110-118 | the candidate's prompt is the baseline's with the prefix and both skills inserted at one place, and nothing of those shows in the baseline |
| `WorkflowPrepare.LoadSuite` | tools/workflow-eval.py:44-63 | prepared exactly with repeats, a model, a context and a fit suite |
| `WorkflowPrepare.CheckSuite` | tools/workflow-eval.py:48-62 | the loops accept exactly a suite of cases with different names, requests, artifacts and named criteria |
| `WorkflowPrepare.PaddedMeans` | tools/workflow-eval.py:107 | a trial's number in at least four digits, with no more zeros in front than that takes |
| `WorkflowPrepare.PrepareThenReport` | tools/workflow-eval.py:76-216 | reporting a fresh experiment counts nothing and misses every trial |
| `WorkflowReport.Report` | tools/workflow-eval.py:136-216 | refuses exactly what breaks a rule; otherwise the missing list is the trials without a response or a grade, in order, reviewed plus missing is their number, and the tallies count exactly the reviewed trials of each arm and case |
| `WorkflowReport.CheckInputs` | tools/workflow-eval.py:138-151 | the manifest is sealed, the named sources are listed, and every listed file is contained and unchanged |
| `WorkflowReport.CheckTrials` | tools/workflow-eval.py:154-175 | trials are named, distinct and as expected, and rows match them one to one |
| `WorkflowReport.CountTrials` | tools/workflow-eval.py:176-210 | gives up exactly when some trial breaks a rule, and otherwise tallies them all |
| `WorkflowReport.MissingIsExact` | tools/workflow-eval.py:174-195 | a response or a grade is named as missing exactly when some trial has none |
| `WorkflowReport.PassedMeans` | tools/workflow-eval.py:176-206 | a trial passes exactly when its response is there, its row is filled in for this response and model, and every criterion passed by evidence that the response holds |
| `WorkflowReport.FailedMeans` | tools/workflow-eval.py:176-206 | it fails exactly when a row as good failed some criterion |
| `WorkflowReport.TallyCounts` | tools/workflow-eval.py:200-209 | a tally is the number of reviewed trials of its arm, or arm and case, and of those that passed |
| `WorkflowReport.ClimbsMeans` | tools/workflow-eval.py:66-72 | a path escapes when one of the pieces between its slashes is `..` |
| `WorkflowReport.TrialIdMeans` | tools/workflow-eval.py:162 | a trial's name is the word, a hyphen and digits |
| `WorkflowLaws.SizeIsCount` | tools/workflow-eval.py:168-169 | without duplicates, a group's trials are as many as its assignments |
| `WorkflowLaws.CasesAddUp` | tools/workflow-eval.py:207-209 | an arm's tally is the sum of its cases' tallies |
| `WorkflowLaws.TotalIsRepeats` | tools/workflow-eval.py:156-209 | when every trial was reviewed, a case and arm's total is the number of repeats |
| `WorkflowLaws.CompleteReportAddsUp` | tools/workflow-eval.py:154-215 | in a complete report every case and arm totals the number of repeats and the cases add up to the arms |
| `Collections.Pigeonhole` | tools/workflow-eval.py:167-169 | as many members as places means that nothing stands in two places, and the other way round |
| `ClipBytes.Clip` | cmd/clawdline/heavy.go:727-737 | at most n bytes: the text with newlines replaced when it fits, otherwise an ellipsis behind its longest prefix that leaves room and ends before the start of a character |
| `ClipBytes.ClipKeepsCharacters` | cmd/clawdline/heavy.go:723-737 | of valid UTF-8 a clip is valid UTF-8, a prefix of the newline-replaced text and the ellipsis, and keeps at least n-6 bytes |
| `ClipBytes.CutIsUtf8` | cmd/clawdline/heavy.go:732-736 | a cut before a byte that starts a character leaves valid UTF-8 |
| `ClipBytes.Utf8MeansEncoded` | cmd/clawdline/heavy.go:723-737 | valid text is exactly a row of encoded scalar values, as section 3 of RFC 3629 encodes them |
| `ClipBytes.StartIsNear` | cmd/clawdline/heavy.go:732-735 | a character starts at every place of valid UTF-8 or at most three bytes before it |

## Left out

- HTTP, sockets, processes, signals, file permissions, JSON and digests: they are the oracles and function parameters named above.
- Printed wording, translation contents, tabular output and flag help; only what decides a status, a request or a text's structure is kept.
- The daemon's lease queue, its ledger and its Board phases: the clients assume nothing more of them than they look at.
- Queue positions, reasons, holders and process identities in lease requests: nothing in the clients depends on them.
- `Heavy.RunHeavy`: the wait's deadline is computed without int64 wrap-around, because `--max-wait` far beyond a lifetime would be needed to reach it; the hand-over's time is computed with it.
- `Handover.HeavyReadsHandover`: says nothing of the port, because the inner command line does not carry it.
- `Handover.CallbackTakesHandover`: titles' length and the conversation are left to the daemon and the environment, as the reader leaves them.
- Building coordination's own hand-over line word by word: it has the same shape as heavy's, and only its time differs in kind.
- `skills.ResolveTopic`, `Core`, `RefusedSection`, `Section` and the guide's file table: lookups over the cut parts, with no property beyond their bodies.
- `Incidents.OwnerIncidents.Recovered`: readings are unbounded integers, so a difference of two clock readings does not wrap.
- The incident memory's mutex: its methods are the critical sections, one at a time.
- `TaskWait.WaitTasks`: a record whose own id differs from the id asked for is shown as it is, and the acknowledgement's own answer is not modelled, because neither affects the status.
- `CatalogAdmission.ReadCliCatalogs`: directories are a map from names, so the order of reading is any order.
- `CloudLine.Gate.Resume`: a finite number of ticks is delivered, of any size, because the loop has no end of its own.
- `Dispatch.DispatchTask`: the checks of flags, conversation and project before the inventory is read, the secret, warnings and printed answers; and a task root that differs between readings.
- `Closure.VerifyUpstream`: the ledger's own validation, and how references are found in a text.
- `WorkflowPrepare.Prepare`: the texts of the criteria are left to the decoding of the suite, and the rubric is any function of it; the output directory is taken to be new and outside every repository.
- `WorkflowReport.CheckInputs`: symbolic links; a path is contained when it is relative and has no `..` part.
- `ClipBytes.Clip`: a limit under three bytes with a longer text, for which the source has no result.
- `cloudAdmission`, `doctor`, `usage`, `parseInterspersed` and the string-literal finder of `tools/machine-words.py`.
