# GUIClaw: a verified model

A Dafny model of the parts of GUIClaw whose correctness is hard to see from one function: the
markdown memory store, the optional-dependency check, the agent's run machine and its screen
similarity, image sizing and history windows, the runtime lease and the backends that use it, the
selection and deduplication of memory items, skill similarity, merging and cleanup, screen
coordinates, launching on the device shell, and actions on their way to a worker process.

`dafny verify dfyconfig.toml` checks the whole project.

## How the model is built

Code that computes is modelled by functions; code that changes state by classes and methods with
the source's loops. Each such method is proved equal to a specification function, or against a
predicate that says outright what it establishes, and the lemmas of the table are about those
functions and predicates. Where a promised property is false of the code, the model keeps the code
and states exactly when the property holds (most of them in members whose names end in `Iff`).

What the program asks of the outside is a parameter: a script of answers (`AgentStep`,
`AgentAttempt`, `AgentRun`), a function (`sqrt`, `decode`, `cosine`, the device), or an environment
(installed distributions). Laws that a parameter must obey are named predicates, such as `Lawful`.
Floats are exact reals. Concurrency is a system of steps that any number of tasks take in any order.

| files | what they model |
|---|---|
| `Text`, `MemoryFormat`, `MemoryRoundTrip`, `MemoryFiles`, `MemoryStore` | the memory store: printing, parsing, files, the keyed dictionary |
| `OptionalFeatures` | the depth-first check over a requirement graph that may have cycles |
| `ScreenSimilarity`, `TokenUsage`, `AgentStep`, `AgentAttempt`, `AgentRun` | screen similarity, and the run: attempts, steps, model calls, stagnation, token accounting |
| `ImageSizing`, `HistoryImages` | image sizes and history windows of the GUI profiles |
| `RuntimeLease`, `WindowsBackend`, `BackgroundBackend` | the lease and two backends that hold it |
| `Selection`, `JsonRecords`, `MemoryRecords`, `LawfulRecords`, `MemoryBank` | choosing memory items for a task; the bank's file, one JSON record a line; the bank without near-duplicates |
| `SetRatio`, `SkillMerger`, `SkillConflicts`, `SkillCleanup` | skill similarity, conflicts, merging, cleanup |
| `Coordinates` | the 0..999 grid, pixels, nested bounds, captured frames |
| `ShellQuoting`, `LaunchFallbacks` | `am start` through the device shell, and its variants |
| `ActionTypes`, `ActionPayload`, `ActionParsing`, `ActionFields`, `ActionErrors`, `ActionSpellings`, `ActionTransport` | parsing an action, sending it to a worker, parsing it there |
| `RealArithmetic`, `Rounding`, `Wrappers` | small shared facts |

## Where the code and its promises differ

- Memory store: content with a line that starts with "## " is torn apart by the next load
  (`MemoryStoreModel.HeadedContentIsLost`); `NormalFormIff` and `ReloadIsIdentityIff` give the exact
  conditions.
- Dependency check: a second specifier for a name and extras already visited is never looked at
  (`OptionalFeatures.SecondSpecifierIsIgnored`).
- Image sizing: the resized image can violate the aspect ratio that the input had to obey, so
  resizing is not idempotent (`ImageSizing.RoundingSpoilsAspect`); `AspectAfterIff` and
  `ResizeTwiceIff` say for which inputs it is.
- Lease: a cancellation that reaches a run while it waits for the lock to release loses the lease
  for good (`RuntimeLease.LostLeaseExample`, `LostIff`). An event loop that acquires a free lock
  without switching tasks never lets that happen (`EventLoopServesAll`).
- Background backend: a preflight that fails after the display has started leaves `DISPLAY` at the
  dead display (`BackgroundBackend.FailedPreparationExample`); a backend that fails to start again
  takes itself to be started and then sets it (`FailedRestartExample`). A preflight after a first start that
  was cancelled waits for its own lease until the event loop closes the dropped context
  (`ForgottenIff`, `ForgottenIsGivenBack`).
- Windows backend: a worker that could not be stopped is taken for the worker of the next display
  (`WindowsBackend.OwnWorkerIff`).
- Memory bank: an item with one of the line separators U+0085, U+2028 and U+2029 in a text is torn
  when the file is read, and is then added again (`MemoryBank.TornItemIsAddedTwice`,
  `ReappendAddsIff`, `MemoryRecords.ReadBackIff`); after a last line without a newline, that item and
  the appended one are both lost (`MemoryRecords.UnendedLineLosesBoth`).
- Agent run: `max_retries` is the number of attempts, not of repetitions; the steps of an attempt
  that raises are missing from the token total (`AgentRun.PaidStepIsLost`, `TotalIsCompleteIff`); a
  preflight whose error text starts with "intervention_cancelled" ends the run like a cancelled
  intervention (`AgentRun.PreflightEndsRun`, `PreflightEndsRunIff`).
- Skill conflicts: a copy of a stored skill is not recognised as one if its steps have no tokens in
  target and valid state, as steps are then not similar enough to themselves
  (`SkillConflicts.BlankCopyIsMissed`, `SkillMerger.SelfSimilarity`).
- Launch fallbacks: an option is dropped wherever its flag stands, so a URI or an extra that equals
  "-n" or "-p" makes a variant drop the wrong arguments (`LaunchFallbacks.DropTearsAnArgument`,
  `DropIsExactIff`); an extra "-W" is dropped from every variant that does not wait
  (`NoWaitTearsAnExtra`, `NoWaitIsExactIff`).
- Action parsing: a point with a value that is not numeric raises an exception other than
  `ActionError`, also where the action needs no point (`ActionErrors.WordyPointEscapes`,
  `ParseEscapesIff`). An action given by a named coordinate keeps it as a
  point as well, which the worker does not get (`ActionTransport.NamedTapChanges`, `TransportIff`).

## Model

| member | source | states |
|---|---|---|
| `MemoryFormat.ParseSection` | GUIClaw/guiclaw/memory/store.py:105-174 | The loop over the metadata lines yields the entry of the section, or none, that the character-level specification gives. |
| `MemoryFormat.SectionLines` | GUIClaw/guiclaw/memory/store.py:84-102 | The lines of a printed section, with their keys. |
| `MemoryFormat.HeadingIs` | GUIClaw/guiclaw/memory/store.py:76-81 | A heading is the first line of the content, cut to 72 characters with an ellipsis, or the id where that line is empty. |
| `MemoryFormat.MetaIsLastLine` | GUIClaw/guiclaw/memory/store.py:131-137 | A key stands for what follows the first colon of its last line below the heading. |
| `MemoryFormat.BlankLineIff` | GUIClaw/guiclaw/memory/store.py:115-124 | Metadata and content are parted by a newline, any spaces and tabs, and a newline. |
| `MemoryFormat.ChunkIsEntryIff` | GUIClaw/guiclaw/memory/store.py:105-174 | A chunk is an entry exactly if it has an id, a platform and one of the four types; what a missing or unreadable app, time or count then becomes. |
| `MemoryRoundTrip.ParsedIsWellFormed` | GUIClaw/guiclaw/memory/store.py:105-174 | Whatever the text, a parsed entry is in the printer's domain: stripped one-line fields, a known type, clean tags. |
| `MemoryRoundTrip.PrintedParses` | GUIClaw/guiclaw/memory/store.py:84-174 | A well-formed entry, printed with any stripped content and any padding, parses to itself. |
| `MemoryRoundTrip.TagsComeBack` | GUIClaw/guiclaw/memory/store.py:87-174 | Joined tags come back from the split at commas, element for element. |
| `MemoryFiles.SplitIsExact` | GUIClaw/guiclaw/memory/store.py:274-283 | The split at headings loses no character and leaves no heading inside a chunk. |
| `MemoryFiles.SectionsParse` | GUIClaw/guiclaw/memory/store.py:234-283 | A whole saved file parses section by section, also where contents hold headings. |
| `MemoryFiles.ParsedIsLoadable` | GUIClaw/guiclaw/memory/store.py:274-283 | What is read from any text has no heading, carriage return or unstripped field inside, except possibly at the start of its content. |
| `MemoryFiles.SavableComesBack` | GUIClaw/guiclaw/memory/store.py:84-174 | A savable entry's own section parses to exactly that entry. |
| `MemoryFiles.HeadedIsTorn` | GUIClaw/guiclaw/memory/store.py:84-174 | An entry whose content starts with a heading mark parses only to entries with shorter contents. |
| `MemoryStoreModel.LoadedIsSound` | GUIClaw/guiclaw/memory/store.py:250-283 | For any four files, loading gives a dictionary keyed by entry id whose entries are all loadable. |
| `MemoryStoreModel.LoadedKeepsLast` | GUIClaw/guiclaw/memory/store.py:250-283 | Under an id, loading finds the last entry with that id in the four files, read in their order. |
| `MemoryStoreModel.LegacyKeepsKeys` | GUIClaw/guiclaw/memory/store.py:250-272 | The entries of a legacy file stand under the keys of that file, whatever their ids. |
| `MemoryStoreModel.ReloadSortsByType` | GUIClaw/guiclaw/memory/store.py:234-283 | The values of a keyed dictionary of savable entries come back in full, sorted by type and otherwise in their order. |
| `MemoryStoreModel.ReloadIsIdentityIff` | GUIClaw/guiclaw/memory/store.py:234-283 | Save then load is the identity on the id-to-entry map exactly for dictionaries keyed by id with savable entries, across all sections and types. |
| `MemoryStoreModel.NormalFormIff` | GUIClaw/guiclaw/memory/store.py:234-283 | For any files, load-save-load equals load exactly if no content read starts with a heading mark. |
| `MemoryStoreModel.HeadedContentIsLost` | GUIClaw/guiclaw/memory/store.py:234-283 | A concrete entry that save and load do not give back. |
| `MemoryStoreModel.MemoryStore.Add` | GUIClaw/guiclaw/memory/store.py:202-204 | Afterwards the id stands for the new entry, also where it stood for another; every other id keeps its entry; a known id keeps its place and a new one goes last; all files are saved. |
| `MemoryStoreModel.MemoryStore.Remove` | GUIClaw/guiclaw/memory/store.py:206-211 | Deletes and saves exactly when the id is there, and says which; all other ids keep their entries. |
| `MemoryStoreModel.DeleteCuts` | GUIClaw/guiclaw/memory/store.py:206-211 | A deleted id leaves its place, and nothing else moves or changes. |
| `MemoryStoreModel.MemoryStore.Save` | GUIClaw/guiclaw/memory/store.py:234-248 | Every type's file holds its entries in dictionary order; other files stay. |
| `MemoryStoreModel.MemoryStore.Load` | GUIClaw/guiclaw/memory/store.py:250-272 | The entries become those read from the files in file order; a legacy file is migrated once and saved. |
| `MemoryStoreModel.MemoryStore.ParseMarkdownFile` | GUIClaw/guiclaw/memory/store.py:274-283 | The loop over chunks puts exactly the entries of the text: an id stands for the last of them that has it, also where it was known before, and the other ids keep theirs. |
| `MemoryStoreModel.GroupByType` | GUIClaw/guiclaw/memory/store.py:234-240 | Each type gets exactly its entries, in order. |
| `MemoryStoreModel.OfTypeKeepsOrder` | GUIClaw/guiclaw/memory/store.py:234-240 | An entry stands in its group at the place that the entries of its type before it leave to it. |
| `OptionalFeatures.RequirementInstalledIn` | GUIClaw/nanobot/optional_features.py:114-135 | Terminates on cyclic graphs; answer and shared `seen` set are those of the search's specification. |
| `OptionalFeatures.ExtraDependenciesInstalled` | GUIClaw/nanobot/optional_features.py:137-161 | The same for the loop over an extra's dependencies, with its early return. |
| `OptionalFeatures.ExtraInstalled` | GUIClaw/nanobot/optional_features.py:168-171 | A feature counts as installed exactly if it lists nothing or each of its requirements passes the check from an empty `seen`. |
| `OptionalFeatures.InstalledIsSound` | GUIClaw/nanobot/optional_features.py:114-165 | True means that every reachable name with its extras has an installed distribution offering them, and an admitted version at one requirement that reaches it. |
| `OptionalFeatures.InstalledIsComplete` | GUIClaw/nanobot/optional_features.py:114-165 | If every reachable requirement is met, the answer is True. |
| `OptionalFeatures.ExactWhenSpecifiersAgree` | GUIClaw/nanobot/optional_features.py:114-165 | Where reachable specifiers of one key agree, the answer decides whether everything reachable is met; where they do not, something is not met, whatever the answer. |
| `OptionalFeatures.MissingDependencyIsFound` | GUIClaw/nanobot/optional_features.py:114-161 | A dependency line whose marker holds under a requested extra, for a name that is not installed, makes the answer False. |
| `OptionalFeatures.InactiveLineIsSkipped` | GUIClaw/nanobot/optional_features.py:149-160 | A line that cannot be read, or whose marker does not hold under the extra, has no effect: the search is the one without it. |
| `OptionalFeatures.InactiveIsInstalled` | GUIClaw/nanobot/optional_features.py:114-116 | A requirement whose marker does not hold under its extra counts as installed. |
| `OptionalFeatures.SecondSpecifierIsIgnored` | GUIClaw/nanobot/optional_features.py:119-122 | A graph on which the answer is True though a reachable requirement is not met. |
| `ScreenSimilarity.ScoreBounds` | GUIClaw/guiclaw/agent.py:2132-2193 | For equal-length non-empty screens the score lies in [-1, 1], is 1 exactly for equal screens, and the zero-denominator branch is dead. |
| `ScreenSimilarity.ScoreIsSymmetric` | GUIClaw/guiclaw/agent.py:2132-2193 | The score does not depend on the order of the screens. |
| `ScreenSimilarity.ScoreFromSums` | GUIClaw/guiclaw/agent.py:2159-2193 | The two-pass score is a quotient of polynomials in the sums of the pixels, of their squares and of their products, with the constants written out. |
| `ScreenSimilarity.SameScreenIff` | GUIClaw/guiclaw/agent.py:2132-2193 | Which fingerprints are the same screen, case by case: two known apps, two methods, hashes, pixels that cannot be decoded, and pixels whose score is at least 0.985. |
| `ScreenSimilarity.SameScreenIsSymmetric` | GUIClaw/guiclaw/agent.py:2132-2193 | Same-screen is symmetric over every mix of fingerprint methods. |
| `ScreenSimilarity.SameScreenIsReflexiveIff` | GUIClaw/guiclaw/agent.py:2132-2193 | A screen is the same as itself exactly unless its similarity digest decodes to no pixels. |
| `TokenUsage.AddUsage` | GUIClaw/guiclaw/agent.py:1196-1197 | The loop over one mapping's items adds it to the other, key by key. |
| `AgentStep.RunStep` | GUIClaw/guiclaw/agent.py:1160-1489 | The retry loop makes exactly the calls of the specification, returns its step or raises as it does; the raise after the loop is unreachable. |
| `AgentStep.CallsAreBounded` | GUIClaw/guiclaw/agent.py:1172-1269 | One to four model calls; all but the last had a retried reply, and fewer than four end with one that is not. |
| `AgentStep.StepRaisesIff` | GUIClaw/guiclaw/agent.py:1182-1269 | A step raises exactly on a failed call, a failed action, or a fourth unexpected tool. |
| `AgentStep.StepAddsUp` | GUIClaw/guiclaw/agent.py:1196-1657 | A step's usage is, for every key, the sum over all its calls, retried ones too, plus that of the skill it ran. |
| `AgentAttempt.RunOnce` | GUIClaw/guiclaw/agent.py:683-1010 | The completed steps are those of the script, none but the last stops the attempt, and the attempt ends as the last one says. |
| `AgentAttempt.StreakIsLongestSuffix` | GUIClaw/guiclaw/agent.py:917-931 | The streak is the longest suffix of transitions that repeat screen and action type. |
| `AgentAttempt.StagnationIff` | GUIClaw/guiclaw/agent.py:715-977 | Stagnation is reported exactly if the streak reaches a positive limit, at that step, and no earlier step reached it. |
| `AgentAttempt.StreakIff` | GUIClaw/guiclaw/agent.py:917-931 | The streak is at least k exactly if each of the last k transitions shows the screen of the one before, after the same kind of action; the transitions alone decide. |
| `AgentAttempt.StepIsOfReply` | GUIClaw/guiclaw/agent.py:1196-1489 | What a completed step is, for each kind of last reply: replies that cannot be used count as waiting on the same screen, questions are settled by the intervention. |
| `AgentAttempt.EndIsOfLastReply` | GUIClaw/guiclaw/agent.py:715-1010 | An attempt succeeds, fails at its task or is cancelled exactly according to its last reply, and only a timeout counts an uncompleted step. |
| `AgentAttempt.UnusableRepliesStagnate` | GUIClaw/guiclaw/agent.py:715-1010 | If no reply of the model can be used, the attempt stagnates after exactly as many steps as the limit says. |
| `AgentAttempt.StepsAreBounded` | GUIClaw/guiclaw/agent.py:722-1010 | Never more than `max_steps` steps; a success ends with a successful done; the step count is the completed ones, plus one on a timeout. |
| `AgentAttempt.AttemptIsDetermined` | GUIClaw/guiclaw/agent.py:683-1010 | The answers of the outside determine steps and end: the specification leaves no freedom. |
| `AgentRun.Run` | GUIClaw/guiclaw/agent.py:523-667 | The run succeeds exactly if some attempt did; no attempt follows a success, stagnation or a cancelled intervention; attempts go on otherwise; error and step count are the last ones. |
| `AgentRun.FollowedIff` | GUIClaw/guiclaw/agent.py:560-640 | An attempt is followed by another exactly if one is left and it raised, timed out, ran out of steps, failed at its task, or had a preflight fail with an ordinary text; nothing follows a success, stagnation, a cancelled intervention, or a preflight text that reads like these. |
| `AgentRun.LastIsReported` | GUIClaw/guiclaw/agent.py:555-667 | The error reported is that of the last attempt, the step count that of the last one that returned. |
| `AgentRun.RunAddsUp` | GUIClaw/guiclaw/agent.py:560-586 | For every key the reported usage is the sum over all completed steps of all attempts that returned. |
| `AgentRun.TotalIsCompleteIff` | GUIClaw/guiclaw/agent.py:560-615 | For every key the reported usage covers all completed steps exactly if those of the attempts that raised spent nothing in sum. |
| `AgentRun.PaidStepIsLost` | GUIClaw/guiclaw/agent.py:560-615 | A run whose only completed step spent tokens, and whose total is zero. |
| `AgentRun.PreflightEndsRunIff` | GUIClaw/guiclaw/agent.py:603-611 | Where more attempts are allowed, a first preflight that fails is the last exactly if its text starts with "intervention_cancelled" or is "stagnation_detected". |
| `AgentRun.PreflightEndsRun` | GUIClaw/guiclaw/agent.py:603-611 | A run of one attempt, of two allowed, after such a preflight. |
| `AgentRun.RunIsDetermined` | GUIClaw/guiclaw/agent.py:523-667 | The answers of the outside determine the whole run. |
| `ImageSizing.ResizeIsValid` | GUIClaw/guiclaw/agents/profiles.py:898-924 | On all three branches exactly the images of aspect ratio at most 200 get positive multiples of 28 with 3136 to 10035200 pixels; shrinking keeps each side at least 224. |
| `ImageSizing.ShrunkSides` | GUIClaw/guiclaw/agents/profiles.py:908-916 | When shrinking, each side is its own side divided by the root of the pixels over the maximum, cut to a multiple of 28. |
| `ImageSizing.GrownSidesAre` | GUIClaw/guiclaw/agents/profiles.py:917-923 | When growing, each side is its own side times the root of the minimum over the pixels, filled up to a multiple of 28. |
| `ImageSizing.RoundedSides` | GUIClaw/guiclaw/agents/profiles.py:902-907 | Otherwise each side is the multiple of 28 nearest to its own side, the even one of two, and at least 28. |
| `ImageSizing.OrientationIsKept` | GUIClaw/guiclaw/agents/profiles.py:898-924 | A landscape image stays one, and a portrait too, on every branch. |
| `ImageSizing.ValidSizeIsFixed` | GUIClaw/guiclaw/agents/profiles.py:898-924 | Valid sizes of aspect ratio at most 200 are fixed points. |
| `ImageSizing.AspectAfterIff` | GUIClaw/guiclaw/agents/profiles.py:898-924 | The resized image has an admissible aspect ratio exactly if the image is shrunk or its sides, rounded to 28, have one: shrinking and growing never spoil it. |
| `ImageSizing.ResizeTwiceIff` | GUIClaw/guiclaw/agents/profiles.py:898-924 | Under that condition on the input, and only then, resizing is idempotent; otherwise the second resizing is refused. |
| `ImageSizing.RoundingSpoilsAspect` | GUIClaw/guiclaw/agents/profiles.py:898-924 | A size that is accepted once and refused when resized again. |
| `ImageSizing.ScaledResizeIsValid` | GUIClaw/guiclaw/agents/profiles.py:876-895 | Scaling never grows or empties a side, and sizing after it succeeds exactly for a sound scaled ratio. |
| `ImageSizing.ScaledSidesAre` | GUIClaw/guiclaw/agents/profiles.py:876-895 | A ratio between 0 and 1 cuts each side to that part of it, at least one pixel; larger ratios change nothing, and without a positive one it is a half. |
| `HistoryImages.HideHistoryImages` | GUIClaw/guiclaw/agents/profiles.py:984-1004 | The backward loop edits in place exactly the image messages older than the window, each in one part. |
| `HistoryImages.HidingKeepsOtherParts` | GUIClaw/guiclaw/agents/profiles.py:984-1004 | Role, length and every text part of an edited message stay. |
| `HistoryImages.ShownCount` | GUIClaw/guiclaw/agents/profiles.py:984-1004 | At least min(window, n) messages still show an image, and exactly so many if and only if no older one had several. |
| `HistoryImages.DropKeepsRecent` | GUIClaw/guiclaw/agents/profiles.py:1007-1041 | What is kept is the history in its order without the image messages that have `window` or more after them: every other message, and the most recent min(window, n) image messages, for both kinds of image message. |
| `HistoryImages.KindsAre` | GUIClaw/guiclaw/agents/profiles.py:984-1041 | An image message is a user's with an image anywhere in its parts; a tool image is a tool's message that starts with one. |
| `HistoryImages.DroppedKindsKeepRecent` | GUIClaw/guiclaw/agents/profiles.py:1007-1041 | The same at the two functions themselves: old image messages, and old tool messages that start with an image. |
| `HistoryImages.BuildGuiOwlMessages` | GUIClaw/guiclaw/agents/profiles.py:666-739 | The steps split at one point: those before it are told as numbered summaries, each later one has its response and then the screen that followed, the last of which is the current one; the images are the most recent min(window, steps + 1) observations, at least one, in order. |
| `RuntimeLease.RunKeepsInv` | GUIClaw/guiclaw/backends/background_runtime.py:160-193 | In every interleaving of arriving, waiting, cancelling and releasing the invariant holds: single holders of lease and lock, and no un-notified waiter while the lease is free. |
| `RuntimeLease.AtMostOneHolder` | GUIClaw/guiclaw/backends/background_runtime.py:160-193 | Two tasks never hold the lease. |
| `RuntimeLease.OnlyHolderClears` | GUIClaw/guiclaw/backends/background_runtime.py:160-193 | A held lease ends by its holder's clearing step and nothing else, not by a cancelled waiter, nor by leaving a context whose generator has ended. |
| `RuntimeLease.TakenOnlyWhenFree` | GUIClaw/guiclaw/backends/background_runtime.py:160-193 | The lease is taken only from free. |
| `RuntimeLease.RunsAreBounded` | GUIClaw/guiclaw/backends/background_runtime.py:160-193 | n tasks take at most n(2n + 6) steps: waking and waiting again cannot go on forever. |
| `RuntimeLease.StuckMeansEnded` | GUIClaw/guiclaw/backends/background_runtime.py:160-193 | When no task can go on all have ended, or wait behind a task that was cancelled while it waited to release. |
| `RuntimeLease.EveryoneIsServed` | GUIClaw/guiclaw/backends/background_runtime.py:160-193 | Without cancellation every task gets the lease and gives it back. |
| `RuntimeLease.LostLeaseExample` | GUIClaw/guiclaw/backends/background_runtime.py:188-191 | A run of two tasks with one cancellation, while the holder waits to release, after which the other waits forever. |
| `RuntimeLease.LostLeaseStays` | GUIClaw/guiclaw/backends/background_runtime.py:188-191 | After such a cancellation the slot stays filled, whatever follows. |
| `RuntimeLease.LostIff` | GUIClaw/guiclaw/backends/background_runtime.py:160-193 | A task loses the lease exactly if some step cancels it while it waits to release. |
| `RuntimeLease.AllServedIff` | GUIClaw/guiclaw/backends/background_runtime.py:160-193 | At the end every task has had the lease and given it back, or was itself cancelled before, exactly if no step cancels a task that waits to release. |
| `RuntimeLease.LockIsNeverWaitedFor` | GUIClaw/guiclaw/backends/background_runtime.py:173-191 | If tasks are switched only where one waits, the lock is free whenever it is asked for. |
| `RuntimeLease.EventLoopServesAll` | GUIClaw/guiclaw/backends/background_runtime.py:160-193 | Then no cancellation, however many there are, loses the lease, and every task is served or was itself cancelled before. |
| `WindowsBackend.Backend.Start` | GUIClaw/guiclaw/backends/windows_isolated.py:66-99 | The method's new state and ending are those of the specified preflight, for every point of failure. |
| `WindowsBackend.Backend.Send` | GUIClaw/guiclaw/backends/windows_isolated.py:101-152 | The same for a command, with the shutdown that a cancellation causes. |
| `WindowsBackend.Backend.Stop` | GUIClaw/guiclaw/backends/windows_isolated.py:166-191 | The same for shutdown. |
| `WindowsBackend.PreflightOutcome` | GUIClaw/guiclaw/backends/windows_isolated.py:66-99 | A preflight ends ready exactly if it ends normally; failed or cancelled anywhere, it leaves nothing held and the lease released as often as taken. |
| `WindowsBackend.PreflightIs` | GUIClaw/guiclaw/backends/windows_isolated.py:66-99 | A ready backend is left alone; else the first of lease, display and worker that does not end well decides how a preflight ends, and one that ends well has its own display, target and, unless one is left, a new worker. |
| `WindowsBackend.CommandOutcome` | GUIClaw/guiclaw/backends/windows_isolated.py:101-152 | A cancelled command stops the display, clears the target and releases the lease once; any other ending is passed on and changes nothing, and without a display a command fails. |
| `WindowsBackend.ShutdownOutcome` | GUIClaw/guiclaw/backends/windows_isolated.py:166-191 | Shutdown leaves nothing held and releases a held lease exactly once, whichever of its parts fail. |
| `WindowsBackend.ShutdownIsIdempotent` | GUIClaw/guiclaw/backends/windows_isolated.py:166-191 | A second shutdown changes nothing. |
| `WindowsBackend.RunKeepsInv` | GUIClaw/guiclaw/backends/windows_isolated.py:66-191 | After any sequence of operations with any endings the backend is ready or holds nothing, takes and releases alternate, and the control file exists exactly while a worker is recorded. |
| `WindowsBackend.OwnWorkerIff` | GUIClaw/guiclaw/backends/windows_isolated.py:66-191 | A backend that was shut down and is ready again has a worker launched on its own display exactly if the shutdown could stop the old one; else it is the old one. |
| `BackgroundBackend.Backend.Begin` | GUIClaw/guiclaw/backends/background.py:100-118 | Fields, environment and lease are those of the specified steps, for success, for an exception and for a cancellation at each awaited call, also where the lease is first waited for and where the preflight drops one it has. |
| `BackgroundBackend.Backend.Send` | GUIClaw/guiclaw/backends/background.py:120-137 | A use applies the display, or is refused before any preflight. |
| `BackgroundBackend.Backend.Stop` | GUIClaw/guiclaw/backends/background.py:154-178 | Shutdown takes the specified steps: the recorded display is restored and a kept lease given back, once. |
| `BackgroundBackend.PreflightEndings` | GUIClaw/guiclaw/backends/background.py:100-118 | What each ending of a preflight leaves: the lease is kept exactly after a success or a cancellation that comes when it is held, and `DISPLAY` is at the new display exactly if that has started. |
| `BackgroundBackend.ShutdownRestores` | GUIClaw/guiclaw/backends/background.py:100-178 | A preflight that succeeds points `DISPLAY` at its display and takes the lease, and a shutdown after it leaves both as the preflight found them when it got the lease. |
| `BackgroundBackend.DisplayIsTheHosts` | GUIClaw/guiclaw/backends/background.py:100-233 | Over all interleavings of backends without a careless step, cancellations and the closing of dropped contexts included, `DISPLAY` has the host's value whenever nobody holds the lease. |
| `BackgroundBackend.FailedPreparationLeaves` | GUIClaw/guiclaw/backends/background.py:100-118 | After a failed inner preflight, with the lease given back, `DISPLAY` is the host's exactly if the display started is not X11 or is the host's own. |
| `BackgroundBackend.FailedPreparationExample` | GUIClaw/guiclaw/backends/background.py:116-118 | A run that leaves `DISPLAY` at a dead display with the lease free. |
| `BackgroundBackend.FailedRestartLeaves` | GUIClaw/guiclaw/backends/background.py:100-118 | After a backend started before fails to start again, its next preflight does nothing, and a use without the lease keeps `DISPLAY` the host's exactly if the old display is not X11 or is the host's own; a shutdown restores it. |
| `BackgroundBackend.CancelledRestartLeaves` | GUIClaw/guiclaw/backends/background.py:102-109 | The same after a cancellation of such a backend while it asks for the lease. |
| `BackgroundBackend.FailedRestartExample` | GUIClaw/guiclaw/backends/background.py:100-137 | A run of one backend that sets `DISPLAY` to a dead display with the lease free, all its last calls succeeding. |
| `BackgroundBackend.LateUseLeaves` | GUIClaw/guiclaw/backends/background.py:180-207 | A use after shutdown changes `DISPLAY` exactly if the stopped display is X11 and another one. |
| `BackgroundBackend.ForgottenIff` | GUIClaw/guiclaw/backends/background.py:105-118 | A backend comes to hold a lease whose context it has dropped exactly by asking while it still has one, and ceases to exactly when that context is closed. |
| `BackgroundBackend.ForgottenIsGivenBack` | GUIClaw/guiclaw/backends/background_runtime.py:184-191 | While a lease is held so, no backend gets it, not even its own; the event loop can close the dropped context at any time, which frees the lease, leaves `DISPLAY` the host's and lets a waiting backend go on. |
| `Selection.SelectTaskItems` | GUIClaw/scripts/induce_gui_memory.py:148-166 | Terminates; within the budget all is kept, beyond it exactly `budget` items, a sub-multiset of the input, each app a prefix of its offer, apps more than one apart only when the smaller is exhausted; items come round by round, in each round in the order in which the apps are first met, and the last round stops in that order. |
| `Selection.GroupByApp` | GUIClaw/scripts/induce_gui_memory.py:152-155 | Groups hold exactly their app's items in order; keys are distinct and in the order of their first items. |
| `Selection.OfferIsSorted` | GUIClaw/scripts/induce_gui_memory.py:156-157 | What an app offers is a stable sort: no failure after a success, failures in their order, successes in theirs. |
| `Selection.TurnsAreFair` | GUIClaw/scripts/induce_gui_memory.py:159-166 | The loop's invariant about turns taken implies fairness among apps. |
| `Selection.NothingLeftMeansAll` | GUIClaw/scripts/induce_gui_memory.py:159-166 | If all groups are empty, everything was selected: the loop cannot end short of the budget. |
| `MemoryBank.BankFile.Append` | GUIClaw/guiclaw/memory/induction.py:312-342 | The loop appends to the file's text exactly the lines of the items that greedy appending adds to what the text is read as, and returns their number. |
| `MemoryBank.AppendedKeepsBank` | GUIClaw/guiclaw/memory/induction.py:312-342 | The items there are kept as a prefix, and only offered items are added. |
| `MemoryBank.AddedAreDissimilar` | GUIClaw/guiclaw/memory/induction.py:312-342 | No added item reaches the threshold against an earlier item of its app. |
| `MemoryBank.SkippedHaveWitness` | GUIClaw/guiclaw/memory/induction.py:312-342 | Every offered item is in the bank or reaches the threshold against an item in it. |
| `MemoryBank.ReappendAddsIff` | GUIClaw/guiclaw/memory/induction.py:312-342 | After the batch was appended and the file read again, offering it again adds exactly nothing, the items without tokens, or all (threshold at most 0, at most 1, larger), if and only if every added item that can be a duplicate is free of U+0085, U+2028 and U+2029 in its texts. |
| `MemoryBank.TornItemIsAddedTwice` | GUIClaw/guiclaw/memory/induction.py:312-342 | An item with U+2028 for a title is added to an empty file, not read back, and added again. |
| `MemoryRecords.RecordIsRead` | GUIClaw/guiclaw/memory/induction.py:297-309 | A printed record is read as its item exactly if the texts have no such separator, and as nothing otherwise: no piece of it is read as another item. |
| `MemoryRecords.LinesAreRead` | GUIClaw/guiclaw/memory/induction.py:297-342 | After any appended items, a file that ends a line is read as before, followed by the clean ones of them in order. |
| `MemoryRecords.ReadBackIff` | GUIClaw/guiclaw/memory/induction.py:297-342 | All appended items are read back exactly if none has such a separator. |
| `MemoryRecords.UnendedLineLosesBoth` | GUIClaw/guiclaw/memory/induction.py:297-342 | If the last record has no newline after it, appending a record loses both. |
| `JsonRecords.TextIsReadBack` | GUIClaw/guiclaw/memory/induction.py:339 | The escapes written for a text are read back as it, by the rules for strings in section 7 of RFC 8259. |
| `JsonRecords.ShortEscapes` | GUIClaw/guiclaw/memory/induction.py:339 | Control characters with an escape of their own are written by it. |
| `MemoryRecords.KeysText` | GUIClaw/guiclaw/memory/gui_memory_item.py:45-54 | What stands between two texts of a record, and before the first. |
| `MemoryRecords.RecordText` | GUIClaw/guiclaw/memory/gui_memory_item.py:45-54 | The pieces of a printed record, in their order. |
| `JsonRecords.TornRecordIsLost` | GUIClaw/guiclaw/memory/induction.py:301-308 | Whatever the texts, the lines of a torn record are no records by the lexical grammar of JSON. |
| `LawfulRecords.RecordIsReadToItsEnd` | GUIClaw/guiclaw/memory/gui_memory_item.py:45-54 | Two texts that begin with printed records are equal only if the records are equal and what follows them is. |
| `LawfulRecords.SomeReaderIsLawful` | GUIClaw/guiclaw/memory/gui_memory_item.py:45-66 | Where timestamps print differently, on one line and without quotes, backslashes and braces, some reader obeys all the laws that the model asks of it. |
| `MemoryBank.JaccardOfSame` | GUIClaw/guiclaw/memory/induction.py:467-470 | Only the empty token set is not fully similar to itself. |
| `MemoryBank.SimilarIff` | GUIClaw/guiclaw/memory/induction.py:326-338 | Two items are similar exactly if their apps agree but for case and their common tokens are at least the threshold times all of theirs. |
| `MemoryBank.JaccardIs` | GUIClaw/guiclaw/memory/induction.py:467-470 | The share of common tokens among all tokens of two sets, and nothing where one is empty. |
| `SkillMerger.StepSimilarityBounds` | GUIClaw/guiclaw/skills/_merger.py:283-355 | Step similarity lies in [0, 1] and is symmetric. |
| `SkillMerger.StepSimilarityIs` | GUIClaw/guiclaw/skills/_merger.py:247-355 | Steps of one type share 35 points of 100 and up to 30, 10, 15 and 10 more by the shares of the tokens of target, parameters, valid state and contract; steps of two types none. |
| `SkillMerger.SelfSimilarity` | GUIClaw/guiclaw/skills/_merger.py:283-355 | How far a step is from being similar to itself, by which of its texts have no tokens. |
| `SkillMerger.ActionSimilarityBounds` | GUIClaw/guiclaw/skills/_merger.py:261-304 | Action similarity lies in [0, 1] and is symmetric, length penalty included. |
| `SkillMerger.ActionSimilarityExtremes` | GUIClaw/guiclaw/skills/_merger.py:261-304 | Similarity is 1 exactly for equally many steps that are fully similar in pairs, and 0 exactly if one side alone is empty or no pair shares a type. |
| `SkillMerger.UniformSimilarity` | GUIClaw/guiclaw/skills/_merger.py:261-280 | Pairs of one similarity give that similarity, less three tenths for the part of the longer side without partner. |
| `SkillMerger.PrefixForcesSimilarity` | GUIClaw/guiclaw/skills/_merger.py:261-304 | A strict rich prefix has similarity above 0.56, whatever the tail. |
| `SkillMerger.ConfidenceBounds` | GUIClaw/guiclaw/skills/data.py:121-141 | Confidence lies strictly between 0 and 1. |
| `SkillMerger.ConfidenceCompares` | GUIClaw/guiclaw/skills/data.py:121-141 | Which of two confidences is higher is decided by a product of whole numbers. |
| `SkillConflicts.SemanticBounds` | GUIClaw/guiclaw/skills/_merger.py:307-322 | Semantic similarity lies in [0, 1] and is symmetric. |
| `SkillConflicts.SemanticIs` | GUIClaw/guiclaw/skills/_merger.py:307-322 | Meaning is the share of the descriptions' words, raised by three tenths of what the names' share exceeds it, and the names' share alone if a description is blank. |
| `SkillConflicts.FindBestConflict` | GUIClaw/guiclaw/skills/_merger.py:78-139 | A same-id skill of the same place is reported at once; else a report is an eligible argmax that passes the thresholds and no prefix pair, and no report means no positive score or a best one below the thresholds. |
| `SkillConflicts.LoneSkillIsReportedIff` | GUIClaw/guiclaw/skills/_merger.py:78-139 | Of one stored skill with another id: the exact conditions on place, prefixes, cosine and similarities under which it is reported, and with which score. |
| `SkillConflicts.ReportedIsSimilar` | GUIClaw/guiclaw/skills/_merger.py:78-139 | What is reported without an equal id is at least 0.7 similar in its steps, 0.82 without embeddings, and best-scored among those of its place. |
| `SkillConflicts.BlankCopyIsMissed` | GUIClaw/guiclaw/skills/_merger.py:78-139 | A copy of the only stored skill is not reported, whatever names and embeddings say, if its steps have no tokens in target and valid state. |
| `SkillConflicts.MergeConserves` | GUIClaw/guiclaw/skills/_merger.py:156-186 | Merging conserves successes, failures and parameters, keeps the old identity, and takes the steps of the proven or longer side. |
| `SkillConflicts.MergeTrusts` | GUIClaw/guiclaw/skills/_merger.py:156-171 | Between equally proven sides without a prefix pair, the new steps are taken exactly if there are some and the new side is more trusted, or the old side has none. |
| `SkillConflicts.MergedTexts` | GUIClaw/guiclaw/skills/_merger.py:172-181 | Name and description are the old ones only where the old side alone is proven, app and platform the new ones wherever there are some; a text is empty only if both are. |
| `SkillCleanup.CleanupSupersededPrefixes` | GUIClaw/guiclaw/skills/_merger.py:194-224 | The nested loops remove exactly the superseded ids. |
| `SkillCleanup.RemovedIff` | GUIClaw/guiclaw/skills/_merger.py:194-239 | With unique ids exactly the superseded skills go, none with a success and none of another group. |
| `SkillCleanup.RemovedExactly` | GUIClaw/guiclaw/skills/_merger.py:194-239 | The same written out in steps, counts and fields, confidence compared by whole numbers. |
| `SkillCleanup.SameIdIsKept` | GUIClaw/guiclaw/skills/_merger.py:194-224 | Skills of one id never remove each other. |
| `SkillCleanup.SurvivorFor` | GUIClaw/guiclaw/skills/_merger.py:194-239 | Every removed skill has a surviving one of its group that is strictly longer and strictly more trusted. |
| `SkillCleanup.GroupIsNeverEmptied` | GUIClaw/guiclaw/skills/_merger.py:194-239 | A group with skills keeps one. |
| `SkillCleanup.CleanupIsIdempotent` | GUIClaw/guiclaw/skills/_merger.py:194-239 | Cleaning twice is cleaning once. |
| `Coordinates.BackIsIdentityIff` | GUIClaw/guiclaw/action.py:98-107 | Between two grids, there and back with half-even rounding is the identity exactly if the other grid is at least as fine. |
| `Coordinates.PixelRoundTripIff` | GUIClaw/guiclaw/observation.py:160-164 | Pixel to grid and back is exact on a side exactly if it has at most 1000 pixels. |
| `Coordinates.GridRoundTripIff` | GUIClaw/guiclaw/action.py:98-107 | Grid to pixel and back is exact exactly if the side has at least 1000 pixels. |
| `Coordinates.PixelErrorIsBounded` | GUIClaw/guiclaw/observation.py:160-164 | On any side a pixel comes back within (extent - 1) / 1998 + 1 / 2. |
| `Coordinates.ResolveIsMonotone` | GUIClaw/guiclaw/action.py:98-107 | Every value resolves to a pixel of the side, in order. |
| `Coordinates.ToRelativeIsMonotone` | GUIClaw/guiclaw/observation.py:160-164 | Every pixel maps onto the grid, in order. |
| `Coordinates.EndsAreEnds` | GUIClaw/guiclaw/action.py:98-107 | The ends of the grid are the ends of the side and back; whole pixels on the side are left alone, and those off it go to the nearer end. |
| `Coordinates.NestingIsKept` | GUIClaw/guiclaw/observation.py:90-148 | Nested bounds stay nested after mapping, and all are on the grid. |
| `Coordinates.RootIsTight` | GUIClaw/guiclaw/observation.py:90-148 | Each edge of the root bounds is an edge of some node. |
| `Coordinates.OutermostIsWhole` | GUIClaw/guiclaw/observation.py:90-164 | A node with the bounds of the whole tree is shown from 0 to 999 on each side of two pixels or more. |
| `Coordinates.CaptureIsFaithful` | GUIClaw/guiclaw/backends/adb.py:1606-1613 | Captured pixels land on the device in order, ends on ends, and apart where the device side is at least as long. |
| `ShellQuoting.CommandLineIsRead` | GUIClaw/guiclaw/backends/adb.py:1568-1572 | For every argument list the shell's quoting and token rules (IEEE Std 1003.1-2017, Shell Command Language, sections 2.2.2, 2.2.3 and 2.3) read the joined quoted command as exactly that list. |
| `ShellQuoting.QuotedIsRead` | GUIClaw/guiclaw/backends/adb.py:1572 | One quoted argument is read as itself, whatever text follows. |
| `ShellQuoting.BareIff` | GUIClaw/guiclaw/backends/adb.py:1572 | An argument is left unquoted exactly if it is not empty and all its characters are letters, digits or one of ten others. |
| `ShellQuoting.WordIff` | GUIClaw/guiclaw/backends/adb.py:1568-1572 | Without quotes and blanks a text is read as one word exactly if no character in it means something to the shell, and refused otherwise. |
| `ShellQuoting.BlanksAndQuotes` | GUIClaw/guiclaw/backends/adb.py:1568-1572 | Blanks before a text add no word, and a quote that is not closed is refused. |
| `LaunchFallbacks.DropOption` | GUIClaw/guiclaw/backends/adb.py:112-123 | The skipping loop drops each occurrence of the option with the argument after it. |
| `LaunchFallbacks.DropIsExactIff` | GUIClaw/guiclaw/backends/adb.py:112-123 | Dropping removes the option's switches and nothing else exactly if the flag is nowhere an argument of another switch. |
| `LaunchFallbacks.DropTearsAnArgument` | GUIClaw/guiclaw/backends/adb.py:112-123 | A URI "-n" before a component makes the component the URI. |
| `LaunchFallbacks.NoWaitIsExactIff` | GUIClaw/guiclaw/backends/adb.py:108-109 | The variants that do not wait lose nothing but wait flags of the head exactly if no switch has an argument "-W". |
| `LaunchFallbacks.NoWaitTearsAnExtra` | GUIClaw/guiclaw/backends/adb.py:108-109 | Of two text extras the first has the value "-W": it is lost, and the flag of the second becomes the first key's value. |
| `LaunchFallbacks.LaunchVariants` | GUIClaw/guiclaw/backends/adb.py:1548-1566 | The variants are the candidates in order, each kept only if its arguments are new. |
| `LaunchFallbacks.VariantsAreSound` | GUIClaw/guiclaw/backends/adb.py:1548-1566 | Variants differ pairwise, the first is the primary command, each is a subsequence of it, and no candidate is lost. |
| `LaunchFallbacks.VariantsAreNamed` | GUIClaw/guiclaw/backends/adb.py:1548-1566 | The variants are what their names say, in the order of the names, and all of these are tried: without waiting, without the component if there is one, and without the package if there is one and the first data is a web address in any case of letters. |
| `LaunchFallbacks.TryVariants` | GUIClaw/guiclaw/backends/adb.py:1540-1586 | The commands run, as the shell reads them, are the variants up to and including the first that works; that one is returned, and failure means that all were tried. |
| `ActionPayload.Dict.Normalize` | GUIClaw/guiclaw/action.py:280-411 | The repairs in place leave the entries that the composed repair functions give. |
| `ActionParsing.ParsePointList` | GUIClaw/guiclaw/action.py:443-471 | The loops over pairs, objects and flat numbers give the specified points, or the first error. |
| `ActionParsing.ParseAction` | GUIClaw/guiclaw/action.py:110-181 | Repairing a copy in place and reading its fields is the specified parse, error kinds included. |
| `ActionFields.ParseIff` | GUIClaw/guiclaw/action.py:110-181 | A payload is parsed to an action exactly if the type of the repaired payload is the action's, every field is what the payload says, and the action has what its kind must have, kind by kind. |
| `ActionFields.ScrollTakesDirection` | GUIClaw/guiclaw/action.py:138-143 | A scroll's text is its direction, stripped and in lower case, if that is not empty, and else its text; other actions have their text, whatever direction says. |
| `ActionFields.ParsedElsewhere` | GUIClaw/guiclaw/action.py:110-181 | All fields but the coordinates are read from the payload as it was given, each from the first of its names that counts. |
| `ActionFields.RepairsOnlyCoordinates` | GUIClaw/guiclaw/action.py:280-411 | The repairs change no entry but x, y, x2 and y2. |
| `ActionFields.KindIff` | GUIClaw/guiclaw/action.py:184-187 | Which words name each kind of action. |
| `ActionFields.TypeElsewhere` | GUIClaw/guiclaw/action.py:118-130 | Whether the first of "action_type" and "action" that is not empty is a word for a kind, is not changed by the repairs. |
| `ActionFields.FalsyIff` | GUIClaw/guiclaw/action.py:125-163 | Which values of a payload count as missing or as no. |
| `ActionFields.IntsAreCut` | GUIClaw/guiclaw/action.py:487-495 | Numbers are cut towards zero. |
| `ActionFields.KeySpellings` | GUIClaw/guiclaw/action.py:582-594 | A list of keys, and the keys joined by plus signs, blanks or commas, are parsed to the same keys, for every number of keys. |
| `ActionFields.CategorySpellings` | GUIClaw/guiclaw/action.py:502-519 | One category is parsed like a list of it. |
| `ActionFields.ExtrasSpellings` | GUIClaw/guiclaw/action.py:552-580 | A mapping of extras is parsed like the list of its pairs. |
| `ActionFields.ExtrasAre` | GUIClaw/guiclaw/action.py:552-580 | Extras are refused exactly if a name is blank or a value is a list or an object; else they are the given ones, in order, with their names stripped. |
| `ActionFields.ParamsAre` | GUIClaw/guiclaw/action.py:538-550 | Parameters are refused exactly if a name is blank; else each name, stripped, stands for the last value given under it. |
| `ActionFields.PointsInText` | GUIClaw/guiclaw/action.py:414-442 | A text with a JSON list or object is read as that, and else the numbers in it as pairs, refused if one is left over. |
| `ActionErrors.PointsEscapeIff` | GUIClaw/guiclaw/action.py:414-474 | Reading points raises something other than an action error exactly for a complete point or a flat list with a value that is not numeric, of a list only if no malformed item comes first, as JSON or as a text that is JSON. |
| `ActionErrors.ParseEscapesIff` | GUIClaw/guiclaw/action.py:110-181 | Parsing does so exactly if the type is known, the coordinates are absent or numeric, and the points of the repaired payload are of that kind. |
| `ActionErrors.WordyPointEscapes` | GUIClaw/guiclaw/action.py:110-181 | A payload to wait, with a point whose first value is a word, does so. |
| `ActionSpellings.PointSpellings` | GUIClaw/guiclaw/action.py:322-396 | A point spelled as a pair under x, under y or under "coordinate" is repaired to the same x and y; one spelled plainly is left alone. |
| `ActionSpellings.PathSpellings` | GUIClaw/guiclaw/action.py:322-363 | The same for a path spelled as four numbers under x or under "coordinate". |
| `ActionSpellings.SingleSpellings` | GUIClaw/guiclaw/action.py:365-396 | The same for x and y as lists of one and for y as one number twice; of a pair under x and a y, the y wins. |
| `ActionSpellings.NumbersByValue` | GUIClaw/guiclaw/action.py:390-392 | Coordinates given twice are the same if their values are, whatever their types. |
| `ActionSpellings.EndsSpellings` | GUIClaw/guiclaw/action.py:322-396 | The same for a path as two pairs, under the names for start and end, under the numbered names, or plainly with its end as one pair. |
| `ActionSpellings.PlainWins` | GUIClaw/guiclaw/action.py:322-352 | What is given under x and y is not overwritten from another name. |
| `ActionSpellings.PathYields` | GUIClaw/guiclaw/action.py:329-363 | A path in one list is not taken where any other coordinate is given. |
| `ActionSpellings.ListIff` | GUIClaw/guiclaw/action.py:399-411 | What counts as a list of coordinates: a list, or a text that is a JSON list in brackets. |
| `ActionSpellings.EndpointSpelling` | GUIClaw/guiclaw/action.py:290-319 | A swipe or drag given by its end alone gets a start straight above or below it, on the grid and never the end itself. |
| `ActionSpellings.HalfStart` | GUIClaw/guiclaw/action.py:290-319 | Of a start given by half, what is given is kept and only the other half is filled in. |
| `ActionSpellings.ListSpellings` | GUIClaw/guiclaw/action.py:443-471 | A list of pairs, of objects with x and y, or of numbers in a row, is read as the same points, for every number of points. |
| `ActionTransport.ParsedIsWellFormed` | GUIClaw/guiclaw/action.py:110-644 | Every action the parser returns satisfies all validation rules; keys, categories and names of extras are stripped, the latter two not empty, extras scalar. |
| `ActionTransport.NothingToRepair` | GUIClaw/guiclaw/backends/windows_isolated.py:370-408 | The coordinate repairs leave the serialised form of a valid action alone. |
| `ActionTransport.WorkerParses` | GUIClaw/guiclaw/backends/windows_worker.py:130-131 | What the worker parses is the action without command id, parameters, empty keys and points other than its coordinates, if that is valid, and an error else. |
| `ActionTransport.TransportIff` | GUIClaw/guiclaw/backends/windows_isolated.py:370-408 | A parsed action, serialised for the worker and parsed again, is equal to itself exactly if its points are those of its coordinates, no key is empty, and it has neither command id nor parameters. |
| `ActionTransport.NamedTapChanges` | GUIClaw/guiclaw/action.py:136-139 | Every tap given by a named coordinate is parsed with a point as well, and comes out of the trip without it. |

## Left out

- Model, subprocess, image, index, device and file-system calls return or fail as parameters; files are a map from name to text.
- Prompt texts, command lines, configuration, tool schemas, keyword tables, selector expressions and log scrubbing: lookups without an invariant.
- Retrieval, shortcut probing and post-processing: they rest on libraries that are not part of this model.
- Memory files: the conversion of newlines by the platform on writing, undecodable bytes, and the temporary file of an atomic write. Timestamps are tokens with a printing law, all NaN values one token; `int` reads ASCII digits of any number. Entries decoded from a legacy file are a parameter.
- Dependency check: names and extras are canonical already; version specifiers and environment markers are evaluated by a parameter.
- Floats are exact reals, so rounding error, overflow, infinities and NaN are not modelled; `sqrt` is any positive real with the right square.
- Agent run: the model call of the closing summary, which the program does not count either; callbacks and logs that raise; summaries and traces. An observation is its fingerprint. Token counts of a skill are its integer ones.
- History: base64 and image decoding; of a GUI-Owl message, what is placed in it and not its wording.
- RuntimeLease.EveryoneIsServed: no order of service is claimed, as the program notifies all waiters at once.
- WindowsBackend.ShutdownOutcome: does not model a cancellation that arrives during shutdown, and a stopped display means that its stop was called.
- BackgroundBackend.DisplayIsTheHosts: excludes careless steps, each of which has its own exact condition: a failing inner preflight, a failing or cancelled restart, a use after shutdown. A cancellation while the lease is given back is the lease's matter. Calls on one backend do not overlap. That the event loop does close a dropped context is not claimed, only that it can at any time.
- Memory bank: JSON reading and the printing of timestamps are parameters with laws; timestamps are tokens. Files by other writers whose texts are no strings, and the platform's conversion of newlines on writing, are not modelled.
- SkillConflicts.FindBestConflict: that every conflict is found is not claimed, as thresholds are tested on the best-scored skill only. Cosines, tokens and case folding are parameters.
- SkillCleanup.RemovedIff: requires unique ids; whether two intents are the same is a parameter. Wall-clock update times of merged skills are a parameter.
- Similarity relations are thresholds, so no transitivity is claimed.
- Coordinates: the text form of bounds is not parsed; a tree node without bounds shows none.
- ShellQuoting.CommandLineIsRead: is about tokens; that a first word with "=" would be an assignment, and words the shell reserves, are outside those sections. Texts with operators, expansions, patterns or comments are rejected by the model's tokeniser, not evaluated.
- LaunchFallbacks.TryVariants: the marker appended to the output and the failure markers inside it are a parameter and a name; exceptions other than the caught ones are not modelled.
- Action parsing: payloads are JSON values and objects; names the parser does not read are ignored. `str.lower`, number and JSON texts are parameters, of which the transport needs that lower-case words stay. Equality inside nested lists and objects is by structure. The pipe itself, JSON text and back, is the identity up to tuples becoming lists.
