# Helidon build tools: the dev-mode build loop, its monitor, the `features` command and console styles

This project models the core of the Helidon build tools in Dafny and proves properties of the model.

- **The build loop** (`BuildLoops`, BuildLoop.dfy). It drives development mode. Each cycle runs one branch, tried in this order:
  1. with no project, it asks the project supplier for one;
  2. in binary-only watch mode, it drops the project when binaries changed;
  3. it drops the project when the build files (pom.xml) changed;
  4. when sources changed, it builds incrementally;
  5. otherwise it reports that the project is ready.

  Each cycle then sleeps for the delay the monitor asked for, and the monitor's `onCycleEnd` answer decides whether the loop goes on.
  - The class `BuildLoop` has fields for the project reference, the cycle counter, the run flag and the monitor calls made so far.
  - Its methods are proved against the pure functions `Body`, `Cycle` and `Run`.
  - Lemmas about those functions prove the branch priority, the recovery rules, that cycle numbers are consecutive, and that `onStopped` is called exactly once.
- **Build steps and projects** (`BuildModel`, `BuildSteps`, `Projects`).
  - A step applies to a component when the component's source and output root types match the step's pair.
  - A project holds components and steps, tracks the changes pending on its roots, updates itself, and runs full or incremental builds. An empty error list means success.
- **The dev-mode monitor** (`DevLoop`, DevLoop.dfy).
  - `DevModeMonitor` starts the user's application when the project is ready.
  - It stops the application on a change, on a build failure, or when the loop stops.
  - Its callbacks are proved against a state machine (`Next`). Over any sequence of callbacks, that state machine never has two applications running at once.
- **The `features` command** (`Features`).
  - `Execute` is the option dispatch.
  - `addFeatures` merges the features of the `--add` list into the project's feature list. It also merges their dependencies into the POM, with no duplicate on (groupId, artifactId, version).
  - The loop method `AddFeaturesTo` is proved against the function `AddAll`, and `AddAll`'s properties are proved as lemmas.
- **Console styles** (`Styles`, `StyleTable`).
  - Styles are looked up by name (`named`) and composed with the `of(...)` overloads, and `StyleList` builds up a list of styles.
  - `stylesByName` builds the alias table; `StylesByName` is proved to build the map `Table()`.
  - The lemmas prove what every alias names, which keys the table holds, and that the class's color constants resolve.
  - Table keys are told apart by decoding each key into its marks and its word (`Decode`, `KeysDiffer`).

Collaborators are inputs or records, not code:
- The project supplier, the monitor's answers, thread interrupts and concurrent `stop()` calls are inputs, one `CycleInput` per cycle.
- So is the file system: each `CycleInput` carries the `Activity` (changes arriving under roots, a touched build file) that reaches the held project before the cycle checks it.
- Monitor calls are recorded as `Event`s.
- A build step's own work is an abstract error function per component and per change.
- Whether styles are enabled (`ENABLED`) is a parameter.

Where the code behaves differently from what its comments or a casual reading suggest, the model follows the code:
- `start()` does not reset the cycle counter or the project.
- A loop that leaves by `break` keeps its run flag set, unless a `stop()` during that cycle cleared it (the only thing in the loop that interrupts the worker). `onCycleEnd` is not reached, so nothing overwrites the flag.
- After a successful construction, `onReady` receives the cycle-local project reference, which is null.
- `"*c*"` names the italic, not the bold, variant of color `c`.
- Only the four lower-case `negative` names (`negative`, `negative!`, `bg_negative`, `bg_negative!`) are the plain negative emphasis. The other `negative` aliases combine it with bold or italic.

## Model

| member | source | states |
|---|---|---|
| BuildLoops.BuildConfig | live-restart/src/main/java/io/helidon/dev/build/BuildLoop.java:329-337 | Building succeeds exactly when both the project directory and the supplier are set. A missing directory is reported first, then a missing supplier. The configuration carries the builder's values. |
| BuildLoops.BodyShape | live-restart/src/main/java/io/helidon/dev/build/BuildLoop.java:146-204 | The body of a cycle starts with `onCycleStart` and neither sleeps nor ends the cycle. It keeps the counter and the run flag. Afterwards it holds no project, the old project, or the one just supplied. The clean flag is spent exactly by a successful construction. |
| BuildLoops.FinishShape | live-restart/src/main/java/io/helidon/dev/build/BuildLoop.java:206-216 | The cycle sleeps exactly when the delay is positive. It breaks only if that sleep is interrupted, and then skips `onCycleEnd` and keeps the state, except that a `stop()` during the cycle leaves the run flag cleared. Otherwise it calls `onCycleEnd`, whose answer becomes the run flag, and the counter goes up by one. |
| BuildLoops.CycleShape | live-restart/src/main/java/io/helidon/dev/build/BuildLoop.java:145-216 | A cycle never calls `onStarted` or `onStopped`. A cycle that does not break ends with `onCycleEnd(n)` and moves the counter to n+1. A cycle that breaks keeps the counter and never reaches `onCycleEnd`. It keeps the run flag unless a `stop()` during the cycle cleared it. |
| BuildLoops.CycleHoldsProject | live-restart/src/main/java/io/helidon/dev/build/BuildLoop.java:146-204 | After a cycle, the held project is none, the old one, or the one just supplied. |
| BuildLoops.MissingProjectConstructs | live-restart/src/main/java/io/helidon/dev/build/BuildLoop.java:149-154 | Without a project, the cycle asks the supplier with the current clean flag. It ignores the watch mode and anything a project would report. |
| BuildLoops.WatchModeBeforeBuildFiles | live-restart/src/main/java/io/helidon/dev/build/BuildLoop.java:163-176 | In binary-only mode, the build files and sources are never consulted. |
| BuildLoops.BuildFileChangeBeforeSources | live-restart/src/main/java/io/helidon/dev/build/BuildLoop.java:176-183 | A build-file change wins over pending source changes. The project is dropped, `onChanged(n, false)` is called, and the cycle ends with no sleep. |
| BuildLoops.BinaryChangeRecreates | live-restart/src/main/java/io/helidon/dev/build/BuildLoop.java:169-175 | In binary-only mode, a binary change drops the project, calls `onChanged(n, true)` and ends the cycle with no sleep. |
| BuildLoops.IdleReportsReady | live-restart/src/main/java/io/helidon/dev/build/BuildLoop.java:163-190 | When nothing changed, the only report is `onReady` with the held project. There is no build, change or failure report. |
| BuildLoops.ConstructionFailureRetries | live-restart/src/main/java/io/helidon/dev/build/BuildLoop.java:153-161 | A supplier failure is reported by `onBuildFail`. No project is left, so the next cycle asks the supplier again with the same clean flag. |
| BuildLoops.ConstructionRejectedOrInterruptedEnds | live-restart/src/main/java/io/helidon/dev/build/BuildLoop.java:157-158 | An IllegalArgumentException or an interruption from the supplier leaves the loop. There is no `onBuildFail`, `onReady` or `onCycleEnd`. The project, counter and clean flag are unchanged, and the run flag is cleared exactly when a `stop()` came during the cycle. |
| BuildLoops.BuildInterruptedEnds | live-restart/src/main/java/io/helidon/dev/build/BuildLoop.java:192-199 | An interrupted incremental build leaves the loop, keeping the project. There is no `onBuildFail` or `onCycleEnd`. The run flag is cleared exactly when a `stop()` came during the cycle. |
| BuildLoops.IncrementalFailureKeepsProject | live-restart/src/main/java/io/helidon/dev/build/BuildLoop.java:192-202 | A failed incremental build reports its errors and keeps the same project. With the same changes, the next cycle builds incrementally again. |
| BuildLoops.ReadyAfterConstructionGetsNull | live-restart/src/main/java/io/helidon/dev/build/BuildLoop.java:146-156 | After a construction, `onReady` receives null. The new project is kept, and the clean flag becomes false. |
| BuildLoops.HaltedIsFinal | live-restart/src/main/java/io/helidon/dev/build/BuildLoop.java:145-217 | Once the loop has halted, further inputs change nothing. No cycle follows an `onCycleEnd` that answered false. |
| BuildLoops.CycleNumbersConsecutive | live-restart/src/main/java/io/helidon/dev/build/BuildLoop.java:147-216 | `onCycleEnd` sees consecutive cycle numbers, starting at the counter's initial value. The counter ends one past the last of them. |
| BuildLoops.StartedAndStoppedOnce | live-restart/src/main/java/io/helidon/dev/build/BuildLoop.java:140-220 | `onStarted` is called once, first. Once the loop has halted, `onStopped` is called exactly once, last; before that it is never called. |
| BuildLoops.BuildLoop.constructor | live-restart/src/main/java/io/helidon/dev/build/BuildLoop.java:62-76 | A new loop copies the configuration, is not running, has counter 0, holds no project and has made no calls. |
| BuildLoops.BuildLoop.Start | live-restart/src/main/java/io/helidon/dev/build/BuildLoop.java:83-91 | The run flag is set. A worker is submitted only if the flag was clear. |
| BuildLoops.BuildLoop.Stop | live-restart/src/main/java/io/helidon/dev/build/BuildLoop.java:119-126 | The run flag is cleared. Waiting is needed only if the flag was set. |
| BuildLoops.BuildLoop.RunIncremental | live-restart/src/main/java/io/helidon/dev/build/BuildLoop.java:192-202 | Reports `onChanged` and `onBuildStart`. Then either the interruption, or on success the project's update and `onReady`, or on failure `onBuildFail` with the errors. The project changes only on success. |
| BuildLoops.BuildLoop.RunConstruct | live-restart/src/main/java/io/helidon/dev/build/BuildLoop.java:149-161 | Carries out `Construct`: the new project, the clean flag, the calls and the exit. |
| BuildLoops.BuildLoop.RunInspect | live-restart/src/main/java/io/helidon/dev/build/BuildLoop.java:163-204 | Carries out `Inspect` on the held project. The project is refreshed exactly when an incremental build succeeds; otherwise it is unchanged. |
| BuildLoops.BuildLoop.RunBody | live-restart/src/main/java/io/helidon/dev/build/BuildLoop.java:146-204 | Carries out `Body`, keeping the counter and the run flag. |
| BuildLoops.BuildLoop.RunFinish | live-restart/src/main/java/io/helidon/dev/build/BuildLoop.java:206-216 | Carries out `Finish`: the sleep, `onCycleEnd` setting the run flag, and the counter. A `stop()` during the cycle (applied by `RunCycle`) survives only an interrupted sleep. |
| BuildLoops.BuildLoop.RunCycle | live-restart/src/main/java/io/helidon/dev/build/BuildLoop.java:145-216 | One iteration of the while loop leaves the loop in the state `Cycle` gives and appends that cycle's calls. |
| BuildLoops.BuildLoop.RunTurn | live-restart/src/main/java/io/helidon/dev/build/BuildLoop.java:145-216 | One turn of the while loop: the file system's activity reaches the held project first. The cycle then sees exactly what that project reports (`Saw`). A project kept through the cycle leaves it with the activity applied and, exactly when its incremental build succeeded, refreshed (`Carried`). The loop state and the calls made are those of `Cycle`. |
| BuildLoops.WitnessedSnoc | live-restart/src/main/java/io/helidon/dev/build/BuildLoop.java:145-217 | One more cycle, starting from the state the earlier cycles left, extends the per-cycle record `Witnessed`. That record holds what each cycle saw of its project and how the project was handed on. |
| BuildLoops.TurnExtends | live-restart/src/main/java/io/helidon/dev/build/BuildLoop.java:145-217 | A further turn of a loop that has not halted appends one `Cycle` to the run and extends `Witnessed`. Afterwards the held project is none, the same one or the one just supplied. |
| BuildLoops.BuildLoop.RunCycles | live-restart/src/main/java/io/helidon/dev/build/BuildLoop.java:145-217 | The while loop ends in the state `Run` gives for the inputs it consumed, and it stops early only when halted. The ghost `entering` and `held` outputs record, per cycle, the state it started from and the held project's contents. `Witnessed` ties them together: cycle k starts where the first k cycles of `Run` leave off, the first with the project held on entry. The observation of cycle k is what its project reports after that cycle's activity (files rescanned, build-file flag set). A project kept through a cycle reaches the next with that activity applied, refreshed exactly when its incremental build succeeded. |
| BuildLoops.BuildLoop.Loop | live-restart/src/main/java/io/helidon/dev/build/BuildLoop.java:140-220 | `loop()` makes the calls of `RunEvents(Steps(...))`: `onStarted`, the cycles, then `onStopped` once halted. It ends with the counter, flag and project `Steps` gives. The cycles that ran satisfy `Witnessed`, so each one's observation is what the held project reported after its activity. The padding after a halt is `Unobserved`. |
| BuildSteps.BuildStep.Clean | live-restart/src/main/java/io/helidon/dev/build/BuildStep.java:61-65 | The source root is never touched. A non-matching component is unchanged. A matching component loses its output files and nothing else. |
| BuildSteps.Matching | live-restart/src/main/java/io/helidon/dev/build/BuildStep.java:50-54 | The result holds exactly the components for which `test` holds. |
| BuildSteps.MatchingChanges | live-restart/src/main/java/io/helidon/dev/build/BuildStep.java:50-54 | The result holds exactly the changes of components for which `test` holds. |
| BuildSteps.BuildIgnoresNonMatching | live-restart/src/main/java/io/helidon/dev/build/BuildStep.java:67-74 | Building the components gives the same errors as building only the matching ones. |
| BuildSteps.IncrementalBuildIgnoresNonMatching | live-restart/src/main/java/io/helidon/dev/build/BuildStep.java:76-83 | An incremental build gives the same errors as one over only the matching changes. |
| BuildSteps.BuildSucceedsIff | live-restart/src/main/java/io/helidon/dev/build/BuildStep.java:67-74 | No errors exactly when every matching component builds cleanly. |
| BuildSteps.IncrementalBuildSucceedsIff | live-restart/src/main/java/io/helidon/dev/build/BuildStep.java:76-83 | No errors exactly when every matching change builds cleanly. |
| BuildSteps.NoApplicableChangesIsNoOp | live-restart/src/main/java/io/helidon/dev/build/BuildStep.java:76-83 | With no matching change, the incremental build reports success. |
| Projects.PendingChangesSound | live-restart/src/main/java/io/helidon/dev/build/BuildLoop.java:169-188 | Each change report names one of the project's components and that component's root on the requested side, with the root's non-empty pending changes. |
| Projects.PendingChangesComplete | live-restart/src/main/java/io/helidon/dev/build/BuildLoop.java:169-188 | Every root with pending changes is reported. |
| Projects.RootsOfTypeExact | live-restart/src/main/java/io/helidon/dev/build/Project.java:70-76 | `buildRoots(t)` holds exactly the components' roots of type t. It is empty when there are none. |
| Projects.RefreshedClearsPending | live-restart/src/main/java/io/helidon/dev/build/Project.java:40-45 | A refresh keeps every component and root and clears only their pending changes. Afterwards nothing is pending. |
| Projects.FullBuildSucceedsIff | live-restart/src/main/java/io/helidon/dev/build/Project.java:78-83 | A full build has no errors exactly when every step succeeds on every component it applies to. |
| Projects.IncrementalSucceedsIff | live-restart/src/main/java/io/helidon/dev/build/Project.java:85-90 | An incremental build has no errors exactly when every step succeeds on every change it applies to. |
| Projects.Project.constructor | live-restart/src/main/java/io/helidon/dev/build/Project.java:25-38 | The root, the build file and the steps are fixed at creation. Nothing has changed yet. |
| Projects.RescannedReports | live-restart/src/main/java/io/helidon/dev/build/BuildLoop.java:169-188 | Changes arriving between checks are added root by root. The components and their roots' types stay, no pending change is lost, and a root that received non-empty changes is reported by the next `sourceChanges()` or `binaryChanges()`. With nothing arriving, nothing changes. |
| Projects.Project.FilesChanged | live-restart/src/main/java/io/helidon/dev/build/BuildLoop.java:169-188 | The file system's activity since the last check: arrived changes are added to their roots' pending changes, a touched build file is noticed, and nothing else changes. |
| Projects.Project.Update | live-restart/src/main/java/io/helidon/dev/build/Project.java:40-45 | Refreshes when forced or when something is pending, and otherwise changes nothing. Either way, nothing is pending afterwards. |
| Projects.Project.Build | live-restart/src/main/java/io/helidon/dev/build/Project.java:78-83 | Collects every step's errors in order. Returns none exactly when all applicable step and component pairs succeed. |
| Projects.Project.IncrementalBuild | live-restart/src/main/java/io/helidon/dev/build/Project.java:85-90 | Collects every step's errors over the changes. Returns none exactly when all applicable step and change pairs succeed. |
| DevLoop.AtMostOneRunning | dev-loop/src/main/java/io/helidon/build/dev/mode/DevLoop.java:116-124 | In a valid state, the only application that can be running is the held one. |
| DevLoop.NextKeepsValid | dev-loop/src/main/java/io/helidon/build/dev/mode/DevLoop.java:95-142 | Every callback keeps the held executor the last one created. |
| DevLoop.ReplayRunsAtMostOne | dev-loop/src/main/java/io/helidon/build/dev/mode/DevLoop.java:95-142 | After any sequence of callbacks, at most one application is running. |
| DevLoop.ReadyLeavesOneRunning | dev-loop/src/main/java/io/helidon/build/dev/mode/DevLoop.java:116-124 | After `onReady`, exactly one application runs: the held one. A new executor is created exactly when none was held. |
| DevLoop.ReadyWhileRunningIsNoOp | dev-loop/src/main/java/io/helidon/build/dev/mode/DevLoop.java:120-122 | `onReady` with a running held application changes nothing. |
| DevLoop.StoppingCallbacksRelease | dev-loop/src/main/java/io/helidon/build/dev/mode/DevLoop.java:95-142 | `onChanged`, `onBuildFail` and `onStopped` leave no executor held and nothing running. `onChanged` records the change type first. |
| DevLoop.StopHeldStopsOnce | dev-loop/src/main/java/io/helidon/build/dev/mode/DevLoop.java:136-142 | `ensureStop` twice in a row equals once. It stops an executor only if one was held. |
| DevLoop.DevModeMonitor.constructor | dev-loop/src/main/java/io/helidon/build/dev/mode/DevLoop.java:82-84 | A new monitor holds no executor and has seen no change. |
| DevLoop.DevModeMonitor.OnStarted | dev-loop/src/main/java/io/helidon/build/dev/mode/DevLoop.java:86-88 | Changes nothing. |
| DevLoop.DevModeMonitor.OnCycleStart | dev-loop/src/main/java/io/helidon/build/dev/mode/DevLoop.java:90-92 | Changes nothing. |
| DevLoop.DevModeMonitor.OnBuildStart | dev-loop/src/main/java/io/helidon/build/dev/mode/DevLoop.java:100-102 | Changes nothing. |
| DevLoop.DevModeMonitor.EnsureStop | dev-loop/src/main/java/io/helidon/build/dev/mode/DevLoop.java:136-142 | The field is cleared, then the executor it held is stopped, as `StopHeld` describes. |
| DevLoop.DevModeMonitor.OnChanged | dev-loop/src/main/java/io/helidon/build/dev/mode/DevLoop.java:95-98 | Takes the state-machine step for `onChanged`. |
| DevLoop.DevModeMonitor.OnBuildFail | dev-loop/src/main/java/io/helidon/build/dev/mode/DevLoop.java:105-113 | Takes the state-machine step for `onBuildFail` and returns 1000. |
| DevLoop.DevModeMonitor.OnReady | dev-loop/src/main/java/io/helidon/build/dev/mode/DevLoop.java:116-124 | Takes the state-machine step for `onReady` and returns 1000. With no executor held, a fresh one is created for the given project; otherwise the held one is kept. |
| DevLoop.DevModeMonitor.OnCycleEnd | dev-loop/src/main/java/io/helidon/build/dev/mode/DevLoop.java:127-129 | Always answers to keep running. |
| DevLoop.DevModeMonitor.OnStopped | dev-loop/src/main/java/io/helidon/build/dev/mode/DevLoop.java:132-134 | Takes the state-machine step for `onStopped`. |
| Features.Execute | helidon-cli/impl/src/main/java/io/helidon/build/cli/impl/FeaturesCommand.java:66-82 | Adding happens exactly with a non-empty add list and neither `list` nor `all`. A listing happens exactly with an empty add list and only its own flag. Every other combination fails with the invalid-options message. |
| Features.NewDependency | helidon-cli/impl/src/main/java/io/helidon/build/cli/impl/FeaturesCommand.java:124-127 | The new dependency matches the feature dependency and has no other attributes. |
| Features.MergeProperties | helidon-cli/impl/src/main/java/io/helidon/build/cli/impl/FeaturesCommand.java:114-133 | Existing dependencies stay in place. Every feature dependency ends up present. Only new dependencies for listed entries are appended, and no duplicate appears. |
| Features.AddAllFeatureOrder | helidon-cli/impl/src/main/java/io/helidon/build/cli/impl/FeaturesCommand.java:105-135 | The feature list after an add is the old list followed by the add list's existing, not yet present features, in the add list's order, each once (the independent filter `Fresh`). |
| Features.AddAllFeatures | helidon-cli/impl/src/main/java/io/helidon/build/cli/impl/FeaturesCommand.java:101-138 | The feature list only grows. New entries are existing features from the add list that were not present before, each appended once. Every existing feature from the add list ends up in the list. |
| Features.AddAllDependencies | helidon-cli/impl/src/main/java/io/helidon/build/cli/impl/FeaturesCommand.java:113-133 | The POM keeps its dependencies in front and gains only dependencies of the listed features, with no duplicate. |
| Features.AddedFeaturesHaveDependencies | helidon-cli/impl/src/main/java/io/helidon/build/cli/impl/FeaturesCommand.java:113-134 | Every feature added to the list has all of its dependencies in the POM. |
| Features.AddAllFailures | helidon-cli/impl/src/main/java/io/helidon/build/cli/impl/FeaturesCommand.java:107-111 | Each feature that does not exist is reported once, in order, and processing goes on. |
| Features.AddAllPresent | helidon-cli/impl/src/main/java/io/helidon/build/cli/impl/FeaturesCommand.java:105-138 | Features already present, or that do not exist, change neither the features nor the POM. |
| Features.AddAllIdempotent | helidon-cli/impl/src/main/java/io/helidon/build/cli/impl/FeaturesCommand.java:105-138 | Adding the same list a second time changes neither the features nor the POM. |
| Features.FindFirst | helidon-cli/impl/src/main/java/io/helidon/build/cli/impl/FeaturesCommand.java:117-120 | Finds the first dependency with the same group, artifact and version (the version compared null-safely), and finds none exactly when no dependency matches. |
| Features.AddFeaturesTo | helidon-cli/impl/src/main/java/io/helidon/build/cli/impl/FeaturesCommand.java:94-148 | The POM ends up with the dependencies `AddAll` gives and is written back. The configuration gets the new feature list and is stored only if the list grew. The failures are reported. |
| Styles.Named | utils/src/main/java/io/helidon/build/util/Style.java:657-667 | An unknown name is an error ("Unknown style: " + name) exactly when it is required, and no style otherwise. A known name gives exactly its table entry when styles are enabled, and no style when they are not. |
| Styles.NamedOrNone | utils/src/main/java/io/helidon/build/util/Style.java:645-647 | `named(name)` is `named(name, false)`. |
| Styles.OfNames | utils/src/main/java/io/helidon/build/util/Style.java:703-711 | No names give no style. One name gives its lookup. Several names give the list of their lookups, in order. |
| Styles.OfAttributes | utils/src/main/java/io/helidon/build/util/Style.java:731-739 | No attributes give no style. One attribute gives its emphasis. Several give the list of their emphases, in order. |
| Styles.OfStyles | utils/src/main/java/io/helidon/build/util/Style.java:747-755 | No styles give no style. One style gives itself. Several give their list. |
| Styles.OfColor | utils/src/main/java/io/helidon/build/util/Style.java:721-723 | The hue with the given color, background and brightness. |
| Styles.ContainsEscape | utils/src/main/java/io/helidon/build/util/Style.java:763-765 | Holds exactly when ESC '[' occurs at some position. |
| Styles.IsStyled | utils/src/main/java/io/helidon/build/util/Style.java:763-765 | Holds exactly when the text is present and contains ESC '['. |
| Styles.StyleList.constructor | utils/src/main/java/io/helidon/build/util/Style.java:983-984 | A new list is empty. |
| Styles.StyleList.FromNames | utils/src/main/java/io/helidon/build/util/Style.java:986-990 | The list of the names' lookups, in order. |
| Styles.StyleList.FromAttributes | utils/src/main/java/io/helidon/build/util/Style.java:992-996 | The list of the attributes' emphases, in order. |
| Styles.StyleList.FromStyles | utils/src/main/java/io/helidon/build/util/Style.java:998-1002 | The list of the given styles. |
| Styles.StyleList.Add | utils/src/main/java/io/helidon/build/util/Style.java:1014-1017 | Appends the style. |
| Styles.StyleList.AddName | utils/src/main/java/io/helidon/build/util/Style.java:1004-1007 | Appends the name's lookup. |
| Styles.StyleList.AddAttribute | utils/src/main/java/io/helidon/build/util/Style.java:1009-1012 | Appends the attribute's emphasis. |
| Styles.StyleList.Pop | utils/src/main/java/io/helidon/build/util/Style.java:1023-1029 | An empty list gives no style and stays empty. Otherwise the last style is removed and returned. |
| StyleTable.DecodeKey | utils/src/main/java/io/helidon/build/util/Style.java:1076-1107 | Every alias key of a lower-case word decodes back to its marks, its kind (lower, upper or background) and its word. |
| StyleTable.KeysDiffer | utils/src/main/java/io/helidon/build/util/Style.java:1076-1107 | Aliases of different color names never collide, whatever their marks. |
| StyleTable.PutColor | utils/src/main/java/io/helidon/build/util/Style.java:1060-1108 | The body of the color loop puts the 22 aliases of one color, as `ColorStep` gives. |
| StyleTable.StylesByName | utils/src/main/java/io/helidon/build/util/Style.java:1050-1133 | `stylesByName` builds exactly `Table()`. |
| StyleTable.TableColorEntries | utils/src/main/java/io/helidon/build/util/Style.java:1060-1108 | For each color name except `bold`, each of its 22 aliases names the style the loop gives it. Neither a later color nor the emphasis puts overwrite it. The `negative` names are the negative emphasis, combined with bold or italic. |
| StyleTable.TableEmphasisEntries | utils/src/main/java/io/helidon/build/util/Style.java:1112-1130 | `bold`/`BOLD` are bold, `italic` is italic, and the seven bold-italic aliases (including `ITALIC`) are bold italic. The six attribute names name their emphases. |
| StyleTable.TableNoneEntries | utils/src/main/java/io/helidon/build/util/Style.java:1055-1056 | `none` and `bg_none` name no style, and nothing later overwrites them. |
| StyleTable.TableDomain | utils/src/main/java/io/helidon/build/util/Style.java:1050-1133 | The table holds exactly the two names of no style, the 22 aliases of every color except `bold`, and the 16 emphasis names. |
| StyleTable.ColorConstantsResolve | utils/src/main/java/io/helidon/build/util/Style.java:62-108 | Each color constant's name (`c`, `_c_`, `c!`, `C`, `_C_`, `C!`, `_C_!`) is known, so the required lookup does not fail. When styles are enabled it gives the color's style with the matching emphasis, and no style otherwise. |
| StyleTable.EmphasisConstantsResolve | utils/src/main/java/io/helidon/build/util/Style.java:57-60 | `plain`, `bold`, `italic` and `ITALIC` resolve to plain, bold, italic and bold italic. |

## Left out

- Threading in the build loop is not modelled: the executor, the future and its cancellation, the latches, and `waitForStopped`. A concurrent `stop()` is an input flag of the cycle (`stopDuringCycle`, `stopAfterCycle`).
- `Thread.sleep` is not performed. The delay is recorded as an event, and an interrupted sleep is an input.
- BuildLoops.BuildLoop.RunFinish: the cycle counter is an unbounded `nat`. The Java `AtomicInteger` would wrap after 2^31-1 cycles.
- BuildLoops.BuildLoop.Loop: the loop consumes a finite script of inputs. If the script runs out while the loop is still running, the model stops there, with `onStopped` not yet called.
- The loop's stdout/stderr consumers, which the Builder defaults to line-forwarding sinks, are not modelled. The monitor's own logic is modelled only for `DevModeMonitor`; other monitors are the per-cycle inputs.
- BuildLoops.BuildConfig: the Builder does not check the monitor (BuildLoop.java:329-337), so a loop built without one fails only later, when `loop()` calls `onStarted`. The configuration here has no monitor (the monitor's answers are cycle inputs), so that late failure is not captured.
- BuildLoops.Construct and BuildLoops.Inspect: the monitor's callbacks and `project.update()` are assumed not to throw. In the source, `catch (Throwable)` also catches a failure of `onReady` (BuildLoop.java:156, :197) or of `update()` (:196) and reports it through `onBuildFail`, and an IllegalArgumentException from `onReady` after a construction leaves the loop with the new project already stored and `clean` already cleared.
- Projects.Project.FilesChanged: how a root computes its changes against its last snapshot is not part of this model. Arriving changes are added to the pending ones kind by kind, so a path added and then removed between two checks stays recorded under both kinds.
- BuildSteps.BuildIgnoresNonMatching: `BuildStep.build` is abstract. The model defines it as the concatenated errors of the matching components, so ignoring non-matching components is an assumption about every implementation, and this lemma holds by construction.
- BuildSteps.IncrementalBuildIgnoresNonMatching: likewise for `incrementalBuild`, defined as the concatenated errors of the matching changes.
- BuildSteps.BuildSucceedsIff: the split of a step's errors per component is an assumption too. A step that reports errors for a batch of components as a whole cannot be represented.
- BuildSteps.IncrementalBuildSucceedsIff: likewise, errors are split per change.
- The project supplier, the build executor and the concrete project, root and component implementations are not part of this model. A step's build work is an abstract error function. `clean` on an output root is modelled as removing its files.
- `Project.classpath()` and the path semantics of `dependencies()` are not modelled. Dependencies are an opaque list of strings that updates keep.
- `Project.incrementalBuild()` is declared without arguments, while the loop calls `incrementalBuild(changes, out, err)`. The model takes the changes as an argument. Likewise the loop calls `project.update()` (BuildLoop.java:196), while `Project` declares only `update(boolean force)` (Project.java:45). The model takes that call as `update(false)`.
- Features.FindFirst: group and artifact ids are never null in the model. In the source, a POM dependency without a `<groupId>` or `<artifactId>` makes `equals` throw NullPointerException (FeaturesCommand.java:118-119), and `addFeatures` fails.
- BuildLoops.BuildLoop.RunIncremental: a failed incremental build is modelled as a non-empty error list, which stands for the Throwable `incrementalBuild` throws. The source discards the return value of `incrementalBuild` (BuildLoop.java:195) and reaches `onBuildFail` only through a thrown Throwable (BuildLoop.java:200-201). A build that returned errors without throwing would therefore go on to `update()` and `onReady` in the source, whereas the model reports `onBuildFail`.
- Log messages are not modelled: `onBuildFail`'s messages and the command's `logInfo` lines.
- Launching and stopping the application process (`ProjectExecutor`) is reduced to a running flag.
- `DevLoop.run`, `newLoop` and the Maven executors are not part of this model.
- The `features` command's listing actions are only the dispatch result. What they print is not modelled.
- Reading and writing pom.xml and loading and storing the project configuration are reduced to their effect on the in-memory lists and a store counter.
- A POM dependency's attributes other than group, artifact and version are one optional `scope`.
- Console rendering is not modelled: Jansi `apply`/`reset`, the escape output of hues and emphases, `strip`, `main`/`logTable` and the console installer.
- StyleTable.StylesByName: the table is a `map`, so the insertion order of the `LinkedHashMap` is not captured. Only which name maps to which style is.
- Styles.StyleList.constructor: styles are values, so object identity is not captured. A `StyleList` built from styles and one built from names compare equal when their contents are equal.
- Styles.Named: `ENABLED` is a parameter (`enabled`) rather than a global.
