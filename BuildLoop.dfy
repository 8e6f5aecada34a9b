/** The continuous build loop: one cycle at a time it (re)creates the project,
    reacts to binary, build-file or source changes, or reports readiness, and it
    reports every step to a monitor whose answers decide delays and continuation.

    The monitor, the project supplier and the interrupts of the worker thread are
    collaborators: their answers for one cycle are a CycleInput, and every monitor
    call (plus every supplier request) is recorded as an Event. */
module BuildLoops {
  import opened Wrappers
  import opened BuildModel
  import opened Projects

  /** The collaborator that creates projects; only its identity matters here. */
  datatype ProjectSupplier = ProjectSupplier(buildFileName: string)

  /** The options collected by BuildLoop.Builder (the output consumers are left out). */
  datatype Builder = Builder(
    projectDirectory: Option<string>,
    projectSupplier: Option<ProjectSupplier>,
    clean: bool,
    watchBinariesOnly: bool)

  /** A fresh builder: no directory, no supplier, both flags false. */
  const NewBuilder := Builder(None, None, false, false)

  /** The validated configuration of a loop. */
  datatype LoopConfig = LoopConfig(
    projectDirectory: string,
    projectSupplier: ProjectSupplier,
    clean: bool,
    watchBinariesOnly: bool)

  /** Builder.build: the directory is checked first, then the supplier. */
  function BuildConfig(b: Builder): (r: Result<LoopConfig, string>)
    ensures r.Ok? <==> b.projectDirectory.Some? && b.projectSupplier.Some?
    ensures b.projectDirectory.None? ==> r == Err("projectDirectory is required")
    ensures b.projectDirectory.Some? && b.projectSupplier.None? ==> r == Err("projectSupplier is required")
    ensures r.Ok? ==> r.value.projectDirectory == b.projectDirectory.value &&
                      r.value.projectSupplier == b.projectSupplier.value &&
                      r.value.clean == b.clean && r.value.watchBinariesOnly == b.watchBinariesOnly
  {
    if b.projectDirectory.None? then Err("projectDirectory is required")
    else if b.projectSupplier.None? then Err("projectSupplier is required")
    else Ok(LoopConfig(b.projectDirectory.value, b.projectSupplier.value, b.clean, b.watchBinariesOnly))
  }

  /** What ProjectSupplier.get did. */
  datatype SupplierResult =
    | Supplied(project: Project)
    | ConfigurationError          // IllegalArgumentException
    | SupplierInterrupted         // InterruptedException
    | SupplierFailed(error: string)  // any other Throwable

  /** The collaborators' answers during one cycle; each is consulted only on the path that asks for it. */
  datatype CycleInput = CycleInput(
    supplied: SupplierResult,   // ProjectSupplier.get
    buildInterrupted: bool,     // the incremental build throws InterruptedException
    readyDelay: int,            // what onReady returns
    failDelay: int,             // what onBuildFail returns
    sleepInterrupted: bool,     // the end-of-cycle sleep is interrupted
    stopDuringCycle: bool,      // stop() clears the run flag during the cycle (and interrupts the worker)
    keepRunning: bool,          // what onCycleEnd returns
    stopAfterCycle: bool,       // stop() clears the run flag after onCycleEnd answered
    activity: Activity)         // what the file system did before the cycle looks at the project

  /** A monitor call, or a request to the supplier, in the order the loop makes them. */
  datatype Event =
    | Started
    | CycleStart(cycle: nat)
    | ProjectRequested(cycle: nat, clean: bool)
    | Changed(cycle: nat, binary: bool)
    | BuildStart(cycle: nat, incremental: bool)
    | BuildFail(cycle: nat, errors: seq<string>)
    | Ready(cycle: nat, project: Project?)
    | Slept(millis: int)
    | CycleEnd(cycle: nat)
    | Stopped

  /** Why the loop left its body with `break`. */
  datatype Break = Rejected | Interrupted

  /** The loop's state between cycles: the project reference, the cycle counter,
      the worker's local clean flag and the run flag. */
  datatype LoopState = LoopState(project: Project?, cycle: nat, clean: bool, run: bool)

  /** What the loop learns from the held project at the start of a cycle. */
  datatype Observed = Observed(
    binaryChangesEmpty: bool,
    buildFilesChanged: bool,
    sourceChanges: seq<RootChanges>,
    buildErrors: seq<string>)

  /** The observation that stands for "no project held". */
  const Unobserved := Observed(true, false, [], [])

  /** The contents of the held project, if any. */
  function HeldView(p: Project?): Option<ProjectView>
    reads p
  {
    if p == null then None else Some(p.View())
  }

  /** What the loop learns from a project with the given contents: its binary changes,
      build-file flag, source changes, and the errors an incremental build of them gives. */
  function ObserveView(v: Option<ProjectView>): Observed {
    if v.None? then Unobserved
    else
      var changes := PendingChanges(v.value.components, Source);
      Observed(PendingChanges(v.value.components, Output) == [], v.value.buildFileChanged,
               changes, IncrementalErrors(v.value.steps, changes))
  }

  function Observe(p: Project?): Observed
    reads p
  {
    ObserveView(HeldView(p))
  }

  /** The held project's contents once the file system's activity has reached it. */
  function ArrivedAt(v: Option<ProjectView>, activity: Activity): Option<ProjectView> {
    if v.None? then None else Some(Arrived(v.value, activity))
  }

  datatype CycleResult = CycleResult(state: LoopState, events: seq<Event>, exit: Option<Break>)

  predicate IsFailure(e: Event) { e.BuildFail? }

  /** How the body of a cycle ended: by `break`, or with the delay to sleep before onCycleEnd. */
  datatype Outcome =
    | Broke(state: LoopState, events: seq<Event>, reason: Break)
    | Settled(state: LoopState, events: seq<Event>, delay: int)

  /** The events a cycle body may produce: no onStarted, onStopped, sleep or onCycleEnd. */
  predicate BodyEvent(e: Event) {
    !e.Started? && !e.Stopped? && !e.Slept? && !e.CycleEnd?
  }

  /** The body of one cycle, in the order the branches are tried:
      no project, binary-only watching, build-file change, source changes, idle. */
  function Body(watchBinariesOnly: bool, st: LoopState, obs: Observed, input: CycleInput): Outcome {
    if st.project == null then Construct(st, input) else Inspect(watchBinariesOnly, st, obs, input)
  }

  /** The cycle body without a project: ask the supplier for one. */
  function Construct(st: LoopState, input: CycleInput): Outcome {
    var n := st.cycle;
    match input.supplied
    case ConfigurationError => Broke(st, [CycleStart(n), ProjectRequested(n, st.clean)], Rejected)
    case SupplierInterrupted => Broke(st, [CycleStart(n), ProjectRequested(n, st.clean)], Interrupted)
    case Supplied(p) =>
      // onReady is handed the cycle-local reference, which is still null
      Settled(st.(project := p, clean := false),
              [CycleStart(n), ProjectRequested(n, st.clean), Ready(n, st.project)], input.readyDelay)
    case SupplierFailed(e) =>
      Settled(st, [CycleStart(n), ProjectRequested(n, st.clean), BuildFail(n, [e])], input.failDelay)
  }

  /** The cycle body with a project: binary-only watching, build-file change,
      source changes, idle. */
  function Inspect(watchBinariesOnly: bool, st: LoopState, obs: Observed, input: CycleInput): Outcome {
    var n := st.cycle;
    if watchBinariesOnly then
      if obs.binaryChangesEmpty then Settled(st, [CycleStart(n), Ready(n, st.project)], input.readyDelay)
      else Settled(st.(project := null), [CycleStart(n), Changed(n, true)], 0)
    else if obs.buildFilesChanged then
      Settled(st.(project := null), [CycleStart(n), Changed(n, false)], 0)
    else if obs.sourceChanges == [] then
      Settled(st, [CycleStart(n), Ready(n, st.project)], input.readyDelay)
    else if input.buildInterrupted then
      Broke(st, [CycleStart(n), Changed(n, false), BuildStart(n, true)], Interrupted)
    else if obs.buildErrors == [] then
      Settled(st, [CycleStart(n), Changed(n, false), BuildStart(n, true), Ready(n, st.project)], input.readyDelay)
    else
      Settled(st, [CycleStart(n), Changed(n, false), BuildStart(n, true), BuildFail(n, obs.buildErrors)], input.failDelay)
  }

  /** The end of a cycle: sleep if the delay is positive, then onCycleEnd, whose answer
      becomes the run flag, and the cycle counter goes up by one. The events are the
      ones this part of the cycle adds. */
  function Finish(st: LoopState, delay: int, input: CycleInput): CycleResult {
    var next := st.(run := input.keepRunning && !input.stopAfterCycle, cycle := st.cycle + 1);
    if delay <= 0 then CycleResult(next, [CycleEnd(st.cycle)], None)
    else if input.sleepInterrupted then CycleResult(AfterBreak(st, input), [Slept(delay)], Some(Interrupted))
    else CycleResult(next, [Slept(delay), CycleEnd(st.cycle)], None)
  }

  /** The state a cycle leaves by `break`: nothing is written, but a stop() made during
      the cycle has cleared the run flag, and onCycleEnd no longer overwrites it. */
  function AfterBreak(st: LoopState, input: CycleInput): LoopState {
    st.(run := st.run && !input.stopDuringCycle)
  }

  /** One iteration of the loop body. */
  function Cycle(watchBinariesOnly: bool, st: LoopState, obs: Observed, input: CycleInput): CycleResult {
    Close(Body(watchBinariesOnly, st, obs, input), input)
  }

  /** A cycle that broke out ends there; one that settled sleeps and calls onCycleEnd. */
  function Close(b: Outcome, input: CycleInput): CycleResult {
    match b
    case Broke(s, events, why) => CycleResult(AfterBreak(s, input), events, Some(why))
    case Settled(s, events, delay) =>
      var f := Finish(s, delay, input);
      CycleResult(f.state, events + f.events, f.exit)
  }

  /** The body of a cycle starts with onCycleStart, does not sleep, end the cycle, start
      or stop the loop, keeps the counter and the run flag, and holds no project but
      the old one or a freshly supplied one. */
  lemma BodyShape(watch: bool, st: LoopState, obs: Observed, input: CycleInput)
    ensures var b := Body(watch, st, obs, input);
      |b.events| >= 2 && b.events[0] == CycleStart(st.cycle) &&
      (forall e :: e in b.events ==> BodyEvent(e)) &&
      b.state.cycle == st.cycle && b.state.run == st.run &&
      (b.state.project == null || b.state.project == st.project ||
       (st.project == null && input.supplied == Supplied(b.state.project))) &&
      b.state.clean == (st.clean && !(st.project == null && input.supplied.Supplied?))
  {
  }

  /** The end of a cycle sleeps exactly when the delay is positive, breaks only when that
      sleep is interrupted, and otherwise calls onCycleEnd, which sets the run flag, and
      moves the counter on. */
  lemma FinishShape(st: LoopState, delay: int, input: CycleInput)
    ensures var r := Finish(st, delay, input);
      r.state.project == st.project && r.state.clean == st.clean &&
      |r.events| >= 1 && (r.events[0] == Slept(delay) <==> delay > 0) &&
      (r.exit.Some? <==> delay > 0 && input.sleepInterrupted) &&
      (r.exit.Some? ==> r.state == st.(run := st.run && !input.stopDuringCycle) &&
                        r.exit == Some(Interrupted) && r.events == [Slept(delay)]) &&
      (r.exit.None? ==> r.state.cycle == st.cycle + 1 && r.state.run == (input.keepRunning && !input.stopAfterCycle) &&
                        r.events[|r.events| - 1] == CycleEnd(st.cycle) &&
                        CycleEnds(r.events) == [st.cycle]) &&
      (forall e :: e in r.events ==> e == Slept(delay) || e == CycleEnd(st.cycle))
  {
    var r := Finish(st, delay, input);
    var ended := [CycleEnd(st.cycle)];
    assert ended[1..] == [];
    assert CycleEnds(ended) == [st.cycle] + CycleEnds([]);
    if delay <= 0 {
      assert r.events == ended;
    } else if input.sleepInterrupted {
      assert r.events == [Slept(delay)];
    } else {
      assert r.events == [Slept(delay), CycleEnd(st.cycle)];
      assert r.events[1..] == ended;
    }
  }

  /** One cycle: it starts with onCycleStart and never calls onStarted or onStopped; a
      cycle that does not break ends with onCycleEnd, moves the counter on by one and
      takes its run flag from onCycleEnd; one that breaks never reaches onCycleEnd, keeps
      the counter, and keeps the run flag unless a stop() during the cycle cleared it.
      The project held afterwards is none, the old one or the one just supplied, and the
      clean flag is spent by a successful construction. */
  lemma CycleShape(watch: bool, st: LoopState, obs: Observed, input: CycleInput)
    ensures var r := Cycle(watch, st, obs, input);
      |r.events| >= 2 && r.events[0] == CycleStart(st.cycle) &&
      Started !in r.events && Stopped !in r.events &&
      (r.exit.None? ==> r.state.cycle == st.cycle + 1 && r.events[|r.events| - 1] == CycleEnd(st.cycle) &&
                        r.state.run == (input.keepRunning && !input.stopAfterCycle)) &&
      (r.exit.Some? ==> r.state.cycle == st.cycle && r.state.run == (st.run && !input.stopDuringCycle) &&
                        CycleEnd(st.cycle) !in r.events) &&
      (r.state.project == null || r.state.project == st.project ||
       (st.project == null && input.supplied == Supplied(r.state.project))) &&
      r.state.clean == (st.clean && !(st.project == null && input.supplied.Supplied?))
  {
    var b := Body(watch, st, obs, input);
    BodyShape(watch, st, obs, input);
    assert b.events[0] in b.events;
    if b.Settled? {
      FinishShape(b.state, b.delay, input);
      var f := Finish(b.state, b.delay, input);
      assert forall e :: e in b.events + f.events ==> e in b.events || e in f.events;
    }
  }

  /** A cycle ends holding no project, the project it started with, or the one just supplied. */
  lemma CycleHoldsProject(watch: bool, st: LoopState, obs: Observed, input: CycleInput)
    ensures var p := Cycle(watch, st, obs, input).state.project;
      p == null || p == st.project || (st.project == null && input.supplied == Supplied(p))
  {
    BodyShape(watch, st, obs, input);
  }

  /** Whether the cycle takes the incremental path and its build succeeds. */
  predicate IncrementalSucceeds(watchBinariesOnly: bool, obs: Observed, input: CycleInput) {
    !watchBinariesOnly && !obs.buildFilesChanged && obs.sourceChanges != [] &&
    !input.buildInterrupted && obs.buildErrors == []
  }

  // ----- Branch priority -----

  /** Without a project the cycle always constructs one, whatever the project
      would have reported and whatever the watch mode. */
  lemma MissingProjectConstructs(watch: bool, st: LoopState, obs: Observed, other: Observed, input: CycleInput)
    requires st.project == null
    ensures Cycle(watch, st, obs, input) == Cycle(!watch, st, other, input)
    ensures Cycle(watch, st, obs, input).events[1] == ProjectRequested(st.cycle, st.clean)
  {
  }

  /** In binary-only mode the build file and the sources are never consulted. */
  lemma WatchModeBeforeBuildFiles(st: LoopState, obs: Observed, input: CycleInput,
                                  buildFilesChanged: bool, sources: seq<RootChanges>, errors: seq<string>)
    requires st.project != null
    ensures Cycle(true, st, obs, input) ==
            Cycle(true, st, obs.(buildFilesChanged := buildFilesChanged, sourceChanges := sources, buildErrors := errors), input)
  {
  }

  /** A build-file change wins over pending source changes: the project is dropped,
      onChanged is reported, and the cycle ends at once with no sleep. */
  lemma BuildFileChangeBeforeSources(st: LoopState, obs: Observed, input: CycleInput,
                                     sources: seq<RootChanges>, errors: seq<string>)
    requires st.project != null && obs.buildFilesChanged
    ensures Cycle(false, st, obs, input) == Cycle(false, st, obs.(sourceChanges := sources, buildErrors := errors), input)
    ensures var r := Cycle(false, st, obs, input);
      r.exit.None? && r.state.project == null &&
      r.events == [CycleStart(st.cycle), Changed(st.cycle, false), CycleEnd(st.cycle)]
  {
  }

  /** In binary-only mode a binary change drops the project the same way. */
  lemma BinaryChangeRecreates(st: LoopState, obs: Observed, input: CycleInput)
    requires st.project != null && !obs.binaryChangesEmpty
    ensures var r := Cycle(true, st, obs, input);
      r.exit.None? && r.state.project == null &&
      r.events == [CycleStart(st.cycle), Changed(st.cycle, true), CycleEnd(st.cycle)]
  {
  }

  /** With nothing changed the cycle only reports readiness with the held project. */
  lemma IdleReportsReady(watch: bool, st: LoopState, obs: Observed, input: CycleInput)
    requires st.project != null
    requires if watch then obs.binaryChangesEmpty else !obs.buildFilesChanged && obs.sourceChanges == []
    ensures var r := Cycle(watch, st, obs, input);
      r.events[1] == Ready(st.cycle, st.project) && r.state.project == st.project &&
      forall e :: e in r.events ==> !e.BuildStart? && !e.Changed? && !IsFailure(e)
  {
  }

  // ----- Recovery -----

  /** A failed construction reports onBuildFail and leaves no project, so the next
      cycle constructs again with the same clean flag. */
  lemma ConstructionFailureRetries(watch: bool, st: LoopState, obs: Observed, input: CycleInput,
                                   nextObs: Observed, next: CycleInput)
    requires st.project == null && input.supplied.SupplierFailed?
    ensures var r := Cycle(watch, st, obs, input);
      r.state.project == null && r.state.clean == st.clean &&
      BuildFail(st.cycle, [input.supplied.error]) in r.events &&
      Cycle(watch, r.state, nextObs, next).events[1] == ProjectRequested(r.state.cycle, st.clean)
  {
    var r := Cycle(watch, st, obs, input);
    MissingProjectConstructs(watch, r.state, nextObs, nextObs, next);
  }

  /** A configuration error or an interruption during construction ends the loop:
      neither onBuildFail nor onCycleEnd is called, the cycle number, project and clean
      flag stay, and the run flag is cleared only by a stop() during the cycle. */
  lemma ConstructionRejectedOrInterruptedEnds(watch: bool, st: LoopState, obs: Observed, input: CycleInput)
    requires st.project == null && (input.supplied.ConfigurationError? || input.supplied.SupplierInterrupted?)
    ensures var r := Cycle(watch, st, obs, input);
      r.exit == Some(if input.supplied.ConfigurationError? then Rejected else Interrupted) &&
      r.state == st.(run := st.run && !input.stopDuringCycle) &&
      forall e :: e in r.events ==> !IsFailure(e) && !e.CycleEnd? && !e.Ready?
  {
  }

  /** An interrupted incremental build ends the loop without onBuildFail or onCycleEnd,
      keeping the project; the run flag is cleared only by a stop() during the cycle. */
  lemma BuildInterruptedEnds(st: LoopState, obs: Observed, input: CycleInput)
    requires st.project != null && !obs.buildFilesChanged && obs.sourceChanges != [] && input.buildInterrupted
    ensures var r := Cycle(false, st, obs, input);
      r.exit == Some(Interrupted) && r.state == st.(run := st.run && !input.stopDuringCycle) &&
      forall e :: e in r.events ==> !IsFailure(e) && !e.CycleEnd?
  {
  }

  /** A failed incremental build keeps the very same project, and while the
      project reports the same changes the next cycle builds incrementally again. */
  lemma IncrementalFailureKeepsProject(st: LoopState, obs: Observed, input: CycleInput, next: CycleInput)
    requires st.project != null && !obs.buildFilesChanged && obs.sourceChanges != []
    requires !input.buildInterrupted && obs.buildErrors != []
    ensures var r := Cycle(false, st, obs, input);
      r.state.project == st.project && BuildFail(st.cycle, obs.buildErrors) in r.events &&
      Cycle(false, r.state, obs, next).events[2] == BuildStart(r.state.cycle, true)
  {
  }

  /** onReady after a successful construction receives null, not the new project,
      while the new project is kept for the next cycle. */
  lemma ReadyAfterConstructionGetsNull(watch: bool, st: LoopState, obs: Observed, input: CycleInput)
    requires st.project == null && input.supplied.Supplied?
    ensures var r := Cycle(watch, st, obs, input);
      r.events[2] == Ready(st.cycle, null) && r.state.project == input.supplied.project && !r.state.clean
  {
  }

  // ----- Several cycles -----

  datatype Trace = Trace(state: LoopState, events: seq<Event>, exit: Option<Break>)

  /** The loop has left its body: by `break`, or because the run flag is false. */
  predicate Halted(t: Trace) {
    t.exit.Some? || !t.state.run
  }

  /** Something that runs one cycle from a state, given what the project reports
      and what the collaborators answer. */
  type Stepper = (LoopState, Observed, CycleInput) -> CycleResult

  /** One turn of the while loop: a halted loop stays as it is, otherwise one more cycle runs. */
  function Advance(step: Stepper, t: Trace, o: Observed, input: CycleInput): Trace {
    if Halted(t) then t
    else
      var r := step(t.state, o, input);
      Trace(r.state, t.events + r.events, r.exit)
  }

  /** The turns of the loop for the given inputs, the i-th cycle seeing observed[i]. */
  function Run(step: Stepper, st: LoopState, observed: seq<Observed>, inputs: seq<CycleInput>): Trace
    requires |observed| == |inputs|
  {
    if inputs == [] then Trace(st, [], None)
    else
      var k := |inputs| - 1;
      Advance(step, Run(step, st, observed[..k], inputs[..k]), observed[k], inputs[k])
  }

  /** The cycle of a loop in the given watch mode. */
  function CycleOf(watchBinariesOnly: bool): Stepper {
    (st: LoopState, obs: Observed, input: CycleInput) => Cycle(watchBinariesOnly, st, obs, input)
  }

  /** The cycles the loop runs for the given inputs. Once the loop has halted, later
      inputs are not consumed. */
  function Steps(watchBinariesOnly: bool, st: LoopState, observed: seq<Observed>, inputs: seq<CycleInput>): Trace
    requires |observed| == |inputs|
  {
    Run(CycleOf(watchBinariesOnly), st, observed, inputs)
  }

  /** All the monitor calls of one run of loop(): onStarted, the cycles, and
      onStopped once the loop has halted. */
  function RunEvents(t: Trace): seq<Event> {
    [Started] + t.events + (if Halted(t) then [Stopped] else [])
  }

  /** The cycle numbers passed to onCycleEnd, in order. */
  function CycleEnds(events: seq<Event>): seq<nat> {
    if events == [] then []
    else (if events[0].CycleEnd? then [events[0].cycle] else []) + CycleEnds(events[1..])
  }

  /** The number of times an event occurs. */
  function Occurrences(events: seq<Event>, e: Event): nat {
    if events == [] then 0 else (if events[0] == e then 1 else 0) + Occurrences(events[1..], e)
  }

  /** start, start + 1, ..., start + count - 1. */
  function Range(start: nat, count: nat): (r: seq<nat>)
    ensures |r| == count && forall i :: 0 <= i < count ==> r[i] == start + i
  {
    if count == 0 then [] else Range(start, count - 1) + [start + count - 1]
  }

  lemma {:induction false} CycleEndsAppend(a: seq<Event>, b: seq<Event>)
    ensures CycleEnds(a + b) == CycleEnds(a) + CycleEnds(b)
  {
    if a != [] {
      assert (a + b)[1..] == a[1..] + b;
      CycleEndsAppend(a[1..], b);
    } else {
      assert a + b == b;
    }
  }

  lemma {:induction false} OccurrencesAppend(a: seq<Event>, b: seq<Event>, e: Event)
    ensures Occurrences(a + b, e) == Occurrences(a, e) + Occurrences(b, e)
  {
    if a != [] {
      assert (a + b)[1..] == a[1..] + b;
      OccurrencesAppend(a[1..], b, e);
    } else {
      assert a + b == b;
    }
  }

  lemma {:induction false} OccurrencesAbsent(a: seq<Event>, e: Event)
    requires e !in a
    ensures Occurrences(a, e) == 0
  {
    if a != [] {
      OccurrencesAbsent(a[1..], e);
    }
  }

  lemma {:induction false} NoCycleEnds(events: seq<Event>)
    requires forall e :: e in events ==> !e.CycleEnd?
    ensures CycleEnds(events) == []
  {
    if events != [] {
      assert events[0] in events;
      NoCycleEnds(events[1..]);
    }
  }

  /** One cycle calls onCycleEnd once with its own number, or not at all when it breaks. */
  lemma CycleEndsOfCycle(watch: bool, st: LoopState, obs: Observed, input: CycleInput)
    ensures var r := Cycle(watch, st, obs, input);
      CycleEnds(r.events) == if r.exit.None? then [st.cycle] else []
  {
    var b := Body(watch, st, obs, input);
    BodyShape(watch, st, obs, input);
    NoCycleEnds(b.events);
    if b.Settled? {
      var f := Finish(b.state, b.delay, input);
      FinishShape(b.state, b.delay, input);
      CycleEndsAppend(b.events, f.events);
      if f.exit.Some? {
        NoCycleEnds(f.events);
      }
    }
  }

  /** What the multi-cycle properties need of a single cycle. */
  predicate WellShaped(st: LoopState, r: CycleResult) {
    Started !in r.events && Stopped !in r.events &&
    CycleEnds(r.events) == (if r.exit.None? then [st.cycle] else []) &&
    r.state.cycle == (if r.exit.None? then st.cycle + 1 else st.cycle)
  }

  lemma CycleIsWellShaped(watch: bool)
    ensures forall st, obs, input :: WellShaped(st, CycleOf(watch)(st, obs, input))
  {
    forall st, obs, input ensures WellShaped(st, CycleOf(watch)(st, obs, input)) {
      CycleShape(watch, st, obs, input);
      CycleEndsOfCycle(watch, st, obs, input);
    }
  }

  /** Running one more cycle is one more turn of the loop. */
  lemma RunSnoc(step: Stepper, st: LoopState, observed: seq<Observed>, inputs: seq<CycleInput>,
                o: Observed, input: CycleInput)
    requires |observed| == |inputs|
    ensures Run(step, st, observed + [o], inputs + [input]) == Advance(step, Run(step, st, observed, inputs), o, input)
  {
    assert (observed + [o])[..|inputs|] == observed;
    assert (inputs + [input])[..|inputs|] == inputs;
  }

  lemma {:induction false} RunHaltedIsFinal(step: Stepper, st: LoopState, observed: seq<Observed>, inputs: seq<CycleInput>,
                                            moreObserved: seq<Observed>, moreInputs: seq<CycleInput>)
    requires |observed| == |inputs| && |moreObserved| == |moreInputs|
    requires Halted(Run(step, st, observed, inputs))
    ensures Run(step, st, observed + moreObserved, inputs + moreInputs) == Run(step, st, observed, inputs)
    decreases |moreInputs|
  {
    if moreInputs == [] {
      assert observed + moreObserved == observed;
      assert inputs + moreInputs == inputs;
    } else {
      var k := |moreInputs| - 1;
      RunHaltedIsFinal(step, st, observed, inputs, moreObserved[..k], moreInputs[..k]);
      RunSnoc(step, st, observed + moreObserved[..k], inputs + moreInputs[..k], moreObserved[k], moreInputs[k]);
      assert observed + moreObserved == (observed + moreObserved[..k]) + [moreObserved[k]];
      assert inputs + moreInputs == (inputs + moreInputs[..k]) + [moreInputs[k]];
    }
  }

  /** What the loop has done so far: onCycleEnd for consecutive numbers from where
      it started, and no onStarted or onStopped among the cycles' calls. */
  predicate Consecutive(st: LoopState, t: Trace) {
    t.state.cycle >= st.cycle && CycleEnds(t.events) == Range(st.cycle, t.state.cycle - st.cycle) &&
    Started !in t.events && Stopped !in t.events
  }

  lemma AdvanceKeepsConsecutive(step: Stepper, st: LoopState, t: Trace, o: Observed, input: CycleInput)
    requires Consecutive(st, t) && WellShaped(t.state, step(t.state, o, input))
    ensures Consecutive(st, Advance(step, t, o, input))
  {
    if !Halted(t) {
      var r := step(t.state, o, input);
      var k := t.state.cycle - st.cycle;
      assert Advance(step, t, o, input) == Trace(r.state, t.events + r.events, r.exit);
      CycleEndsAppend(t.events, r.events);
      assert Started !in t.events + r.events && Stopped !in t.events + r.events;
      if r.exit.None? {
        assert Range(st.cycle, k + 1) == Range(st.cycle, k) + [t.state.cycle];
      } else {
        assert CycleEnds(t.events) + CycleEnds(r.events) == CycleEnds(t.events);
      }
    }
  }

  lemma {:induction false} RunCycleNumbers(step: Stepper, st: LoopState, observed: seq<Observed>, inputs: seq<CycleInput>)
    requires |observed| == |inputs|
    requires forall st, obs, input :: WellShaped(st, step(st, obs, input))
    ensures Consecutive(st, Run(step, st, observed, inputs))
  {
    if inputs != [] {
      var k := |inputs| - 1;
      RunCycleNumbers(step, st, observed[..k], inputs[..k]);
      var prev := Run(step, st, observed[..k], inputs[..k]);
      AdvanceKeepsConsecutive(step, st, prev, observed[k], inputs[k]);
    }
  }

  /** Once halted, further inputs change nothing: in particular no cycle follows
      a cycle whose onCycleEnd answered false. */
  lemma HaltedIsFinal(watch: bool, st: LoopState, observed: seq<Observed>, inputs: seq<CycleInput>,
                      moreObserved: seq<Observed>, moreInputs: seq<CycleInput>)
    requires |observed| == |inputs| && |moreObserved| == |moreInputs|
    requires Halted(Steps(watch, st, observed, inputs))
    ensures Steps(watch, st, observed + moreObserved, inputs + moreInputs) == Steps(watch, st, observed, inputs)
  {
    RunHaltedIsFinal(CycleOf(watch), st, observed, inputs, moreObserved, moreInputs);
  }

  /** onCycleEnd sees consecutive cycle numbers, starting where the loop stood, and the
      counter ends one past the last of them. */
  lemma CycleNumbersConsecutive(watch: bool, st: LoopState, observed: seq<Observed>, inputs: seq<CycleInput>)
    requires |observed| == |inputs|
    ensures var t := Steps(watch, st, observed, inputs);
      t.state.cycle >= st.cycle && CycleEnds(t.events) == Range(st.cycle, t.state.cycle - st.cycle)
  {
    CycleIsWellShaped(watch);
    RunCycleNumbers(CycleOf(watch), st, observed, inputs);
  }

  /** onStarted is called once, first; onStopped is called exactly once, last, when
      the loop halts, and not at all while it is still running. */
  lemma StartedAndStoppedOnce(watch: bool, st: LoopState, observed: seq<Observed>, inputs: seq<CycleInput>)
    requires |observed| == |inputs|
    ensures var t := Steps(watch, st, observed, inputs);
      var events := RunEvents(t);
      events[0] == Started && Occurrences(events, Started) == 1 &&
      Occurrences(events, Stopped) == (if Halted(t) then 1 else 0) &&
      (Halted(t) ==> events[|events| - 1] == Stopped)
  {
    var t := Steps(watch, st, observed, inputs);
    CycleIsWellShaped(watch);
    RunCycleNumbers(CycleOf(watch), st, observed, inputs);
    var tail := if Halted(t) then [Stopped] else [];
    OccurrencesAppend([Started] + t.events, tail, Started);
    OccurrencesAppend([Started] + t.events, tail, Stopped);
    OccurrencesAppend([Started], t.events, Started);
    OccurrencesAppend([Started], t.events, Stopped);
    OccurrencesAbsent(t.events, Started);
    OccurrencesAbsent(t.events, Stopped);
  }

  /** The loop's invariant step: one more cycle of a loop that has not halted. */
  lemma RunOneMore(watch: bool, st: LoopState, observed: seq<Observed>, inputs: seq<CycleInput>, i: nat, o: Observed)
    requires |observed| == i < |inputs|
    requires !Halted(Run(CycleOf(watch), st, observed, inputs[..i]))
    ensures var prev := Run(CycleOf(watch), st, observed, inputs[..i]);
      var r := Cycle(watch, prev.state, o, inputs[i]);
      Run(CycleOf(watch), st, observed + [o], inputs[..i + 1]) == Trace(r.state, prev.events + r.events, r.exit)
  {
    RunSnoc(CycleOf(watch), st, observed, inputs[..i], o, inputs[i]);
    assert inputs[..i + 1] == inputs[..i] + [inputs[i]];
  }

  /** Observations for the inputs a halted loop no longer consumes. */
  function Padding(n: nat): (r: seq<Observed>)
    ensures |r| == n
  {
    seq(n, _ => Unobserved)
  }

  /** A loop that stopped before the end of its inputs is described by the inputs it consumed. */
  lemma StepsPadded(watch: bool, st: LoopState, observed: seq<Observed>, inputs: seq<CycleInput>)
    requires |observed| <= |inputs|
    requires |observed| < |inputs| ==> Halted(Run(CycleOf(watch), st, observed, inputs[..|observed|]))
    ensures Steps(watch, st, observed + Padding(|inputs| - |observed|), inputs) ==
            Run(CycleOf(watch), st, observed, inputs[..|observed|])
  {
    var i := |observed|;
    if i < |inputs| {
      RunHaltedIsFinal(CycleOf(watch), st, observed, inputs[..i], Padding(|inputs| - i), inputs[i..]);
      assert inputs[..i] + inputs[i..] == inputs;
    } else {
      assert inputs[..i] == inputs;
      assert observed + Padding(0) == observed;
    }
  }

  /** The log of a run: onStarted, the cycles' calls, then onStopped once halted. */
  lemma RunEventsOf(before: seq<Event>, t: Trace, tail: seq<Event>)
    requires tail == if Halted(t) then [Stopped] else []
    ensures before + [Started] + t.events + tail == before + RunEvents(t)
  {
    AppendAssociates([Started], t.events, tail);
    AppendAssociates(before, [Started], t.events);
    AppendAssociates(before, [Started] + t.events, tail);
  }

  /** The project held after a cycle was held before it, or is none, or was just supplied. */
  lemma SuppliedProjectsHold(inputs: seq<CycleInput>, i: nat, before: Project?, after: Project?)
    requires i < |inputs|
    requires after == null || after == before || (before == null && inputs[i].supplied == Supplied(after))
    ensures after == null || after == before || after in SuppliedProjects(inputs)
  {
  }

  lemma AppendAssociates(a: seq<Event>, b: seq<Event>, c: seq<Event>)
    ensures (a + b) + c == a + (b + c)
  {
  }

  /** The projects a run of the loop may come to hold. */
  function SuppliedProjects(inputs: seq<CycleInput>): set<Project> {
    set i | 0 <= i < |inputs| && inputs[i].supplied.Supplied? :: inputs[i].supplied.project
  }

  /** A cycle whose held project had the contents h before the file system's activity
      observes o: what that project reports once the activity has reached it. */
  ghost predicate Saw(h: Option<ProjectView>, input: CycleInput, o: Observed) {
    o == ObserveView(ArrivedAt(h, input.activity))
  }

  /** A cycle that started holding the project of e, with contents h, and left the same
      project held in e2, hands it on with the cycle's activity applied, refreshed exactly
      when its incremental build succeeded: h2. */
  ghost predicate Carried(watch: bool, e: LoopState, h: Option<ProjectView>, o: Observed, input: CycleInput,
                          e2: LoopState, h2: Option<ProjectView>) {
    e.project != null && e2.project == e.project && h.Some? ==>
      h2 == Some(Kept(Arrived(h.value, input.activity), IncrementalSucceeds(watch, o, input)))
  }

  /** What the loop saw, cycle by cycle: entering[k] is the state cycle k starts from and
      held[k] the held project's contents before the file system's activity of that cycle.
      Cycle k starts from the state the first k cycles of the run leave, the first one
      with the contents start; a project is held exactly when the state names one; each
      cycle observes its project after its activity; and a project kept through a cycle
      is handed on to the next as Carried says. */
  ghost predicate Witnessed(watch: bool, st: LoopState, start: Option<ProjectView>, observed: seq<Observed>,
                            inputs: seq<CycleInput>, entering: seq<LoopState>, held: seq<Option<ProjectView>>)
  {
    |entering| == |held| == |observed| <= |inputs| &&
    (|observed| > 0 ==> held[0] == start) &&
    (forall k :: 0 <= k < |observed| ==>
       entering[k] == Run(CycleOf(watch), st, observed[..k], inputs[..k]).state &&
       (held[k].None? <==> entering[k].project == null) && Saw(held[k], inputs[k], observed[k])) &&
    (forall k :: 0 <= k < |observed| - 1 ==>
       Carried(watch, entering[k], held[k], observed[k], inputs[k], entering[k + 1], held[k + 1]))
  }

  /** One more cycle extends what the loop saw. */
  lemma WitnessedSnoc(watch: bool, st: LoopState, start: Option<ProjectView>, observed: seq<Observed>,
                      inputs: seq<CycleInput>, entering: seq<LoopState>, held: seq<Option<ProjectView>>,
                      e: LoopState, h: Option<ProjectView>, o: Observed)
    requires Witnessed(watch, st, start, observed, inputs, entering, held) && |observed| < |inputs|
    requires e == Run(CycleOf(watch), st, observed, inputs[..|observed|]).state
    requires |observed| == 0 ==> h == start
    requires (h.None? <==> e.project == null) && Saw(h, inputs[|observed|], o)
    requires |observed| > 0 ==>
      var k := |observed| - 1;
      Carried(watch, entering[k], held[k], observed[k], inputs[k], e, h)
    ensures Witnessed(watch, st, start, observed + [o], inputs, entering + [e], held + [h])
  {
    var os, es, hs := observed + [o], entering + [e], held + [h];
    forall k | 0 <= k < |os|
      ensures es[k] == Run(CycleOf(watch), st, os[..k], inputs[..k]).state
      ensures (hs[k].None? <==> es[k].project == null) && Saw(hs[k], inputs[k], os[k])
    {
      assert os[..k] == observed[..k];
    }
    forall k | 0 <= k < |os| - 1
      ensures Carried(watch, es[k], hs[k], os[k], inputs[k], es[k + 1], hs[k + 1])
    {
      if k + 1 < |observed| {
        assert es[k + 1] == entering[k + 1] && hs[k + 1] == held[k + 1];
      }
    }
  }

  /** One more turn of a loop that has not halted: the run gains the cycle, what the loop
      saw gains its observation, and the project held afterwards is none, the old one or
      the one just supplied. */
  lemma TurnExtends(watch: bool, st: LoopState, start: Option<ProjectView>, observed: seq<Observed>,
                    inputs: seq<CycleInput>, entering: seq<LoopState>, held: seq<Option<ProjectView>>,
                    e: LoopState, h: Option<ProjectView>, o: Observed)
    requires Witnessed(watch, st, start, observed, inputs, entering, held) && |observed| < |inputs|
    requires var t := Run(CycleOf(watch), st, observed, inputs[..|observed|]); t.state == e && !Halted(t)
    requires |observed| == 0 ==> h == start
    requires |observed| > 0 ==>
      var k := |observed| - 1;
      Carried(watch, entering[k], held[k], observed[k], inputs[k], e, h)
    requires (h.None? <==> e.project == null) && Saw(h, inputs[|observed|], o)
    ensures var i := |observed|;
      var t := Run(CycleOf(watch), st, observed, inputs[..i]);
      var r := Cycle(watch, e, o, inputs[i]);
      Run(CycleOf(watch), st, observed + [o], inputs[..i + 1]) == Trace(r.state, t.events + r.events, r.exit) &&
      Witnessed(watch, st, start, observed + [o], inputs, entering + [e], held + [h]) &&
      (r.state.project == null || r.state.project == e.project ||
       (e.project == null && inputs[i].supplied == Supplied(r.state.project)))
  {
    var i := |observed|;
    if i == 0 {
      assert inputs[..0] == [];
    }
    WitnessedSnoc(watch, st, start, observed, inputs, entering, held, e, h, o);
    RunOneMore(watch, st, observed, inputs, i, o);
    CycleHoldsProject(watch, e, o, inputs[i]);
  }

  class BuildLoop {
    const projectDirectory: string
    const projectSupplier: ProjectSupplier
    const clean: bool
    const watchBinariesOnly: bool
    var run: bool
    var cycleNumber: nat
    var project: Project?
    /** The monitor calls and supplier requests made so far. */
    var events: seq<Event>

    constructor (config: LoopConfig)
      ensures projectDirectory == config.projectDirectory && projectSupplier == config.projectSupplier
      ensures clean == config.clean && watchBinariesOnly == config.watchBinariesOnly
      ensures !run && cycleNumber == 0 && project == null && events == []
    {
      projectDirectory := config.projectDirectory;
      projectSupplier := config.projectSupplier;
      clean := config.clean;
      watchBinariesOnly := config.watchBinariesOnly;
      run := false;
      cycleNumber := 0;
      project := null;
      events := [];
    }

    /** Sets the run flag; a worker running loop() is submitted only if the flag was clear. */
    method Start() returns (submitted: bool)
      modifies this`run
      ensures run && submitted == !old(run)
    {
      submitted := !run;
      run := true;
    }

    /** Clears the run flag; waiting for the worker is only needed if the flag was set. */
    method Stop() returns (wasRunning: bool)
      modifies this`run
      ensures !run && wasRunning == old(run)
    {
      wasRunning := run;
      run := false;
    }

    /** The incremental path: onChanged, onBuildStart, the build, and on success the
        project's update and onReady, on failure onBuildFail. */
    method RunIncremental(current: Project, sourceChanges: seq<RootChanges>, input: CycleInput)
      returns (added: seq<Event>, exit: Option<Break>, delay: int)
      requires sourceChanges != [] && sourceChanges == current.SourceChanges()
      modifies current
      ensures var n := cycleNumber;
        var building := [Changed(n, false), BuildStart(n, true)];
        var errors := IncrementalErrors(current.steps, sourceChanges);
        if input.buildInterrupted then added == building && exit == Some(Interrupted)
        else if errors == [] then added == building + [Ready(n, current)] && exit.None? && delay == input.readyDelay
        else added == building + [BuildFail(n, errors)] && exit.None? && delay == input.failDelay
      ensures if !input.buildInterrupted && IncrementalErrors(current.steps, sourceChanges) == []
        then current.components == Refreshed(old(current.components)) &&
             current.updateCount == old(current.updateCount) + 1 &&
             current.dependencies == old(current.dependencies) &&
             current.buildFileChanged == old(current.buildFileChanged)
        else unchanged(current)
    {
      var n := cycleNumber;
      added := [Changed(n, false), BuildStart(n, true)];
      exit := None;
      delay := 0;
      if input.buildInterrupted {
        exit := Some(Interrupted);
        return;
      }
      var errors := current.IncrementalBuild(sourceChanges);
      if errors == [] {
        current.Update(false);
        added := added + [Ready(n, current)];
        delay := input.readyDelay;
      } else {
        added := added + [BuildFail(n, errors)];
        delay := input.failDelay;
      }
    }

    /** The body of a cycle without a project: the supplier is asked for one. */
    method RunConstruct(cleanFlag: bool, input: CycleInput)
      returns (cleanAfter: bool, exit: Option<Break>, delay: int, ghost o: Outcome)
      requires project == null
      modifies this`project, this`events
      ensures o == Construct(LoopState(null, cycleNumber, cleanFlag, run), input)
      ensures project == o.state.project && cleanAfter == o.state.clean && events == old(events) + o.events
      ensures if o.Broke? then exit == Some(o.reason) else exit.None? && delay == o.delay
    {
      var n := cycleNumber;
      var current := project;
      var added := [CycleStart(n), ProjectRequested(n, cleanFlag)];
      cleanAfter := cleanFlag;
      exit := None;
      delay := 0;
      match input.supplied {
        case ConfigurationError =>
          exit := Some(Rejected);
        case SupplierInterrupted =>
          exit := Some(Interrupted);
        case Supplied(p) =>
          project := p;
          cleanAfter := false;
          added := added + [Ready(n, current)];
          delay := input.readyDelay;
        case SupplierFailed(e) =>
          added := added + [BuildFail(n, [e])];
          delay := input.failDelay;
      }
      events := events + added;
      o := Construct(LoopState(current, n, cleanFlag, run), input);
    }

    /** The body of a cycle with a project, which reported obs at the start of the cycle. */
    method RunInspect(cleanFlag: bool, obs: Observed, input: CycleInput) returns (exit: Option<Break>, delay: int, ghost o: Outcome)
      requires project != null && obs == Observe(project)
      modifies this`project, this`events, project
      ensures o == Inspect(watchBinariesOnly, LoopState(old(project), cycleNumber, cleanFlag, run), obs, input)
      ensures project == o.state.project && o.state.clean == cleanFlag && events == old(events) + o.events
      ensures if o.Broke? then exit == Some(o.reason) else exit.None? && delay == o.delay
      ensures if IncrementalSucceeds(watchBinariesOnly, obs, input)
        then old(project).components == Refreshed(old(project.components)) &&
             old(project).updateCount == old(project.updateCount) + 1 &&
             old(project).dependencies == old(project.dependencies) &&
             old(project).buildFileChanged == old(project.buildFileChanged)
        else unchanged(old(project))
    {
      var n := cycleNumber;
      var current := project;
      var added: seq<Event>;
      exit := None;
      delay := 0;
      if watchBinariesOnly {
        if current.BinaryChanges() == [] {
          added := [Ready(n, current)];
          delay := input.readyDelay;
        } else {
          project := null;
          added := [Changed(n, true)];
        }
      } else if current.HaveBuildSystemFilesChanged() {
        project := null;
        added := [Changed(n, false)];
      } else {
        var sourceChanges := current.SourceChanges();
        if sourceChanges == [] {
          added := [Ready(n, current)];
          delay := input.readyDelay;
        } else {
          added, exit, delay := RunIncremental(current, sourceChanges, input);
        }
      }
      events := events + ([CycleStart(n)] + added);
      o := Inspect(watchBinariesOnly, LoopState(current, n, cleanFlag, run), obs, input);
    }

    /** The body of a cycle up to the delay: the branches of loop(), in order. */
    method RunBody(cleanFlag: bool, obs: Observed, input: CycleInput)
      returns (cleanAfter: bool, exit: Option<Break>, delay: int, ghost b: Outcome)
      requires obs == Observe(project)
      modifies this`project, this`events, project
      ensures b == Body(watchBinariesOnly, LoopState(old(project), cycleNumber, cleanFlag, run), obs, input)
      ensures project == b.state.project && cleanAfter == b.state.clean && events == old(events) + b.events
      ensures b.state.cycle == cycleNumber && b.state.run == run
      ensures if b.Broke? then exit == Some(b.reason) else exit.None? && delay == b.delay
      ensures old(project) != null ==>
        if IncrementalSucceeds(watchBinariesOnly, obs, input)
        then old(project).components == Refreshed(old(project.components)) &&
             old(project).updateCount == old(project.updateCount) + 1 &&
             old(project).dependencies == old(project.dependencies) &&
             old(project).buildFileChanged == old(project.buildFileChanged)
        else unchanged(old(project))
    {
      if project == null {
        cleanAfter, exit, delay, b := RunConstruct(cleanFlag, input);
      } else {
        cleanAfter := cleanFlag;
        exit, delay, b := RunInspect(cleanFlag, obs, input);
      }
    }

    /** The end of a cycle: the sleep, then onCycleEnd and the counter. */
    method RunFinish(ghost st: LoopState, delay: int, input: CycleInput) returns (exit: Option<Break>)
      requires st.cycle == cycleNumber && run == (st.run && !input.stopDuringCycle)
      modifies this`events, this`run, this`cycleNumber
      ensures var r := Finish(st, delay, input);
        cycleNumber == r.state.cycle && run == r.state.run && exit == r.exit && events == old(events) + r.events
    {
      var n := cycleNumber;
      exit := None;
      if delay > 0 {
        events := events + [Slept(delay)];
        if input.sleepInterrupted {
          exit := Some(Interrupted);
          return;
        }
      }
      events := events + [CycleEnd(n)];
      run := input.keepRunning;
      cycleNumber := cycleNumber + 1;
      if input.stopAfterCycle {
        run := false;
      }
    }

    /** One iteration of the body of loop(), given what the held project reports.
        Returns the worker's clean flag for the next cycle and the reason if the body
        breaks out. */
    method RunCycle(cleanFlag: bool, obs: Observed, input: CycleInput) returns (cleanAfter: bool, exit: Option<Break>)
      requires obs == Observe(project)
      modifies this, project
      ensures var r := Cycle(watchBinariesOnly, LoopState(old(project), old(cycleNumber), cleanFlag, old(run)), obs, input);
        project == r.state.project && cycleNumber == r.state.cycle && run == r.state.run &&
        cleanAfter == r.state.clean && exit == r.exit && events == old(events) + r.events
      ensures old(project) != null ==>
        if IncrementalSucceeds(watchBinariesOnly, obs, input)
        then old(project).components == Refreshed(old(project.components)) &&
             old(project).updateCount == old(project.updateCount) + 1 &&
             old(project).dependencies == old(project.dependencies) &&
             old(project).buildFileChanged == old(project.buildFileChanged)
        else unchanged(old(project))
    {
      var delay;
      ghost var b;
      ghost var before := events;
      cleanAfter, exit, delay, b := RunBody(cleanFlag, obs, input);
      if input.stopDuringCycle {
        // stop() from another thread; onCycleEnd's answer overwrites it if the cycle gets there
        run := false;
      }
      ghost var st := LoopState(old(project), old(cycleNumber), cleanFlag, old(run));
      assert Cycle(watchBinariesOnly, st, obs, input) == Close(b, input);
      if exit.None? {
        exit := RunFinish(b.state, delay, input);
        AppendAssociates(before, b.events, Finish(b.state, b.delay, input).events);
      }
    }

    /** One turn of the while loop: the file system's activity reaches the held project,
        the cycle observes the project, and the cycle runs. Returns the observation and
        the held project's contents before the activity. */
    method RunTurn(cleanFlag: bool, input: CycleInput)
      returns (o: Observed, cleanAfter: bool, exit: Option<Break>, ghost h: Option<ProjectView>)
      modifies this, project
      ensures h == old(HeldView(project)) && Saw(h, input, o)
      ensures Carried(watchBinariesOnly, LoopState(old(project), old(cycleNumber), cleanFlag, old(run)), h, o, input,
                      LoopState(project, cycleNumber, cleanAfter, run), HeldView(project))
      ensures var r := Cycle(watchBinariesOnly, LoopState(old(project), old(cycleNumber), cleanFlag, old(run)), o, input);
        project == r.state.project && cycleNumber == r.state.cycle && run == r.state.run &&
        cleanAfter == r.state.clean && exit == r.exit && events == old(events) + r.events
    {
      h := HeldView(project);
      if project != null {
        project.FilesChanged(input.activity);
      }
      ghost var before := project;
      ghost var arrived := HeldView(project);
      o := Observe(project);
      cleanAfter, exit := RunCycle(cleanFlag, o, input);
      if before != null && project == before {
        assert HeldView(project) == Some(Kept(arrived.value, IncrementalSucceeds(watchBinariesOnly, o, input)));
      }
    }

    /** The while loop of loop(): cycles while the run flag holds, no cycle breaks out
        and the inputs last. Before each cycle the file system's activity reaches the held
        project. Returns what the project reported to each cycle. */
    method RunCycles(inputs: seq<CycleInput>)
      returns (observed: seq<Observed>, exit: Option<Break>, ghost entering: seq<LoopState>, ghost held: seq<Option<ProjectView>>)
      modifies this, project, SuppliedProjects(inputs)
      ensures |observed| <= |inputs|
      ensures Witnessed(watchBinariesOnly, LoopState(old(project), old(cycleNumber), clean, old(run)), old(HeldView(project)),
                        observed, inputs, entering, held)
      ensures var t := Run(CycleOf(watchBinariesOnly), LoopState(old(project), old(cycleNumber), clean, old(run)),
                           observed, inputs[..|observed|]);
        project == t.state.project && cycleNumber == t.state.cycle && run == t.state.run &&
        exit == t.exit && events == old(events) + t.events && (|observed| < |inputs| ==> Halted(t))
    {
      ghost var st := LoopState(project, cycleNumber, clean, run);
      ghost var start := events;
      ghost var step := CycleOf(watchBinariesOnly);
      var cleanFlag := clean;
      exit := None;
      observed := [];
      ghost var trace := Trace(st, [], None);
      ghost var view := HeldView(project);
      entering, held := [], [];
      var i := 0;
      while i < |inputs| && run && exit.None?
        invariant 0 <= i <= |inputs| && |observed| == i
        invariant project == null || project == old(project) || project in SuppliedProjects(inputs)
        invariant trace == Run(step, st, observed, inputs[..i])
        invariant trace.state == LoopState(project, cycleNumber, cleanFlag, run) && trace.exit == exit
        invariant events == start + trace.events
        invariant Witnessed(watchBinariesOnly, st, view, observed, inputs, entering, held)
        invariant i == 0 ==> HeldView(project) == view
        invariant i > 0 ==>
          var k := i - 1;
          Carried(watchBinariesOnly, entering[k], held[k], observed[k], inputs[k], trace.state, HeldView(project))
      {
        ghost var e := trace.state;
        ghost var before := project;
        var o;
        ghost var h;
        o, cleanFlag, exit, h := RunTurn(cleanFlag, inputs[i]);
        TurnExtends(watchBinariesOnly, st, view, observed, inputs, entering, held, e, h, o);
        entering := entering + [e];
        held := held + [h];
        ghost var r := Cycle(watchBinariesOnly, e, o, inputs[i]);
        AppendAssociates(start, trace.events, r.events);
        SuppliedProjectsHold(inputs, i, before, project);
        trace := Trace(r.state, trace.events + r.events, r.exit);
        observed := observed + [o];
        i := i + 1;
        assert entering[i - 1] == e && observed[i - 1] == o && held[i - 1] == h;
      }
    }

    /** loop(): onStarted, the cycles, then onStopped. The inputs script the collaborators;
        if they run out first the loop is left running and onStopped has not been called. */
    method Loop(inputs: seq<CycleInput>)
      returns (observed: seq<Observed>, ghost entering: seq<LoopState>, ghost held: seq<Option<ProjectView>>)
      modifies this, project, SuppliedProjects(inputs)
      ensures |observed| == |inputs| && |held| <= |inputs|
      ensures Witnessed(watchBinariesOnly, LoopState(old(project), old(cycleNumber), clean, old(run)), old(HeldView(project)),
                        observed[..|held|], inputs, entering, held)
      ensures forall k :: |held| <= k < |inputs| ==> observed[k] == Unobserved
      ensures var t := Steps(watchBinariesOnly, LoopState(old(project), old(cycleNumber), clean, old(run)), observed, inputs);
        project == t.state.project && cycleNumber == t.state.cycle && run == t.state.run &&
        events == old(events) + RunEvents(t)
    {
      ghost var st := LoopState(project, cycleNumber, clean, run);
      events := events + [Started];
      var consumed, exit;
      consumed, exit, entering, held := RunCycles(inputs);
      ghost var t := Run(CycleOf(watchBinariesOnly), st, consumed, inputs[..|consumed|]);
      StepsPadded(watchBinariesOnly, st, consumed, inputs);
      observed := consumed + Padding(|inputs| - |consumed|);
      assert observed[..|held|] == consumed;
      var tail := if exit.Some? || !run then [Stopped] else [];
      events := events + tail;
      RunEventsOf(old(events), t, tail);
    }
  }
}
