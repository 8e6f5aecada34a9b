/** The development-mode monitor: it listens to the build loop and keeps the user's
    application running while the project is ready, stopping it as soon as a change
    arrives, a build fails or the loop stops.

    The application processes are observed only through whether each one is running;
    the state machine below describes the monitor over the executors it has created,
    and the class DevModeMonitor is proved against it callback by callback. */
module DevLoop {
  import opened Wrappers
  import opened Projects

  /** The kind of change the build loop reports to onChanged. */
  datatype ChangeType = BuildFile | SourceFile | BinaryFile

  /** What onReady returns: wait one second before the next cycle. */
  const OnReadyDelay := 1000
  /** What onBuildFail returns: wait one second before the next cycle. */
  const BuildFailDelay := 1000

  // ----- The monitor as a state machine -----

  /** The monitor's state: for every executor it has created, in creation order, whether
      its application is running; whether it still holds the last one created; the last
      change reported; and how many times it has called stop on an executor. */
  datatype Monitor = Monitor(executors: seq<bool>, holding: bool, lastChange: Option<ChangeType>, stops: nat)

  /** A freshly constructed monitor holds no executor and has seen no change. */
  const Initial := Monitor([], false, None, 0)

  /** A call the build loop makes on the monitor, or the held application exiting by itself. */
  datatype Callback =
    | OnStarted
    | OnCycleStart
    | OnChanged(changeType: ChangeType)
    | OnBuildStart
    | OnBuildFail
    | OnReady
    | OnCycleEnd
    | OnStopped
    | ApplicationExited

  /** The held executor, if any, is the one created last. */
  predicate Valid(m: Monitor) {
    (m.holding ==> |m.executors| > 0) &&
    forall i :: 0 <= i < |m.executors| && m.executors[i] ==> m.holding && i == |m.executors| - 1
  }

  /** Whether the monitor holds an executor whose application is running. */
  predicate HeldRunning(m: Monitor) {
    m.holding && |m.executors| > 0 && m.executors[|m.executors| - 1]
  }

  /** The number of running applications among the given executors. */
  function RunningCount(executors: seq<bool>): (n: nat)
    ensures n <= |executors|
  {
    if executors == [] then 0
    else RunningCount(executors[..|executors| - 1]) + (if executors[|executors| - 1] then 1 else 0)
  }

  /** The executors with the running flag of the last one set to b. */
  function WithLast(es: seq<bool>, b: bool): (r: seq<bool>)
    ensures |r| == |es| && (forall i :: 0 <= i < |es| - 1 ==> r[i] == es[i]) && (es != [] ==> r[|es| - 1] == b)
  {
    if es == [] then [] else es[..|es| - 1] + [b]
  }

  /** ensureStop: forget the held executor, then stop it. */
  function StopHeld(m: Monitor): Monitor {
    if m.holding then Monitor(WithLast(m.executors, false), false, m.lastChange, m.stops + 1)
    else m
  }

  /** onReady: create and start an executor when none is held, restart the held one
      when its application is not running, and otherwise leave it alone. */
  function Ready(m: Monitor): Monitor {
    if !m.holding then m.(executors := m.executors + [true], holding := true)
    else if !HeldRunning(m) then m.(executors := WithLast(m.executors, true))
    else m
  }

  /** The monitor's reaction to one callback. */
  function Next(m: Monitor, c: Callback): Monitor {
    match c
    case OnChanged(t) => StopHeld(m.(lastChange := Some(t)))
    case OnBuildFail => StopHeld(m)
    case OnReady => Ready(m)
    case OnStopped => StopHeld(m)
    case ApplicationExited =>
      if HeldRunning(m) then m.(executors := WithLast(m.executors, false)) else m
    case _ => m
  }

  /** The monitor after a sequence of callbacks. */
  function Replay(m: Monitor, cs: seq<Callback>): Monitor
    decreases |cs|
  {
    if cs == [] then m else Next(Replay(m, cs[..|cs| - 1]), cs[|cs| - 1])
  }

  // ----- Properties of the state machine -----

  /** In a valid state at most one application is running, and only the held one. */
  lemma {:induction false} AtMostOneRunning(m: Monitor)
    requires Valid(m)
    ensures RunningCount(m.executors) == (if HeldRunning(m) then 1 else 0)
  {
    var es := m.executors;
    if es != [] {
      var k := |es| - 1;
      NoneRunning(es[..k]);
    }
  }

  /** Executors none of which runs count zero. */
  lemma {:induction false} NoneRunning(es: seq<bool>)
    requires forall i :: 0 <= i < |es| ==> !es[i]
    ensures RunningCount(es) == 0
  {
    if es != [] {
      NoneRunning(es[..|es| - 1]);
    }
  }

  /** Every callback keeps the held executor the last one created, so that stopping it
      leaves no application running. */
  lemma NextKeepsValid(m: Monitor, c: Callback)
    requires Valid(m)
    ensures Valid(Next(m, c))
  {
  }

  /** Whatever the build loop calls, in whatever order, the monitor never has two
      applications running at once. */
  lemma {:induction false} ReplayRunsAtMostOne(cs: seq<Callback>)
    ensures Valid(Replay(Initial, cs))
    ensures RunningCount(Replay(Initial, cs).executors) <= 1
    decreases |cs|
  {
    if cs != [] {
      ReplayRunsAtMostOne(cs[..|cs| - 1]);
      NextKeepsValid(Replay(Initial, cs[..|cs| - 1]), cs[|cs| - 1]);
    }
    AtMostOneRunning(Replay(Initial, cs));
  }

  /** After onReady the held application is running, it is the only one, and an executor
      was created exactly when none was held before. */
  lemma ReadyLeavesOneRunning(m: Monitor)
    requires Valid(m)
    ensures var r := Next(m, OnReady);
      HeldRunning(r) && RunningCount(r.executors) == 1 &&
      |r.executors| == |m.executors| + (if m.holding then 0 else 1) &&
      r.lastChange == m.lastChange && r.stops == m.stops
  {
    var r := Next(m, OnReady);
    NextKeepsValid(m, OnReady);
    AtMostOneRunning(r);
  }

  /** onReady never starts a second application while the held one runs. */
  lemma ReadyWhileRunningIsNoOp(m: Monitor)
    requires HeldRunning(m)
    ensures Next(m, OnReady) == m
  {
  }

  /** onChanged, onBuildFail and onStopped leave no executor held and no application
      running; onChanged first records the change. */
  lemma StoppingCallbacksRelease(m: Monitor, c: Callback)
    requires Valid(m) && (c.OnChanged? || c == OnBuildFail || c == OnStopped)
    ensures var r := Next(m, c);
      !r.holding && RunningCount(r.executors) == 0 && |r.executors| == |m.executors| &&
      r.stops == m.stops + (if m.holding then 1 else 0) &&
      r.lastChange == (if c.OnChanged? then Some(c.changeType) else m.lastChange)
  {
    NextKeepsValid(m, c);
    AtMostOneRunning(Next(m, c));
  }

  /** Because ensureStop forgets the executor before stopping it, two calls in a row
      stop it only once. */
  lemma StopHeldStopsOnce(m: Monitor)
    ensures StopHeld(StopHeld(m)) == StopHeld(m)
    ensures StopHeld(m).stops == m.stops + (if m.holding then 1 else 0)
  {
  }

  // ----- The objects -----

  /** The launcher of the user's application; only whether it is running is modelled. */
  class ProjectExecutor {
    const project: Project?
    var running: bool

    constructor(project: Project?)
      ensures this.project == project && !running
    {
      this.project := project;
      running := false;
    }

    /** Starts the application. */
    method Start()
      modifies this
      ensures running
    {
      running := true;
    }

    /** Stops the application. */
    method Stop()
      modifies this
      ensures !running
    {
      running := false;
    }

    function IsRunning(): bool
      reads this
    {
      running
    }
  }

  /** Whether each of the given executors is running, in order. */
  function Flags(es: seq<ProjectExecutor>): (r: seq<bool>)
    reads es
    ensures |r| == |es| && forall i :: 0 <= i < |es| ==> r[i] == es[i].running
  {
    seq(|es|, i requires 0 <= i < |es| reads es => es[i].running)
  }

  /** No executor appears twice. */
  predicate Distinct(es: seq<ProjectExecutor>) {
    forall i, j :: 0 <= i < j < |es| ==> es[i] != es[j]
  }

  lemma DistinctSnoc(es: seq<ProjectExecutor>, e: ProjectExecutor)
    requires Distinct(es) && e !in es
    ensures Distinct(es + [e])
  {
  }

  class DevModeMonitor {
    const buildFileName: string
    var projectExecutor: ProjectExecutor?
    var lastChangeType: Option<ChangeType>
    /** Every executor this monitor has created, in creation order. */
    ghost var created: seq<ProjectExecutor>
    /** How many times this monitor has called stop on an executor. */
    ghost var stops: nat

    /** The held executor is the last one created, and each was created once. */
    ghost predicate Valid()
      reads this
    {
      (projectExecutor != null ==> |created| > 0 && projectExecutor == created[|created| - 1]) &&
      Distinct(created)
    }

    /** The monitor as a state of the state machine. */
    ghost function Abstract(): Monitor
      reads this, created
    {
      Monitor(Flags(created), projectExecutor != null, lastChangeType, stops)
    }

    constructor(buildFileName: string)
      ensures Valid() && Abstract() == Initial && this.buildFileName == buildFileName
    {
      this.buildFileName := buildFileName;
      projectExecutor := null;
      lastChangeType := None;
      created := [];
      stops := 0;
    }

    method OnStarted()
      ensures unchanged(this)
    {
    }

    method OnCycleStart(cycleNumber: int)
      ensures unchanged(this)
    {
    }

    method OnBuildStart(cycleNumber: int)
      ensures unchanged(this)
    {
    }

    /** ensureStop: clear the field first, then stop the executor it held. */
    method EnsureStop()
      requires Valid()
      modifies this, projectExecutor
      ensures Valid() && Abstract() == StopHeld(old(Abstract()))
      ensures created == old(created) && lastChangeType == old(lastChangeType)
    {
      if projectExecutor != null {
        var executor := projectExecutor;
        ghost var before := Flags(created);
        projectExecutor := null;
        executor.Stop();
        stops := stops + 1;
        forall i | 0 <= i < |created| - 1
          ensures Flags(created)[i] == before[i]
        {
          assert created[i] != executor;
        }
        assert Flags(created) == WithLast(before, false);
      }
    }

    /** onChanged: remember the kind of change, then make sure the application is stopped. */
    method OnChanged(cycleNumber: int, changeType: ChangeType)
      requires Valid()
      modifies this, projectExecutor
      ensures Valid() && Abstract() == Next(old(Abstract()), Callback.OnChanged(changeType))
    {
      lastChangeType := Some(changeType);
      EnsureStop();
    }

    /** onBuildFail: stop the application and wait a second (the log line is left out). */
    method OnBuildFail(cycleNumber: int) returns (delay: int)
      requires Valid()
      modifies this, projectExecutor
      ensures Valid() && Abstract() == Next(old(Abstract()), Callback.OnBuildFail) && delay == BuildFailDelay
    {
      EnsureStop();
      delay := BuildFailDelay;
    }

    /** The first branch of onReady: create an executor for the project and start it. */
    method StartNew(project: Project?)
      requires Valid() && projectExecutor == null
      modifies this
      ensures Valid() && Abstract() == Ready(old(Abstract()))
      ensures fresh(projectExecutor) && projectExecutor.project == project
    {
      ghost var before := Flags(created);
      var executor := new ProjectExecutor(project);
      executor.Start();
      assert executor !in old(created);
      assert Flags(old(created)) == before;
      projectExecutor := executor;
      DistinctSnoc(created, executor);
      created := created + [executor];
      assert Flags(created) == before + [true];
    }

    /** The second branch of onReady: start the held executor again. */
    method Restart()
      requires Valid() && projectExecutor != null && !projectExecutor.running
      modifies projectExecutor
      ensures Valid() && Abstract() == Ready(old(Abstract()))
    {
      ghost var before := Flags(created);
      var executor := projectExecutor;
      executor.Start();
      forall i | 0 <= i < |created| - 1
        ensures Flags(created)[i] == before[i]
      {
        assert created[i] != executor;
      }
      assert Flags(created) == WithLast(before, true);
    }

    /** onReady: start the application unless the held one is running; wait a second. */
    method OnReady(cycleNumber: int, project: Project?) returns (delay: int)
      requires Valid()
      modifies this, projectExecutor
      ensures Valid() && Abstract() == Next(old(Abstract()), Callback.OnReady) && delay == OnReadyDelay
      ensures old(projectExecutor) == null ==> fresh(projectExecutor) && projectExecutor.project == project
      ensures old(projectExecutor) != null ==> projectExecutor == old(projectExecutor)
    {
      if projectExecutor == null {
        StartNew(project);
      } else if !projectExecutor.IsRunning() {
        Restart();
      }
      delay := OnReadyDelay;
    }

    /** onCycleEnd: always continue. */
    method OnCycleEnd(cycleNumber: int) returns (keepRunning: bool)
      ensures keepRunning
    {
      keepRunning := true;
    }

    /** onStopped: make sure the application is stopped. */
    method OnStopped()
      requires Valid()
      modifies this, projectExecutor
      ensures Valid() && Abstract() == Next(old(Abstract()), Callback.OnStopped)
    {
      EnsureStop();
    }
  }
}
