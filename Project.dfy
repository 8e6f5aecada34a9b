/** The project the build loop works on: its components, the steps that build them
    and the change tracking the loop consults every cycle. */
module Projects {
  import opened BuildModel
  import opened BuildSteps

  /** Which root of a component a change report is about. */
  datatype Side = Source | Output

  function RootOn(c: BuildComponent, side: Side): BuildRoot {
    if side == Source then c.sourceRoot else c.outputRoot
  }

  /** The non-empty pending changes on one side of the components, in component order. */
  function PendingChanges(components: seq<BuildComponent>, side: Side): seq<RootChanges>
  {
    if components == [] then []
    else
      var c := components[0];
      var root := RootOn(c, side);
      (if root.pending.IsEmpty() then [] else [RootChanges(c, root, root.pending)]) +
      PendingChanges(components[1..], side)
  }

  /** The roots of the components that carry the given build type. */
  function RootsOfType(components: seq<BuildComponent>, t: BuildType): seq<BuildRoot>
  {
    if components == [] then []
    else
      var c := components[0];
      (if c.sourceRoot.buildType == t then [c.sourceRoot] else []) +
      (if c.outputRoot.buildType == t then [c.outputRoot] else []) +
      RootsOfType(components[1..], t)
  }

  /** Every root's tracked snapshot brought up to date: nothing is pending any more. */
  function Refreshed(components: seq<BuildComponent>): seq<BuildComponent>
  {
    if components == [] then []
    else
      var c := components[0];
      [BuildComponent(c.sourceRoot.(pending := NoChanges), c.outputRoot.(pending := NoChanges))] +
      Refreshed(components[1..])
  }

  /** Each change report names a component, one of its roots on the requested side,
      and that root's non-empty pending changes. */
  lemma {:induction false} PendingChangesSound(components: seq<BuildComponent>, side: Side)
    ensures forall ch :: ch in PendingChanges(components, side) ==>
      ch.component in components && ch.root == RootOn(ch.component, side) &&
      ch.changes == ch.root.pending && !ch.changes.IsEmpty()
  {
    if components != [] {
      PendingChangesSound(components[1..], side);
    }
  }

  /** Every root on the requested side with pending changes is reported. */
  lemma {:induction false} PendingChangesComplete(components: seq<BuildComponent>, side: Side)
    ensures forall c :: c in components && !RootOn(c, side).pending.IsEmpty() ==>
      RootChanges(c, RootOn(c, side), RootOn(c, side).pending) in PendingChanges(components, side)
  {
    if components != [] {
      PendingChangesComplete(components[1..], side);
      forall c | c in components && c != components[0] ensures c in components[1..] {
        var i :| 0 <= i < |components| && components[i] == c;
        assert components[1..][i - 1] == c;
      }
    }
  }

  /** The roots of a type are exactly the source and output roots of that type. */
  lemma {:induction false} RootsOfTypeExact(components: seq<BuildComponent>, t: BuildType)
    ensures forall root :: root in RootsOfType(components, t) <==>
      root.buildType == t && exists c :: c in components && (root == c.sourceRoot || root == c.outputRoot)
  {
    if components != [] {
      RootsOfTypeExact(components[1..], t);
      var c0 := components[0];
      forall root ensures root in RootsOfType(components, t) <==>
        root.buildType == t && exists c :: c in components && (root == c.sourceRoot || root == c.outputRoot)
      {
        if root.buildType == t && exists c :: c in components && (root == c.sourceRoot || root == c.outputRoot) {
          var c :| c in components && (root == c.sourceRoot || root == c.outputRoot);
          if c != c0 {
            var i :| 0 <= i < |components| && components[i] == c;
            assert components[1..][i - 1] == c;
          }
        }
      }
    }
  }

  /** A refresh changes nothing but the pending changes, which it clears on both sides. */
  lemma {:induction false} RefreshedClearsPending(components: seq<BuildComponent>)
    ensures |Refreshed(components)| == |components|
    ensures forall i :: 0 <= i < |components| ==>
      Refreshed(components)[i].sourceRoot == components[i].sourceRoot.(pending := NoChanges) &&
      Refreshed(components)[i].outputRoot == components[i].outputRoot.(pending := NoChanges)
    ensures PendingChanges(Refreshed(components), Source) == [] && PendingChanges(Refreshed(components), Output) == []
  {
    if components != [] {
      RefreshedClearsPending(components[1..]);
      var r := Refreshed(components);
      assert r[1..] == Refreshed(components[1..]);
      forall i | 1 <= i < |components| ensures components[i] == components[1..][i - 1] { }
    }
  }

  /** What the file system did between two checks: the changes that arrived under
      roots, keyed by root path, and whether the build-definition file was touched. */
  datatype Activity = Activity(arrived: map<string, Changes>, buildFileTouched: bool)

  /** No file was touched. */
  const Quiet := Activity(map[], false)

  /** A root after the changes that arrived under its path are added to its pending ones. */
  function Arrive(root: BuildRoot, arrived: map<string, Changes>): BuildRoot {
    if root.path in arrived then root.(pending := root.pending.Combine(arrived[root.path])) else root
  }

  /** Every root of the components after the arrived changes are added. */
  function Rescanned(components: seq<BuildComponent>, arrived: map<string, Changes>): seq<BuildComponent>
  {
    if components == [] then []
    else
      var c := components[0];
      [BuildComponent(Arrive(c.sourceRoot, arrived), Arrive(c.outputRoot, arrived))] +
      Rescanned(components[1..], arrived)
  }

  /** Arrived changes are added root by root: the component structure stays, no pending
      change is lost, and a root under which non-empty changes arrived is reported on the
      next check; with nothing arrived, nothing changes. */
  lemma {:induction false} RescannedReports(components: seq<BuildComponent>, arrived: map<string, Changes>, side: Side)
    ensures var r := Rescanned(components, arrived);
      |r| == |components| &&
      (forall i :: 0 <= i < |components| ==>
         RootOn(r[i], side) == Arrive(RootOn(components[i], side), arrived) &&
         RootOn(r[i], side).buildType == RootOn(components[i], side).buildType &&
         RootOn(components[i], side).pending.added <= RootOn(r[i], side).pending.added &&
         RootOn(components[i], side).pending.modified <= RootOn(r[i], side).pending.modified &&
         RootOn(components[i], side).pending.removed <= RootOn(r[i], side).pending.removed &&
         (RootOn(components[i], side).path in arrived && !arrived[RootOn(components[i], side).path].IsEmpty() ==>
            RootChanges(r[i], RootOn(r[i], side), RootOn(r[i], side).pending) in PendingChanges(r, side))) &&
      (arrived == map[] ==> r == components)
  {
    var r := Rescanned(components, arrived);
    if components != [] {
      RescannedReports(components[1..], arrived, side);
      assert r[1..] == Rescanned(components[1..], arrived);
      forall i | 1 <= i < |components| ensures components[i] == components[1..][i - 1] && r[i] == r[1..][i - 1] { }
      PendingChangesComplete(r, side);
    }
  }

  /** The contents of a project that its change queries and builds depend on. */
  datatype ProjectView = ProjectView(steps: seq<BuildStep>, components: seq<BuildComponent>, buildFileChanged: bool)

  /** A project's contents after the file system's activity reached it. */
  function Arrived(v: ProjectView, activity: Activity): ProjectView {
    v.(components := Rescanned(v.components, activity.arrived),
       buildFileChanged := v.buildFileChanged || activity.buildFileTouched)
  }

  /** A project's contents after a cycle that kept it: refreshed by update() exactly when
      its incremental build succeeded. */
  function Kept(v: ProjectView, refreshed: bool): ProjectView {
    if refreshed then v.(components := Refreshed(v.components)) else v
  }

  /** The errors of a full build: every step in registration order, each over all components. */
  function FullBuildErrors(steps: seq<BuildStep>, components: seq<BuildComponent>): seq<string>
  {
    if steps == [] then []
    else FullBuildErrors(steps[..|steps| - 1], components) + steps[|steps| - 1].Build(components)
  }

  /** The errors of an incremental build: every step in registration order, each over the changes. */
  function IncrementalErrors(steps: seq<BuildStep>, changes: seq<RootChanges>): seq<string>
  {
    if steps == [] then []
    else IncrementalErrors(steps[..|steps| - 1], changes) + steps[|steps| - 1].IncrementalBuild(changes)
  }

  /** A full build succeeds exactly when every step succeeds on every component it applies to. */
  lemma {:induction false} FullBuildSucceedsIff(steps: seq<BuildStep>, components: seq<BuildComponent>)
    ensures FullBuildErrors(steps, components) == [] <==>
      forall s, c :: s in steps && c in components && s.Test(c) ==> s.componentErrors(c) == []
  {
    if steps != [] {
      var init, last := steps[..|steps| - 1], steps[|steps| - 1];
      assert steps == init + [last];
      FullBuildSucceedsIff(init, components);
      BuildSucceedsIff(last, components);
      if FullBuildErrors(steps, components) == [] {
        forall s, c | s in steps && c in components && s.Test(c) ensures s.componentErrors(c) == [] {
          if s == last {
            var i :| 0 <= i < |components| && components[i] == c;
          }
        }
      }
    }
  }

  /** An incremental build succeeds exactly when every step succeeds on every change it applies to. */
  lemma {:induction false} IncrementalSucceedsIff(steps: seq<BuildStep>, changes: seq<RootChanges>)
    ensures IncrementalErrors(steps, changes) == [] <==>
      forall s, ch :: s in steps && ch in changes && s.Test(ch.component) ==> s.changeErrors(ch) == []
  {
    if steps != [] {
      var init, last := steps[..|steps| - 1], steps[|steps| - 1];
      assert steps == init + [last];
      IncrementalSucceedsIff(init, changes);
      IncrementalBuildSucceedsIff(last, changes);
      if IncrementalErrors(steps, changes) == [] {
        forall s, ch | s in steps && ch in changes && s.Test(ch.component) ensures s.changeErrors(ch) == [] {
          if s == last {
            var i :| 0 <= i < |changes| && changes[i] == ch;
          }
        }
      }
    }
  }

  class Project {
    /** The project directory and the build-definition file: fixed for the life of the project. */
    const root: string
    const buildSystemFile: BuildFile
    /** The build steps, in registration order. */
    const steps: seq<BuildStep>
    var components: seq<BuildComponent>
    /** Paths of the external dependencies. */
    var dependencies: seq<string>
    /** Whether the build-definition file changed since the project was created. */
    var buildFileChanged: bool
    /** How many updates of the tracked state have been performed. */
    var updateCount: nat

    constructor (root: string, buildSystemFile: BuildFile, steps: seq<BuildStep>,
                 components: seq<BuildComponent>, dependencies: seq<string>)
      ensures this.root == root && this.buildSystemFile == buildSystemFile && this.steps == steps
      ensures this.components == components && this.dependencies == dependencies
      ensures !buildFileChanged && updateCount == 0
    {
      this.root := root;
      this.buildSystemFile := buildSystemFile;
      this.steps := steps;
      this.components := components;
      this.dependencies := dependencies;
      buildFileChanged := false;
      updateCount := 0;
    }

    function View(): ProjectView
      reads this
    {
      ProjectView(steps, components, buildFileChanged)
    }

    /** The changes pending on the source roots. */
    function SourceChanges(): seq<RootChanges>
      reads this
    {
      PendingChanges(components, Source)
    }

    /** The changes pending on the output (binary) roots. */
    function BinaryChanges(): seq<RootChanges>
      reads this
    {
      PendingChanges(components, Output)
    }

    predicate HaveBuildSystemFilesChanged()
      reads this
    {
      buildFileChanged
    }

    /** The roots of the given type; possibly none. */
    function BuildRoots(t: BuildType): seq<BuildRoot>
      reads this
    {
      RootsOfType(components, t)
    }

    predicate NeedsUpdate()
      reads this
    {
      SourceChanges() != [] || BinaryChanges() != []
    }

    /** The file system's activity since the last check: the changes that arrived are
        added to the pending changes of their roots, and a touched build-definition file
        is noticed. */
    method FilesChanged(activity: Activity)
      modifies this
      ensures components == Rescanned(old(components), activity.arrived)
      ensures buildFileChanged == (old(buildFileChanged) || activity.buildFileTouched)
      ensures View() == Arrived(old(View()), activity)
      ensures dependencies == old(dependencies) && updateCount == old(updateCount)
    {
      components := Rescanned(components, activity.arrived);
      buildFileChanged := buildFileChanged || activity.buildFileTouched;
    }

    /** Refreshes the tracked state if anything is pending, or regardless when forced. */
    method Update(force: bool)
      modifies this
      ensures if force || old(NeedsUpdate())
              then components == Refreshed(old(components)) && updateCount == old(updateCount) + 1
              else components == old(components) && updateCount == old(updateCount)
      ensures SourceChanges() == [] && BinaryChanges() == []
      ensures dependencies == old(dependencies) && buildFileChanged == old(buildFileChanged)
    {
      if force || NeedsUpdate() {
        RefreshedClearsPending(components);
        components := Refreshed(components);
        updateCount := updateCount + 1;
      }
    }

    /** Runs every step over all components; an empty result means success. */
    method Build() returns (errors: seq<string>)
      ensures errors == FullBuildErrors(steps, components)
      ensures errors == [] <==>
        forall s, c :: s in steps && c in components && s.Test(c) ==> s.componentErrors(c) == []
    {
      errors := [];
      for i := 0 to |steps|
        invariant errors == FullBuildErrors(steps[..i], components)
      {
        assert steps[..i + 1][..i] == steps[..i];
        errors := errors + steps[i].Build(components);
      }
      assert steps[..|steps|] == steps;
      FullBuildSucceedsIff(steps, components);
    }

    /** Runs every step over the given changes; an empty result means success. */
    method IncrementalBuild(changes: seq<RootChanges>) returns (errors: seq<string>)
      ensures errors == IncrementalErrors(steps, changes)
      ensures errors == [] <==>
        forall s, ch :: s in steps && ch in changes && s.Test(ch.component) ==> s.changeErrors(ch) == []
    {
      errors := [];
      for i := 0 to |steps|
        invariant errors == IncrementalErrors(steps[..i], changes)
      {
        assert steps[..i + 1][..i] == steps[..i];
        errors := errors + steps[i].IncrementalBuild(changes);
      }
      assert steps[..|steps|] == steps;
      IncrementalSucceedsIff(steps, changes);
    }
  }
}
