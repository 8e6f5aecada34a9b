/** A build step: a unit of build work keyed by the (input type, output type) pair
    of the components it applies to. */
module BuildSteps {
  import opened BuildModel

  /** The concrete step is a collaborator; what the model keeps of it is the error
      list it reports for one component (full build) and for one root's changes
      (incremental build). */
  datatype BuildStep = BuildStep(
    name: string,
    inputType: BuildType,
    outputType: BuildType,
    componentErrors: BuildComponent -> seq<string>,
    changeErrors: RootChanges -> seq<string>)
  {
    /** The step applies to a component exactly when both root types match its pair. */
    predicate Test(c: BuildComponent) {
      c.sourceRoot.buildType == inputType && c.outputRoot.buildType == outputType
    }

    /** Removes the output artifacts of a matching component. */
    function Clean(c: BuildComponent): (r: BuildComponent)
      ensures r.sourceRoot == c.sourceRoot
      ensures !Test(c) ==> r == c
      ensures Test(c) ==> r.outputRoot.files == {}
      ensures r.outputRoot.(files := c.outputRoot.files) == c.outputRoot
    {
      if Test(c) then c.(outputRoot := c.outputRoot.(files := {})) else c
    }

    /** Errors of a full build of the given components; non-matching ones contribute nothing. */
    function Build(components: seq<BuildComponent>): seq<string>
    {
      if components == [] then []
      else (if Test(components[0]) then componentErrors(components[0]) else []) + Build(components[1..])
    }

    /** Errors of an incremental build of the given changes; changes of non-matching components contribute nothing. */
    function IncrementalBuild(changes: seq<RootChanges>): seq<string>
    {
      if changes == [] then []
      else (if Test(changes[0].component) then changeErrors(changes[0]) else []) + IncrementalBuild(changes[1..])
    }
  }

  /** The components a step applies to, in order. */
  function Matching(step: BuildStep, components: seq<BuildComponent>): (r: seq<BuildComponent>)
    ensures forall c :: c in r ==> c in components && step.Test(c)
    ensures forall c :: c in components && step.Test(c) ==> c in r
  {
    if components == [] then []
    else (if step.Test(components[0]) then [components[0]] else []) + Matching(step, components[1..])
  }

  /** The changes whose component a step applies to, in order. */
  function MatchingChanges(step: BuildStep, changes: seq<RootChanges>): (r: seq<RootChanges>)
    ensures forall ch :: ch in r ==> ch in changes && step.Test(ch.component)
    ensures forall ch :: ch in changes && step.Test(ch.component) ==> ch in r
  {
    if changes == [] then []
    else (if step.Test(changes[0].component) then [changes[0]] else []) + MatchingChanges(step, changes[1..])
  }

  /** A full build ignores every component the step does not apply to. */
  lemma {:induction false} BuildIgnoresNonMatching(step: BuildStep, components: seq<BuildComponent>)
    ensures step.Build(components) == step.Build(Matching(step, components))
  {
    if components != [] {
      BuildIgnoresNonMatching(step, components[1..]);
      var c := components[0];
      if step.Test(c) {
        assert Matching(step, components) == [c] + Matching(step, components[1..]);
        assert Matching(step, components)[1..] == Matching(step, components[1..]);
      } else {
        assert Matching(step, components) == Matching(step, components[1..]);
      }
    }
  }

  /** An incremental build ignores every change of a component the step does not apply to. */
  lemma {:induction false} IncrementalBuildIgnoresNonMatching(step: BuildStep, changes: seq<RootChanges>)
    ensures step.IncrementalBuild(changes) == step.IncrementalBuild(MatchingChanges(step, changes))
  {
    if changes != [] {
      IncrementalBuildIgnoresNonMatching(step, changes[1..]);
      var ch := changes[0];
      if step.Test(ch.component) {
        assert MatchingChanges(step, changes) == [ch] + MatchingChanges(step, changes[1..]);
        assert MatchingChanges(step, changes)[1..] == MatchingChanges(step, changes[1..]);
      } else {
        assert MatchingChanges(step, changes) == MatchingChanges(step, changes[1..]);
      }
    }
  }

  /** An empty error list from a full build means every matching component built cleanly. */
  lemma {:induction false} BuildSucceedsIff(step: BuildStep, components: seq<BuildComponent>)
    ensures step.Build(components) == [] <==>
      forall i :: 0 <= i < |components| && step.Test(components[i]) ==> step.componentErrors(components[i]) == []
  {
    if components != [] {
      BuildSucceedsIff(step, components[1..]);
      forall i | 1 <= i < |components| ensures components[i] == components[1..][i - 1] { }
    }
  }

  /** An empty error list from an incremental build means every matching change built cleanly. */
  lemma {:induction false} IncrementalBuildSucceedsIff(step: BuildStep, changes: seq<RootChanges>)
    ensures step.IncrementalBuild(changes) == [] <==>
      forall i :: 0 <= i < |changes| && step.Test(changes[i].component) ==> step.changeErrors(changes[i]) == []
  {
    if changes != [] {
      IncrementalBuildSucceedsIff(step, changes[1..]);
      forall i | 1 <= i < |changes| ensures changes[i] == changes[1..][i - 1] { }
    }
  }

  /** Given nothing it applies to, an incremental build is a no-op that reports success. */
  lemma NoApplicableChangesIsNoOp(step: BuildStep, changes: seq<RootChanges>)
    requires forall i :: 0 <= i < |changes| ==> !step.Test(changes[i].component)
    ensures step.IncrementalBuild(changes) == []
  {
    IncrementalBuildSucceedsIff(step, changes);
  }
}
