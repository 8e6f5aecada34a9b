/** The `features` command of the Helidon CLI: it either lists features or adds
    features to a project, recording the added feature names in the project
    configuration and adding each feature's dependencies to the project's POM.

    Reading and writing pom.xml and the project configuration are left to the callers:
    the POM model and the configuration are objects holding their in-memory contents. */
module Features {
  import opened Wrappers

  /** A dependency a feature needs, as listed in the feature catalog. */
  datatype FeatureDependency = FeatureDependency(groupId: string, artifactId: string, version: Option<string>)

  /** A dependency of the POM model; scope stands for the attributes a feature
      dependency does not set. */
  datatype Dependency = Dependency(groupId: string, artifactId: string, version: Option<string>, scope: Option<string>)

  /** What execute does, decided by the options alone. */
  datatype Action =
    | AddFeatures
    | ListProjectFeatures
    | ListAllFeatures
    | Fail(message: string)

  const InvalidOptions := "Invalid command options, use --help"

  /** execute: a non-empty --add list excludes --list and --all; otherwise exactly one
      of --list and --all must be given. */
  function Execute(add: seq<string>, list: bool, all: bool): (a: Action)
    ensures a == AddFeatures <==> add != [] && !list && !all
    ensures a == ListProjectFeatures <==> add == [] && list && !all
    ensures a == ListAllFeatures <==> add == [] && all && !list
    ensures a.Fail? <==> (add != [] && (list || all)) || (add == [] && list == all)
    ensures a.Fail? ==> a.message == InvalidOptions
  {
    if add != [] then
      if list || all then Fail(InvalidOptions) else AddFeatures
    else if list != all then
      if list then ListProjectFeatures else ListAllFeatures
    else Fail(InvalidOptions)
  }

  // ----- Merging dependencies -----

  /** Same group, artifact and version (an absent version equals only an absent one). */
  predicate Matches(d: Dependency, fd: FeatureDependency) {
    d.groupId == fd.groupId && d.artifactId == fd.artifactId && d.version == fd.version
  }

  /** Whether some dependency matches fd. */
  predicate Present(deps: seq<Dependency>, fd: FeatureDependency) {
    exists i :: 0 <= i < |deps| && Matches(deps[i], fd)
  }

  /** The dependency added to the POM for fd. */
  function NewDependency(fd: FeatureDependency): (d: Dependency)
    ensures Matches(d, fd) && d.scope.None?
  {
    Dependency(fd.groupId, fd.artifactId, fd.version, None)
  }

  /** No two dependencies have the same group, artifact and version. */
  predicate NoDuplicates(deps: seq<Dependency>) {
    forall i, j :: 0 <= i < j < |deps| ==>
      !(deps[i].groupId == deps[j].groupId && deps[i].artifactId == deps[j].artifactId && deps[i].version == deps[j].version)
  }

  /** The POM's dependencies after adding, in order, each of fds not already present;
      a dependency added for an earlier entry counts as present for the later ones. */
  function Merge(deps: seq<Dependency>, fds: seq<FeatureDependency>): seq<Dependency>
    decreases |fds|
  {
    if fds == [] then deps
    else
      var prev := Merge(deps, fds[..|fds| - 1]);
      var fd := fds[|fds| - 1];
      if Present(prev, fd) then prev else prev + [NewDependency(fd)]
  }

  /** Merging keeps the existing dependencies in place, makes every feature dependency
      present, adds only new dependencies for listed entries, and adds no duplicate. */
  lemma {:induction false} MergeProperties(deps: seq<Dependency>, fds: seq<FeatureDependency>)
    ensures var r := Merge(deps, fds);
      |r| >= |deps| && r[..|deps|] == deps &&
      (forall fd :: fd in fds ==> Present(r, fd)) &&
      (forall k :: |deps| <= k < |r| ==> exists fd :: fd in fds && r[k] == NewDependency(fd)) &&
      (NoDuplicates(deps) ==> NoDuplicates(r))
    decreases |fds|
  {
    if fds != [] {
      var init := fds[..|fds| - 1];
      var fd := fds[|fds| - 1];
      MergeProperties(deps, init);
      var prev := Merge(deps, init);
      var r := Merge(deps, fds);
      forall g | g in fds
        ensures Present(r, g)
      {
        if g != fd {
          assert g in init;
          var i :| 0 <= i < |prev| && Matches(prev[i], g);
          assert r[i] == prev[i];
        } else if !Present(prev, fd) {
          assert Matches(r[|prev|], fd);
        }
      }
      forall k | |deps| <= k < |r|
        ensures exists g :: g in fds && r[k] == NewDependency(g)
      {
        if k < |prev| {
          var g :| g in init && prev[k] == NewDependency(g);
          assert g in fds && r[k] == NewDependency(g);
        } else {
          assert r[k] == NewDependency(fd);
        }
      }
      if NoDuplicates(deps) && !Present(prev, fd) {
        forall i, j | 0 <= i < j < |r|
          ensures !(r[i].groupId == r[j].groupId && r[i].artifactId == r[j].artifactId && r[i].version == r[j].version)
        {
          if j == |prev| {
            assert !Matches(prev[i], fd);
          }
        }
      }
    }
  }

  // ----- Adding features -----

  /** The dependencies the catalog lists for a feature; none for an unknown one. */
  function FeatureDeps(catalog: map<string, seq<FeatureDependency>>, name: string): seq<FeatureDependency> {
    if name in catalog then catalog[name] else []
  }

  function DoesNotExist(name: string): string {
    "Feature '" + name + "' does not exist"
  }

  /** The features list, the POM's dependencies and the failures reported so far. */
  datatype Added = Added(features: seq<string>, deps: seq<Dependency>, failures: seq<string>)

  /** One feature of the --add list: an unknown feature (or one without dependencies) is
      reported and skipped, a feature already present is skipped, any other is appended
      after its dependencies are merged into the POM. */
  function AddOne(catalog: map<string, seq<FeatureDependency>>, st: Added, name: string): Added {
    var fds := FeatureDeps(catalog, name);
    if fds == [] then st.(failures := st.failures + [DoesNotExist(name)])
    else if name in st.features then st
    else Added(st.features + [name], Merge(st.deps, fds), st.failures)
  }

  /** The features of the --add list, in order. */
  function AddAll(catalog: map<string, seq<FeatureDependency>>, st: Added, names: seq<string>): Added
    decreases |names|
  {
    if names == [] then st else AddOne(catalog, AddAll(catalog, st, names[..|names| - 1]), names[|names| - 1])
  }

  /** The features list only grows: the configured features stay in front, followed by
      features of the --add list that exist and were not there yet, each once, and every
      existing feature of the --add list ends up in the list, whatever failed before it. */
  lemma {:induction false} AddAllFeatures(catalog: map<string, seq<FeatureDependency>>, st: Added, names: seq<string>)
    ensures var r := AddAll(catalog, st, names);
      |r.features| >= |st.features| && r.features[..|st.features|] == st.features &&
      (forall k :: |st.features| <= k < |r.features| ==>
         r.features[k] in names && r.features[k] !in st.features && FeatureDeps(catalog, r.features[k]) != [] &&
         r.features[k] !in r.features[..k]) &&
      (forall n :: n in names && FeatureDeps(catalog, n) != [] ==> n in r.features)
    decreases |names|
  {
    if names != [] {
      var init := names[..|names| - 1];
      var n := names[|names| - 1];
      AddAllFeatures(catalog, st, init);
      var prev := AddAll(catalog, st, init);
      var r := AddAll(catalog, st, names);
      assert r == AddOne(catalog, prev, n);
      if r.features != prev.features {
        assert r.features == prev.features + [n];
        assert r.features[..|prev.features|] == prev.features;
        assert r.features[..|st.features|] == prev.features[..|st.features|];
      }
      forall m | m in names && FeatureDeps(catalog, m) != []
        ensures m in r.features
      {
        if m != n {
          assert m in init;
          assert m in prev.features;
        }
      }
    }
  }

  /** The features of names that exist and are not in present, each once, in the order
      of their first occurrence in names. */
  function Fresh(catalog: map<string, seq<FeatureDependency>>, present: seq<string>, names: seq<string>): seq<string>
    decreases |names|
  {
    if names == [] then []
    else if FeatureDeps(catalog, names[0]) == [] || names[0] in present then Fresh(catalog, present, names[1..])
    else [names[0]] + Fresh(catalog, present + [names[0]], names[1..])
  }

  /** Fresh over one more name: that name follows if it exists and is new. */
  lemma {:induction false} FreshSnoc(catalog: map<string, seq<FeatureDependency>>, present: seq<string>,
                                     names: seq<string>, n: string)
    ensures Fresh(catalog, present, names + [n]) ==
      Fresh(catalog, present, names) +
      (if FeatureDeps(catalog, n) == [] || n in present + Fresh(catalog, present, names) then [] else [n])
    decreases |names|
  {
    if names == [] {
      assert names + [n] == [n];
      assert present + [] == present;
    } else {
      var m := names[0];
      assert (names + [n])[0] == m && (names + [n])[1..] == names[1..] + [n];
      if FeatureDeps(catalog, m) == [] || m in present {
        FreshSnoc(catalog, present, names[1..], n);
      } else {
        FreshSnoc(catalog, present + [m], names[1..], n);
        assert present + Fresh(catalog, present, names) == (present + [m]) + Fresh(catalog, present + [m], names[1..]);
      }
    }
  }

  /** The features list after an add is the old list followed by the new, existing
      features of the --add list, in the order of the --add list. */
  lemma {:induction false} AddAllFeatureOrder(catalog: map<string, seq<FeatureDependency>>, st: Added, names: seq<string>)
    ensures AddAll(catalog, st, names).features == st.features + Fresh(catalog, st.features, names)
    decreases |names|
  {
    if names == [] {
      assert st.features + [] == st.features;
    } else {
      var init := names[..|names| - 1];
      var n := names[|names| - 1];
      AddAllFeatureOrder(catalog, st, init);
      FreshSnoc(catalog, st.features, init, n);
      assert init + [n] == names;
    }
  }

  /** Whether d is the dependency added for some dependency of a feature of names. */
  predicate FromFeatures(catalog: map<string, seq<FeatureDependency>>, names: seq<string>, d: Dependency) {
    exists n, fd :: n in names && fd in FeatureDeps(catalog, n) && d == NewDependency(fd)
  }

  /** Whether every dependency of the feature is present. */
  predicate HasDependencies(catalog: map<string, seq<FeatureDependency>>, name: string, deps: seq<Dependency>) {
    forall fd :: fd in FeatureDeps(catalog, name) ==> Present(deps, fd)
  }

  /** A dependency present stays present when dependencies are appended. */
  lemma PresentExtends(deps: seq<Dependency>, more: seq<Dependency>, fd: FeatureDependency)
    requires Present(deps, fd) && |more| >= |deps| && more[..|deps|] == deps
    ensures Present(more, fd)
  {
    var i :| 0 <= i < |deps| && Matches(deps[i], fd);
    assert more[i] == deps[i];
  }

  /** The POM keeps its dependencies in front and gains only dependencies of listed
      features, and no duplicate. */
  lemma {:induction false} AddAllDependencies(catalog: map<string, seq<FeatureDependency>>, st: Added, names: seq<string>)
    ensures var r := AddAll(catalog, st, names);
      |r.deps| >= |st.deps| && r.deps[..|st.deps|] == st.deps &&
      (forall k :: |st.deps| <= k < |r.deps| ==> FromFeatures(catalog, names, r.deps[k])) &&
      (NoDuplicates(st.deps) ==> NoDuplicates(r.deps))
    decreases |names|
  {
    if names != [] {
      var init := names[..|names| - 1];
      var n := names[|names| - 1];
      AddAllDependencies(catalog, st, init);
      var prev := AddAll(catalog, st, init);
      var r := AddAll(catalog, st, names);
      var fds := FeatureDeps(catalog, n);
      if fds != [] && n !in prev.features {
        MergeProperties(prev.deps, fds);
        assert r.deps[..|st.deps|] == prev.deps[..|st.deps|];
      } else {
        assert r.deps == prev.deps;
      }
      assert r.deps[..|prev.deps|] == prev.deps;
      forall k | |st.deps| <= k < |r.deps|
        ensures FromFeatures(catalog, names, r.deps[k])
      {
        if k < |prev.deps| {
          assert FromFeatures(catalog, init, prev.deps[k]);
          var m, fd :| m in init && fd in FeatureDeps(catalog, m) && prev.deps[k] == NewDependency(fd);
          assert m in names && r.deps[k] == prev.deps[k];
        } else {
          var fd :| fd in fds && r.deps[k] == NewDependency(fd);
          assert n in names;
        }
      }
    }
  }

  /** The POM holds every dependency of every feature added to the list. */
  lemma {:induction false} AddedFeaturesHaveDependencies(catalog: map<string, seq<FeatureDependency>>, st: Added, names: seq<string>)
    ensures var r := AddAll(catalog, st, names);
      forall n :: n in r.features && n !in st.features ==> HasDependencies(catalog, n, r.deps)
    decreases |names|
  {
    if names != [] {
      var init := names[..|names| - 1];
      var n := names[|names| - 1];
      AddedFeaturesHaveDependencies(catalog, st, init);
      var prev := AddAll(catalog, st, init);
      var r := AddAll(catalog, st, names);
      var fds := FeatureDeps(catalog, n);
      if fds != [] && n !in prev.features {
        MergeProperties(prev.deps, fds);
        forall m | m in r.features && m !in st.features
          ensures HasDependencies(catalog, m, r.deps)
        {
          if m != n {
            assert m in prev.features;
            forall fd | fd in FeatureDeps(catalog, m)
              ensures Present(r.deps, fd)
            {
              PresentExtends(prev.deps, r.deps, fd);
            }
          }
        }
      } else {
        assert r.features == prev.features && r.deps == prev.deps;
      }
    }
  }

  /** Every feature of the --add list that does not exist is reported once, in order, and
      nothing else is. */
  lemma {:induction false} AddAllFailures(catalog: map<string, seq<FeatureDependency>>, st: Added, names: seq<string>)
    ensures AddAll(catalog, st, names).failures == st.failures + Missing(catalog, names)
    decreases |names|
  {
    if names != [] {
      AddAllFailures(catalog, st, names[..|names| - 1]);
    }
  }

  /** The reports for the features of names that do not exist. */
  function Missing(catalog: map<string, seq<FeatureDependency>>, names: seq<string>): seq<string>
    decreases |names|
  {
    if names == [] then []
    else
      var n := names[|names| - 1];
      Missing(catalog, names[..|names| - 1]) + (if FeatureDeps(catalog, n) == [] then [DoesNotExist(n)] else [])
  }

  /** Adding features that are all present already, or do not exist, changes neither the
      features nor the POM. */
  lemma {:induction false} AddAllPresent(catalog: map<string, seq<FeatureDependency>>, st: Added, names: seq<string>)
    requires forall n :: n in names ==> n in st.features || FeatureDeps(catalog, n) == []
    ensures var r := AddAll(catalog, st, names);
      r.features == st.features && r.deps == st.deps
    decreases |names|
  {
    if names != [] {
      AddAllPresent(catalog, st, names[..|names| - 1]);
    }
  }

  /** Running the same --add list twice changes nothing the second time but the reports. */
  lemma AddAllIdempotent(catalog: map<string, seq<FeatureDependency>>, st: Added, names: seq<string>)
    ensures var once := AddAll(catalog, st, names);
      var twice := AddAll(catalog, once, names);
      twice.features == once.features && twice.deps == once.deps
  {
    AddAllFeatures(catalog, st, names);
    AddAllPresent(catalog, AddAll(catalog, st, names), names);
  }

  // ----- The objects -----

  /** The POM model read from pom.xml. */
  class PomModel {
    var dependencies: seq<Dependency>

    constructor(dependencies: seq<Dependency>)
      ensures this.dependencies == dependencies
    {
      this.dependencies := dependencies;
    }

    method AddDependency(d: Dependency)
      modifies this
      ensures dependencies == old(dependencies) + [d]
    {
      dependencies := dependencies + [d];
    }
  }

  /** The project configuration: the feature catalog, the project's features property and
      how many times it was stored. */
  class ProjectConfig {
    const catalog: map<string, seq<FeatureDependency>>
    var projectFeatures: seq<string>
    var stores: nat

    constructor(catalog: map<string, seq<FeatureDependency>>, projectFeatures: seq<string>)
      ensures this.catalog == catalog && this.projectFeatures == projectFeatures && stores == 0
    {
      this.catalog := catalog;
      this.projectFeatures := projectFeatures;
      stores := 0;
    }

    method SetFeatures(features: seq<string>)
      modifies this`projectFeatures
      ensures projectFeatures == features
    {
      projectFeatures := features;
    }

    method Store()
      modifies this`stores
      ensures stores == old(stores) + 1
    {
      stores := stores + 1;
    }
  }

  /** The first dependency matching fd, as the stream search does. */
  method FindFirst(deps: seq<Dependency>, fd: FeatureDependency) returns (found: Option<nat>)
    ensures found.None? <==> !Present(deps, fd)
    ensures found.Some? ==> found.value < |deps| && Matches(deps[found.value], fd) &&
                            forall k :: 0 <= k < found.value ==> !Matches(deps[k], fd)
  {
    var i := 0;
    while i < |deps|
      invariant 0 <= i <= |deps|
      invariant forall k :: 0 <= k < i ==> !Matches(deps[k], fd)
    {
      if Matches(deps[i], fd) {
        return Some(i);
      }
      i := i + 1;
    }
    return None;
  }

  /** addFeatures: merge the features of the --add list into the configured ones and their
      dependencies into the POM; store the configuration only if a feature was added; the
      POM is written back in every case. Returns the failures reported and the dependencies
      written to pom.xml. */
  method AddFeaturesTo(add: seq<string>, model: PomModel, config: ProjectConfig)
    returns (failures: seq<string>, written: seq<Dependency>)
    modifies model, config
    ensures var r := AddAll(config.catalog, Added(old(config.projectFeatures), old(model.dependencies), []), add);
      model.dependencies == r.deps && written == r.deps && failures == r.failures &&
      (if |r.features| > |old(config.projectFeatures)|
       then config.projectFeatures == r.features && config.stores == old(config.stores) + 1
       else config.projectFeatures == old(config.projectFeatures) && config.stores == old(config.stores))
  {
    var features := config.projectFeatures;
    var featuresSize := |features|;
    ghost var init := Added(features, model.dependencies, []);
    failures := [];
    for i := 0 to |add|
      invariant AddAll(config.catalog, init, add[..i]) == Added(features, model.dependencies, failures)
      invariant config.projectFeatures == old(config.projectFeatures) && config.stores == old(config.stores)
    {
      var name := add[i];
      assert add[..i + 1][..i] == add[..i];
      var fds := FeatureDeps(config.catalog, name);
      if fds == [] {
        failures := failures + [DoesNotExist(name)];
      } else if name !in features {
        ghost var before := model.dependencies;
        for j := 0 to |fds|
          modifies model
          invariant model.dependencies == Merge(before, fds[..j])
        {
          assert fds[..j + 1][..j] == fds[..j];
          var found := FindFirst(model.dependencies, fds[j]);
          if found.None? {
            model.AddDependency(NewDependency(fds[j]));
          }
        }
        assert fds[..|fds|] == fds;
        features := features + [name];
      }
    }
    assert add[..|add|] == add;
    if |features| > featuresSize {
      config.SetFeatures(features);
      config.Store();
    }
    written := model.dependencies;
  }
}
