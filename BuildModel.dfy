/** The value types of the build data model: build types, roots, components and
    the change snapshots a root reports. */
module BuildModel {
  /** A tag naming one stage of the build pipeline (sources, classes, ...).
      Steps match components by equality of these tags only. */
  datatype BuildType = BuildType(name: string)

  /** What changed under a root since its tracked snapshot was last refreshed. */
  datatype Changes = Changes(added: set<string>, modified: set<string>, removed: set<string>)
  {
    predicate IsEmpty() {
      added == {} && modified == {} && removed == {}
    }

    /** These changes followed by more: every path stays recorded under its kind. */
    function Combine(more: Changes): (r: Changes)
      ensures added <= r.added && modified <= r.modified && removed <= r.removed
      ensures more.added <= r.added && more.modified <= r.modified && more.removed <= r.removed
      ensures r.IsEmpty() <==> IsEmpty() && more.IsEmpty()
    {
      Changes(added + more.added, modified + more.modified, removed + more.removed)
    }
  }

  const NoChanges := Changes({}, {}, {})

  /** A directory tagged with a build type: the files it holds and the changes
      pending against its last snapshot. */
  datatype BuildRoot = BuildRoot(path: string, buildType: BuildType, files: set<string>, pending: Changes)

  /** One source root paired with the output root it is built into. */
  datatype BuildComponent = BuildComponent(sourceRoot: BuildRoot, outputRoot: BuildRoot)

  /** The changes of one root of a component (a root's change report knows its root). */
  datatype RootChanges = RootChanges(component: BuildComponent, root: BuildRoot, changes: Changes)

  /** The build-definition file a project tracks (e.g. pom.xml). */
  datatype BuildFile = BuildFile(path: string)
}
