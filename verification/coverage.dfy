/**
  How the integration tests switch coverage collection on and off. Two
  environment variables are read: COVER_CONTAINER_DIR (where the instrumented
  program writes coverage data inside the container) and COVER_HOST_DIR
  (where the tests copy that data on the host). Only whether each value is
  empty decides anything; the values are parameters here.
*/
module Coverage {

  /** Docker build argument that asks for an instrumented build, and its value. */
  const InstrumentArg: string := "COVER_INSTRUMENT"
  const InstrumentOn: string := "1"

  /** Environment variable the Go runtime reads to know where to write coverage data. */
  const CoverDirVar: string := "GOCOVERDIR"

  /**
    The coverage-related parts of the container request: build arguments,
    environment, and the targets of the anonymous volumes mounted into it.
    A nil map or slice is the empty one.
  */
  datatype ContainerSettings = ContainerSettings(
    buildArgs: map<string, string>,
    env: map<string, string>,
    mountTargets: seq<string>)

  /** The container is built with instrumentation. */
  predicate Instrumented(s: ContainerSettings) {
    InstrumentArg in s.buildArgs
  }

  /**
    The three settings go together: an instrumented build has GOCOVERDIR set
    and a volume mounted exactly there, and an uninstrumented one has none.
  */
  predicate Coherent(s: ContainerSettings) {
    && (Instrumented(s) <==> CoverDirVar in s.env)
    && (Instrumented(s) <==> |s.mountTargets| > 0)
    && (CoverDirVar in s.env ==> forall i :: 0 <= i < |s.mountTargets| ==> s.mountTargets[i] == s.env[CoverDirVar])
  }

  /** The settings the test requests for a given value of COVER_CONTAINER_DIR. */
  function Settings(containerCoverDir: string): (s: ContainerSettings)
    ensures Instrumented(s) <==> |containerCoverDir| != 0
    ensures Instrumented(s) ==> s.buildArgs[InstrumentArg] == InstrumentOn
    ensures s.buildArgs.Keys <= {InstrumentArg}
    ensures CoverDirVar in s.env <==> |containerCoverDir| != 0
    ensures CoverDirVar in s.env ==> s.env[CoverDirVar] == containerCoverDir
    ensures s.env.Keys <= {CoverDirVar}
    ensures |s.mountTargets| != 0 <==> |containerCoverDir| != 0
    ensures |s.mountTargets| <= 1
    ensures forall i :: 0 <= i < |s.mountTargets| ==> s.mountTargets[i] == containerCoverDir
  {
    if |containerCoverDir| != 0 then
      ContainerSettings(
        map[InstrumentArg := InstrumentOn],
        map[CoverDirVar := containerCoverDir],
        [containerCoverDir])
    else
      ContainerSettings(map[], map[], [])
  }

  /** Whatever COVER_CONTAINER_DIR holds, the requested settings are coherent. */
  lemma SettingsAreCoherent(containerCoverDir: string)
    ensures Coherent(Settings(containerCoverDir))
  {
  }

  /** Where on the host the coverage data go: a path used as given, or one joined under the repository root and then made absolute. */
  datatype HostPath = AsGiven(path: string) | UnderRoot(rootDir: string, relative: string)

  /** The decision taken after the container stopped. */
  datatype CopyPlan = NoCopy | CopyFrom(containerDir: string, host: HostPath)

  /** A path is absolute when it starts at the root (Unix path rules). */
  predicate IsAbs(p: string)
    ensures IsAbs(p) <==> |p| > 0 && p[0] == '/'
  {
    "/" <= p
  }

  /** The decision taken for given values of COVER_CONTAINER_DIR and COVER_HOST_DIR. */
  function PlanCopy(containerCoverDir: string, hostCoverDir: string, rootDir: string): (p: CopyPlan)
    ensures p.CopyFrom? <==> |containerCoverDir| != 0 && |hostCoverDir| != 0
    ensures p.CopyFrom? ==> p.containerDir == containerCoverDir
    ensures p.CopyFrom? && IsAbs(hostCoverDir) ==> p.host == AsGiven(hostCoverDir)
    ensures p.CopyFrom? && !IsAbs(hostCoverDir) ==> p.host == UnderRoot(rootDir, hostCoverDir)
  {
    if |containerCoverDir| == 0 then NoCopy
    else if |hostCoverDir| == 0 then NoCopy
    else if IsAbs(hostCoverDir) then CopyFrom(containerCoverDir, AsGiven(hostCoverDir))
    else CopyFrom(containerCoverDir, UnderRoot(rootDir, hostCoverDir))
  }

  /**
    Coverage is only ever copied out of an instrumented container, and from
    the very directory that container was told to write to and had mounted.
  */
  lemma CopyOnlyFromInstrumented(containerCoverDir: string, hostCoverDir: string, rootDir: string)
    ensures PlanCopy(containerCoverDir, hostCoverDir, rootDir).CopyFrom? ==>
      && Instrumented(Settings(containerCoverDir))
      && Settings(containerCoverDir).env[CoverDirVar] == PlanCopy(containerCoverDir, hostCoverDir, rootDir).containerDir
      && PlanCopy(containerCoverDir, hostCoverDir, rootDir).containerDir in Settings(containerCoverDir).mountTargets
  {
    var s := Settings(containerCoverDir);
    if PlanCopy(containerCoverDir, hostCoverDir, rootDir).CopyFrom? {
      assert s.mountTargets[0] == containerCoverDir;
    }
  }

  /** COVER_HOST_DIR alone does nothing: without a container directory there is no copy. */
  lemma HostDirAloneCopiesNothing(hostCoverDir: string, rootDir: string)
    ensures PlanCopy("", hostCoverDir, rootDir) == NoCopy
    ensures !Instrumented(Settings(""))
  {
  }
}
