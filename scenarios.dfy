/** Concrete runs of the workflow, worked out completely. */
module Scenarios {
  import opened Repository
  import opened Workflow
  import WorkflowProperties
  import Tasks
  import Progress
  import Ore

  /** Every artifact downloads as "<id>.jar" and copies completely. */
  function JarOf(v: PluginVersionInfo): Fetched<PluginJar>
  {
    Found(PluginJar(Some(v.pluginId + ".jar"), true))
  }

  function NoSearch(q: string): SearchResult
  {
    Results([])
  }

  function Plugin(id: string, version: string, deps: seq<PartialVersionInfo>): PluginVersionInfo
  {
    PluginVersionInfo(id, ArtifactVersion(version), "2017-01-01T00:00:00Z", 0, deps)
  }

  function Edge(id: string, version: string): PartialVersionInfo
  {
    PartialVersionInfo(id, ArtifactVersion(version))
  }

  const B := Plugin("B", "1.0", [])
  const A := Plugin("A", "2.0", [Edge("B", "1.0")])

  function ChainRepo(id: string): Fetched<PluginVersionInfo>
  {
    if id == "B" then Found(B) else NotFound
  }

  function ChainEnv(compare: (ArtifactVersion, ArtifactVersion) -> int): Env
  {
    Env(Repo(ChainRepo, NoSearch, JarOf), [], compare, "mods")
  }

  const ChainB: seq<Event> :=
    [Preparing("B", ArtifactVersion("1.0")), WillInstall("B"), Destination("mods/B.jar"), Success]

  lemma InstallLeaf(compare: (ArtifactVersion, ArtifactVersion) -> int)
    ensures Resolvable(ChainEnv(compare), B, 0)
    ensures Installation(ChainEnv(compare), B, {}, 0) == Outcome(ChainB, {"mods/B.jar"}, false)
  {
    var env := ChainEnv(compare);
    assert Resolve("mods", "B" + ".jar") == "mods/B.jar";
    assert Dependencies(env, B.dependencies, {}, 0) == Outcome([], {}, false);
  }

  lemma ResolveLeaf(compare: (ArtifactVersion, ArtifactVersion) -> int)
    ensures DepsResolvable(ChainEnv(compare), A.dependencies, 1)
    ensures Dependencies(ChainEnv(compare), A.dependencies, {}, 1)
      == Outcome([Dependency("B", ArtifactVersion("1.0")), NotFoundLocally] + ChainB, {"mods/B.jar"}, false)
  {
    var env := ChainEnv(compare);
    InstallLeaf(compare);
    assert A.dependencies[..0] == [];
    assert forall d :: d in A.dependencies ==> d == Edge("B", "1.0");
  }

  /** A depends on B@1.0, which is not installed and has no dependencies:
      B's whole installation is reported, and its file written, before A's
      own install step. */
  lemma InstallChain(compare: (ArtifactVersion, ArtifactVersion) -> int)
    ensures Resolvable(ChainEnv(compare), A, 1)
    ensures Installation(ChainEnv(compare), A, {}, 1) == Outcome(
        [ Preparing("A", ArtifactVersion("2.0")), FoundDependencies, Dependency("B", ArtifactVersion("1.0")),
          NotFoundLocally, Preparing("B", ArtifactVersion("1.0")), WillInstall("B"), Destination("mods/B.jar"),
          Success, WillInstall("A"), Destination("mods/A.jar"), Success ],
        {"mods/B.jar", "mods/A.jar"}, false)
  {
    var env := ChainEnv(compare);
    ResolveLeaf(compare);
    assert Resolve("mods", "A" + ".jar") == "mods/A.jar";
    assert InstallArtifact(env, A, {"mods/B.jar"}) == Outcome([Destination("mods/A.jar"), Success], {"mods/B.jar", "mods/A.jar"}, false);
  }

  const ChainReport: seq<Event> :=
    [ Preparing("A", ArtifactVersion("2.0")), FoundDependencies, Dependency("B", ArtifactVersion("1.0")),
      NotFoundLocally, Preparing("B", ArtifactVersion("1.0")), WillInstall("B"), Destination("mods/B.jar"),
      Success, WillInstall("A"), Destination("mods/A.jar"), Success ]

  lemma RenderPreparingA()
    ensures Render(Preparing("A", ArtifactVersion("2.0"))) == "Preparing installation of A version 2.0"
  {
  }

  lemma RenderEdgeB()
    ensures Render(Dependency("B", ArtifactVersion("1.0"))) == "B@1.0"
  {
  }

  lemma RenderPreparingB()
    ensures Render(Preparing("B", ArtifactVersion("1.0"))) == "Preparing installation of B version 1.0"
  {
  }

  lemma RenderWillInstallB()
    ensures Render(WillInstall("B")) == "Will now install B"
  {
  }

  lemma RenderDestinationB()
    ensures Render(Destination("mods/B.jar")) == "Destination: mods/B.jar"
  {
  }

  lemma RenderWillInstallA()
    ensures Render(WillInstall("A")) == "Will now install A"
  {
  }

  lemma RenderDestinationA()
    ensures Render(Destination("mods/A.jar")) == "Destination: mods/A.jar"
  {
  }

  lemma RenderFound()
    ensures Render(FoundDependencies) == "Found the following dependencies"
  {
  }

  lemma RenderNotFoundLocally()
    ensures Render(NotFoundLocally) == "Dependency not found locally, searching on remote repository"
  {
  }

  lemma RenderSuccess()
    ensures Render(Success) == "Success"
  {
  }

  lemma ChainHeadText()
    ensures Lines([ Preparing("A", ArtifactVersion("2.0")), FoundDependencies, Dependency("B", ArtifactVersion("1.0")),
        NotFoundLocally ])
      == [ "Preparing installation of A version 2.0", "Found the following dependencies", "B@1.0",
        "Dependency not found locally, searching on remote repository" ]
  {
    RenderPreparingA();
    RenderFound();
    RenderEdgeB();
    RenderNotFoundLocally();
  }

  lemma ChainSubtreeText()
    ensures Lines([ Preparing("B", ArtifactVersion("1.0")), WillInstall("B"), Destination("mods/B.jar"), Success ])
      == [ "Preparing installation of B version 1.0", "Will now install B", "Destination: mods/B.jar", "Success" ]
  {
    RenderPreparingB();
    RenderWillInstallB();
    RenderDestinationB();
    RenderSuccess();
  }

  lemma ChainTailText()
    ensures Lines([ WillInstall("A"), Destination("mods/A.jar"), Success ])
      == [ "Will now install A", "Destination: mods/A.jar", "Success" ]
  {
    RenderWillInstallA();
    RenderDestinationA();
    RenderSuccess();
  }

  /** The exact text of that report. */
  lemma ChainText()
    ensures Lines(ChainReport) ==
        [ "Preparing installation of A version 2.0", "Found the following dependencies", "B@1.0",
          "Dependency not found locally, searching on remote repository",
          "Preparing installation of B version 1.0", "Will now install B", "Destination: mods/B.jar",
          "Success", "Will now install A", "Destination: mods/A.jar", "Success" ]
  {
    var head := [ Preparing("A", ArtifactVersion("2.0")), FoundDependencies, Dependency("B", ArtifactVersion("1.0")),
      NotFoundLocally ];
    var subtree := [ Preparing("B", ArtifactVersion("1.0")), WillInstall("B"), Destination("mods/B.jar"), Success ];
    var tail := [ WillInstall("A"), Destination("mods/A.jar"), Success ];
    assert ChainReport == head + subtree + tail;
    LinesAppend(head + subtree, tail);
    LinesAppend(head, subtree);
    ChainHeadText();
    ChainSubtreeText();
    ChainTailText();
  }

  // ---------------------------------------------------------------------

  const C := Plugin("C", "1.0", [Edge("D", "2.0")])

  /** The host has D ("Dee") at version 1.5. */
  const InstalledD := PluginContainer("D", "Dee", Some("1.5"), true)

  /** C depends on D@2.0 while D 1.5 is installed: the update is reported
      and nothing is done about it; whatever the repository would say about
      D is never asked, and no level of recursion is needed. */
  lemma LocalUpdateReportedOnly(versions: string -> Fetched<PluginVersionInfo>, compare: (ArtifactVersion, ArtifactVersion) -> int)
    requires compare(ArtifactVersion("2.0"), ArtifactVersion("1.5")) > 0
    ensures var env := Env(Repo(versions, NoSearch, JarOf), [InstalledD], compare, "mods");
      Resolvable(env, C, 0)
      && Installation(env, C, {}, 0) == Outcome(
        [ Preparing("C", ArtifactVersion("1.0")), FoundDependencies, Dependency("D", ArtifactVersion("2.0")),
          RequiresUpdate("Dee", ArtifactVersion("1.5"), ArtifactVersion("2.0")),
          WillInstall("C"), Destination("mods/C.jar"), Success ],
        {"mods/C.jar"}, false)
  {
    var env := Env(Repo(versions, NoSearch, JarOf), [InstalledD], compare, "mods");
    assert Lookup(env.registry, "D") == Some(InstalledD);
    assert forall d :: d in C.dependencies ==> d == Edge("D", "2.0");
    assert C.dependencies[..0] == [];
    assert Dependencies(env, C.dependencies, {}, 0) == Outcome(
      [Dependency("D", ArtifactVersion("2.0")), RequiresUpdate("Dee", ArtifactVersion("1.5"), ArtifactVersion("2.0"))], {}, false);
    assert Resolve("mods", "C" + ".jar") == "mods/C.jar";
  }

  // ---------------------------------------------------------------------
  // A diamond: T depends on L and R, which both depend on D.

  const Base := Plugin("D", "1.0", [])
  const Left := Plugin("L", "1.0", [Edge("D", "1.0")])
  const Right := Plugin("R", "1.0", [Edge("D", "1.0")])
  const Top := Plugin("T", "1.0", [Edge("L", "1.0"), Edge("R", "1.0")])

  function DiamondRepo(id: string): Fetched<PluginVersionInfo>
  {
    if id == "D" then Found(Base)
    else if id == "L" then Found(Left)
    else if id == "R" then Found(Right)
    else NotFound
  }

  function DiamondEnv(compare: (ArtifactVersion, ArtifactVersion) -> int): Env
  {
    Env(Repo(DiamondRepo, NoSearch, JarOf), [], compare, "mods")
  }

  const DReport: seq<Event> := [Preparing("D", ArtifactVersion("1.0")), WillInstall("D")]

  /** Installing D: its file is written unless it already exists. */
  lemma BaseInstall(compare: (ArtifactVersion, ArtifactVersion) -> int, fs: set<string>, n: nat)
    ensures Resolvable(DiamondEnv(compare), Base, n)
    ensures var o := Installation(DiamondEnv(compare), Base, fs, n);
      if "mods/D.jar" in fs then o == Outcome(DReport, fs, false)
      else o == Outcome(DReport + [Destination("mods/D.jar"), Success], fs + {"mods/D.jar"}, false)
  {
    var env := DiamondEnv(compare);
    assert Resolve("mods", "D" + ".jar") == "mods/D.jar";
    assert Dependencies(env, Base.dependencies, fs, n) == Outcome([], fs, false);
  }

  /** The events of installing L into an empty directory. */
  const LeftReport := [
    Preparing("L", ArtifactVersion("1.0")), FoundDependencies,
    Dependency("D", ArtifactVersion("1.0")), NotFoundLocally,
    Preparing("D", ArtifactVersion("1.0")), WillInstall("D"), Destination("mods/D.jar"), Success,
    WillInstall("L"), Destination("mods/L.jar"), Success ]

  lemma LeftDependencies(compare: (ArtifactVersion, ArtifactVersion) -> int)
    ensures DepsResolvable(DiamondEnv(compare), Left.dependencies, 1)
    ensures Dependencies(DiamondEnv(compare), Left.dependencies, {}, 1) == Outcome(
      [Dependency("D", ArtifactVersion("1.0")), NotFoundLocally] + DReport + [Destination("mods/D.jar"), Success],
      {"mods/D.jar"}, false)
  {
    BaseInstall(compare, {}, 0);
    assert Left.dependencies[..0] == [];
    assert forall d :: d in Left.dependencies ==> d == Edge("D", "1.0");
  }

  lemma LeftInstall(compare: (ArtifactVersion, ArtifactVersion) -> int)
    ensures Resolvable(DiamondEnv(compare), Left, 1)
    ensures Installation(DiamondEnv(compare), Left, {}, 1)
      == Outcome(LeftReport, {"mods/D.jar", "mods/L.jar"}, false)
  {
    var env := DiamondEnv(compare);
    LeftDependencies(compare);
    assert Resolve("mods", "L" + ".jar") == "mods/L.jar";
    assert "mods/L.jar" != "mods/D.jar" by {
      assert "mods/L.jar"[5] != "mods/D.jar"[5];
    }
    assert InstallArtifact(env, Left, {"mods/D.jar"}) == Outcome([Destination("mods/L.jar"), Success], {"mods/D.jar", "mods/L.jar"}, false);
  }

  /** The events of installing R once D and L are in place: D is announced
      again but its file exists, so it is not written. */
  const RightReport := [
    Preparing("R", ArtifactVersion("1.0")), FoundDependencies,
    Dependency("D", ArtifactVersion("1.0")), NotFoundLocally,
    Preparing("D", ArtifactVersion("1.0")), WillInstall("D"),
    WillInstall("R"), Destination("mods/R.jar"), Success ]

  lemma RightDependencies(compare: (ArtifactVersion, ArtifactVersion) -> int)
    ensures DepsResolvable(DiamondEnv(compare), Right.dependencies, 1)
    ensures Dependencies(DiamondEnv(compare), Right.dependencies, {"mods/D.jar", "mods/L.jar"}, 1) == Outcome(
      [Dependency("D", ArtifactVersion("1.0")), NotFoundLocally] + DReport, {"mods/D.jar", "mods/L.jar"}, false)
  {
    BaseInstall(compare, {"mods/D.jar", "mods/L.jar"}, 0);
    assert Right.dependencies[..0] == [];
    assert forall d :: d in Right.dependencies ==> d == Edge("D", "1.0");
  }

  lemma RightInstall(compare: (ArtifactVersion, ArtifactVersion) -> int)
    ensures Resolvable(DiamondEnv(compare), Right, 1)
    ensures Installation(DiamondEnv(compare), Right, {"mods/D.jar", "mods/L.jar"}, 1)
      == Outcome(RightReport, {"mods/D.jar", "mods/L.jar", "mods/R.jar"}, false)
  {
    var env := DiamondEnv(compare);
    RightDependencies(compare);
    assert Resolve("mods", "R" + ".jar") == "mods/R.jar";
    assert "mods/R.jar" !in {"mods/D.jar", "mods/L.jar"} by {
      assert "mods/R.jar"[5] == 'R';
    }
    assert InstallArtifact(env, Right, {"mods/D.jar", "mods/L.jar"})
      == Outcome([Destination("mods/R.jar"), Success], {"mods/D.jar", "mods/L.jar", "mods/R.jar"}, false);
  }

  lemma TopFirstDependency(compare: (ArtifactVersion, ArtifactVersion) -> int)
    ensures DepsResolvable(DiamondEnv(compare), Top.dependencies[..1], 2)
    ensures Dependencies(DiamondEnv(compare), Top.dependencies[..1], {}, 2) == Outcome(
      [Dependency("L", ArtifactVersion("1.0")), NotFoundLocally] + LeftReport, {"mods/D.jar", "mods/L.jar"}, false)
  {
    LeftInstall(compare);
    var ds := Top.dependencies[..1];
    assert ds == [Edge("L", "1.0")] && ds[..0] == [];
  }

  /** What resolving T's dependencies reports. */
  const TopDependencyReport :=
    ([Dependency("L", ArtifactVersion("1.0")), NotFoundLocally] + LeftReport)
    + ([Dependency("R", ArtifactVersion("1.0")), NotFoundLocally] + RightReport)

  lemma TopDependencies(compare: (ArtifactVersion, ArtifactVersion) -> int)
    ensures DepsResolvable(DiamondEnv(compare), Top.dependencies, 2)
    ensures Dependencies(DiamondEnv(compare), Top.dependencies, {}, 2)
      == Outcome(TopDependencyReport, {"mods/D.jar", "mods/L.jar", "mods/R.jar"}, false)
  {
    TopFirstDependency(compare);
    RightInstall(compare);
    var ds := Top.dependencies;
    assert ds[..|ds| - 1] == ds[..1];
    assert forall d :: d in ds ==> d == Edge("L", "1.0") || d == Edge("R", "1.0");
  }

  lemma TopArtifact(compare: (ArtifactVersion, ArtifactVersion) -> int)
    ensures InstallArtifact(DiamondEnv(compare), Top, {"mods/D.jar", "mods/L.jar", "mods/R.jar"})
      == Outcome([Destination("mods/T.jar"), Success], {"mods/D.jar", "mods/L.jar", "mods/R.jar", "mods/T.jar"}, false)
  {
    assert Resolve("mods", "T" + ".jar") == "mods/T.jar";
    assert "mods/T.jar" !in {"mods/D.jar", "mods/L.jar", "mods/R.jar"} by {
      assert "mods/T.jar"[5] == 'T';
    }
  }

  /** An installation with dependencies none of which aborts, in terms of
      the outcomes of its two phases. */
  lemma InstallationWithDependencies(env: Env, v: PluginVersionInfo, fs: set<string>, n: nat, d: Outcome, s: Outcome)
    requires Resolvable(env, v, n) && |v.dependencies| > 0
    requires d == Dependencies(env, v.dependencies, fs, n) && !d.crashed
    requires s == InstallArtifact(env, v, d.files)
    ensures Installation(env, v, fs, n)
      == Outcome([Preparing(v.pluginId, v.version), FoundDependencies] + d.events + [WillInstall(v.pluginId)] + s.events, s.files, s.crashed)
  {
  }

  /** The shared dependency D is fetched and installed twice, since the
      host's registry does not learn about files written during the run;
      the second time its file exists, so it is written only once. */
  lemma DiamondInstallsBaseOnce(compare: (ArtifactVersion, ArtifactVersion) -> int)
    ensures Resolvable(DiamondEnv(compare), Top, 2)
    ensures Installation(DiamondEnv(compare), Top, {}, 2) == Outcome(
        [Preparing("T", ArtifactVersion("1.0")), FoundDependencies] + TopDependencyReport
        + [WillInstall("T"), Destination("mods/T.jar"), Success],
        {"mods/D.jar", "mods/L.jar", "mods/R.jar", "mods/T.jar"}, false)
  {
    var env := DiamondEnv(compare);
    TopDependencies(compare);
    TopArtifact(compare);
    var d := Dependencies(env, Top.dependencies, {}, 2);
    var s := InstallArtifact(env, Top, d.files);
    InstallationWithDependencies(env, Top, {}, 2, d, s);
    var w := [WillInstall("T")];
    Progress.AppendAssoc([Preparing("T", ArtifactVersion("1.0")), FoundDependencies] + d.events, w, s.events);
    assert w + s.events == [WillInstall("T"), Destination("mods/T.jar"), Success];
  }

  // ---------------------------------------------------------------------
  // An archive without entries

  /** Every artifact downloads as an archive without entries. */
  function EmptyJar(v: PluginVersionInfo): Fetched<PluginJar>
  {
    Found(PluginJar(None, true))
  }

  const E := Plugin("E", "1.0", [])
  const F := Plugin("F", "1.0", [])

  function PairRepo(id: string): Fetched<PluginVersionInfo>
  {
    if id == "E" then Found(E) else if id == "F" then Found(F) else NotFound
  }

  function EmptyArchiveEnv(compare: (ArtifactVersion, ArtifactVersion) -> int): Env
  {
    Env(Repo(PairRepo, NoSearch, EmptyJar), [], compare, "mods")
  }

  /** Installing E then F, where E's archive has no entries: the run aborts
      after E is announced, and F is never attempted. */
  lemma EmptyArchiveAborts(compare: (ArtifactVersion, ArtifactVersion) -> int)
    ensures IdsResolvable(EmptyArchiveEnv(compare), ["E", "F"], 0)
    ensures InstallRequest(EmptyArchiveEnv(compare), ["E", "F"], {}, 0) ==
      Outcome([Attempting(["E", "F"]), Preparing("E", ArtifactVersion("1.0")), WillInstall("E")], {}, true)
  {
    var env := EmptyArchiveEnv(compare);
    var ids := ["E", "F"];
    assert forall id :: id in ids ==> id == "E" || id == "F";
    assert Dependencies(env, E.dependencies, {}, 0) == Outcome([], {}, false);
    assert ids[..1] == ["E"] && ids[..1][..0] == [];
    assert InstallEach(env, ids[..1], {}, 0) == Installation(env, E, {}, 0);
  }

  /** The same run through Tasks.Run: the buffer holds the three lines
      and the run is left marked as sending, so its tick never cancels. */
  method EmptyArchiveLeavesSending(compare: (ArtifactVersion, ArtifactVersion) -> int)
    returns (lines: seq<Event>, sending: bool, files: set<string>)
    ensures lines == [Attempting(["E", "F"]), Preparing("E", ArtifactVersion("1.0")), WillInstall("E")]
    ensures sending && files == {}
  {
    EmptyArchiveAborts(compare);
    var fs := new Tasks.Filesystem({});
    var response, crashed := Tasks.Run(EmptyArchiveEnv(compare), InstallTask(["E", "F"]), 0, fs);
    lines, sending, files := response.messages, response.sending, fs.files;
  }

  // ---------------------------------------------------------------------
  // The Ore repository behind the workflow

  /** A search endpoint that does not exist reports the same line as one
      that answers with no projects. */
  lemma OreMissingSearchReportsNothingFound(server: Ore.Server, other: Ore.Server, query: string)
    requires server.projects(Ore.SearchEndpoint(query)).Absent?
    requires other.projects(Ore.SearchEndpoint(query)) == Ore.Body([])
    ensures SearchRequest(query, Ore.OreRepo(server).search(query)) == [NoPluginsFound(query)]
    ensures SearchRequest(query, Ore.OreRepo(other).search(query)) == [NoPluginsFound(query)]
  {
  }

  /** An Ore download that is an archive without entries aborts the install
      step before any file is created. */
  lemma OreEmptyArchiveAborts(env: Env, server: Ore.Server, v: PluginVersionInfo, fs: set<string>)
    requires env.repo == Ore.OreRepo(server)
    requires server.project(Ore.ProjectEndpoint(v.pluginId)).Body?
    requires var p := server.project(Ore.ProjectEndpoint(v.pluginId)).value;
      server.download(Ore.DownloadUrl(Ore.WebLink(p.href), v.version.text)).Body?
      && server.download(Ore.DownloadUrl(Ore.WebLink(p.href), v.version.text)).value.entries == []
    ensures InstallArtifact(env, v, fs) == Outcome([], fs, true)
  {
  }
}
