# Soak: a verified model of the plugin installer

Soak is a Sponge server plugin that installs, updates and searches for other
plugins from the Ore plugin repository. An operator types `/soak install`,
`/soak update`, `/soak remove` or `/soak search` at the server console. The
command checks its arguments and schedules a background task, which
reports progress lines through a buffer that a once-per-tick callback
flushes to the operator. The installer resolves dependencies depth-first and
pre-order: it recurses into each dependency that is not loaded locally,
then writes the plugin's own artifact into the plugin directory.

This project models that core in Dafny and proves properties of the model:

- `repository.dfy` (module `Repository`): the values that pass through the
  repository interface of `PluginRepository.java`, and the three ways a
  remote call can end. A checked I/O error is `IOFailure`. A null result is
  `NotFound`. An unchecked runtime exception that nothing catches is `Fault`.
- `workflow.dfy` (module `Workflow`): the specification of every task body
  of `Tasks.java` as functions. A run is the sequence of report events it
  emits, the set of files that exist afterwards, and whether an unchecked
  exception aborted it. `Render` gives the exact text of each event.
- `progress.dfy` (module `Progress`): the progress buffer of `SoakTask.run`
  as a class. It has the pending list, the `sending` flag, the periodic tick
  and the batches delivered so far.
- `tasks.dfy` (module `Tasks`): every task body as an imperative method that
  appends to a `Progress.Buffer` and creates files in a `Filesystem` object.
  Each method is proved to leave the buffer, the files and the abort flag
  exactly as the `Workflow` function for it says.
- `properties.dfy` (module `WorkflowProperties`): lemmas about the
  specification:
  - when the recursion terminates, and that the bound does not matter;
  - that files are written exactly where a "Destination" line says;
  - the order of the report lines;
  - when a run cannot abort;
  - that local dependencies are reported only;
  - the shape of the search and update reports.
- `ore.dfy` (module `Ore`): `OreRepository.java`:
  - the endpoint URLs;
  - the translation of server answers into repository results;
  - the lazily cached getters of the deserialised records, as classes.
- `command.dfy` (module `Command`): the console-only guard and the argument
  checks of `SoakCommand.java`.
- `scenarios.dfy` (module `Scenarios`): concrete runs worked out in full:
  - a two-level chain, down to its exact text;
  - a locally installed dependency that needs an update;
  - a diamond-shaped dependency graph;
  - an archive without entries;
  - the Ore repository plugged into the workflow.

The server, the network, the scheduler and the plugin manager are
parameters. A `Repository.Repo` value gives the remote answers; for Ore it
is built from a `Server` value that maps each URL to its answer. The
registry is an ordered list of `PluginContainer`s. The version ordering is
a function `compare` supplied by the caller. The plugin directory is a
string.

Each tick of the progress buffer calls `sendMessages` with whatever is
pending, also with an empty list (Tasks.java:44). Two ticks with nothing
appended hand over two empty lists (`Progress.TicksWithoutLines`). Whether
the operator sees anything then depends on `MessageReceiver.sendMessages`,
which is not part of this model.

Where the code and its documentation differ, the model follows the code:

- The report of an installation with dependencies has a "Found the
  following dependencies" line. Each edge is the line `B@1.0`. Each written
  file has a "Destination: …" line before "Success" (`Scenarios.ChainText`).
- An archive without entries is not a well-defined error. Asking for its
  file name is a null dereference. The exception propagates out of every
  loop and ends the whole task, so later ids are never attempted.
- The arrays that the workflow does not check also abort the whole run. An Ore
  versions endpoint that answers with an empty array fails at its first
  element. A project that is missing when its artifact is fetched gives a
  null artifact.
- Such an abort skips `sending = false`, so the periodic tick never cancels
  itself (`Scenarios.EmptyArchiveLeavesSending`).
- A missing dependency, an I/O error and a failed file creation are reported
  or ignored, and the run continues.
- A file that already exists makes `Files.createFile` throw an I/O error.
  The step then ends silently after "Will now install", with no
  "Destination" line. This is why, in a diamond, the shared dependency is
  fetched and announced twice but written once.

## Model

| member | source | states |
|---|---|---|
| Progress.Buffer.Start | src/main/java/com/simon816/soak/Tasks.java:36-37 | a run starts with an empty pending list, nothing delivered, `sending` set and the tick not cancelled |
| Progress.Buffer.Append | src/main/java/com/simon816/soak/Tasks.java:36-46 | a reported line goes at the end of the pending list, and of everything reported so far |
| Progress.Buffer.Tick | src/main/java/com/simon816/soak/Tasks.java:38-45 | a tick delivers the whole pending list as one batch and clears it. It cancels itself exactly when `sending` is already false. Delivered lines followed by pending lines are unchanged, so nothing is lost or reordered |
| Progress.Buffer.Finish | src/main/java/com/simon816/soak/Tasks.java:47 | the body has returned: `sending` is cleared |
| Progress.TicksWithoutLines | src/main/java/com/simon816/soak/Tasks.java:38-45 | two ticks with nothing appended hand `sendMessages` two empty lists |
| Progress.LastTickDrains | src/main/java/com/simon816/soak/Tasks.java:35-48 | a line appended after the last tick that saw `sending` set is still delivered, by the tick that cancels |
| Workflow.Lookup | src/main/java/com/simon816/soak/Tasks.java:163 | the registry lookup returns a registered plugin with the requested id, and returns nothing exactly when no registered plugin has that id |
| Workflow.Render | src/main/java/com/simon816/soak/Tasks.java:65-211 | reference definition: the exact text of every line the tasks add; its properties are stated by `Workflow.LinesAppend` and `Scenarios.ChainText` |
| Workflow.LocalVerdict | src/main/java/com/simon816/soak/Tasks.java:164-175 | reference definition of the verdict on a loaded dependency; its properties are stated by `WorkflowProperties.LocalVerdictCases` and `Tasks.ReportLocal` |
| Workflow.Installation | src/main/java/com/simon816/soak/Tasks.java:156-205 | reference definition of `performInstallation`; its properties are stated by `WorkflowProperties.InstallationFuel`, `InstallationDiscipline`, `InstallationNeverAborts`, `InstallationHeader`, `InstallationLines`, `RemoteSubtreeInPlace` and `Tasks.PerformInstallation` |
| Workflow.Dependencies | src/main/java/com/simon816/soak/Tasks.java:159-190 | reference definition of the dependency loop; its properties are stated by `WorkflowProperties.DependenciesSnoc`, `DependenciesAfterCrash`, `DependenciesGrow`, `StepsInOrder` and `Tasks.ResolveDependencies` |
| Workflow.DependencyStep | src/main/java/com/simon816/soak/Tasks.java:162-188 | reference definition of one dependency; its properties are stated by `WorkflowProperties.DependencyStepDiscipline`, `LocalDependencyReportOnly`, `RemoteSubtreeInPlace` and `Tasks.ResolveDependency` |
| Workflow.InstallArtifact | src/main/java/com/simon816/soak/Tasks.java:191-204 | reference definition of the install step; its properties are stated by `WorkflowProperties.ArtifactOutcomes`, `InstallArtifactDiscipline` and `Tasks.InstallJar` |
| Workflow.InstallRequest | src/main/java/com/simon816/soak/Tasks.java:64-78 | reference definition of the install task; its properties are stated by `WorkflowProperties.InstallSkips`, `RankedRootResolvable` and `Tasks.RunInstall` |
| Workflow.InstallEach | src/main/java/com/simon816/soak/Tasks.java:66-77 | reference definition of the id loop; its properties are stated by `WorkflowProperties.InstallEachSnoc`, `InstallEachAfterCrash`, `InstallEachNeverAborts` and `Tasks.InstallEachId` |
| Workflow.InstallById | src/main/java/com/simon816/soak/Tasks.java:67-76 | reference definition of one requested id; its properties are stated by `WorkflowProperties.InstallSkips` and `Tasks.InstallId` |
| Workflow.UpdateRequest | src/main/java/com/simon816/soak/Tasks.java:88-107 | reference definition of the update task; its properties are stated by `WorkflowProperties.UpdateQueries` and `Tasks.RunUpdate` |
| Workflow.UpdateEach | src/main/java/com/simon816/soak/Tasks.java:90-106 | reference definition of the update loop; its properties are stated by `WorkflowProperties.UpdateEachSnoc`, `UpdateEachAfterCrash`, `UpdateEachNeverAborts` and `Tasks.RunUpdate` |
| Workflow.UpdatePlugin | src/main/java/com/simon816/soak/Tasks.java:91-105 | reference definition of one registered plugin; its properties are stated by `WorkflowProperties.UpdatePluginQueries` and `Tasks.UpdateOne` |
| Workflow.FormatPlugin | src/main/java/com/simon816/soak/Tasks.java:207-212 | reference definition of the four lines per result; its properties are stated by `WorkflowProperties.FormatAllShape` and `Tasks.ReportPlugin` |
| Workflow.FormatAll | src/main/java/com/simon816/soak/Tasks.java:143-145 | reference definition of the result loop; its properties are stated by `WorkflowProperties.FormatAllShape` |
| Workflow.SearchRequest | src/main/java/com/simon816/soak/Tasks.java:135-149 | reference definition of the search task; its properties are stated by `WorkflowProperties.SearchShape`, `Scenarios.OreMissingSearchReportsNothingFound` and `Tasks.RunSearch` |
| Workflow.LinesAppend | src/main/java/com/simon816/soak/Tasks.java:157-211 | rendering a concatenation renders the parts in order |
| Workflow.RunTask | src/main/java/com/simon816/soak/Tasks.java:119-149 | remove reports nothing and changes nothing; search never changes the files and never aborts |
| Tasks.Filesystem.CreateFile | src/main/java/com/simon816/soak/Tasks.java:194 | creation succeeds exactly when the path did not exist; afterwards the path exists and nothing else changes |
| Tasks.PerformInstallation | src/main/java/com/simon816/soak/Tasks.java:156-205 | the method appends exactly the events of `Workflow.Installation`, leaves exactly its files and aborts exactly when it does |
| Tasks.ResolveDependencies | src/main/java/com/simon816/soak/Tasks.java:159-190 | the dependency loop appends the events of `Workflow.Dependencies` (each dependency in list order, stopping at an abort) and leaves its files |
| Tasks.ResolveDependency | src/main/java/com/simon816/soak/Tasks.java:162-188 | one dependency: the edge line, then the local verdict, or the remote search and the recursive installation, as `Workflow.DependencyStep` gives |
| Tasks.ReportLocal | src/main/java/com/simon816/soak/Tasks.java:164-175 | a locally loaded dependency appends exactly one verdict line, `Workflow.LocalVerdict` |
| Tasks.InstallJar | src/main/java/com/simon816/soak/Tasks.java:192-204 | the install step appends the lines of `Workflow.InstallArtifact`, creates at most the artifact's path, and aborts on a null artifact or an entry-less archive |
| Tasks.RunInstall | src/main/java/com/simon816/soak/Tasks.java:64-78 | an "Attempting" header, then every id in request order, as `Workflow.InstallRequest` gives |
| Tasks.InstallEachId | src/main/java/com/simon816/soak/Tasks.java:66-77 | the id loop matches `Workflow.InstallEach`: an unknown id is skipped with a line, an I/O error is ignored, and an abort ends the loop |
| Tasks.InstallId | src/main/java/com/simon816/soak/Tasks.java:67-76 | one requested id: a skip line, nothing, an abort, or the full installation |
| Tasks.RunUpdate | src/main/java/com/simon816/soak/Tasks.java:88-107 | every registered plugin in the order `getPlugins()` yields, as `Workflow.UpdateRequest` gives |
| Tasks.UpdateOne | src/main/java/com/simon816/soak/Tasks.java:91-105 | a virtual plugin adds nothing. Any other plugin gets a "Querying" line, then "Not found", nothing, an abort or a reinstallation at the latest version |
| Tasks.ReportPlugin | src/main/java/com/simon816/soak/Tasks.java:207-212 | exactly the four lines of `Workflow.FormatPlugin` are appended |
| Tasks.RunSearch | src/main/java/com/simon816/soak/Tasks.java:135-149 | the search body appends exactly `Workflow.SearchRequest` of the repository's answer |
| Tasks.Run | src/main/java/com/simon816/soak/Tasks.java:35-48 | a fresh buffer holds exactly the events of `Workflow.RunTask`, the files are its files, and nothing has been delivered yet. `sending` is still set exactly when the body aborted |
| WorkflowProperties.ResolvableMono | src/main/java/com/simon816/soak/Tasks.java:183 | a recursion bound that suffices for an installation, any larger bound also suffices |
| WorkflowProperties.DepsResolvableMono | src/main/java/com/simon816/soak/Tasks.java:161-189 | the same for a dependency list |
| WorkflowProperties.InstallationFuel | src/main/java/com/simon816/soak/Tasks.java:156-205 | the outcome of an installation does not depend on which sufficient bound is used |
| WorkflowProperties.DependenciesFuel | src/main/java/com/simon816/soak/Tasks.java:161-189 | the same for the dependency loop |
| WorkflowProperties.DependencyStepFuel | src/main/java/com/simon816/soak/Tasks.java:162-188 | the same for one dependency |
| WorkflowProperties.SelfDependencyUnresolvable | src/main/java/com/simon816/soak/Tasks.java:179-183 | a remote plugin that depends on itself and is not loaded has no finite recursion bound: unless an earlier dependency in its list aborts the run, the installer recurses into it until the stack overflows, which the model does not represent |
| WorkflowProperties.RankedResolvable | src/main/java/com/simon816/soak/Tasks.java:176-188 | on a graph whose remote edges strictly decrease a rank, every installation terminates within the rank |
| WorkflowProperties.RankedRootResolvable | src/main/java/com/simon816/soak/Tasks.java:68-73 | on such a graph every top-level id is installable within its own rank |
| WorkflowProperties.InstallArtifactDiscipline | src/main/java/com/simon816/soak/Tasks.java:193-200 | the install step creates exactly the path it announces. That path did not exist before, and "Success" comes right after its "Destination" line |
| WorkflowProperties.InstallationDiscipline | src/main/java/com/simon816/soak/Tasks.java:156-205 | a whole installation, with every recursive one, creates exactly the announced paths, each new and none announced twice, and reports success only right after a destination |
| WorkflowProperties.DependenciesDiscipline | src/main/java/com/simon816/soak/Tasks.java:161-189 | the same for the dependency loop |
| WorkflowProperties.DependencyStepDiscipline | src/main/java/com/simon816/soak/Tasks.java:162-188 | the same for one dependency |
| WorkflowProperties.DependenciesSnoc | src/main/java/com/simon816/soak/Tasks.java:161-189 | one more iteration of the dependency loop appends that dependency's step to the report so far |
| WorkflowProperties.DependenciesAfterCrash | src/main/java/com/simon816/soak/Tasks.java:161-189 | once an iteration aborts, the remaining dependencies add nothing |
| WorkflowProperties.InstallEachSnoc | src/main/java/com/simon816/soak/Tasks.java:66-77 | one more iteration of the id loop appends that id's report |
| WorkflowProperties.InstallEachAfterCrash | src/main/java/com/simon816/soak/Tasks.java:66-77 | once an id aborts, the remaining ids add nothing |
| WorkflowProperties.UpdateEachSnoc | src/main/java/com/simon816/soak/Tasks.java:90-106 | one more iteration of the update loop appends that plugin's report |
| WorkflowProperties.UpdateEachAfterCrash | src/main/java/com/simon816/soak/Tasks.java:90-106 | once a plugin aborts, the remaining plugins add nothing |
| WorkflowProperties.DependenciesGrow | src/main/java/com/simon816/soak/Tasks.java:161-189 | the report of a shorter prefix of the dependency list is a prefix of the report of a longer one: lines are never retracted or reordered |
| WorkflowProperties.StepsInOrder | src/main/java/com/simon816/soak/Tasks.java:161-189 | the lines of the i-th dependency directly follow those of the earlier ones in the full report |
| WorkflowProperties.RemoteSubtreeInPlace | src/main/java/com/simon816/soak/Tasks.java:157-183 | a remote dependency's whole installation is reported right after its edge and the "not found locally" line, before the next dependency and before the parent's own install step (pre-order) |
| WorkflowProperties.LocalDependencyReportOnly | src/main/java/com/simon816/soak/Tasks.java:164-175 | a dependency loaded locally yields its edge and one verdict line. No file is written and nothing is aborted. The outcome is the same whatever the repository would answer and whatever the bound |
| WorkflowProperties.LocalVerdictCases | src/main/java/com/simon816/soak/Tasks.java:165-174 | the verdict is "version unknown" iff no version is declared, "requires update from X to Y" iff the required version is newer, and "satisfied" iff it is not newer |
| WorkflowProperties.ArtifactOutcomes | src/main/java/com/simon816/soak/Tasks.java:193-200 | the install step reports nothing iff no file was created. Otherwise it reports the destination first, and "Success" iff the bytes copied |
| WorkflowProperties.InstallationNeverAborts | src/main/java/com/simon816/soak/Tasks.java:156-205 | with a repository that raises no unchecked exception and always yields an archive with an entry, an installation never aborts and always reaches "Will now install" |
| WorkflowProperties.DependenciesNeverAbort | src/main/java/com/simon816/soak/Tasks.java:161-189 | the same for the dependency loop |
| WorkflowProperties.DependencyStepNeverAborts | src/main/java/com/simon816/soak/Tasks.java:162-188 | the same for one dependency |
| WorkflowProperties.InstallEachNeverAborts | src/main/java/com/simon816/soak/Tasks.java:66-77 | the same for the install task's id loop |
| WorkflowProperties.UpdateEachNeverAborts | src/main/java/com/simon816/soak/Tasks.java:90-106 | the same for the update loop |
| WorkflowProperties.RunTaskNeverAborts | src/main/java/com/simon816/soak/Tasks.java:64-149 | every task then runs to its end |
| WorkflowProperties.InstallationHeader | src/main/java/com/simon816/soak/Tasks.java:157-160 | an installation reports at least two lines. The first is "Preparing installation of <id> version <v>", and the second is "Found the following dependencies" iff the plugin has dependencies |
| WorkflowProperties.InstallationLines | src/main/java/com/simon816/soak/Tasks.java:156-205 | an installation emits only installer lines, never an update or search line |
| WorkflowProperties.DependenciesLines | src/main/java/com/simon816/soak/Tasks.java:161-189 | the same for the dependency loop |
| WorkflowProperties.DependencyStepLines | src/main/java/com/simon816/soak/Tasks.java:162-188 | the same for one dependency |
| WorkflowProperties.OnlyInstallLines | src/main/java/com/simon816/soak/Tasks.java:156-205 | selecting "Querying" or "Skipping" lines from installer lines yields nothing |
| WorkflowProperties.UpdatePluginQueries | src/main/java/com/simon816/soak/Tasks.java:91-94 | a plugin with an instance is queried exactly once, whatever the repository answers, and the query is its first line; a virtual plugin reports nothing and leaves the files and the abort flag unchanged |
| WorkflowProperties.UpdateQueries | src/main/java/com/simon816/soak/Tasks.java:88-107 | the "Querying" lines of an update are one per non-virtual plugin in the order `getPlugins()` yields. When the run aborts they are a prefix of that list |
| WorkflowProperties.InstallSkips | src/main/java/com/simon816/soak/Tasks.java:66-72 | the "Skipping" lines of an install are exactly the unknown ids in request order, so the loop goes on after each. When the run aborts they are a prefix |
| WorkflowProperties.FormatAllShape | src/main/java/com/simon816/soak/Tasks.java:143-145 | the results are reported in four-line blocks, the k-th block being the k-th result |
| WorkflowProperties.SearchShape | src/main/java/com/simon816/soak/Tasks.java:135-149 | a failed search reports nothing. No results gives the single "No plugins found" line. Otherwise a header line is followed by one four-line block per result, in order |
| Ore.CreateUrl | src/main/java/com/simon816/soak/OreRepository.java:36-38 | reference definition: the Ore root followed by a path; its properties are stated by `Ore.ProjectEndpointRoundTrip`, `Ore.SearchEndpointRoundTrip` and `Ore.VersionsEndpointShape` |
| Ore.VersionsEndpoint | src/main/java/com/simon816/soak/OreRepository.java:58 | reference definition of the versions URL; its properties are stated by `Ore.VersionsEndpointShape` and `Ore.VersionsEndpointInjective` |
| Ore.SearchEndpoint | src/main/java/com/simon816/soak/OreRepository.java:71 | reference definition of the search URL; its properties are stated by `Ore.SearchEndpointRoundTrip` |
| Ore.ProjectEndpoint | src/main/java/com/simon816/soak/OreRepository.java:84 | reference definition of the project URL; its properties are stated by `Ore.ProjectEndpointRoundTrip` and `Ore.VersionsEndpointShape` |
| Ore.DownloadUrl | src/main/java/com/simon816/soak/OreRepository.java:94 | reference definition of the download URL (the web link, then "/versions/download/", then the version); its properties are stated by `Ore.GetPluginJar` |
| Ore.ProjectEndpointRoundTrip | src/main/java/com/simon816/soak/OreRepository.java:84 | the project id is recovered from its URL, and only that id's URL names it |
| Ore.SearchEndpointRoundTrip | src/main/java/com/simon816/soak/OreRepository.java:71 | the query is recovered verbatim from the search URL, and no search URL is a project URL |
| Ore.VersionsEndpointShape | src/main/java/com/simon816/soak/OreRepository.java:58 | the versions URL of `id` is the project URL with "/versions" appended. Since ids are not escaped, it is also the project URL of the id `id/versions` |
| Ore.VersionsEndpointInjective | src/main/java/com/simon816/soak/OreRepository.java:58 | different ids have different versions URLs |
| Ore.WebLink | src/main/java/com/simon816/soak/OreRepository.java:127-135 | the link is the Ore root followed by `href` with at most one leading "/" removed |
| Ore.WebLinkRecomputation | src/main/java/com/simon816/soak/OreRepository.java:128-132 | recomputing the link from the rewritten `href` gives the same link iff `href` does not start with "//", so the cache is what keeps the link stable |
| Ore.AuthorList | src/main/java/com/simon816/soak/OreRepository.java:143-151 | the owner first, then every member in order |
| Ore.ToVersionInfo | src/main/java/com/simon816/soak/OreRepository.java:209-253 | the id and version come from the record's `pluginId` and `name`. The dependencies keep the record's order, each as its id and version |
| Ore.ToPluginInfo | src/main/java/com/simon816/soak/OreRepository.java:111-174 | the search summary carries the record's id, name, description, recommended version, creation date, web link and author list |
| Ore.GetVersionInfo | src/main/java/com/simon816/soak/OreRepository.java:57-67 | null iff the endpoint is absent. An I/O error iff the transport fails. An unchecked index error iff the array is empty. Otherwise the first (latest) version |
| Ore.Search | src/main/java/com/simon816/soak/OreRepository.java:70-80 | it fails iff the transport fails. Otherwise it returns every project of the answer, in order, and nothing for an absent endpoint |
| Ore.SearchEmptyCauses | src/main/java/com/simon816/soak/OreRepository.java:72-76 | an empty result means the endpoint is absent or the answer is an empty array; the two cannot be told apart |
| Ore.GetPluginJar | src/main/java/com/simon816/soak/OreRepository.java:83-109 | null iff the project is absent; an I/O error iff the project request fails in transport or the project is present and its download is not; found iff both the project and the download are present; never an unchecked exception here. A found artifact's name is the archive's first entry, or missing iff the archive has none. Its bytes copy iff the archive is intact |
| Ore.OrePluginInfo.GetWebLink | src/main/java/com/simon816/soak/OreRepository.java:127-135 | the first call rewrites `href` and caches the link of the original `href`; every call returns that link |
| Ore.OrePluginInfo.GetAuthors | src/main/java/com/simon816/soak/OreRepository.java:143-151 | builds the owner-then-members list once and caches it; every call returns it |
| Ore.OrePluginInfo.Info | src/main/java/com/simon816/soak/OreRepository.java:126-174 | what the getters report is the summary `ToPluginInfo` derives from the deserialised record |
| Ore.WebLinkTwice | src/main/java/com/simon816/soak/OreRepository.java:127-135 | two calls on one project return the same link, that of the original `href` |
| Ore.PartialVersion.GetVersion | src/main/java/com/simon816/soak/OreRepository.java:201-206 | the dependency's version string, parsed once and cached |
| Ore.OreVersionInfo.GetVersion | src/main/java/com/simon816/soak/OreRepository.java:227-232 | the record's `name`, parsed once and cached |
| Ore.OreVersionInfo.GetDependencies | src/main/java/com/simon816/soak/OreRepository.java:248-253 | the dependency objects in array order, the same list on every call |
| Ore.OreVersionInfo.Info | src/main/java/com/simon816/soak/OreRepository.java:221-253 | what the getters report is the version information `ToVersionInfo` derives from the deserialised record |
| Command.Utf16Length | src/main/java/com/simon816/soak/SoakCommand.java:84 | Java's length of a string lies between its number of characters and twice that |
| Command.Handle | src/main/java/com/simon816/soak/SoakCommand.java:61-88 | reference definition of the sub-command bodies; its properties are stated by `Command.ExecuteSchedules` and `Command.QueryLengthBounds` |
| Command.ExecuteSchedules | src/main/java/com/simon816/soak/SoakCommand.java:31-88 | a task is scheduled iff the source is the console and the arguments pass: at least one id for install and remove, at least 3 UTF-16 units for search. The scheduled task carries the arguments unchanged |
| Command.PermissionFirst | src/main/java/com/simon816/soak/SoakCommand.java:33-35 | a non-console source is refused for a permission error, never for an argument error |
| Command.QueryLengthBounds | src/main/java/com/simon816/soak/SoakCommand.java:82-88 | a query of fewer than 2 characters is always rejected, and one of 3 or more always schedules a search for it |
| Command.TwoWideCharactersPass | src/main/java/com/simon816/soak/SoakCommand.java:84 | a query of two characters outside the Basic Multilingual Plane passes the three-character check |
| Scenarios.InstallChain | src/main/java/com/simon816/soak/Tasks.java:156-205 | A depends on B@1.0, which is neither loaded nor dependent on anything. A's report has exactly 11 events: B's whole installation comes before A's install step. Both files are written |
| Scenarios.ChainText | src/main/java/com/simon816/soak/Tasks.java:157-200 | the exact 11 lines of that report |
| Scenarios.LocalUpdateReportedOnly | src/main/java/com/simon816/soak/Tasks.java:164-169 | C depends on D@2.0 while D 1.5 is loaded: "Dee requires update from 1.5 to 2.0" is reported. D is not fetched or installed, and only C's file is written |
| Scenarios.DiamondInstallsBaseOnce | src/main/java/com/simon816/soak/Tasks.java:156-205 | T depends on L and R, both depending on D. D is fetched and announced twice but written once, and the four files exist afterwards |
| Scenarios.EmptyArchiveAborts | src/main/java/com/simon816/soak/Tasks.java:64-78 | installing E then F, where archives have no entry: the run aborts after "Will now install E" and F is never attempted |
| Scenarios.EmptyArchiveLeavesSending | src/main/java/com/simon816/soak/Tasks.java:35-48 | the same run through `Tasks.Run` leaves the three lines pending, no file, and `sending` still set |
| Scenarios.OreMissingSearchReportsNothingFound | src/main/java/com/simon816/soak/OreRepository.java:70-80 | a missing search endpoint and an empty answer both report "No plugins found for query" |
| Scenarios.OreEmptyArchiveAborts | src/main/java/com/simon816/soak/OreRepository.java:94-106 | an Ore download without entries aborts the install step before any file is created |

## Left out

- Networking, JSON deserialisation, the certificate override and the bytes
  of artifacts are not modelled. `Server` gives each URL's answer already
  deserialised, and an `Archive` is its entry names plus whether copying
  completes.
- `createUrl`'s `MalformedURLException` is not modelled. The URLs the model
  builds are always well formed for the fixed root.
- Version parsing and ordering (`DefaultArtifactVersion`) are a foreign
  library. A version is its text, and ordering is the `compare` parameter.
  A version string that fails to parse is not modelled.
- The date getters (`getCreationDate`, `getReleaseDate`) and their caches are
  not modelled, because `Instant.parse` is foreign. Dates are kept as their
  text.
- `fileSize` is a Java `long`. It is an unbounded `int` here, because it is
  only carried, never computed with.
- `Path.resolve` is modelled as `dir + "/" + name`. Any other failure of
  `Files.createFile` (permissions, a missing directory) is not modelled;
  only "the file exists" is.
- `printStackTrace` output and `RemoveTask`'s `System.out` line go to the
  server log, not to the operator. The model leaves them out, so removal
  reports nothing.
- Progress.Buffer.Tick: the tick and a task body are modelled as
  sequential calls in any interleaving, not as two threads. The workflow
  methods do not interleave ticks of their own, because a tick preserves
  `Reported()`. Unsynchronised access to the list is not modelled.
- Concurrent tasks writing the same plugin directory are not modelled; each
  run owns its `Filesystem`.
- The recursion of the installer has no cycle guard. On a dependency graph
  with a reachable cycle the Java recursion ends in a `StackOverflowError`,
  which nothing catches: the run aborts like a `Fault` and `sending` stays
  set. The model does not represent that abort
  (`WorkflowProperties.SelfDependencyUnresolvable` shows a graph with no
  recursion bound).
- Tasks.PerformInstallation, Tasks.ResolveDependencies, Tasks.ResolveDependency,
  Tasks.RunInstall, Tasks.InstallEachId, Tasks.InstallId, Tasks.RunUpdate,
  Tasks.UpdateOne, Tasks.Run, Workflow.Installation, Workflow.Dependencies,
  Workflow.DependencyStep, Workflow.InstallRequest, Workflow.InstallEach,
  Workflow.InstallById, Workflow.UpdateRequest, Workflow.UpdateEach,
  Workflow.UpdatePlugin, Workflow.RunTask: their
  `Resolvable` precondition (a ghost recursion bound) excludes every graph
  with a cycle reachable through remote fetches, also the runs that Java
  ends earlier by an abort before the cycle is reached (a plugin depending
  on one whose lookup faults and then on itself). Those runs are not
  modelled, because the ghost bound asks for a finite recursion depth on
  every remote path of the dependency graph, not only on the steps the run
  reaches before it aborts.
- The command tree built by `SoakCommand.build` and the argument parser are
  not modelled. An `Invocation` is the parsed result.
- `SoakPlugin.java`: the singleton, the plugin directory lookup and the
  scheduler are parameters or left out.
