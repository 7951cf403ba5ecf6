/** The specification of the install, update, remove and search workflows of
    Tasks.java: what each one reports, in order, and which files it creates.
    A run is described by the sequence of report events it emits (rendered to
    the exact text by Render), the set of files present afterwards, and
    whether it was aborted by an unchecked runtime exception. */
module Workflow {
  import opened Repository

  /** A plugin known to the host's plugin manager. `version` is optional
      because a plugin need not declare one; `hasInstance` is false for
      virtual plugins that the host registers without an artifact. */
  datatype PluginContainer = PluginContainer(
    id: string,
    name: string,
    version: Option<string>,
    hasInstance: bool)

  /** Everything a workflow consults: the remote repository, the host's plugin
      registry (read-only), the version ordering (positive when the first
      argument is newer) and the directory artifacts are written to. */
  datatype Env = Env(
    repo: Repo,
    registry: seq<PluginContainer>,
    compare: (ArtifactVersion, ArtifactVersion) -> int,
    pluginDir: string)

  /** The kinds of task the command surface schedules. */
  datatype Task =
    | InstallTask(ids: seq<string>)
    | UpdateTask
    | RemoveTask(ids: seq<string>)
    | SearchTask(query: string)

  /** One report line, before rendering. */
  datatype Event =
    | Attempting(ids: seq<string>)
    | SkippingUnknown(id: string)
    | Querying(name: string, current: Option<string>)
    | NotInRepository
    | NoPluginsFound(query: string)
    | PluginsFound(query: string)
    | PluginHeading(name: string, id: string)
    | PluginVersion(recommended: string)
    | PluginDescription(description: string)
    | PluginLink(link: string)
    | Preparing(id: string, version: ArtifactVersion)
    | FoundDependencies
    | Dependency(id: string, version: ArtifactVersion)
    | RequiresUpdate(name: string, from: ArtifactVersion, to: ArtifactVersion)
    | Satisfied
    | VersionUnknown(name: string)
    | NotFoundLocally
    | DependencyMissing
    | WillInstall(id: string)
    | Destination(path: string)
    | Success

  /** Java's rendering of a collection of strings: "[a, b, c]". */
  function Join(xs: seq<string>): string
  {
    if |xs| == 0 then "" else if |xs| == 1 then xs[0] else xs[0] + ", " + Join(xs[1..])
  }

  function ListText(xs: seq<string>): string
  {
    "[" + Join(xs) + "]"
  }

  /** Java's rendering of an Optional<String>. */
  function OptionalText(o: Option<string>): string
  {
    match o
    case Some(s) => "Optional[" + s + "]"
    case None => "Optional.empty"
  }

  /** The exact text of each report line (the misspelling "satified" is the
      program's own). */
  function Render(e: Event): string
  {
    match e
    case Attempting(ids) => "Attempting installation of the plugins " + ListText(ids)
    case SkippingUnknown(id) => "Plugin ID '" + id + "' not found. Skipping"
    case Querying(name, current) => "Querying latest version of " + name + " (current=" + OptionalText(current) + ")"
    case NotInRepository => "Not found in the plugin repository"
    case NoPluginsFound(q) => "No plugins found for query '" + q + "'"
    case PluginsFound(q) => "The following plugins were found for the query '" + q + "':"
    case PluginHeading(name, id) => name + " (id=" + id + ")"
    case PluginVersion(v) => "  Version: " + v
    case PluginDescription(d) => "  Description: " + d
    case PluginLink(l) => "  Link: " + l
    case Preparing(id, v) => "Preparing installation of " + id + " version " + v.text
    case FoundDependencies => "Found the following dependencies"
    case Dependency(id, v) => id + "@" + v.text
    case RequiresUpdate(name, from, to) => name + " requires update from " + from.text + " to " + to.text
    case Satisfied => "Dependency satified"
    case VersionUnknown(name) => "Version unknown for plugin " + name + ", assuming compatible"
    case NotFoundLocally => "Dependency not found locally, searching on remote repository"
    case DependencyMissing => "Could not find dependency"
    case WillInstall(id) => "Will now install " + id
    case Destination(path) => "Destination: " + path
    case Success => "Success"
  }

  /** `f` applied to every element, in order. */
  function Map<A, B>(f: A -> B, xs: seq<A>): (r: seq<B>)
    ensures |r| == |xs|
    ensures forall i :: 0 <= i < |xs| ==> r[i] == f(xs[i])
  {
    seq(|xs|, i requires 0 <= i < |xs| => f(xs[i]))
  }

  lemma MapAppend<A, B>(f: A -> B, a: seq<A>, b: seq<A>)
    ensures Map(f, a + b) == Map(f, a) + Map(f, b)
  {
    var l, la, lb := Map(f, a + b), Map(f, a), Map(f, b);
    assert |l| == |la + lb|;
    forall i | 0 <= i < |a + b|
      ensures l[i] == (la + lb)[i]
    {
      if i < |a| {
        assert (a + b)[i] == a[i];
        assert (la + lb)[i] == la[i];
      } else {
        assert (a + b)[i] == b[i - |a|];
        assert (la + lb)[i] == lb[i - |a|];
      }
    }
  }

  /** The rendered lines of a sequence of events, one line per event. */
  function Lines(es: seq<Event>): (r: seq<string>)
    ensures |r| == |es|
    ensures forall i :: 0 <= i < |es| ==> r[i] == Render(es[i])
  {
    Map(Render, es)
  }

  lemma LinesAppend(a: seq<Event>, b: seq<Event>)
    ensures Lines(a + b) == Lines(a) + Lines(b)
  {
    MapAppend(Render, a, b);
  }

  /** The plugin manager's lookup by id: the first registered plugin with
      that id, if any. */
  function Lookup(registry: seq<PluginContainer>, id: string): (r: Option<PluginContainer>)
    ensures r.Some? ==> r.value in registry && r.value.id == id
    ensures r.None? <==> forall c :: c in registry ==> c.id != id
  {
    if registry == [] then None
    else if registry[0].id == id then Some(registry[0])
    else Lookup(registry[1..], id)
  }

  /** Where an artifact with the given file name is written. */
  function Resolve(dir: string, name: string): string
  {
    dir + "/" + name
  }

  /** The result of a run. */
  datatype Outcome = Outcome(events: seq<Event>, files: set<string>, crashed: bool)

  function Fetch(env: Env, id: string): Fetched<PluginVersionInfo>
  {
    env.repo.getVersionInfo(id)
  }

  /** A dependency that the installer resolves by recursing: absent from the
      host and found in the repository. */
  predicate FetchesRemotely(env: Env, d: PartialVersionInfo)
  {
    Lookup(env.registry, d.pluginId).None? && Fetch(env, d.pluginId).Found?
  }

  /** The installer started on `v` terminates with recursion depth below `n`:
      the tree of dependencies it recurses into has height less than `n`.
      The program has no cycle guard: on a graph with a reachable cycle the
      recursion only ends in a stack overflow, which nothing catches, so the
      run aborts like a `Fault`. No bound exists for such a graph, even when
      an earlier abort would end the run before the cycle is reached. */
  predicate Resolvable(env: Env, v: PluginVersionInfo, n: nat)
    decreases n, 1
  {
    DepsResolvable(env, v.dependencies, n)
  }

  predicate DepsResolvable(env: Env, ds: seq<PartialVersionInfo>, n: nat)
    decreases n, 0
  {
    forall d :: d in ds && FetchesRemotely(env, d) ==>
      n > 0 && Resolvable(env, Fetch(env, d.pluginId).value, n - 1)
  }

  /** The outcome reported for a dependency that is present locally. */
  function LocalVerdict(env: Env, c: PluginContainer, d: PartialVersionInfo): Event
  {
    match c.version
    case None => VersionUnknown(c.name)
    case Some(s) =>
      var existing := ArtifactVersion(s);
      if env.compare(d.version, existing) > 0 then RequiresUpdate(c.name, existing, d.version)
      else Satisfied
  }

  /** Installing `v`: announce it, resolve each dependency in list order,
      then fetch and write its own artifact. */
  function Installation(env: Env, v: PluginVersionInfo, fs: set<string>, n: nat): Outcome
    requires Resolvable(env, v, n)
    decreases n, 2, 0
  {
    var head := [Preparing(v.pluginId, v.version)] + (if |v.dependencies| > 0 then [FoundDependencies] else []);
    var d := Dependencies(env, v.dependencies, fs, n);
    if d.crashed then Outcome(head + d.events, d.files, true)
    else
      var s := InstallArtifact(env, v, d.files);
      Outcome(head + d.events + [WillInstall(v.pluginId)] + s.events, s.files, s.crashed)
  }

  /** Resolving the dependencies `ds` in order; an aborted step stops the rest. */
  function Dependencies(env: Env, ds: seq<PartialVersionInfo>, fs: set<string>, n: nat): Outcome
    requires DepsResolvable(env, ds, n)
    decreases n, 1, |ds|
  {
    if ds == [] then Outcome([], fs, false)
    else
      var init := ds[..|ds| - 1];
      assert forall d :: d in init ==> d in ds;
      var p := Dependencies(env, init, fs, n);
      if p.crashed then p
      else
        var s := DependencyStep(env, ds[|ds| - 1], p.files, n);
        Outcome(p.events + s.events, s.files, s.crashed)
  }

  /** Resolving one dependency. */
  function DependencyStep(env: Env, d: PartialVersionInfo, fs: set<string>, n: nat): Outcome
    requires FetchesRemotely(env, d) ==> n > 0 && Resolvable(env, Fetch(env, d.pluginId).value, n - 1)
    decreases n, 0, 0
  {
    var edge := Dependency(d.pluginId, d.version);
    match Lookup(env.registry, d.pluginId)
    case Some(c) => Outcome([edge, LocalVerdict(env, c, d)], fs, false)
    case None =>
      match Fetch(env, d.pluginId)
      case NotFound => Outcome([edge, NotFoundLocally, DependencyMissing], fs, false)
      case IOFailure => Outcome([edge, NotFoundLocally], fs, false)
      case Fault => Outcome([edge, NotFoundLocally], fs, true)
      case Found(w) =>
        var o := Installation(env, w, fs, n - 1);
        Outcome([edge, NotFoundLocally] + o.events, o.files, o.crashed)
  }

  /** The final install step: fetch the artifact, create its file (which fails
      when the file exists), copy the bytes. A null artifact or an archive
      without entries aborts the run (null dereference); an I/O error ends the
      step silently. */
  function InstallArtifact(env: Env, v: PluginVersionInfo, fs: set<string>): Outcome
  {
    match env.repo.getPluginJar(v)
    case IOFailure => Outcome([], fs, false)
    case NotFound => Outcome([], fs, true)
    case Fault => Outcome([], fs, true)
    case Found(jar) =>
      match jar.filename
      case None => Outcome([], fs, true)
      case Some(name) =>
        var path := Resolve(env.pluginDir, name);
        if path in fs then Outcome([], fs, false)
        else Outcome([Destination(path)] + (if jar.copies then [Success] else []), fs + {path}, false)
  }

  /** A top-level id whose latest version, if the repository has one, can be
      installed in fewer than `n` levels of recursion. */
  predicate RootResolvable(env: Env, id: string, n: nat)
  {
    Fetch(env, id).Found? ==> Resolvable(env, Fetch(env, id).value, n)
  }

  predicate IdsResolvable(env: Env, ids: seq<string>, n: nat)
  {
    forall id :: id in ids ==> RootResolvable(env, id, n)
  }

  /** The install task: a header line, then each requested id in order. */
  function InstallRequest(env: Env, ids: seq<string>, fs: set<string>, n: nat): Outcome
    requires IdsResolvable(env, ids, n)
  {
    var r := InstallEach(env, ids, fs, n);
    Outcome([Attempting(ids)] + r.events, r.files, r.crashed)
  }

  function InstallEach(env: Env, ids: seq<string>, fs: set<string>, n: nat): Outcome
    requires IdsResolvable(env, ids, n)
  {
    if ids == [] then Outcome([], fs, false)
    else
      var init := ids[..|ids| - 1];
      assert forall id :: id in init ==> id in ids;
      var p := InstallEach(env, init, fs, n);
      if p.crashed then p
      else
        var s := InstallById(env, ids[|ids| - 1], p.files, n);
        Outcome(p.events + s.events, s.files, s.crashed)
  }

  function InstallById(env: Env, id: string, fs: set<string>, n: nat): Outcome
    requires RootResolvable(env, id, n)
  {
    match Fetch(env, id)
    case NotFound => Outcome([SkippingUnknown(id)], fs, false)
    case IOFailure => Outcome([], fs, false)
    case Fault => Outcome([], fs, true)
    case Found(v) => Installation(env, v, fs, n)
  }

  predicate PluginsResolvable(env: Env, ps: seq<PluginContainer>, n: nat)
  {
    forall p :: p in ps && p.hasInstance ==> RootResolvable(env, p.id, n)
  }

  /** The update task: every registered plugin with an instance, in the
      order `getPlugins()` yields, is reinstalled at its latest version. */
  function UpdateRequest(env: Env, fs: set<string>, n: nat): Outcome
    requires PluginsResolvable(env, env.registry, n)
  {
    UpdateEach(env, env.registry, fs, n)
  }

  function UpdateEach(env: Env, ps: seq<PluginContainer>, fs: set<string>, n: nat): Outcome
    requires PluginsResolvable(env, ps, n)
  {
    if ps == [] then Outcome([], fs, false)
    else
      var init := ps[..|ps| - 1];
      assert forall p :: p in init ==> p in ps;
      var p := UpdateEach(env, init, fs, n);
      if p.crashed then p
      else
        var s := UpdatePlugin(env, ps[|ps| - 1], p.files, n);
        Outcome(p.events + s.events, s.files, s.crashed)
  }

  function UpdatePlugin(env: Env, p: PluginContainer, fs: set<string>, n: nat): Outcome
    requires p.hasInstance ==> RootResolvable(env, p.id, n)
  {
    if !p.hasInstance then Outcome([], fs, false)
    else
      var q := Querying(p.name, p.version);
      match Fetch(env, p.id)
      case NotFound => Outcome([q, NotInRepository], fs, false)
      case IOFailure => Outcome([q], fs, false)
      case Fault => Outcome([q], fs, true)
      case Found(v) =>
        var o := Installation(env, v, fs, n);
        Outcome([q] + o.events, o.files, o.crashed)
  }

  /** The four lines that describe one search result. */
  function FormatPlugin(p: PluginInfo): seq<Event>
  {
    [PluginHeading(p.name, p.id), PluginVersion(p.recommendedVersion), PluginDescription(p.description), PluginLink(p.webLink)]
  }

  function FormatAll(ps: seq<PluginInfo>): seq<Event>
  {
    if ps == [] then [] else FormatAll(ps[..|ps| - 1]) + FormatPlugin(ps[|ps| - 1])
  }

  /** The search task's report for the repository's answer `r`. */
  function SearchRequest(query: string, r: SearchResult): seq<Event>
  {
    match r
    case SearchFailed => []
    case Results(ps) =>
      if |ps| == 0 then [NoPluginsFound(query)]
      else [PluginsFound(query)] + FormatAll(ps)
  }

  predicate TaskResolvable(env: Env, t: Task, n: nat)
  {
    match t
    case InstallTask(ids) => IdsResolvable(env, ids, n)
    case UpdateTask => PluginsResolvable(env, env.registry, n)
    case RemoveTask(_) => true
    case SearchTask(_) => true
  }

  /** The body of a task. Removal is a stub that reports nothing. */
  function RunTask(env: Env, t: Task, fs: set<string>, n: nat): (r: Outcome)
    requires TaskResolvable(env, t, n)
    ensures t.RemoveTask? ==> r == Outcome([], fs, false)
    ensures t.SearchTask? ==> r.files == fs && !r.crashed
  {
    match t
    case InstallTask(ids) => InstallRequest(env, ids, fs, n)
    case UpdateTask => UpdateRequest(env, fs, n)
    case RemoveTask(_) => Outcome([], fs, false)
    case SearchTask(q) => Outcome(SearchRequest(q, env.repo.search(q)), fs, false)
  }
}
