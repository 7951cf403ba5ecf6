/** Every task body of Tasks.java as imperative code: each one appends its
    report lines to its progress buffer as it goes, and the installer
    creates files in the plugin directory. Each method is proved to emit
    exactly the lines, and leave exactly the files, that the Workflow
    specification gives. */
module Tasks {
  import opened Repository
  import opened Workflow
  import Progress
  import opened WorkflowProperties

  /** The plugin directory, as the set of paths that exist. */
  class Filesystem {
    var files: set<string>

    constructor (files: set<string>)
      ensures this.files == files
    {
      this.files := files;
    }

    /** Creates an empty file; fails (without effect) when the path exists. */
    method CreateFile(path: string) returns (created: bool)
      modifies this
      ensures created == (path !in old(files))
      ensures files == old(files) + {path}
    {
      created := path !in files;
      files := files + {path};
    }
  }

  /** performInstallation: announce the plugin, resolve its dependencies in
      order (recursing into the ones fetched from the repository), then
      install its artifact. Returns true when an unchecked exception aborted
      the run. */
  method PerformInstallation(env: Env, plugin: PluginVersionInfo, ghost n: nat, fs: Filesystem, response: Progress.Buffer<Event>)
    returns (crashed: bool)
    requires Resolvable(env, plugin, n)
    modifies fs, response`messages
    decreases n, 2
    ensures var o := Installation(env, plugin, old(fs.files), n);
      response.Grew(o.events) && fs.files == o.files && crashed == o.crashed
  {
    ghost var m0 := response.messages;
    ghost var head := [Preparing(plugin.pluginId, plugin.version)] + (if |plugin.dependencies| > 0 then [FoundDependencies] else []);
    response.Append(Preparing(plugin.pluginId, plugin.version));
    var deps := plugin.dependencies;
    if |deps| > 0 {
      response.Append(FoundDependencies);
      Progress.AppendAssoc(m0, [Preparing(plugin.pluginId, plugin.version)], [FoundDependencies]);
      crashed := ResolveDependencies(env, deps, n, fs, response);
    } else {
      assert head == [Preparing(plugin.pluginId, plugin.version)];
      crashed := false;
    }
    ghost var d := Dependencies(env, deps, old(fs.files), n);
    Progress.AppendAssoc(m0, head, d.events);
    if !crashed {
      response.Append(WillInstall(plugin.pluginId));
      Progress.AppendAssoc(m0, head + d.events, [WillInstall(plugin.pluginId)]);
      crashed := InstallJar(env, plugin, fs, response);
      Progress.AppendAssoc(m0, head + d.events + [WillInstall(plugin.pluginId)], InstallArtifact(env, plugin, d.files).events);
    }
  }

  /** The dependency loop of performInstallation: each dependency in list
      order; an aborted step ends the loop (the exception propagates). */
  method ResolveDependencies(env: Env, deps: seq<PartialVersionInfo>, ghost n: nat, fs: Filesystem, response: Progress.Buffer<Event>)
    returns (crashed: bool)
    requires DepsResolvable(env, deps, n)
    modifies fs, response`messages
    decreases n, 1
    ensures var o := Dependencies(env, deps, old(fs.files), n);
      response.Grew(o.events) && fs.files == o.files && crashed == o.crashed
  {
    ghost var fs0, m0 := fs.files, response.messages;
    ghost var p := Outcome([], fs0, false);
    crashed := false;
    var i := 0;
    while i < |deps|
      invariant 0 <= i <= |deps|
      invariant DepsResolvable(env, deps[..i], n) && p == Dependencies(env, deps[..i], fs0, n)
      invariant !p.crashed && fs.files == p.files
      invariant response.Grew(p.events)
    {
      DependenciesSnoc(env, deps, i, fs0, n);
      crashed := ResolveDependency(env, deps[i], n, fs, response);
      ghost var s := DependencyStep(env, deps[i], p.files, n);
      Progress.AppendAssoc(m0, p.events, s.events);
      if crashed {
        DependenciesAfterCrash(env, deps, i + 1, fs0, n);
        return;
      }
      p := Outcome(p.events + s.events, s.files, s.crashed);
      i := i + 1;
    }
    assert deps[..i] == deps;
  }

  /** The final install step of performInstallation: fetch the artifact,
      create its file under the artifact's own name, copy the bytes. */
  method InstallJar(env: Env, plugin: PluginVersionInfo, fs: Filesystem, response: Progress.Buffer<Event>)
    returns (crashed: bool)
    modifies fs, response`messages
    ensures var o := InstallArtifact(env, plugin, old(fs.files));
      response.Grew(o.events) && fs.files == o.files && crashed == o.crashed
  {
    var jar := env.repo.getPluginJar(plugin);
    match jar
    case IOFailure =>
      crashed := false;
    case NotFound =>
      crashed := true;
    case Fault =>
      crashed := true;
    case Found(j) =>
      match j.filename {
        case None =>
          crashed := true;
        case Some(name) =>
          var path := Resolve(env.pluginDir, name);
          var created := fs.CreateFile(path);
          crashed := false;
          if created {
            response.Append(Destination(path));
            if j.copies {
              response.Append(Success);
            }
          }
      }
  }

  /** A dependency that is already loaded: compare its declared version with
      the required one; nothing is fetched or installed. */
  method ReportLocal(env: Env, c: PluginContainer, dep: PartialVersionInfo, response: Progress.Buffer<Event>)
    modifies response`messages
    ensures response.Grew([LocalVerdict(env, c, dep)])
  {
    match c.version
    case Some(s) =>
      var existingVersion := ArtifactVersion(s);
      if env.compare(dep.version, existingVersion) > 0 {
        response.Append(RequiresUpdate(c.name, existingVersion, dep.version));
      } else {
        response.Append(Satisfied);
      }
    case None =>
      response.Append(VersionUnknown(c.name));
  }

  /** The body of the dependency loop of performInstallation for one
      dependency `dep`. */
  method ResolveDependency(env: Env, dep: PartialVersionInfo, ghost n: nat, fs: Filesystem, response: Progress.Buffer<Event>)
    returns (crashed: bool)
    requires FetchesRemotely(env, dep) ==> n > 0 && Resolvable(env, Fetch(env, dep.pluginId).value, n - 1)
    modifies fs, response`messages
    decreases n, 0
    ensures var o := DependencyStep(env, dep, old(fs.files), n);
      response.Grew(o.events) && fs.files == o.files && crashed == o.crashed
  {
    ghost var m0 := response.messages;
    var edge := Dependency(dep.pluginId, dep.version);
    assert [edge] + [NotFoundLocally] == [edge, NotFoundLocally];
    assert [edge, NotFoundLocally] + [DependencyMissing] == [edge, NotFoundLocally, DependencyMissing];
    response.Append(edge);
    var existing := Lookup(env.registry, dep.pluginId);
    match existing
    case Some(c) =>
      ReportLocal(env, c, dep, response);
      Progress.AppendAssoc(m0, [edge], [LocalVerdict(env, c, dep)]);
      crashed := false;
    case None =>
      response.Append(NotFoundLocally);
      Progress.AppendAssoc(m0, [edge], [NotFoundLocally]);
      var depVersion := env.repo.getVersionInfo(dep.pluginId);
      match depVersion
      case NotFound =>
        response.Append(DependencyMissing);
        Progress.AppendAssoc(m0, [edge, NotFoundLocally], [DependencyMissing]);
        crashed := false;
      case IOFailure =>
        crashed := false;
      case Fault =>
        crashed := true;
      case Found(w) =>
        crashed := PerformInstallation(env, w, n - 1, fs, response);
        Progress.AppendAssoc(m0, [edge, NotFoundLocally], Installation(env, w, old(fs.files), n - 1).events);
  }

  /** InstallTask.runTask: a header line, then each id in order. */
  method RunInstall(env: Env, ids: seq<string>, ghost n: nat, fs: Filesystem, response: Progress.Buffer<Event>)
    returns (crashed: bool)
    requires IdsResolvable(env, ids, n)
    modifies fs, response`messages
    ensures var o := InstallRequest(env, ids, old(fs.files), n);
      response.Grew(o.events) && fs.files == o.files && crashed == o.crashed
  {
    ghost var m0 := response.messages;
    response.Append(Attempting(ids));
    crashed := InstallEachId(env, ids, n, fs, response);
    Progress.AppendAssoc(m0, [Attempting(ids)], InstallEach(env, ids, old(fs.files), n).events);
  }

  /** The loop of InstallTask.runTask; an aborted id ends the run. */
  method InstallEachId(env: Env, ids: seq<string>, ghost n: nat, fs: Filesystem, response: Progress.Buffer<Event>)
    returns (crashed: bool)
    requires IdsResolvable(env, ids, n)
    modifies fs, response`messages
    ensures var o := InstallEach(env, ids, old(fs.files), n);
      response.Grew(o.events) && fs.files == o.files && crashed == o.crashed
  {
    ghost var fs0, m0 := fs.files, response.messages;
    ghost var p := Outcome([], fs0, false);
    crashed := false;
    var i := 0;
    while i < |ids|
      invariant 0 <= i <= |ids|
      invariant IdsResolvable(env, ids[..i], n) && p == InstallEach(env, ids[..i], fs0, n)
      invariant !p.crashed && fs.files == p.files
      invariant response.Grew(p.events)
    {
      InstallEachSnoc(env, ids, i, fs0, n);
      crashed := InstallId(env, ids[i], n, fs, response);
      ghost var s := InstallById(env, ids[i], p.files, n);
      Progress.AppendAssoc(m0, p.events, s.events);
      if crashed {
        InstallEachAfterCrash(env, ids, i + 1, fs0, n);
        return;
      }
      p := Outcome(p.events + s.events, s.files, s.crashed);
      i := i + 1;
    }
    assert ids[..i] == ids;
  }

  /** The body of the loop of InstallTask.runTask for one id. */
  method InstallId(env: Env, id: string, ghost n: nat, fs: Filesystem, response: Progress.Buffer<Event>)
    returns (crashed: bool)
    requires RootResolvable(env, id, n)
    modifies fs, response`messages
    ensures var o := InstallById(env, id, old(fs.files), n);
      response.Grew(o.events) && fs.files == o.files && crashed == o.crashed
  {
    var plugin := env.repo.getVersionInfo(id);
    match plugin
    case NotFound =>
      response.Append(SkippingUnknown(id));
      crashed := false;
    case IOFailure =>
      crashed := false;
    case Fault =>
      crashed := true;
    case Found(v) =>
      crashed := PerformInstallation(env, v, n, fs, response);
  }

  /** UpdateTask.runTask: every registered plugin, in the order `getPlugins()` yields. */
  method RunUpdate(env: Env, ghost n: nat, fs: Filesystem, response: Progress.Buffer<Event>)
    returns (crashed: bool)
    requires PluginsResolvable(env, env.registry, n)
    modifies fs, response`messages
    ensures var o := UpdateRequest(env, old(fs.files), n);
      response.Grew(o.events) && fs.files == o.files && crashed == o.crashed
  {
    var plugins := env.registry;
    ghost var fs0, m0 := fs.files, response.messages;
    ghost var p := Outcome([], fs0, false);
    crashed := false;
    var i := 0;
    while i < |plugins|
      invariant 0 <= i <= |plugins|
      invariant PluginsResolvable(env, plugins[..i], n) && p == UpdateEach(env, plugins[..i], fs0, n)
      invariant !p.crashed && fs.files == p.files
      invariant response.Grew(p.events)
    {
      UpdateEachSnoc(env, plugins, i, fs0, n);
      crashed := UpdateOne(env, plugins[i], n, fs, response);
      ghost var s := UpdatePlugin(env, plugins[i], p.files, n);
      Progress.AppendAssoc(m0, p.events, s.events);
      if crashed {
        UpdateEachAfterCrash(env, plugins, i + 1, fs0, n);
        return;
      }
      p := Outcome(p.events + s.events, s.files, s.crashed);
      i := i + 1;
    }
    assert plugins[..i] == plugins;
  }

  /** The body of the loop of UpdateTask.runTask for one plugin. */
  method UpdateOne(env: Env, plugin: PluginContainer, ghost n: nat, fs: Filesystem, response: Progress.Buffer<Event>)
    returns (crashed: bool)
    requires plugin.hasInstance ==> RootResolvable(env, plugin.id, n)
    modifies fs, response`messages
    ensures var o := UpdatePlugin(env, plugin, old(fs.files), n);
      response.Grew(o.events) && fs.files == o.files && crashed == o.crashed
  {
    crashed := false;
    if !plugin.hasInstance {
      return;
    }
    ghost var m0 := response.messages;
    var q := Querying(plugin.name, plugin.version);
    response.Append(q);
    var updated := env.repo.getVersionInfo(plugin.id);
    match updated
    case NotFound =>
      response.Append(NotInRepository);
      assert [q] + [NotInRepository] == [q, NotInRepository];
    case IOFailure =>
    case Fault =>
      crashed := true;
    case Found(v) =>
      crashed := PerformInstallation(env, v, n, fs, response);
      Progress.AppendAssoc(m0, [q], Installation(env, v, old(fs.files), n).events);
  }

  /** formatPlugin: four lines describing one search result. */
  method ReportPlugin(plugin: PluginInfo, response: Progress.Buffer<Event>)
    modifies response`messages
    ensures response.Grew(FormatPlugin(plugin))
  {
    ghost var m0 := response.messages;
    response.Append(PluginHeading(plugin.name, plugin.id));
    response.Append(PluginVersion(plugin.recommendedVersion));
    response.Append(PluginDescription(plugin.description));
    response.Append(PluginLink(plugin.webLink));
    assert response.messages == m0 + FormatPlugin(plugin);
  }

  /** SearchTask.runTask: one line for an empty result, otherwise a header
      and four lines per result in result order; nothing when the search
      fails with an I/O error. */
  method RunSearch(env: Env, query: string, response: Progress.Buffer<Event>)
    modifies response`messages
    ensures response.Grew(SearchRequest(query, env.repo.search(query)))
  {
    var found := env.repo.search(query);
    match found
    case SearchFailed =>
    case Results(plugins) =>
      if |plugins| == 0 {
        response.Append(NoPluginsFound(query));
        return;
      }
      ghost var m0 := response.messages;
      response.Append(PluginsFound(query));
      var i := 0;
      while i < |plugins|
        invariant 0 <= i <= |plugins|
        invariant response.messages == m0 + [PluginsFound(query)] + FormatAll(plugins[..i])
      {
        ReportPlugin(plugins[i], response);
        assert plugins[..i + 1][..i] == plugins[..i];
        Progress.AppendAssoc(m0 + [PluginsFound(query)], FormatAll(plugins[..i]), FormatPlugin(plugins[i]));
        i := i + 1;
      }
      assert plugins[..i] == plugins;
      Progress.AppendAssoc(m0, [PluginsFound(query)], FormatAll(plugins));
  }

  /** SoakTask.run: a fresh buffer with `sending` set, then the body, and
      `sending` cleared when the body returns. When an unchecked exception
      aborts the body, `sending` stays set, so the periodic tick never
      cancels itself. */
  method Run(env: Env, t: Task, ghost n: nat, fs: Filesystem) returns (response: Progress.Buffer<Event>, crashed: bool)
    requires TaskResolvable(env, t, n)
    modifies fs
    ensures fresh(response)
    ensures var o := RunTask(env, t, old(fs.files), n);
      response.messages == o.events && response.Reported() == o.events &&
      fs.files == o.files && crashed == o.crashed
    ensures response.delivered == [] && !response.cancelled
    ensures response.sending == crashed
  {
    response := new Progress.Buffer<Event>.Start();
    match t {
      case InstallTask(ids) =>
        crashed := RunInstall(env, ids, n, fs, response);
      case UpdateTask =>
        crashed := RunUpdate(env, n, fs, response);
      case RemoveTask(_) =>
        crashed := false;
      case SearchTask(query) =>
        RunSearch(env, query, response);
        crashed := false;
    }
    if !crashed {
      response.Finish();
    }
  }
}
