/** Properties of the install workflow: the recursion bound is only a bound,
    files are written exactly where and when the report says, the report is
    in depth-first pre-order, and only artifact failures can abort a run. */
module WorkflowProperties {
  import opened Repository
  import opened Workflow
  import Progress

  // ---------------------------------------------------------------------
  // The recursion bound

  /** A larger bound admits everything a smaller one does. */
  lemma {:induction false} ResolvableMono(env: Env, v: PluginVersionInfo, n: nat, m: nat)
    requires Resolvable(env, v, n) && n <= m
    ensures Resolvable(env, v, m)
    decreases n, 1
  {
    DepsResolvableMono(env, v.dependencies, n, m);
  }

  lemma {:induction false} DepsResolvableMono(env: Env, ds: seq<PartialVersionInfo>, n: nat, m: nat)
    requires DepsResolvable(env, ds, n) && n <= m
    ensures DepsResolvable(env, ds, m)
    decreases n, 0
  {
    forall d | d in ds && FetchesRemotely(env, d)
      ensures m > 0 && Resolvable(env, Fetch(env, d.pluginId).value, m - 1)
    {
      ResolvableMono(env, Fetch(env, d.pluginId).value, n - 1, m - 1);
    }
  }

  /** The bound does not change what an installation does. */
  lemma {:induction false} InstallationFuel(env: Env, v: PluginVersionInfo, fs: set<string>, n: nat, m: nat)
    requires Resolvable(env, v, n) && n <= m
    ensures Resolvable(env, v, m)
    ensures Installation(env, v, fs, n) == Installation(env, v, fs, m)
    decreases n, 2, 0
  {
    ResolvableMono(env, v, n, m);
    DependenciesFuel(env, v.dependencies, fs, n, m);
  }

  lemma {:induction false} DependenciesFuel(env: Env, ds: seq<PartialVersionInfo>, fs: set<string>, n: nat, m: nat)
    requires DepsResolvable(env, ds, n) && n <= m
    ensures DepsResolvable(env, ds, m)
    ensures Dependencies(env, ds, fs, n) == Dependencies(env, ds, fs, m)
    decreases n, 1, |ds|
  {
    DepsResolvableMono(env, ds, n, m);
    if ds != [] {
      var init := ds[..|ds| - 1];
      assert forall d :: d in init ==> d in ds;
      DependenciesFuel(env, init, fs, n, m);
      var p := Dependencies(env, init, fs, n);
      if !p.crashed {
        DependencyStepFuel(env, ds[|ds| - 1], p.files, n, m);
      }
    }
  }

  lemma {:induction false} DependencyStepFuel(env: Env, d: PartialVersionInfo, fs: set<string>, n: nat, m: nat)
    requires FetchesRemotely(env, d) ==> n > 0 && Resolvable(env, Fetch(env, d.pluginId).value, n - 1)
    requires n <= m
    ensures FetchesRemotely(env, d) ==> m > 0 && Resolvable(env, Fetch(env, d.pluginId).value, m - 1)
    ensures DependencyStep(env, d, fs, n) == DependencyStep(env, d, fs, m)
    decreases n, 0, 0
  {
    if FetchesRemotely(env, d) {
      InstallationFuel(env, Fetch(env, d.pluginId).value, fs, n - 1, m - 1);
    }
  }

  /** A plugin whose latest version depends on the plugin itself, while the
      plugin is not installed, is never resolvable: unless an earlier
      dependency in the list aborts the run, the installer would fetch it
      again and again until the stack overflows. */
  lemma {:induction false} SelfDependencyUnresolvable(env: Env, id: string, n: nat)
    requires Fetch(env, id).Found? && Lookup(env.registry, id).None?
    requires exists d :: d in Fetch(env, id).value.dependencies && d.pluginId == id
    ensures !Resolvable(env, Fetch(env, id).value, n)
  {
    var v := Fetch(env, id).value;
    var d :| d in v.dependencies && d.pluginId == id;
    assert FetchesRemotely(env, d);
    if n > 0 {
      SelfDependencyUnresolvable(env, id, n - 1);
    }
  }

  /** Every remotely fetched dependency edge leads to a plugin of strictly
      smaller rank: the graph the installer walks has no cycle. */
  ghost predicate Ranked(env: Env, rank: string -> nat)
  {
    forall id, d :: Fetch(env, id).Found? && d in Fetch(env, id).value.dependencies && FetchesRemotely(env, d) ==>
      rank(d.pluginId) < rank(id)
  }

  /** On an acyclic graph every dependency tree is resolvable, with the
      bound given by the rank. */
  lemma {:induction false} RankedResolvable(env: Env, rank: string -> nat, v: PluginVersionInfo, n: nat)
    requires Ranked(env, rank)
    requires forall d :: d in v.dependencies && FetchesRemotely(env, d) ==> rank(d.pluginId) < n
    ensures Resolvable(env, v, n)
    decreases n
  {
    forall d | d in v.dependencies && FetchesRemotely(env, d)
      ensures n > 0 && Resolvable(env, Fetch(env, d.pluginId).value, n - 1)
    {
      var w := Fetch(env, d.pluginId).value;
      forall e | e in w.dependencies && FetchesRemotely(env, e)
        ensures rank(e.pluginId) < n - 1
      {
        assert Fetch(env, d.pluginId).Found? && e in Fetch(env, d.pluginId).value.dependencies;
      }
      RankedResolvable(env, rank, w, n - 1);
    }
  }

  /** A top-level plugin on an acyclic graph is installable within one more
      level than its rank. */
  lemma RankedRootResolvable(env: Env, rank: string -> nat, id: string)
    requires Ranked(env, rank)
    ensures RootResolvable(env, id, rank(id))
  {
    if Fetch(env, id).Found? {
      var v := Fetch(env, id).value;
      forall d | d in v.dependencies && FetchesRemotely(env, d)
        ensures rank(d.pluginId) < rank(id)
      {
        assert Fetch(env, id).Found? && d in Fetch(env, id).value.dependencies;
      }
      RankedResolvable(env, rank, v, rank(id));
    }
  }

  // ---------------------------------------------------------------------
  // Files are written exactly where the report says

  /** The paths announced by "Destination" lines. */
  function Created(es: seq<Event>): set<string>
  {
    set i | 0 <= i < |es| && es[i].Destination? :: es[i].path
  }

  lemma CreatedAppend(a: seq<Event>, b: seq<Event>)
    ensures Created(a + b) == Created(a) + Created(b)
  {
    forall p | p in Created(a + b) ensures p in Created(a) + Created(b) {
      var i :| 0 <= i < |a + b| && (a + b)[i].Destination? && (a + b)[i].path == p;
      if i >= |a| {
        assert b[i - |a|] == (a + b)[i];
      }
    }
    forall p | p in Created(a) + Created(b) ensures p in Created(a + b) {
      if p in Created(a) {
        var i :| 0 <= i < |a| && a[i].Destination? && a[i].path == p;
        assert (a + b)[i] == a[i];
      } else {
        var i :| 0 <= i < |b| && b[i].Destination? && b[i].path == p;
        assert (a + b)[|a| + i] == b[i];
      }
    }
  }

  /** No path is announced twice. */
  predicate DistinctDestinations(es: seq<Event>)
  {
    forall i, j :: 0 <= i < j < |es| && es[i].Destination? && es[j].Destination? ==> es[i].path != es[j].path
  }

  /** Every "Success" line directly follows a "Destination" line. */
  predicate SuccessAfterDestination(es: seq<Event>)
  {
    forall i :: 0 <= i < |es| && es[i].Success? ==> i > 0 && es[i - 1].Destination?
  }

  /** Starting from the files `fs`, the run `o` created exactly the announced
      paths, each of them new, none twice, and reported success only right
      after announcing a destination. */
  predicate FileDiscipline(fs: set<string>, o: Outcome)
  {
    o.files == fs + Created(o.events)
    && fs !! Created(o.events)
    && DistinctDestinations(o.events)
    && SuccessAfterDestination(o.events)
  }

  /** Lines that announce no file. */
  predicate Quiet(es: seq<Event>)
  {
    forall i :: 0 <= i < |es| ==> !es[i].Destination? && !es[i].Success?
  }

  lemma QuietDiscipline(fs: set<string>, es: seq<Event>, crashed: bool)
    requires Quiet(es)
    ensures FileDiscipline(fs, Outcome(es, fs, crashed))
  {
    assert Created(es) == {};
  }

  /** File discipline is preserved by running one step after another. */
  lemma ComposeDiscipline(fs: set<string>, p: Outcome, s: Outcome, crashed: bool)
    requires FileDiscipline(fs, p) && FileDiscipline(p.files, s)
    ensures FileDiscipline(fs, Outcome(p.events + s.events, s.files, crashed))
  {
    var es := p.events + s.events;
    CreatedAppend(p.events, s.events);
    forall i, j | 0 <= i < j < |es| && es[i].Destination? && es[j].Destination?
      ensures es[i].path != es[j].path
    {
      if j < |p.events| {
        assert es[i] == p.events[i] && es[j] == p.events[j];
      } else if i >= |p.events| {
        assert es[i] == s.events[i - |p.events|] && es[j] == s.events[j - |p.events|];
      } else {
        assert es[i] == p.events[i] && es[j] == s.events[j - |p.events|];
        assert es[i].path in Created(p.events) && es[j].path in Created(s.events);
      }
    }
    forall i | 0 <= i < |es| && es[i].Success?
      ensures i > 0 && es[i - 1].Destination?
    {
      if i < |p.events| {
        assert es[i] == p.events[i] && es[i - 1] == p.events[i - 1];
      } else {
        assert es[i] == s.events[i - |p.events|];
        assert es[i - 1] == s.events[i - 1 - |p.events|];
      }
    }
  }

  lemma PrefixDiscipline(fs: set<string>, pre: seq<Event>, o: Outcome, crashed: bool)
    requires Quiet(pre) && FileDiscipline(fs, o)
    ensures FileDiscipline(fs, Outcome(pre + o.events, o.files, crashed))
  {
    QuietDiscipline(fs, pre, false);
    ComposeDiscipline(fs, Outcome(pre, fs, false), o, crashed);
  }

  lemma InstallArtifactDiscipline(env: Env, v: PluginVersionInfo, fs: set<string>)
    ensures FileDiscipline(fs, InstallArtifact(env, v, fs))
  {
    var o := InstallArtifact(env, v, fs);
    if o.events != [] {
      assert o.events[0].Destination? && Created(o.events) == {o.events[0].path};
    }
  }

  /** An installation creates exactly the files it announces, each one new
      and only once, even across the whole dependency tree. */
  lemma {:induction false} InstallationDiscipline(env: Env, v: PluginVersionInfo, fs: set<string>, n: nat)
    requires Resolvable(env, v, n)
    ensures FileDiscipline(fs, Installation(env, v, fs, n))
    decreases n, 2, 0
  {
    var head := [Preparing(v.pluginId, v.version)] + (if |v.dependencies| > 0 then [FoundDependencies] else []);
    var d := Dependencies(env, v.dependencies, fs, n);
    DependenciesDiscipline(env, v.dependencies, fs, n);
    PrefixDiscipline(fs, head, d, true);
    if !d.crashed {
      var s := InstallArtifact(env, v, d.files);
      InstallArtifactDiscipline(env, v, d.files);
      PrefixDiscipline(d.files, [WillInstall(v.pluginId)], s, s.crashed);
      ComposeDiscipline(fs, Outcome(head + d.events, d.files, false), Outcome([WillInstall(v.pluginId)] + s.events, s.files, s.crashed), s.crashed);
      Progress.AppendAssoc(head + d.events, [WillInstall(v.pluginId)], s.events);
    }
  }

  lemma {:induction false} DependenciesDiscipline(env: Env, ds: seq<PartialVersionInfo>, fs: set<string>, n: nat)
    requires DepsResolvable(env, ds, n)
    ensures FileDiscipline(fs, Dependencies(env, ds, fs, n))
    decreases n, 1, |ds|
  {
    if ds == [] {
      QuietDiscipline(fs, [], false);
    } else {
      var init := ds[..|ds| - 1];
      assert forall d :: d in init ==> d in ds;
      DependenciesDiscipline(env, init, fs, n);
      var p := Dependencies(env, init, fs, n);
      if !p.crashed {
        var s := DependencyStep(env, ds[|ds| - 1], p.files, n);
        DependencyStepDiscipline(env, ds[|ds| - 1], p.files, n);
        ComposeDiscipline(fs, p, s, s.crashed);
      }
    }
  }

  lemma {:induction false} DependencyStepDiscipline(env: Env, d: PartialVersionInfo, fs: set<string>, n: nat)
    requires FetchesRemotely(env, d) ==> n > 0 && Resolvable(env, Fetch(env, d.pluginId).value, n - 1)
    ensures FileDiscipline(fs, DependencyStep(env, d, fs, n))
    decreases n, 0, 0
  {
    var o := DependencyStep(env, d, fs, n);
    if FetchesRemotely(env, d) {
      var w := Fetch(env, d.pluginId).value;
      InstallationDiscipline(env, w, fs, n - 1);
      PrefixDiscipline(fs, [Dependency(d.pluginId, d.version), NotFoundLocally], Installation(env, w, fs, n - 1), o.crashed);
    } else {
      QuietDiscipline(fs, o.events, o.crashed);
    }
  }

  // ---------------------------------------------------------------------
  // The left-to-right folds, one element at a time (the loops of Tasks
  // follow these)

  lemma DependenciesPrefix(env: Env, ds: seq<PartialVersionInfo>, i: nat, n: nat)
    requires i <= |ds| && DepsResolvable(env, ds, n)
    ensures DepsResolvable(env, ds[..i], n)
  {
    assert forall d :: d in ds[..i] ==> d in ds;
  }

  /** One more step of the dependency loop. */
  lemma DependenciesSnoc(env: Env, ds: seq<PartialVersionInfo>, i: nat, fs: set<string>, n: nat)
    requires i < |ds| && DepsResolvable(env, ds, n)
    ensures DepsResolvable(env, ds[..i], n) && DepsResolvable(env, ds[..i + 1], n)
    ensures ds[i] in ds
    ensures var p := Dependencies(env, ds[..i], fs, n);
      !p.crashed ==>
        var s := DependencyStep(env, ds[i], p.files, n);
        Dependencies(env, ds[..i + 1], fs, n) == Outcome(p.events + s.events, s.files, s.crashed)
  {
    DependenciesPrefix(env, ds, i, n);
    DependenciesPrefix(env, ds, i + 1, n);
    assert ds[..i + 1][..i] == ds[..i];
  }

  /** Once a prefix of the dependency list has aborted, the rest is skipped. */
  lemma {:induction false} DependenciesAfterCrash(env: Env, ds: seq<PartialVersionInfo>, i: nat, fs: set<string>, n: nat)
    requires 0 < i <= |ds| && DepsResolvable(env, ds, n)
    requires DepsResolvable(env, ds[..i], n) && Dependencies(env, ds[..i], fs, n).crashed
    ensures Dependencies(env, ds, fs, n) == Dependencies(env, ds[..i], fs, n)
    decreases |ds| - i
  {
    if i < |ds| {
      DependenciesPrefix(env, ds, i + 1, n);
      assert ds[..i + 1][..i] == ds[..i];
      DependenciesAfterCrash(env, ds, i + 1, fs, n);
    } else {
      assert ds[..i] == ds;
    }
  }

  lemma IdsPrefix(env: Env, ids: seq<string>, i: nat, n: nat)
    requires i <= |ids| && IdsResolvable(env, ids, n)
    ensures IdsResolvable(env, ids[..i], n)
  {
    assert forall id :: id in ids[..i] ==> id in ids;
  }

  lemma InstallEachSnoc(env: Env, ids: seq<string>, i: nat, fs: set<string>, n: nat)
    requires i < |ids| && IdsResolvable(env, ids, n)
    ensures IdsResolvable(env, ids[..i], n) && IdsResolvable(env, ids[..i + 1], n)
    ensures ids[i] in ids
    ensures var p := InstallEach(env, ids[..i], fs, n);
      !p.crashed ==>
        var s := InstallById(env, ids[i], p.files, n);
        InstallEach(env, ids[..i + 1], fs, n) == Outcome(p.events + s.events, s.files, s.crashed)
  {
    IdsPrefix(env, ids, i, n);
    IdsPrefix(env, ids, i + 1, n);
    assert ids[..i + 1][..i] == ids[..i];
  }

  lemma {:induction false} InstallEachAfterCrash(env: Env, ids: seq<string>, i: nat, fs: set<string>, n: nat)
    requires 0 < i <= |ids| && IdsResolvable(env, ids, n)
    requires IdsResolvable(env, ids[..i], n) && InstallEach(env, ids[..i], fs, n).crashed
    ensures InstallEach(env, ids, fs, n) == InstallEach(env, ids[..i], fs, n)
    decreases |ids| - i
  {
    if i < |ids| {
      IdsPrefix(env, ids, i + 1, n);
      assert ids[..i + 1][..i] == ids[..i];
      InstallEachAfterCrash(env, ids, i + 1, fs, n);
    } else {
      assert ids[..i] == ids;
    }
  }

  lemma PluginsPrefix(env: Env, ps: seq<PluginContainer>, i: nat, n: nat)
    requires i <= |ps| && PluginsResolvable(env, ps, n)
    ensures PluginsResolvable(env, ps[..i], n)
  {
    assert forall p :: p in ps[..i] ==> p in ps;
  }

  lemma UpdateEachSnoc(env: Env, ps: seq<PluginContainer>, i: nat, fs: set<string>, n: nat)
    requires i < |ps| && PluginsResolvable(env, ps, n)
    ensures PluginsResolvable(env, ps[..i], n) && PluginsResolvable(env, ps[..i + 1], n)
    ensures ps[i] in ps
    ensures var p := UpdateEach(env, ps[..i], fs, n);
      !p.crashed ==>
        var s := UpdatePlugin(env, ps[i], p.files, n);
        UpdateEach(env, ps[..i + 1], fs, n) == Outcome(p.events + s.events, s.files, s.crashed)
  {
    PluginsPrefix(env, ps, i, n);
    PluginsPrefix(env, ps, i + 1, n);
    assert ps[..i + 1][..i] == ps[..i];
  }

  lemma {:induction false} UpdateEachAfterCrash(env: Env, ps: seq<PluginContainer>, i: nat, fs: set<string>, n: nat)
    requires 0 < i <= |ps| && PluginsResolvable(env, ps, n)
    requires PluginsResolvable(env, ps[..i], n) && UpdateEach(env, ps[..i], fs, n).crashed
    ensures UpdateEach(env, ps, fs, n) == UpdateEach(env, ps[..i], fs, n)
    decreases |ps| - i
  {
    if i < |ps| {
      PluginsPrefix(env, ps, i + 1, n);
      assert ps[..i + 1][..i] == ps[..i];
      UpdateEachAfterCrash(env, ps, i + 1, fs, n);
    } else {
      assert ps[..i] == ps;
    }
  }

  /** The report of the first `i` dependencies is a prefix of the report of
      the first `j`, for i <= j. */
  lemma {:induction false} DependenciesGrow(env: Env, ds: seq<PartialVersionInfo>, i: nat, j: nat, fs: set<string>, n: nat)
    requires i <= j <= |ds| && DepsResolvable(env, ds, n)
    ensures DepsResolvable(env, ds[..i], n) && DepsResolvable(env, ds[..j], n)
    ensures Dependencies(env, ds[..i], fs, n).events <= Dependencies(env, ds[..j], fs, n).events
    decreases j - i
  {
    DependenciesPrefix(env, ds, i, n);
    DependenciesPrefix(env, ds, j, n);
    if i < j {
      DependenciesGrow(env, ds, i + 1, j, fs, n);
      DependenciesSnoc(env, ds, i, fs, n);
      assert ds[..i + 1][..i] == ds[..i];
      var a := Dependencies(env, ds[..i], fs, n).events;
      var b := Dependencies(env, ds[..i + 1], fs, n).events;
      var c := Dependencies(env, ds[..j], fs, n).events;
      assert a <= b;
      assert c[..|a|] == b[..|a|];
    }
  }

  /** Depth-first pre-order: everything reported for the dependencies before
      `ds[i]`, then the report of `ds[i]`, appear in that order and without
      interruption at the start of the report for the whole list. */
  lemma StepsInOrder(env: Env, ds: seq<PartialVersionInfo>, i: nat, fs: set<string>, n: nat)
    requires i < |ds| && DepsResolvable(env, ds, n)
    ensures DepsResolvable(env, ds[..i], n) && ds[i] in ds
    ensures var p := Dependencies(env, ds[..i], fs, n);
      !p.crashed ==> p.events + DependencyStep(env, ds[i], p.files, n).events <= Dependencies(env, ds, fs, n).events
  {
    DependenciesSnoc(env, ds, i, fs, n);
    DependenciesGrow(env, ds, i + 1, |ds|, fs, n);
    assert ds[..|ds|] == ds;
  }

  /** The subtree installed for a remotely fetched dependency follows its
      "not found locally" line directly, after the output for all earlier
      dependencies and before everything after it, including the parent's
      own "Will now install" line. */
  lemma RemoteSubtreeInPlace(env: Env, v: PluginVersionInfo, i: nat, fs: set<string>, n: nat)
    requires Resolvable(env, v, n) && i < |v.dependencies|
    requires FetchesRemotely(env, v.dependencies[i])
    ensures DepsResolvable(env, v.dependencies[..i], n)
    ensures n > 0 && Resolvable(env, Fetch(env, v.dependencies[i].pluginId).value, n - 1)
    ensures var ds := v.dependencies;
      var p := Dependencies(env, ds[..i], fs, n);
      var sub := Installation(env, Fetch(env, ds[i].pluginId).value, p.files, n - 1);
      !p.crashed ==>
        [Preparing(v.pluginId, v.version), FoundDependencies] + p.events
          + [Dependency(ds[i].pluginId, ds[i].version), NotFoundLocally] + sub.events
          <= Installation(env, v, fs, n).events
  {
    var ds := v.dependencies;
    StepsInOrder(env, ds, i, fs, n);
    var p := Dependencies(env, ds[..i], fs, n);
    var head := [Preparing(v.pluginId, v.version), FoundDependencies];
    if !p.crashed {
      var step := DependencyStep(env, ds[i], p.files, n);
      var all := Dependencies(env, ds, fs, n);
      Progress.AppendAssoc(head, p.events, step.events);
      Progress.AppendAssoc(head + p.events, [Dependency(ds[i].pluginId, ds[i].version), NotFoundLocally], step.events[2..]);
      assert head + all.events <= Installation(env, v, fs, n).events;
    }
  }

  /** A dependency the host already has is only reported on: the repository
      is never consulted for it (the step is the same whatever the
      repository answers) and no file is touched. */
  lemma LocalDependencyReportOnly(env: Env, other: Repo, d: PartialVersionInfo, fs: set<string>, n: nat, m: nat)
    requires Lookup(env.registry, d.pluginId).Some?
    ensures var c := Lookup(env.registry, d.pluginId).value;
      DependencyStep(env, d, fs, n) == Outcome([Dependency(d.pluginId, d.version), LocalVerdict(env, c, d)], fs, false)
    ensures DependencyStep(env, d, fs, n) == DependencyStep(env.(repo := other), d, fs, m)
  {
  }

  /** Exactly one verdict line per local dependency, chosen by the declared
      version: an update is reported exactly when the required version is
      newer, never acted on. */
  lemma LocalVerdictCases(env: Env, c: PluginContainer, d: PartialVersionInfo)
    ensures LocalVerdict(env, c, d).VersionUnknown? <==> c.version.None?
    ensures LocalVerdict(env, c, d).RequiresUpdate? <==>
      c.version.Some? && env.compare(d.version, ArtifactVersion(c.version.value)) > 0
    ensures LocalVerdict(env, c, d).Satisfied? <==>
      c.version.Some? && env.compare(d.version, ArtifactVersion(c.version.value)) <= 0
    ensures LocalVerdict(env, c, d).RequiresUpdate? ==>
      LocalVerdict(env, c, d) == RequiresUpdate(c.name, ArtifactVersion(c.version.value), d.version)
  {
  }

  /** The final install step has exactly three visible outcomes: nothing
      when the file cannot be created (it exists, or the fetch failed with an
      I/O error), the destination alone when the copy fails, and the
      destination followed by "Success" otherwise. */
  lemma ArtifactOutcomes(env: Env, v: PluginVersionInfo, fs: set<string>)
    ensures var o := InstallArtifact(env, v, fs);
      var j := env.repo.getPluginJar(v);
      var created := j.Found? && j.value.filename.Some? && Resolve(env.pluginDir, j.value.filename.value) !in fs;
      && (o.events == [] <==> !created)
      && (created ==> o.events[0] == Destination(Resolve(env.pluginDir, j.value.filename.value)))
      && (Success in o.events <==> created && j.value.copies)
      && |o.events| <= 2
  {
  }

  // ---------------------------------------------------------------------
  // What can abort a run

  /** A fetched artifact that the install step can handle without an
      unchecked exception. */
  predicate ArtifactSafe(j: Fetched<PluginJar>)
  {
    j.IOFailure? || (j.Found? && j.value.filename.Some?)
  }

  /** A repository whose version lookups never fail with an unchecked
      exception and whose artifacts always exist and have an entry. */
  ghost predicate NoFaults(env: Env)
  {
    (forall id :: !Fetch(env, id).Fault?) && (forall v :: ArtifactSafe(env.repo.getPluginJar(v)))
  }

  /** Missing or unreachable dependencies never abort an installation; only
      the unchecked failures that NoFaults excludes can. */
  lemma {:induction false} InstallationNeverAborts(env: Env, v: PluginVersionInfo, fs: set<string>, n: nat)
    requires Resolvable(env, v, n) && NoFaults(env)
    ensures !Installation(env, v, fs, n).crashed
    ensures WillInstall(v.pluginId) in Installation(env, v, fs, n).events
    decreases n, 2, 0
  {
    DependenciesNeverAbort(env, v.dependencies, fs, n);
    assert ArtifactSafe(env.repo.getPluginJar(v));
    var head := [Preparing(v.pluginId, v.version)] + (if |v.dependencies| > 0 then [FoundDependencies] else []);
    var d := Dependencies(env, v.dependencies, fs, n);
    var o := Installation(env, v, fs, n);
    assert o.events[|head + d.events|] == WillInstall(v.pluginId);
  }

  lemma {:induction false} DependenciesNeverAbort(env: Env, ds: seq<PartialVersionInfo>, fs: set<string>, n: nat)
    requires DepsResolvable(env, ds, n) && NoFaults(env)
    ensures !Dependencies(env, ds, fs, n).crashed
    decreases n, 1, |ds|
  {
    if ds != [] {
      var init := ds[..|ds| - 1];
      assert forall d :: d in init ==> d in ds;
      DependenciesNeverAbort(env, init, fs, n);
      DependencyStepNeverAborts(env, ds[|ds| - 1], Dependencies(env, init, fs, n).files, n);
    }
  }

  lemma {:induction false} DependencyStepNeverAborts(env: Env, d: PartialVersionInfo, fs: set<string>, n: nat)
    requires FetchesRemotely(env, d) ==> n > 0 && Resolvable(env, Fetch(env, d.pluginId).value, n - 1)
    requires NoFaults(env)
    ensures !DependencyStep(env, d, fs, n).crashed
    decreases n, 0, 0
  {
    assert !Fetch(env, d.pluginId).Fault?;
    if FetchesRemotely(env, d) {
      InstallationNeverAborts(env, Fetch(env, d.pluginId).value, fs, n - 1);
    }
  }

  lemma {:induction false} InstallEachNeverAborts(env: Env, ids: seq<string>, fs: set<string>, n: nat)
    requires IdsResolvable(env, ids, n) && NoFaults(env)
    ensures !InstallEach(env, ids, fs, n).crashed
  {
    if ids != [] {
      var init := ids[..|ids| - 1];
      IdsPrefix(env, ids, |ids| - 1, n);
      InstallEachNeverAborts(env, init, fs, n);
      var id := ids[|ids| - 1];
      assert id in ids && !Fetch(env, id).Fault?;
      if Fetch(env, id).Found? {
        InstallationNeverAborts(env, Fetch(env, id).value, InstallEach(env, init, fs, n).files, n);
      }
    }
  }

  lemma {:induction false} UpdateEachNeverAborts(env: Env, ps: seq<PluginContainer>, fs: set<string>, n: nat)
    requires PluginsResolvable(env, ps, n) && NoFaults(env)
    ensures !UpdateEach(env, ps, fs, n).crashed
  {
    if ps != [] {
      var init := ps[..|ps| - 1];
      PluginsPrefix(env, ps, |ps| - 1, n);
      UpdateEachNeverAborts(env, init, fs, n);
      var p := ps[|ps| - 1];
      assert !Fetch(env, p.id).Fault?;
      if p.hasInstance && Fetch(env, p.id).Found? {
        InstallationNeverAborts(env, Fetch(env, p.id).value, UpdateEach(env, init, fs, n).files, n);
      }
    }
  }

  /** Without unchecked failures every task body returns normally, so the
      task clears `sending` and the flush tick cancels itself. */
  lemma RunTaskNeverAborts(env: Env, t: Task, fs: set<string>, n: nat)
    requires TaskResolvable(env, t, n) && NoFaults(env)
    ensures !RunTask(env, t, fs, n).crashed
  {
    match t
    case InstallTask(ids) => InstallEachNeverAborts(env, ids, fs, n);
    case UpdateTask => UpdateEachNeverAborts(env, env.registry, fs, n);
    case RemoveTask(_) =>
    case SearchTask(_) =>
  }

  // ---------------------------------------------------------------------
  // The shape of the report

  /** An installation opens with its "Preparing" line, and its second line
      is "Found the following dependencies" exactly when it has any. */
  lemma InstallationHeader(env: Env, v: PluginVersionInfo, fs: set<string>, n: nat)
    requires Resolvable(env, v, n)
    ensures var o := Installation(env, v, fs, n);
      |o.events| >= 2 && o.events[0] == Preparing(v.pluginId, v.version)
      && (o.events[1] == FoundDependencies <==> |v.dependencies| > 0)
  {
    if |v.dependencies| == 0 {
      assert Dependencies(env, v.dependencies, fs, n) == Outcome([], fs, false);
    }
  }

  /** The lines an installation can emit. */
  predicate InstallLine(e: Event)
  {
    e.Preparing? || e.FoundDependencies? || e.Dependency? || e.RequiresUpdate? || e.Satisfied?
    || e.VersionUnknown? || e.NotFoundLocally? || e.DependencyMissing? || e.WillInstall?
    || e.Destination? || e.Success?
  }

  predicate InstallLines(es: seq<Event>)
  {
    forall i :: 0 <= i < |es| ==> InstallLine(es[i])
  }

  lemma {:induction false} InstallationLines(env: Env, v: PluginVersionInfo, fs: set<string>, n: nat)
    requires Resolvable(env, v, n)
    ensures InstallLines(Installation(env, v, fs, n).events)
    decreases n, 2, 0
  {
    DependenciesLines(env, v.dependencies, fs, n);
  }

  lemma {:induction false} DependenciesLines(env: Env, ds: seq<PartialVersionInfo>, fs: set<string>, n: nat)
    requires DepsResolvable(env, ds, n)
    ensures InstallLines(Dependencies(env, ds, fs, n).events)
    decreases n, 1, |ds|
  {
    if ds != [] {
      var init := ds[..|ds| - 1];
      assert forall d :: d in init ==> d in ds;
      DependenciesLines(env, init, fs, n);
      DependencyStepLines(env, ds[|ds| - 1], Dependencies(env, init, fs, n).files, n);
    }
  }

  lemma {:induction false} DependencyStepLines(env: Env, d: PartialVersionInfo, fs: set<string>, n: nat)
    requires FetchesRemotely(env, d) ==> n > 0 && Resolvable(env, Fetch(env, d.pluginId).value, n - 1)
    ensures InstallLines(DependencyStep(env, d, fs, n).events)
    decreases n, 0, 0
  {
    if FetchesRemotely(env, d) {
      InstallationLines(env, Fetch(env, d.pluginId).value, fs, n - 1);
    }
  }

  /** The lines of `es` that `keep` selects, in order. */
  function Only(es: seq<Event>, keep: Event -> bool): (r: seq<Event>)
    ensures |r| <= |es|
  {
    if es == [] then []
    else Only(es[..|es| - 1], keep) + (if keep(es[|es| - 1]) then [es[|es| - 1]] else [])
  }

  lemma {:induction false} OnlyAppend(a: seq<Event>, b: seq<Event>, keep: Event -> bool)
    ensures Only(a + b, keep) == Only(a, keep) + Only(b, keep)
    decreases |b|
  {
    if b == [] {
      assert a + b == a;
    } else {
      var init := b[..|b| - 1];
      assert (a + b)[..|a + b| - 1] == a + init;
      OnlyAppend(a, init, keep);
    }
  }

  lemma {:induction false} OnlyInstallLines(es: seq<Event>, keep: Event -> bool)
    requires InstallLines(es)
    requires forall e :: InstallLine(e) ==> !keep(e)
    ensures Only(es, keep) == []
    decreases |es|
  {
    if es != [] {
      OnlyInstallLines(es[..|es| - 1], keep);
      assert InstallLine(es[|es| - 1]);
    }
  }

  predicate IsQuery(e: Event) { e.Querying? }

  predicate IsSkip(e: Event) { e.SkippingUnknown? }

  /** One "Querying" line per plugin with an instance, in registry order. */
  function QueriesFor(ps: seq<PluginContainer>): seq<Event>
  {
    if ps == [] then []
    else
      var p := ps[|ps| - 1];
      QueriesFor(ps[..|ps| - 1]) + (if p.hasInstance then [Querying(p.name, p.version)] else [])
  }

  /** A plugin with an instance is queried exactly once, whatever the
      repository answers, and the query is its first line; a virtual one
      reports nothing and changes nothing. */
  lemma UpdatePluginQueries(env: Env, p: PluginContainer, fs: set<string>, n: nat)
    requires p.hasInstance ==> RootResolvable(env, p.id, n)
    ensures Only(UpdatePlugin(env, p, fs, n).events, IsQuery) ==
      (if p.hasInstance then [Querying(p.name, p.version)] else [])
    ensures !p.hasInstance ==> UpdatePlugin(env, p, fs, n) == Outcome([], fs, false)
    ensures p.hasInstance ==>
      |UpdatePlugin(env, p, fs, n).events| > 0 && UpdatePlugin(env, p, fs, n).events[0] == Querying(p.name, p.version)
  {
    if p.hasInstance {
      var q := Querying(p.name, p.version);
      var s := UpdatePlugin(env, p, fs, n);
      assert Only([q], IsQuery) == [q] by {
        assert [q][..0] == [];
      }
      match Fetch(env, p.id)
      case Found(w) =>
        InstallationLines(env, w, fs, n);
        OnlyInstallLines(Installation(env, w, fs, n).events, IsQuery);
        OnlyAppend([q], Installation(env, w, fs, n).events, IsQuery);
      case NotFound =>
        assert s.events == [q] + [NotInRepository];
        OnlyAppend([q], [NotInRepository], IsQuery);
      case IOFailure =>
      case Fault =>
    }
  }

  /** The update task queries each plugin with an instance exactly once, in
      registry order, and no virtual plugin; an aborted run has queried a
      prefix of them. */
  lemma {:induction false} UpdateQueries(env: Env, ps: seq<PluginContainer>, fs: set<string>, n: nat)
    requires PluginsResolvable(env, ps, n)
    ensures var o := UpdateEach(env, ps, fs, n);
      Only(o.events, IsQuery) <= QueriesFor(ps) && (!o.crashed ==> Only(o.events, IsQuery) == QueriesFor(ps))
  {
    if ps != [] {
      var init := ps[..|ps| - 1];
      PluginsPrefix(env, ps, |ps| - 1, n);
      UpdateQueries(env, init, fs, n);
      var p := UpdateEach(env, init, fs, n);
      var last := ps[|ps| - 1];
      assert last in ps;
      if !p.crashed {
        var s := UpdatePlugin(env, last, p.files, n);
        OnlyAppend(p.events, s.events, IsQuery);
        UpdatePluginQueries(env, last, p.files, n);
      }
    }
  }

  /** One "not found. Skipping" line per requested id the repository does
      not know, in request order. */
  function SkipsFor(env: Env, ids: seq<string>): seq<Event>
  {
    if ids == [] then []
    else
      var id := ids[|ids| - 1];
      SkipsFor(env, ids[..|ids| - 1]) + (if Fetch(env, id).NotFound? then [SkippingUnknown(id)] else [])
  }

  /** The install task skips exactly the unknown ids, in request order, and
      keeps going after each; an aborted run has skipped a prefix of them. */
  lemma {:induction false} InstallSkips(env: Env, ids: seq<string>, fs: set<string>, n: nat)
    requires IdsResolvable(env, ids, n)
    ensures var o := InstallEach(env, ids, fs, n);
      Only(o.events, IsSkip) <= SkipsFor(env, ids) && (!o.crashed ==> Only(o.events, IsSkip) == SkipsFor(env, ids))
  {
    if ids != [] {
      var init := ids[..|ids| - 1];
      IdsPrefix(env, ids, |ids| - 1, n);
      InstallSkips(env, init, fs, n);
      var p := InstallEach(env, init, fs, n);
      var id := ids[|ids| - 1];
      assert id in ids;
      if !p.crashed {
        var s := InstallById(env, id, p.files, n);
        OnlyAppend(p.events, s.events, IsSkip);
        if Fetch(env, id).Found? {
          InstallationLines(env, Fetch(env, id).value, p.files, n);
          OnlyInstallLines(s.events, IsSkip);
        } else if Fetch(env, id).NotFound? {
          assert Only(s.events, IsSkip) == [SkippingUnknown(id)] by {
            assert s.events[..0] == [];
          }
        }
      }
    }
  }

  /** Four lines per search result, in result order. */
  lemma {:induction false} FormatAllShape(ps: seq<PluginInfo>)
    ensures |FormatAll(ps)| == 4 * |ps|
    ensures forall k :: 0 <= k < |ps| ==> FormatAll(ps)[4 * k..4 * k + 4] == FormatPlugin(ps[k])
  {
    if ps != [] {
      var init := ps[..|ps| - 1];
      FormatAllShape(init);
      var all := FormatAll(ps);
      assert all == FormatAll(init) + FormatPlugin(ps[|ps| - 1]);
      forall k | 0 <= k < |ps|
        ensures all[4 * k..4 * k + 4] == FormatPlugin(ps[k])
      {
        if k < |init| {
          assert all[4 * k..4 * k + 4] == FormatAll(init)[4 * k..4 * k + 4];
          assert init[k] == ps[k];
        } else {
          assert all[4 * k..4 * k + 4] == FormatPlugin(ps[|ps| - 1]);
        }
      }
    }
  }

  /** The search report: nothing when the search fails, exactly one line for
      no results, otherwise a header and four lines per result in order. */
  lemma SearchShape(query: string, r: SearchResult)
    ensures r.SearchFailed? ==> SearchRequest(query, r) == []
    ensures r.Results? && |r.plugins| == 0 ==> SearchRequest(query, r) == [NoPluginsFound(query)]
    ensures r.Results? && |r.plugins| > 0 ==>
      var es := SearchRequest(query, r);
      |es| == 1 + 4 * |r.plugins| && es[0] == PluginsFound(query)
      && forall k :: 0 <= k < |r.plugins| ==> es[1 + 4 * k..5 + 4 * k] == FormatPlugin(r.plugins[k])
  {
    if r.Results? && |r.plugins| > 0 {
      var ps := r.plugins;
      FormatAllShape(ps);
      var es := SearchRequest(query, r);
      forall k | 0 <= k < |ps|
        ensures es[1 + 4 * k..5 + 4 * k] == FormatPlugin(ps[k])
      {
        assert es[1 + 4 * k..5 + 4 * k] == FormatAll(ps)[4 * k..4 * k + 4];
      }
    }
  }
}
