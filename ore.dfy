/** The Ore backend of the plugin repository (OreRepository.java): the URLs
    it requests, how it turns the answers into repository values, and the
    deserialised records with their lazily computed, cached properties.
    The server is a parameter: for each URL it answers with a body, with
    "not found", or with a transport error. */
module Ore {
  import opened Repository

  /** The root of the Ore site, as its external form. */
  const OreRoot: string := "https://ore-staging.spongepowered.org/"

  /** The API base: the root followed by "api/v1/". */
  const ApiUrl: string := OreRoot + "api/v1/"

  /** createUrl(root, s): the root's external form followed by `s`. */
  function CreateUrl(root: string, path: string): string
  {
    root + path
  }

  function VersionsEndpoint(id: string): string
  {
    CreateUrl(ApiUrl, "projects/" + id + "/versions")
  }

  /** The search endpoint; the query is inserted as it is, without escaping. */
  function SearchEndpoint(query: string): string
  {
    CreateUrl(ApiUrl, "projects?q=" + query)
  }

  function ProjectEndpoint(id: string): string
  {
    CreateUrl(ApiUrl, "projects/" + id)
  }

  /** The download link of one version of a plugin. */
  function DownloadUrl(webLink: string, version: string): string
  {
    webLink + "/versions/download/" + version
  }

  /** The id a project URL names, if it is one. */
  function ProjectOf(url: string): Option<string>
  {
    var prefix := ApiUrl + "projects/";
    if prefix <= url then Some(url[|prefix|..]) else None
  }

  /** The query a search URL carries, if it is one. */
  function QueryOf(url: string): Option<string>
  {
    var prefix := ApiUrl + "projects?q=";
    if prefix <= url then Some(url[|prefix|..]) else None
  }

  lemma PrefixSplit(prefix: string, rest: string)
    ensures prefix <= prefix + rest && (prefix + rest)[|prefix|..] == rest
  {
  }

  /** Project URLs and ids are in one-to-one correspondence. */
  lemma ProjectEndpointRoundTrip(id: string, url: string)
    ensures ProjectOf(ProjectEndpoint(id)) == Some(id)
    ensures ProjectOf(url) == Some(id) ==> url == ProjectEndpoint(id)
  {
    var prefix := ApiUrl + "projects/";
    assert ProjectEndpoint(id) == prefix + id;
    PrefixSplit(prefix, id);
    if ProjectOf(url) == Some(id) {
      assert url == url[..|prefix|] + url[|prefix|..];
    }
  }

  /** Search URLs carry the query verbatim: every query, whatever
      characters it contains, is recovered unchanged, and no search URL is a
      project URL. */
  lemma SearchEndpointRoundTrip(query: string, url: string)
    ensures QueryOf(SearchEndpoint(query)) == Some(query)
    ensures QueryOf(url) == Some(query) ==> url == SearchEndpoint(query)
    ensures ProjectOf(SearchEndpoint(query)).None?
  {
    var prefix := ApiUrl + "projects?q=";
    assert SearchEndpoint(query) == prefix + query;
    PrefixSplit(prefix, query);
    if QueryOf(url) == Some(query) {
      assert url == url[..|prefix|] + url[|prefix|..];
    }
    var p := ApiUrl + "projects/";
    assert SearchEndpoint(query)[|p| - 1] == '?' && p[|p| - 1] == '/';
  }

  /** The versions URL of `id` is the project URL of `id` with "/versions"
      appended; since ids are not escaped it is also the project URL of the
      id `id + "/versions"`. */
  lemma VersionsEndpointShape(id: string)
    ensures VersionsEndpoint(id) == ProjectEndpoint(id) + "/versions"
    ensures VersionsEndpoint(id) == ProjectEndpoint(id + "/versions")
    ensures ProjectOf(VersionsEndpoint(id)) == Some(id + "/versions")
  {
    ProjectEndpointRoundTrip(id + "/versions", VersionsEndpoint(id));
  }

  lemma VersionsEndpointInjective(a: string, b: string)
    requires VersionsEndpoint(a) == VersionsEndpoint(b)
    ensures a == b
  {
    VersionsEndpointShape(a);
    VersionsEndpointShape(b);
    var x := a + "/versions";
    var y := b + "/versions";
    assert x == y;
    assert a == x[..|a|] && b == y[..|b|];
  }

  /** A server response: a body, "not found" (the endpoint is absent), or a
      transport error. */
  datatype Http<+T> = Absent | TransportError | Body(value: T)

  /** The deserialised records, field for field. */
  datatype DependencyRecord = DependencyRecord(pluginId: string, version: string)

  datatype VersionRecord = VersionRecord(
    createdAt: string,
    name: string,
    dependencies: seq<DependencyRecord>,
    pluginId: string,
    fileSize: int)

  datatype ProjectRecord = ProjectRecord(
    pluginId: string,
    createdAt: string,
    name: string,
    owner: string,
    description: string,
    href: string,
    members: seq<string>,
    recommended: string)

  /** A downloaded archive: the names of its entries in order, and whether
      reading the first entry's bytes completes. */
  datatype Archive = Archive(entries: seq<string>, intact: bool)

  /** What the server answers at each URL. */
  datatype Server = Server(
    versions: string -> Http<seq<VersionRecord>>,
    projects: string -> Http<seq<ProjectRecord>>,
    project: string -> Http<ProjectRecord>,
    download: string -> Http<Archive>)

  /** getWebLink: at most one leading "/" of `href` is removed, and the root
      is put in front. */
  function StripSlash(href: string): string
  {
    if |href| > 0 && href[0] == '/' then href[1..] else href
  }

  function WebLink(href: string): (r: string)
    ensures OreRoot <= r
    ensures |href| > 0 && href[0] == '/' ==> r[|OreRoot|..] == href[1..]
    ensures !(|href| > 0 && href[0] == '/') ==> r[|OreRoot|..] == href
  {
    OreRoot + StripSlash(href)
  }

  /** Recomputing the link from the rewritten `href` gives the same link
      exactly when `href` did not start with two slashes: the cache is what
      keeps the link stable for "//..." links. */
  lemma WebLinkRecomputation(href: string)
    ensures WebLink(StripSlash(href)) == WebLink(href) <==> !(|href| >= 2 && href[0] == '/' && href[1] == '/')
  {
    if |href| >= 2 && href[0] == '/' && href[1] == '/' {
      assert |StripSlash(StripSlash(href))| == |href| - 2;
      assert |WebLink(StripSlash(href))| != |WebLink(href)|;
    }
  }

  /** getAuthors: the owner, then the members in order. */
  function AuthorList(owner: string, members: seq<string>): (r: seq<string>)
    ensures |r| == 1 + |members| && r[0] == owner
    ensures forall i :: 0 <= i < |members| ==> r[i + 1] == members[i]
  {
    [owner] + members
  }

  function ToPartial(d: DependencyRecord): PartialVersionInfo
  {
    PartialVersionInfo(d.pluginId, ArtifactVersion(d.version))
  }

  /** A version record as version information; its dependencies keep the
      order of the record's array. */
  function ToVersionInfo(r: VersionRecord): (v: PluginVersionInfo)
    ensures v.pluginId == r.pluginId && v.version == ArtifactVersion(r.name)
    ensures |v.dependencies| == |r.dependencies|
    ensures forall i :: 0 <= i < |r.dependencies| ==>
      v.dependencies[i].pluginId == r.dependencies[i].pluginId
      && v.dependencies[i].version == ArtifactVersion(r.dependencies[i].version)
  {
    PluginVersionInfo(r.pluginId, ArtifactVersion(r.name), r.createdAt, r.fileSize,
      seq(|r.dependencies|, i requires 0 <= i < |r.dependencies| => ToPartial(r.dependencies[i])))
  }

  /** A project record as catalogue information. */
  function ToPluginInfo(p: ProjectRecord): (info: PluginInfo)
    ensures info.id == p.pluginId && info.webLink == WebLink(p.href)
    ensures info.authors == AuthorList(p.owner, p.members)
    ensures info.name == p.name && info.description == p.description
    ensures info.recommendedVersion == p.recommended && info.creationDate == p.createdAt
  {
    PluginInfo(p.pluginId, p.createdAt, p.name, p.recommended, p.description, WebLink(p.href), AuthorList(p.owner, p.members))
  }

  /** getVersionInfo: null when the endpoint is absent, otherwise the first
      element of the array, which is the latest version; an empty array
      is an index error (an unchecked exception), not a null. */
  function GetVersionInfo(server: Server, id: string): (r: Fetched<PluginVersionInfo>)
    ensures r.NotFound? <==> server.versions(VersionsEndpoint(id)).Absent?
    ensures r.IOFailure? <==> server.versions(VersionsEndpoint(id)).TransportError?
    ensures r.Fault? <==> server.versions(VersionsEndpoint(id)) == Body([])
    ensures r.Found? ==>
      var body := server.versions(VersionsEndpoint(id));
      body.Body? && |body.value| > 0 && r.value == ToVersionInfo(body.value[0])
  {
    match server.versions(VersionsEndpoint(id))
    case Absent => NotFound
    case TransportError => IOFailure
    case Body(versions) => if |versions| == 0 then Fault else Found(ToVersionInfo(versions[0]))
  }

  /** search: every entry of the array, in order; an absent endpoint looks
      exactly like an empty result. */
  function Search(server: Server, query: string): (r: SearchResult)
    ensures r.SearchFailed? <==> server.projects(SearchEndpoint(query)).TransportError?
    ensures r.Results? ==> |r.plugins| == (match server.projects(SearchEndpoint(query))
      case Body(ps) => |ps|
      case _ => 0)
    ensures server.projects(SearchEndpoint(query)).Body? ==>
      forall i :: 0 <= i < |r.plugins| ==> r.plugins[i] == ToPluginInfo(server.projects(SearchEndpoint(query)).value[i])
  {
    match server.projects(SearchEndpoint(query))
    case Absent => Results([])
    case TransportError => SearchFailed
    case Body(ps) => Results(seq(|ps|, i requires 0 <= i < |ps| => ToPluginInfo(ps[i])))
  }

  /** The two causes of an empty search result cannot be told apart. */
  lemma SearchEmptyCauses(server: Server, query: string)
    ensures Search(server, query) == Results([]) <==>
      server.projects(SearchEndpoint(query)).Absent? || server.projects(SearchEndpoint(query)) == Body([])
  {
  }

  /** getPluginJar: null when the project is absent; otherwise the archive at
      the download link of the project's web page for this version, whose
      first entry names the artifact. A missing download is an I/O error
      here, since only the API requests treat "not found" as null. */
  function GetPluginJar(server: Server, v: PluginVersionInfo): (r: Fetched<PluginJar>)
    ensures !r.Fault?
    ensures r.NotFound? <==> server.project(ProjectEndpoint(v.pluginId)).Absent?
    ensures var p := server.project(ProjectEndpoint(v.pluginId));
      r.IOFailure? <==>
        (p.TransportError? || (p.Body? && !server.download(DownloadUrl(WebLink(p.value.href), v.version.text)).Body?))
    ensures var p := server.project(ProjectEndpoint(v.pluginId));
      r.Found? <==> p.Body? && server.download(DownloadUrl(WebLink(p.value.href), v.version.text)).Body?
    ensures r.Found? && server.project(ProjectEndpoint(v.pluginId)).Body? ==>
      var p := server.project(ProjectEndpoint(v.pluginId)).value;
      var a := server.download(DownloadUrl(WebLink(p.href), v.version.text));
      a.Body? && r.value.copies == a.value.intact
      && (r.value.filename.None? <==> a.value.entries == [])
      && (r.value.filename.Some? ==> r.value.filename.value == a.value.entries[0])
  {
    match server.project(ProjectEndpoint(v.pluginId))
    case Absent => NotFound
    case TransportError => IOFailure
    case Body(p) =>
      match server.download(DownloadUrl(WebLink(p.href), v.version.text))
      case Absent => IOFailure
      case TransportError => IOFailure
      case Body(a) => Found(PluginJar(if a.entries == [] then None else Some(a.entries[0]), a.intact))
  }

  /** The repository the workflow sees when it talks to an Ore server. */
  function OreRepo(server: Server): (repo: Repo)
    ensures forall id :: repo.getVersionInfo(id) == GetVersionInfo(server, id)
    ensures forall q :: repo.search(q) == Search(server, q)
    ensures forall v :: repo.getPluginJar(v) == GetPluginJar(server, v)
  {
    Repo(id => GetVersionInfo(server, id), q => Search(server, q), v => GetPluginJar(server, v))
  }

  /** A deserialised project. Gson sets the fields; `href` is rewritten by
      the first getWebLink, and the link and author list are computed once
      and cached. */
  class OrePluginInfo {
    const pluginId: string
    const createdAt: string
    const name: string
    const owner: string
    const description: string
    var href: string
    const members: seq<string>
    const recommended: string

    var link: Option<string>
    var authors: Option<seq<string>>

    /** `href` as it was deserialised. */
    ghost const sourceHref: string

    /** The caches hold what they would compute, and `href` has been
        rewritten exactly when the link is cached. */
    ghost predicate Valid()
      reads this
    {
      (link.None? ==> href == sourceHref)
      && (link.Some? ==> link.value == WebLink(sourceHref) && href == StripSlash(sourceHref))
      && (authors.Some? ==> authors.value == AuthorList(owner, members))
    }

    /** The record it was deserialised from. */
    ghost function Record(): ProjectRecord
    {
      ProjectRecord(pluginId, createdAt, name, owner, description, sourceHref, members, recommended)
    }

    constructor (p: ProjectRecord)
      ensures Valid() && Record() == p
      ensures href == p.href && link.None? && authors.None?
    {
      pluginId, createdAt, name, owner, description := p.pluginId, p.createdAt, p.name, p.owner, p.description;
      href, members, recommended := p.href, p.members, p.recommended;
      sourceHref := p.href;
      link, authors := None, None;
    }

    method GetWebLink() returns (r: string)
      requires Valid()
      modifies this`href, this`link
      ensures Valid()
      ensures r == WebLink(sourceHref) && link == Some(r)
    {
      if link.None? {
        if |href| > 0 && href[0] == '/' {
          href := href[1..];
        }
        link := Some(OreRoot + href);
      }
      r := link.value;
    }

    method GetAuthors() returns (r: seq<string>)
      requires Valid()
      modifies this`authors
      ensures Valid()
      ensures r == AuthorList(owner, members) && authors == Some(r)
    {
      if authors.None? {
        var list := [owner];
        var i := 0;
        while i < |members|
          invariant 0 <= i <= |members|
          invariant list == [owner] + members[..i]
        {
          list := list + [members[i]];
          i := i + 1;
        }
        assert members[..i] == members;
        authors := Some(list);
      }
      r := authors.value;
    }

    /** The catalogue information its getters report. */
    method Info() returns (info: PluginInfo)
      requires Valid()
      modifies this`href, this`link, this`authors
      ensures Valid()
      ensures info == ToPluginInfo(Record())
    {
      var webLink := GetWebLink();
      var authorList := GetAuthors();
      info := PluginInfo(pluginId, createdAt, name, recommended, description, webLink, authorList);
    }
  }

  /** Two calls of getWebLink on a fresh project return the same link, the
      one of the original `href`, even for an `href` starting "//" whose
      rewritten form would give another link. */
  method WebLinkTwice(p: ProjectRecord) returns (first: string, second: string)
    ensures first == second == WebLink(p.href)
  {
    var info := new OrePluginInfo(p);
    first := info.GetWebLink();
    second := info.GetWebLink();
  }

  /** A deserialised dependency; its version is parsed once and cached. */
  class PartialVersion {
    const pluginId: string
    const version: string
    var verInfo: Option<ArtifactVersion>

    ghost predicate Valid()
      reads this
    {
      verInfo.Some? ==> verInfo.value == ArtifactVersion(version)
    }

    constructor (d: DependencyRecord)
      ensures pluginId == d.pluginId && version == d.version
      ensures Valid() && verInfo.None?
    {
      pluginId, version := d.pluginId, d.version;
      verInfo := None;
    }

    method GetVersion() returns (r: ArtifactVersion)
      requires Valid()
      modifies this`verInfo
      ensures Valid()
      ensures r == ArtifactVersion(version) && verInfo == Some(r)
    {
      if verInfo.None? {
        verInfo := Some(ArtifactVersion(version));
      }
      r := verInfo.value;
    }
  }

  /** A deserialised version; its version is parsed once and its dependency
      list built once, both cached. */
  class OreVersionInfo {
    const createdAt: string
    const name: string
    const dependencies: seq<PartialVersion>
    const pluginId: string
    const fileSize: int

    var version: Option<ArtifactVersion>
    var dependenciesList: Option<seq<PartialVersion>>

    ghost predicate Valid()
      reads this, dependencies
    {
      (version.Some? ==> version.value == ArtifactVersion(name))
      && (dependenciesList.Some? ==> dependenciesList.value == dependencies)
      && forall d :: d in dependencies ==> d.Valid()
    }

    /** The record it was deserialised from. */
    ghost function Record(): VersionRecord
    {
      VersionRecord(createdAt, name,
        seq(|dependencies|, i requires 0 <= i < |dependencies| => DependencyRecord(dependencies[i].pluginId, dependencies[i].version)),
        pluginId, fileSize)
    }

    constructor (createdAt: string, name: string, dependencies: seq<PartialVersion>, pluginId: string, fileSize: int)
      requires forall d :: d in dependencies ==> d.Valid()
      ensures this.createdAt == createdAt && this.name == name && this.dependencies == dependencies
      ensures this.pluginId == pluginId && this.fileSize == fileSize
      ensures Valid() && version.None? && dependenciesList.None?
    {
      this.createdAt, this.name, this.dependencies := createdAt, name, dependencies;
      this.pluginId, this.fileSize := pluginId, fileSize;
      version, dependenciesList := None, None;
    }

    method GetVersion() returns (r: ArtifactVersion)
      requires Valid()
      modifies this`version
      ensures Valid()
      ensures r == ArtifactVersion(name) && version == Some(r)
    {
      if version.None? {
        version := Some(ArtifactVersion(name));
      }
      r := version.value;
    }

    /** The dependency objects in array order, the same list on every call. */
    method GetDependencies() returns (r: seq<PartialVersion>)
      requires Valid()
      modifies this`dependenciesList
      ensures Valid()
      ensures r == dependencies && dependenciesList == Some(r)
    {
      if dependenciesList.None? {
        dependenciesList := Some(dependencies);
      }
      r := dependenciesList.value;
    }

    /** The version information its getters report: the same value that the
        repository derives from the record. */
    method Info() returns (v: PluginVersionInfo)
      requires Valid()
      modifies this`version, this`dependenciesList, dependencies
      ensures Valid()
      ensures v == ToVersionInfo(Record())
    {
      var ver := GetVersion();
      var deps := GetDependencies();
      var partial: seq<PartialVersionInfo> := [];
      var i := 0;
      while i < |deps|
        invariant 0 <= i <= |deps| && deps == dependencies
        invariant Valid()
        invariant |partial| == i
        invariant forall k :: 0 <= k < i ==> partial[k] == ToPartial(Record().dependencies[k])
      {
        var dv := deps[i].GetVersion();
        partial := partial + [PartialVersionInfo(deps[i].pluginId, dv)];
        i := i + 1;
      }
      v := PluginVersionInfo(pluginId, ver, createdAt, fileSize, partial);
    }
  }
}
