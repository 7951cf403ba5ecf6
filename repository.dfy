/** The values that pass through the plugin-repository interface
    (PluginRepository.java): plugin metadata, version metadata, downloaded
    artifacts, and the three ways a remote call can end. */
module Repository {

  datatype Option<+T> = None | Some(value: T)

  /** A parsed version. The parser and its ordering are a foreign library, so
      a version is kept as the text it was parsed from (which is also what it
      prints as) and compared through an ordering the caller supplies. */
  datatype ArtifactVersion = ArtifactVersion(text: string)

  /** One dependency edge: a plugin id and the version required of it. */
  datatype PartialVersionInfo = PartialVersionInfo(pluginId: string, version: ArtifactVersion)

  /** One installable version of a plugin, with its ordered dependency list. */
  datatype PluginVersionInfo = PluginVersionInfo(
    pluginId: string,
    version: ArtifactVersion,
    releaseDate: string,
    fileSize: int,
    dependencies: seq<PartialVersionInfo>)

  /** Catalogue metadata of a plugin, as returned by a search. */
  datatype PluginInfo = PluginInfo(
    id: string,
    creationDate: string,
    name: string,
    recommendedVersion: string,
    description: string,
    webLink: string,
    authors: seq<string>)

  /** A downloaded artifact. `filename` is None when the archive had no entry
      (asking for the name then fails with a null dereference); `copies` says
      whether streaming its bytes to disk completes without an I/O error. */
  datatype PluginJar = PluginJar(filename: Option<string>, copies: bool)

  /** The result of a remote call that can return null: NotFound is the null
      result, IOFailure a checked I/O exception, Fault an unchecked runtime
      exception that no caller in the workflow catches. */
  datatype Fetched<+T> = NotFound | IOFailure | Fault | Found(value: T)

  /** The result of a search: an I/O exception, or the results in order. */
  datatype SearchResult = SearchFailed | Results(plugins: seq<PluginInfo>)

  /** The repository interface as the workflow sees it. */
  datatype Repo = Repo(
    getVersionInfo: string -> Fetched<PluginVersionInfo>,
    search: string -> SearchResult,
    getPluginJar: PluginVersionInfo -> Fetched<PluginJar>)
}
