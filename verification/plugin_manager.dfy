/** The plugin metadata cache file: rebuilt from the fetched repository
    manifests, and edited in place when a plugin is downloaded or removed. */
module PluginManager {
  import opened PyValues

  /** Version handling of the `packaging` library: `parse(x)` is
      `str(Version(x))` (None when `x` is not a valid version, which raises
      InvalidVersion, a ValueError), and `newer(a, b)` compares two parsed
      versions. */
  datatype VersionOps = VersionOps(parse: Json -> Option<string>, newer: (string, string) -> bool)

  /** The cache entry built from one fetched manifest: the manifest's own
      keys overlaid by the normalised `version`, `source`, `category`,
      `downloaded_version` and `has_update`. `installed` is what
      `get_downloaded_version` returns: None without a local copy, else the
      `version` of the local manifest, which is None (`JNone`) when that
      manifest has no version. `has_update` holds when a local version
      exists and the manifest's version is strictly newer. A manifest without
      `version` or `domain` raises KeyError; a version that does not parse
      raises ValueError. */
  function ManifestEntry(ver: VersionOps, manifest: map<string, Json>, repo: string, category: string,
                         installed: Option<Json>): (r: Result<map<string, Json>>)
    ensures "version" !in manifest ==> r == Err(KeyError)
    ensures r.Ok? ==> r.value.Keys == manifest.Keys + {"version", "source", "category", "downloaded_version", "has_update"}
    ensures r.Ok? ==> forall k :: k in manifest && k !in {"version", "source", "category", "downloaded_version", "has_update"} ==> r.value[k] == manifest[k]
    ensures r.Ok? ==> r.value["source"] == JStr(repo) && r.value["category"] == JStr(category)
    ensures "version" in manifest && ver.parse(manifest["version"]).None? ==> r == Err(ValueError)
    ensures r.Ok? ==> ver.parse(manifest["version"]).Some? && r.value["version"] == JStr(ver.parse(manifest["version"]).value)
    ensures r.Ok? && installed.Some? && installed.value != JNone ==>
              && ver.parse(installed.value).Some?
              && r.value["downloaded_version"] == JStr(ver.parse(installed.value).value)
              && r.value["has_update"] == JBool(ver.newer(ver.parse(manifest["version"]).value, ver.parse(installed.value).value))
    ensures r.Ok? && (installed.None? || installed.value == JNone) ==>
              r.value["downloaded_version"] == JNone && r.value["has_update"] == JBool(false)
  {
    if "version" !in manifest then Err(KeyError)
    else match ver.parse(manifest["version"])
      case None => Err(ValueError)
      case Some(version) =>
        if "domain" !in manifest then Err(KeyError)
        else
          var downloaded: Option<string> :=
            match installed
            case None => None
            case Some(v) => if v == JNone then None else ver.parse(v);
          if installed.Some? && installed.value != JNone && downloaded.None? then Err(ValueError)
          else
            Ok(manifest + map[
              "version" := JStr(version),
              "source" := JStr(repo),
              "category" := JStr(category),
              "downloaded_version" := (if downloaded.Some? then JStr(downloaded.value) else JNone),
              "has_update" := JBool(downloaded.Some? && ver.newer(version, downloaded.value))])
  }

  /** A repository listed by a source list, with its fetched manifest: None
      when the fetch failed. */
  datatype Repo = Repo(name: string, manifest: Option<map<string, Json>>)

  /** A manifest takes part only when the fetch succeeded and it is truthy. */
  predicate Usable(r: Repo) {
    r.manifest.Some? && r.manifest.value != map[]
  }

  /** The entries built from one category's repositories, in list order. */
  function EntriesFor(ver: VersionOps, category: string, repos: seq<Repo>,
                      installed: (string, Json) -> Option<Json>): (r: Result<seq<map<string, Json>>>)
    ensures r.Ok? ==> |r.value| <= |repos|
    ensures r.Ok? ==> forall e :: e in r.value ==> "category" in e && e["category"] == JStr(category)
    ensures (forall i :: 0 <= i < |repos| ==> !Usable(repos[i])) ==> r == Ok([])
  {
    if repos == [] then Ok([])
    else
      match EntriesFor(ver, category, repos[..|repos| - 1], installed)
      case Err(e) => Err(e)
      case Ok(prefix) =>
        var last := repos[|repos| - 1];
        if !Usable(last) then Ok(prefix)
        else
          var m := last.manifest.value;
          match ManifestEntry(ver, m, last.name, category, installed(category, DictGet(m, "domain")))
          case Err(e) => Err(e)
          case Ok(entry) => Ok(prefix + [entry])
  }

  /** The entries of every source list, one category after the other. */
  function AllEntries(ver: VersionOps, sources: seq<(string, seq<Repo>)>,
                      installed: (string, Json) -> Option<Json>): (r: Result<seq<map<string, Json>>>)
    ensures r.Ok? ==> forall e :: e in r.value ==>
              "category" in e && exists j :: 0 <= j < |sources| && e["category"] == JStr(sources[j].0)
    ensures (forall j, i :: 0 <= j < |sources| && 0 <= i < |sources[j].1| ==> !Usable(sources[j].1[i])) ==> r == Ok([])
  {
    if sources == [] then Ok([])
    else
      match AllEntries(ver, sources[..|sources| - 1], installed)
      case Err(e) => Err(e)
      case Ok(prefix) =>
        match EntriesFor(ver, sources[|sources| - 1].0, sources[|sources| - 1].1, installed)
        case Err(e) => Err(e)
        case Ok(entries) => Ok(prefix + entries)
  }

  /** The inner loop of `update_metadata` over one category's
      repositories. */
  method CollectCategory(ver: VersionOps, category: string, repos: seq<Repo>,
                         installed: (string, Json) -> Option<Json>) returns (r: Result<seq<map<string, Json>>>)
    ensures r == EntriesFor(ver, category, repos, installed)
  {
    var pluginData: seq<map<string, Json>> := [];
    var i := 0;
    while i < |repos|
      invariant 0 <= i <= |repos|
      invariant EntriesFor(ver, category, repos[..i], installed) == Ok(pluginData)
    {
      assert repos[..i + 1][..i] == repos[..i];
      var repo := repos[i];
      if Usable(repo) {
        var m := repo.manifest.value;
        var entry := ManifestEntry(ver, m, repo.name, category, installed(category, DictGet(m, "domain")));
        if entry.Err? {
          EntriesErrorSticks(ver, category, repos, installed, i + 1);
          return Err(entry.error);
        }
        pluginData := pluginData + [entry.value];
      }
      i := i + 1;
    }
    assert repos[..i] == repos;
    r := Ok(pluginData);
  }

  /** The metadata cache file on disk: None while it does not exist. */
  class MetadataFile {
    var content: Option<seq<map<string, Json>>>

    constructor (content: Option<seq<map<string, Json>>>)
      ensures this.content == content
    {
      this.content := content;
    }

    /** `update_metadata`: for each source list (a category and its
        repositories, in order) the usable manifests become cache entries;
        the cache is rewritten once with all of them. An error while
        building leaves the file as it was. */
    method UpdateMetadata(ver: VersionOps, sources: seq<(string, seq<Repo>)>,
                          installed: (string, Json) -> Option<Json>) returns (r: Outcome)
      modifies this
      ensures AllEntries(ver, sources, installed).Ok? ==>
                r == Pass && content == Some(AllEntries(ver, sources, installed).value)
      ensures AllEntries(ver, sources, installed).Err? ==>
                r == Fail(AllEntries(ver, sources, installed).error) && content == old(content)
    {
      var pluginData: seq<map<string, Json>> := [];
      var c := 0;
      while c < |sources|
        invariant 0 <= c <= |sources|
        invariant AllEntries(ver, sources[..c], installed) == Ok(pluginData)
        invariant content == old(content)
      {
        AllEntriesStep(ver, sources, installed, c, pluginData);
        var (category, repos) := sources[c];
        var entries := CollectCategory(ver, category, repos, installed);
        if entries.Err? {
          AllEntriesErrorSticks(ver, sources, installed, c + 1);
          return Fail(entries.error);
        }
        pluginData := pluginData + entries.value;
        c := c + 1;
      }
      assert sources[..c] == sources;
      content := Some(pluginData);
      r := Pass;
    }

    /** `update_downloaded_metadata(domain, version)`: the first entry with
        this domain gets the normalised downloaded version (None without a
        version) and `has_update` false, and the file is rewritten; when no
        entry matches nothing is written. A missing file reads as an empty
        list. An unparsable version raises before anything is changed. */
    method UpdateDownloadedMetadata(ver: VersionOps, domain: Json, version: Option<Json>) returns (r: Outcome, written: bool)
      modifies this
      ensures var metadata := if old(content).Some? then old(content).value else [];
              match FirstWithDomain(metadata, domain)
              case None => r == Pass && !written && content == old(content)
              case Some(k) =>
                if version.Some? && ver.parse(version.value).None? then
                  r == Fail(ValueError) && !written && content == old(content)
                else
                  && r == Pass && written
                  && content == Some(metadata[k := metadata[k]["downloaded_version" := DownloadedValue(ver, version)]["has_update" := JBool(false)]])
    {
      var metadata := if content.Some? then content.value else [];
      var i := 0;
      written := false;
      while i < |metadata|
        invariant 0 <= i <= |metadata|
        invariant forall j :: 0 <= j < i ==> DictGet(metadata[j], "domain") != domain
      {
        if DictGet(metadata[i], "domain") == domain {
          if version.Some? && ver.parse(version.value).None? {
            return Fail(ValueError), false;
          }
          var plugin := metadata[i]["downloaded_version" := DownloadedValue(ver, version)]["has_update" := JBool(false)];
          metadata := metadata[i := plugin];
          written := true;
          break;
        }
        i := i + 1;
      }
      if written {
        content := Some(metadata);
      }
      r := Pass;
    }
  }

  /** The index of the first entry whose `domain` equals the one given. */
  function FirstWithDomain(metadata: seq<map<string, Json>>, domain: Json): (r: Option<nat>)
    ensures r.Some? ==> r.value < |metadata| && DictGet(metadata[r.value], "domain") == domain
    ensures r.Some? ==> forall j :: 0 <= j < r.value ==> DictGet(metadata[j], "domain") != domain
    ensures r.None? <==> forall j :: 0 <= j < |metadata| ==> DictGet(metadata[j], "domain") != domain
  {
    if metadata == [] then None
    else if DictGet(metadata[0], "domain") == domain then Some(0)
    else match FirstWithDomain(metadata[1..], domain)
      case None => None
      case Some(k) => Some(k + 1)
  }

  /** The `downloaded_version` written for a download (a version) or a
      removal (no version). */
  function DownloadedValue(ver: VersionOps, version: Option<Json>): (v: Json)
    ensures version.None? ==> v == JNone
    ensures version.Some? && ver.parse(version.value).Some? ==> v == JStr(ver.parse(version.value).value)
  {
    if version.None? then JNone
    else match ver.parse(version.value)
      case Some(s) => JStr(s)
      case None => JNone
  }

  /** Once building the entries fails on some prefix of the repositories, it
      fails the same way on every longer prefix. */
  lemma {:induction false} EntriesErrorSticks(ver: VersionOps, category: string, repos: seq<Repo>,
                                              installed: (string, Json) -> Option<Json>, n: nat)
    requires n <= |repos|
    requires EntriesFor(ver, category, repos[..n], installed).Err?
    ensures EntriesFor(ver, category, repos, installed) == EntriesFor(ver, category, repos[..n], installed)
    decreases |repos| - n
  {
    if n < |repos| {
      assert repos[..n + 1][..n] == repos[..n];
      EntriesErrorSticks(ver, category, repos, installed, n + 1);
    } else {
      assert repos[..n] == repos;
    }
  }

  /** One more source list: its entries follow those of the earlier ones,
      or its error is the result. */
  lemma AllEntriesStep(ver: VersionOps, sources: seq<(string, seq<Repo>)>,
                       installed: (string, Json) -> Option<Json>, c: nat, prefix: seq<map<string, Json>>)
    requires c < |sources| && AllEntries(ver, sources[..c], installed) == Ok(prefix)
    ensures AllEntries(ver, sources[..c + 1], installed)
            == match EntriesFor(ver, sources[c].0, sources[c].1, installed)
               case Err(e) => Err(e)
               case Ok(entries) => Ok(prefix + entries)
  {
    assert sources[..c + 1][..c] == sources[..c];
  }

  lemma {:induction false} AllEntriesErrorSticks(ver: VersionOps, sources: seq<(string, seq<Repo>)>,
                                                 installed: (string, Json) -> Option<Json>, n: nat)
    requires n <= |sources|
    requires AllEntries(ver, sources[..n], installed).Err?
    ensures AllEntries(ver, sources, installed) == AllEntries(ver, sources[..n], installed)
    decreases |sources| - n
  {
    if n < |sources| {
      assert sources[..n + 1][..n] == sources[..n];
      AllEntriesErrorSticks(ver, sources, installed, n + 1);
    } else {
      assert sources[..n] == sources;
    }
  }

  /** A repository whose manifest could not be fetched adds no entry: the
      entries are those of the other repositories. */
  lemma {:induction false} FailedFetchAddsNothing(ver: VersionOps, category: string, repos: seq<Repo>, name: string,
                                                   installed: (string, Json) -> Option<Json>)
    ensures EntriesFor(ver, category, repos + [Repo(name, None)], installed) == EntriesFor(ver, category, repos, installed)
  {
    assert (repos + [Repo(name, None)])[..|repos|] == repos;
  }
}
