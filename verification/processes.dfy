/** The background jobs: a `MonitorManga` job refreshes a manga from its
    plugin and queues one `MonitorChapter` job per newly seen chapter; a
    `MonitorChapter` job downloads a chapter into a `.cbz` archive and files
    it in the library. A job deletes itself when it succeeds and is stamped
    with the time of its last run when anything raises. */
module Processes {
  import opened PyValues
  import opened LockableFields
  import MangaModels
  import MangaUtils
  import ComicInfo
  import ProcessUtils

  // ---- Arguments normalisation ----

  const AllTemporal: set<TemporalKind> := {DateTimeKind, DateKind, TimeKind}

  /** `make_json_serializable`: datetimes, dates and times become their
      ISO text; dicts and lists are rebuilt around the converted values;
      everything else is returned as it is. */
  function MakeJsonSerializable(v: Json, b: Builtins): (r: Json)
    ensures ProcessUtils.SameShape(v, r, AllTemporal)
    ensures ProcessUtils.Free(r, AllTemporal)
    ensures ProcessUtils.Free(v, AllTemporal) ==> r == v
    ensures v.JTime? ==> r == JStr(b.isoFormat(v.t))
    decreases v
  {
    match v
    case JDict(f) =>
      var r := JDict(map k | k in f :: MakeJsonSerializable(f[k], b));
      assert ProcessUtils.Free(v, AllTemporal) ==> r.fields == f;
      r
    case JList(items) =>
      var r := JList(seq(|items|, i requires 0 <= i < |items| => MakeJsonSerializable(items[i], b)));
      assert ProcessUtils.Free(v, AllTemporal) ==> r.items == items;
      r
    case JTime(t) =>
      assert t.kind.DateTimeKind? || t.kind.DateKind? || t.kind.TimeKind?;
      JStr(b.isoFormat(t))
    case _ => v
  }

  /** What `ProcessBase.save` stores as a job's `arguments`. */
  function SerializeArguments(args: map<string, Json>, b: Builtins): (r: map<string, Json>)
    ensures r.Keys == args.Keys
    ensures forall k :: k in r ==> ProcessUtils.Free(r[k], AllTemporal) && ProcessUtils.SameShape(args[k], r[k], AllTemporal)
    ensures (forall k :: k in args ==> ProcessUtils.Free(args[k], AllTemporal)) ==> r == args
  {
    MakeJsonSerializable(JDict(args), b).fields
  }

  /** Saving a job twice stores the same arguments as saving it once. */
  lemma SerializeArgumentsIdempotent(args: map<string, Json>, b: Builtins)
    ensures SerializeArguments(SerializeArguments(args, b), b) == SerializeArguments(args, b)
  {
  }

  // ---- The store ----

  /** Times are seconds on one clock. */
  type Instant = int

  const HOUR: int := 3600
  const DAY: int := 24 * 3600

  /** A manga whose last update is more than a day old is due a refresh. */
  predicate Stale(lastUpdate: Instant, now: Instant) {
    lastUpdate < now - DAY
  }

  /** A job that never ran, or last ran more than an hour ago, may run. */
  predicate Eligible(lastRun: Option<Instant>, now: Instant) {
    lastRun.None? || lastRun.value < now - HOUR
  }

  datatype MangaJob = MangaJob(plugin: string, url: Json, lastRun: Option<Instant>, arguments: map<string, Json>)
  datatype ChapterJob = ChapterJob(plugin: string, url: Json, lastRun: Option<Instant>, arguments: map<string, Json>, manga: Json)

  /** A stored manga, keyed by its url. */
  datatype MangaRow = MangaRow(library: nat, lastUpdate: Instant, state: MangaModels.State, arguments: map<string, Json>)
  /** A stored volume: the manga it belongs to and its raw lockable fields. */
  datatype VolumeRow = VolumeRow(manga: Json, fields: map<string, Json>)
  /** A stored chapter, keyed by its url: its volume (an index into the
      volume table), fields, arguments, archive path and downloaded flag. */
  datatype ChapterRow = ChapterRow(volume: nat, state: MangaModels.State, arguments: map<string, Json>, file: string, downloaded: bool)

  type Bytes = seq<bv8>
  /** A zip archive: its members in the order they were written. */
  type Archive = seq<(string, Bytes)>

  /** The `except` branch of both jobs: `last_run = now`, then `save`. */
  function StampManga(j: MangaJob, now: Instant, b: Builtins): (r: MangaJob)
    ensures r.lastRun == Some(now) && !Eligible(r.lastRun, now)
    ensures r.plugin == j.plugin && r.url == j.url && r.arguments == SerializeArguments(j.arguments, b)
  {
    j.(lastRun := Some(now), arguments := SerializeArguments(j.arguments, b))
  }

  function StampChapter(j: ChapterJob, now: Instant, b: Builtins): (r: ChapterJob)
    ensures r.lastRun == Some(now) && !Eligible(r.lastRun, now)
    ensures r.plugin == j.plugin && r.url == j.url && r.manga == j.manga && r.arguments == SerializeArguments(j.arguments, b)
  {
    j.(lastRun := Some(now), arguments := SerializeArguments(j.arguments, b))
  }

  // ---- Manga refresh ----

  /** `manga.update_fields(data)` on a stored manga, as the job calls it:
      on success the new fields and merged arguments are saved; on a raise
      only the alternative-name rows already written survive. The update
      time is left as it was. */
  function MangaRefreshAsWritten(row: MangaRow, data: map<string, Json>, b: Builtins): (r: (MangaRow, Outcome))
    ensures r.1 == MangaModels.Run(MangaModels.MangaSteps(), row.state, data, false, b).1
    ensures r.0.library == row.library && r.0.lastUpdate == row.lastUpdate
    ensures r.1.Pass? ==> r.0.state == MangaModels.Run(MangaModels.MangaSteps(), row.state, data, false, b).0
    ensures r.1.Pass? ==> r.0.arguments == DictUpdate(row.arguments, data)
    ensures r.1.Fail? ==> r.0.state.fields == row.state.fields && r.0.arguments == row.arguments
  {
    var (st, o) := MangaModels.Run(MangaModels.MangaSteps(), row.state, data, false, b);
    if o.Pass? then (row.(state := st, arguments := DictUpdate(row.arguments, data)), Pass)
    else (row.(state := row.state.(links := st.links)), o)
  }

  /** The refresh with `update_last_update` after a successful update:
      a refreshed manga is no longer due. */
  function MangaRefresh(row: MangaRow, data: map<string, Json>, now: Instant, b: Builtins): (r: (MangaRow, Outcome))
    ensures r.1 == MangaRefreshAsWritten(row, data, b).1
    ensures r.1.Pass? ==> r.0 == MangaRefreshAsWritten(row, data, b).0.(lastUpdate := now)
    ensures r.1.Fail? ==> r.0 == MangaRefreshAsWritten(row, data, b).0
    ensures r.1.Pass? ==> !Stale(r.0.lastUpdate, now)
  {
    var (m, o) := MangaRefreshAsWritten(row, data, b);
    if o.Pass? then (m.(lastUpdate := now), o) else (m, o)
  }

  /** `process_exists`, on a store snapshot. EditChapter jobs are counted
      only. */
  predicate ProcessExists(mangas: map<Json, MangaRow>, mangaJobs: map<nat, MangaJob>, chapterJobs: map<nat, ChapterJob>, edits: nat, now: Instant) {
    || (exists u :: u in mangas && Stale(mangas[u].lastUpdate, now))
    || (exists k :: k in chapterJobs && Eligible(chapterJobs[k].lastRun, now))
    || (exists k :: k in mangaJobs && Eligible(mangaJobs[k].lastRun, now))
    || edits > 0
  }

  /** As written, a refresh never moves a manga's update time, so once a
      manga is a day old the store keeps reporting work: the monitor's
      inner loop cannot end by running out of work. */
  lemma StaleMangaStaysDue(mangas: map<Json, MangaRow>, u: Json, data: map<string, Json>, b: Builtins,
                           mangaJobs: map<nat, MangaJob>, chapterJobs: map<nat, ChapterJob>, edits: nat, now: Instant, later: Instant)
    requires u in mangas && Stale(mangas[u].lastUpdate, now) && later >= now
    ensures ProcessExists(mangas[u := MangaRefreshAsWritten(mangas[u], data, b).0], mangaJobs, chapterJobs, edits, later)
  {
    var after := mangas[u := MangaRefreshAsWritten(mangas[u], data, b).0];
    assert Stale(after[u].lastUpdate, later);
  }

  /** With the update time stamped, a successful refresh at `now` takes the
      manga out of the due set for the next day. */
  lemma RefreshedMangaNotDue(row: MangaRow, data: map<string, Json>, now: Instant, later: Instant, b: Builtins)
    requires MangaRefresh(row, data, now, b).1.Pass?
    requires now <= later <= now + DAY
    ensures !Stale(MangaRefresh(row, data, now, b).0.lastUpdate, later)
  {
  }

  // ---- Volume lookup ----

  /** A volume's number as the proxy reads it (default 0.0). */
  function VolumeNumber(v: VolumeRow): Json {
    DictGet(GetData(if "number" in v.fields then Some(v.fields["number"]) else None, JFloat(0.0)), "value")
  }

  /** Whether volume `v` is the manga's volume with number `n`. */
  predicate VolumeMatches(v: VolumeRow, manga: Json, n: Json) {
    v.manga == manga && PyEq(VolumeNumber(v), n)
  }

  /** The first matching volume at or after `from`, in table order. */
  function FirstVolume(vs: seq<VolumeRow>, manga: Json, n: Json, from: nat): (r: Option<nat>)
    requires from <= |vs|
    ensures r.Some? ==> from <= r.value < |vs| && VolumeMatches(vs[r.value], manga, n)
    ensures r.Some? ==> forall j :: from <= j < r.value ==> !VolumeMatches(vs[j], manga, n)
    ensures r.None? <==> forall j :: from <= j < |vs| ==> !VolumeMatches(vs[j], manga, n)
    decreases |vs| - from
  {
    if from == |vs| then None
    else if VolumeMatches(vs[from], manga, n) then Some(from)
    else FirstVolume(vs, manga, n, from + 1)
  }

  /** A volume that does not match is passed over. */
  lemma FirstVolumeSkips(vs: seq<VolumeRow>, manga: Json, n: Json, from: nat)
    requires from < |vs| && !VolumeMatches(vs[from], manga, n)
    ensures FirstVolume(vs, manga, n, from) == FirstVolume(vs, manga, n, from + 1)
  {
  }

  /** A volume created for the manga with nothing set: its number reads
      as the default 0.0. */
  function BlankVolume(manga: Json): (v: VolumeRow)
    ensures v.manga == manga && VolumeNumber(v) == JFloat(0.0)
  {
    VolumeRow(manga, map[])
  }

  /** The lookup as written: the first volume of the manga with an equal
      number is reused; a missing volume is created, and the number is then
      set on the in-memory object only, so the stored row keeps 0.0. */
  function FindOrCreateVolumeAsWritten(vs: seq<VolumeRow>, manga: Json, n: Json): (r: (seq<VolumeRow>, nat))
    ensures r.1 < |r.0| && r.0[r.1].manga == manga
    ensures |vs| <= |r.0| <= |vs| + 1 && r.0[..|vs|] == vs
    ensures FirstVolume(vs, manga, n, 0).Some? <==> r.0 == vs
    ensures FirstVolume(vs, manga, n, 0).Some? ==> r.1 == FirstVolume(vs, manga, n, 0).value && VolumeMatches(r.0[r.1], manga, n)
    ensures FirstVolume(vs, manga, n, 0).None? ==> r.0 == vs + [BlankVolume(manga)] && r.1 == |vs| && VolumeNumber(r.0[r.1]) == JFloat(0.0)
  {
    match FirstVolume(vs, manga, n, 0)
    case Some(i) => (vs, i)
    case None => (vs + [BlankVolume(manga)], |vs|)
  }

  /** Two chapters of volume 2 in a row: the second does not find the
      volume the first created, and a second volume is created. */
  lemma UnsavedNumberDuplicatesVolume(manga: Json)
    ensures var (vs1, i1) := FindOrCreateVolumeAsWritten([], manga, JFloat(2.0));
            var (vs2, i2) := FindOrCreateVolumeAsWritten(vs1, manga, JFloat(2.0));
            |vs2| == 2 && i1 != i2
  {
    var (vs1, i1) := FindOrCreateVolumeAsWritten([], manga, JFloat(2.0));
    assert VolumeNumber(vs1[0]) == JFloat(0.0);
    assert !VolumeMatches(vs1[0], manga, JFloat(2.0));
  }

  /** The volume object the chapter holds after the lookup as written:
      the stored volume that matched, or else the object `create` returned,
      whose number was set in memory only. `get_file_name` reads this
      object, so a new volume names the archive with the job's number even
      though its stored row reads 0.0. */
  function HeldVolume(vs: seq<VolumeRow>, manga: Json, n: Json): (v: VolumeRow)
    ensures VolumeMatches(v, manga, n)
    ensures FirstVolume(vs, manga, n, 0).Some? ==> v == vs[FirstVolume(vs, manga, n, 0).value]
    ensures FirstVolume(vs, manga, n, 0).None? ==> v.manga == manga && VolumeNumber(v) == n
    ensures FirstVolume(vs, manga, n, 0).None? ==> v != FindOrCreateVolumeAsWritten(vs, manga, n).0[FindOrCreateVolumeAsWritten(vs, manga, n).1]
  {
    match FirstVolume(vs, manga, n, 0)
    case Some(i) => vs[i]
    case None => NumberedVolume(manga, n)
  }

  /** A volume created for the manga and saved with number `n`. */
  function NumberedVolume(manga: Json, n: Json): (v: VolumeRow)
    ensures VolumeNumber(v) == n && VolumeMatches(v, manga, n)
  {
    VolumeRow(manga, map["number" := JDict(Wrap(n))])
  }

  /** The lookup with the new volume saved after its number is set. */
  function FindOrCreateVolume(vs: seq<VolumeRow>, manga: Json, n: Json): (r: (seq<VolumeRow>, nat))
    ensures r.1 < |r.0| && VolumeMatches(r.0[r.1], manga, n)
    ensures |vs| <= |r.0| <= |vs| + 1 && r.0[..|vs|] == vs
    ensures FirstVolume(vs, manga, n, 0).Some? ==> r == (vs, FirstVolume(vs, manga, n, 0).value)
    ensures FirstVolume(vs, manga, n, 0).None? ==> r == (vs + [NumberedVolume(manga, n)], |vs|)
  {
    match FirstVolume(vs, manga, n, 0)
    case Some(i) => (vs, i)
    case None => (vs + [NumberedVolume(manga, n)], |vs|)
  }

  /** Looking the same number up again finds the volume the first lookup
      returned, and creates nothing. */
  lemma FindOrCreateVolumeReuses(vs: seq<VolumeRow>, manga: Json, n: Json)
    ensures var (vs1, i1) := FindOrCreateVolume(vs, manga, n);
            FindOrCreateVolume(vs1, manga, n) == (vs1, i1)
  {
    var (vs1, i1) := FindOrCreateVolume(vs, manga, n);
    if FirstVolume(vs, manga, n, 0).None? {
      assert forall j :: 0 <= j < |vs| ==> vs1[j] == vs[j];
      assert FirstVolume(vs1, manga, n, 0) == Some(|vs|);
    } else {
      assert vs1 == vs;
    }
  }

  // ---- Page names ----

  function Zeros(k: nat): (s: string)
    ensures |s| == k && forall i :: 0 <= i < k ==> s[i] == '0'
  {
    if k == 0 then [] else Zeros(k - 1) + ['0']
  }

  /** `f"{n:0{width}}"`: the decimal digits of `n`, zero-filled on the left
      to at least `width` characters. */
  function Padded(n: nat, width: nat): (s: string)
    ensures forall i :: 0 <= i < |s| ==> '0' <= s[i] <= '9'
    ensures |s| == if |Digits(n)| < width then width else |Digits(n)|
  {
    if |Digits(n)| < width then Zeros(width - |Digits(n)|) + Digits(n) else Digits(n)
  }

  /** The archive member name of page `i` (counted from 1) of `n`. */
  function PageName(i: nat, n: nat): (r: string)
    ensures |r| >= 4 && r[|r| - 4..] == ".png"
    ensures forall k :: 0 <= k < |r| - 4 ==> '0' <= r[k] <= '9'
    ensures ParseDigits(r[..|r| - 4]) == i
  {
    PaddedRoundTrip(i, |Digits(n)|);
    var p := Padded(i, |Digits(n)|);
    assert (p + ".png")[..|p|] == p;
    p + ".png"
  }

  /** The member names of an archive of `n` pages, in writing order. */
  function PageNames(n: nat): (r: seq<string>)
    ensures |r| == n && forall i :: 0 <= i < n ==> r[i] == PageName(i + 1, n)
  {
    seq(n, i requires 0 <= i < n => PageName(i + 1, n))
  }

  lemma {:induction false} ParseLeadingZero(s: string)
    requires forall i :: 0 <= i < |s| ==> '0' <= s[i] <= '9'
    ensures ParseDigits("0" + s) == ParseDigits(s)
    decreases |s|
  {
    if s != [] {
      var t := "0" + s;
      assert t[..|t| - 1] == "0" + s[..|s| - 1];
      ParseLeadingZero(s[..|s| - 1]);
    }
  }

  lemma {:induction false} ParseZeros(k: nat, s: string)
    requires forall i :: 0 <= i < |s| ==> '0' <= s[i] <= '9'
    ensures ParseDigits(Zeros(k) + s) == ParseDigits(s)
    decreases k
  {
    if k > 0 {
      assert Zeros(k) + s == Zeros(k - 1) + ("0" + s);
      ParseZeros(k - 1, "0" + s);
      ParseLeadingZero(s);
      calc {
        ParseDigits(Zeros(k) + s);
        ParseDigits(Zeros(k - 1) + ("0" + s));
        ParseDigits("0" + s);
        ParseDigits(s);
      }
    } else {
      assert Zeros(k) + s == s;
    }
  }

  /** `int` of a padded number is the number. */
  lemma PaddedRoundTrip(n: nat, width: nat)
    ensures ParseDigits(Padded(n, width)) == n
  {
    DigitsRoundTrip(n);
    if |Digits(n)| < width {
      ParseZeros(width - |Digits(n)|, Digits(n));
    }
  }

  lemma {:induction false} DigitsMonotone(i: nat, n: nat)
    requires i <= n
    ensures |Digits(i)| <= |Digits(n)|
    decreases n
  {
    if i >= 10 {
      DigitsMonotone(i / 10, n / 10);
    }
  }

  /** Every page of an archive of `n` pages gets a name of the same length:
      exactly as many digits as `n` has, then `.png`. */
  lemma PageNameWidth(i: nat, n: nat)
    requires 1 <= i <= n
    ensures |PageName(i, n)| == |Digits(n)| + 4
  {
    DigitsMonotone(i, n);
  }

  /** Different pages get different names, and the name gives the page
      number back. */
  lemma PageNamesDistinct(i: nat, j: nat, n: nat)
    requires 1 <= i <= n && 1 <= j <= n && i != j
    ensures PageName(i, n) != PageName(j, n)
  {
    PaddedRoundTrip(i, |Digits(n)|);
    PaddedRoundTrip(j, |Digits(n)|);
    PageNameWidth(i, n);
    PageNameWidth(j, n);
    var w := |Digits(n)|;
    assert Padded(i, w) == PageName(i, n)[..w];
    assert Padded(j, w) == PageName(j, n)[..w];
  }

  // ---- Configuration and plugin inputs ----

  /** The chapter's enum classes and default members, the blocks of
      `Chapter.update_fields` built from them, the library and cache
      roots, and `str` for the numbers and urls put into paths. */
  datatype Config = Config(formats: EnumClass, ageRatings: EnumClass, formatDefault: nat, ageDefault: nat,
                           chapterSteps: seq<MangaModels.Step>, fileRoot: string, cacheRoot: string, show: Json -> string)

  /** The configuration the application runs with: the chapter blocks are
      built from its enum classes. */
  function MakeConfig(formats: EnumClass, ageRatings: EnumClass, formatDefault: nat, ageDefault: nat,
                      fileRoot: string, cacheRoot: string, show: Json -> string): (cfg: Config)
    requires |formats.values| > 0 && |ageRatings.values| > 0
    ensures cfg.chapterSteps == MangaModels.ChapterSteps(formats, ageRatings, formatDefault, ageDefault)
    ensures cfg.fileRoot == fileRoot && cfg.cacheRoot == cacheRoot
  {
    Config(formats, ageRatings, formatDefault, ageDefault,
           MangaModels.ChapterSteps(formats, ageRatings, formatDefault, ageDefault), fileRoot, cacheRoot, show)
  }

  /** A chapter's number as the proxy reads it (default 1.0). */
  function ChapterNumber(st: MangaModels.State): Json {
    DictGet(GetData(MangaModels.Raw(st, "number"), JFloat(1.0)), "value")
  }

  /** A manga's name as the proxy reads it (default ""). */
  function MangaName(st: MangaModels.State): Json {
    DictGet(GetData(MangaModels.Raw(st, "name"), JStr("")), "value")
  }

  /** `chapter_cache_file_path_name`: named after the hash of plugin,
      manga name and job url. */
  function CachePath(cfg: Config, job: ChapterJob, name: Json, b: Builtins): (r: string)
    ensures |r| >= |cfg.cacheRoot| + 5
    ensures r[..|cfg.cacheRoot| + 1] == cfg.cacheRoot + "/" && r[|r| - 4..] == ".cbz"
  {
    cfg.cacheRoot + "/" + b.sha256(job.plugin + " " + cfg.show(name) + " " + cfg.show(job.url)) + ".cbz"
  }

  /** `FILE_PATH_ROOT / make_valid_filename(name) / chapter.get_file_name()`:
      the archive sits directly in the manga's folder under the library
      root, since neither the folder nor the file name holds a separator. */
  function LibraryPath(cfg: Config, name: string, volume: Json, chapter: Json): (r: string)
    ensures var folder := cfg.fileRoot + "/" + MangaUtils.MakeValidFilename(name, "_");
            |folder| < |r| && r[..|folder| + 1] == folder + "/" && |r| - |folder| - 1 <= MangaUtils.MAX_FILENAME_LENGTH
    ensures forall i :: |cfg.fileRoot| < i < |r| && r[i] == '/' ==>
              i == |cfg.fileRoot| + 1 + |MangaUtils.MakeValidFilename(name, "_")|
  {
    var folder := MangaUtils.MakeValidFilename(name, "_");
    var file := ComicInfo.FileName(name, volume, chapter, cfg.show);
    MangaUtils.UnderscoreIsValid(name);
    assert MangaUtils.IsInvalid('/');
    OneSeparatorAfterRoot(cfg.fileRoot, folder, file);
    cfg.fileRoot + "/" + folder + "/" + file
  }

  /** A path joined from a root, a folder and a file, neither of which holds
      a separator, has only the joining separator after the root. */
  lemma OneSeparatorAfterRoot(root: string, folder: string, file: string)
    requires forall i :: 0 <= i < |folder| ==> folder[i] != '/'
    requires forall i :: 0 <= i < |file| ==> file[i] != '/'
    ensures var path := root + "/" + folder + "/" + file;
            path[..|root| + |folder| + 2] == root + "/" + folder + "/"
            && forall i :: |root| < i < |path| && path[i] == '/' ==> i == |root| + 1 + |folder|
  {
    var head := root + "/" + folder + "/";
    var path := head + file;
    assert path[..|head|] == head;
    assert forall i :: |root| < i < |head| - 1 ==> path[i] == folder[i - |root| - 1];
    assert forall i :: |head| <= i < |path| ==> path[i] == file[i - |head|];
  }

  /** The cache file and the library path of a chapter archive, from the
      manga's name and the volume and chapter numbers; `make_valid_filename`
      of a name that is not text raises. */
  function ChapterPaths(cfg: Config, job: ChapterJob, manga: MangaRow, volume: VolumeRow, chapter: ChapterRow, b: Builtins): (r: (string, Result<string>))
    ensures r.0 == CachePath(cfg, job, MangaName(manga.state), b)
    ensures r.1.Err? <==> !MangaName(manga.state).JStr?
    ensures r.1.Ok? ==> r.1.value == LibraryPath(cfg, MangaName(manga.state).s, VolumeNumber(volume), ChapterNumber(chapter.state))
  {
    var name := MangaName(manga.state);
    (CachePath(cfg, job, name, b),
     if name.JStr? then Ok(LibraryPath(cfg, name.s, VolumeNumber(volume), ChapterNumber(chapter.state))) else Err(TypeError))
  }

  function MemberNames(a: Archive): (r: seq<string>)
    ensures |r| == |a| && forall i :: 0 <= i < |a| ==> r[i] == a[i].0
  {
    seq(|a|, i requires 0 <= i < |a| => a[i].0)
  }

  /** A chapter job is tracked for this url and manga. */
  predicate Tracked(jobs: map<nat, ChapterJob>, url: Json, manga: Json) {
    exists k :: k in jobs && jobs[k].url == url && jobs[k].manga == manga
  }

  /** The url is already taken by a chapter job of another manga. */
  predicate ClaimedElsewhere(jobs: map<nat, ChapterJob>, url: Json, manga: Json) {
    exists k :: k in jobs && jobs[k].url == url && jobs[k].manga != manga
  }

  /** A job created for one of the found chapters. */
  predicate Discovered(j: ChapterJob, found: seq<map<string, Json>>, plugin: string, manga: Json, b: Builtins) {
    && j.plugin == plugin && j.manga == manga && j.lastRun.None?
    && exists i :: 0 <= i < |found| && DictGet(found[i], "url") != JNone && j.url == DictGet(found[i], "url")
                   && j.arguments == SerializeArguments(found[i], b)
  }

  predicate KeysBelow(jobs: map<nat, ChapterJob>, next: nat) {
    forall k :: k in jobs ==> k < next
  }

  /** With unique urls, the job holding a url is the only one: the url is
      tracked for its manga and claimed by no other. */
  lemma HolderIsOnly(jobs: map<nat, ChapterJob>, k: nat, manga: Json)
    requires UniqueUrls(jobs) && k in jobs && jobs[k].manga == manga
    ensures Tracked(jobs, jobs[k].url, manga)
    ensures !ClaimedElsewhere(jobs, jobs[k].url, manga)
  {
  }

  /** A job with a url nobody holds, stored under the next key, keeps the
      keys below the counter and the urls unique, and tracks its url. */
  lemma InsertFresh(jobs: map<nat, ChapterJob>, next: nat, job: ChapterJob)
    requires KeysBelow(jobs, next) && UniqueUrls(jobs)
    requires forall j :: j in jobs ==> jobs[j].url != job.url
    ensures next !in jobs
    ensures KeysBelow(jobs[next := job], next + 1) && UniqueUrls(jobs[next := job])
    ensures Tracked(jobs[next := job], job.url, job.manga)
    ensures !ClaimedElsewhere(jobs, job.url, job.manga)
  {
    assert jobs[next := job][next] == job;
  }

  /** The unique `url` of the job table. */
  predicate UniqueUrls(jobs: map<nat, ChapterJob>) {
    forall a, c :: a in jobs && c in jobs && a != c ==> jobs[a].url != jobs[c].url
  }

  predicate MangasKnown(jobs: map<nat, ChapterJob>, mangas: map<Json, MangaRow>) {
    forall k :: k in jobs ==> jobs[k].manga in mangas
  }

  /** Chapter jobs queued for a stored manga keep every job's manga stored. */
  lemma QueuedKnown(before: map<nat, ChapterJob>, after: map<nat, ChapterJob>, mangas: map<Json, MangaRow>,
                    found: seq<map<string, Json>>, plugin: string, manga: Json, b: Builtins)
    requires MangasKnown(before, mangas) && manga in mangas
    requires forall k :: k in before ==> k in after && after[k] == before[k]
    requires forall k :: k in after && k !in before ==> Discovered(after[k], found, plugin, manga, b)
    ensures MangasKnown(after, mangas)
  {
  }

  predicate VolumesKnown(chapters: map<Json, ChapterRow>, count: nat) {
    forall u :: u in chapters ==> chapters[u].volume < count
  }

  /** The stored mangas, keyed by url. */
  class MangaTable {
    var rows: map<Json, MangaRow>

    constructor (rows: map<Json, MangaRow>)
      ensures this.rows == rows
    {
      this.rows := rows;
    }

    /** The refresh step of `MonitorManga.update`: see `RefreshSpec`. */
    method Refresh(job: MangaJob, data: map<string, Json>, b: Builtins) returns (o: Outcome)
      modifies this
      ensures (rows, o) == RefreshSpec(old(rows), job, data, b)
    {
      var u := DictGet(data, "url");
      if u !in rows {
        return Fail(IntegrityError);
      }
      var (row, outcome) := MangaRefreshAsWritten(rows[u], DictUpdate(job.arguments, data), b);
      rows := rows[u := row];
      o := outcome;
    }
  }

  /** The `MonitorManga` jobs. */
  class MangaJobTable {
    var jobs: map<nat, MangaJob>

    constructor (jobs: map<nat, MangaJob>)
      ensures this.jobs == jobs
    {
      this.jobs := jobs;
    }
  }

  /** The `MonitorChapter` jobs, with the next primary key to hand out. */
  class ChapterJobTable {
    var jobs: map<nat, ChapterJob>
    var nextPk: nat

    ghost predicate Valid()
      reads this
    {
      KeysBelow(jobs, nextPk) && UniqueUrls(jobs)
    }

    constructor ()
      ensures Valid() && jobs == map[]
    {
      jobs := map[];
      nextPk := 0;
    }

    /** One chapter of the loop in `MonitorManga.update`: a chapter
        without a url is skipped; otherwise `get_or_create(url, manga)`
        finds the job tracking it for this manga, or creates one with the
        job's plugin and the chapter dict as arguments. A url tracked for
        another manga violates the unique url. */
    method AddChapterJob(c: map<string, Json>, plugin: string, manga: Json, b: Builtins) returns (r: Outcome)
      requires Valid()
      modifies this
      ensures Valid()
      ensures forall k :: k in old(jobs) ==> k in jobs && jobs[k] == old(jobs)[k]
      ensures forall k :: k in jobs && k !in old(jobs) ==> jobs[k] == NewChapterJob(c, plugin, manga, b)
      ensures DictGet(c, "url") == JNone ==> r == Pass && jobs == old(jobs)
      ensures r.Fail? <==> DictGet(c, "url") != JNone && ClaimedElsewhere(old(jobs), DictGet(c, "url"), manga)
      ensures r.Fail? ==> r.error == IntegrityError
      ensures r.Pass? && DictGet(c, "url") != JNone ==> Tracked(jobs, DictGet(c, "url"), manga)
    {
      var url := DictGet(c, "url");
      if url == JNone {
        return Pass;
      }
      var holder := Holder(url);
      if holder.Some? {
        if jobs[holder.value].manga != manga {
          return Fail(IntegrityError);
        }
        HolderIsOnly(jobs, holder.value, manga);
        return Pass;
      }
      var job := NewChapterJob(c, plugin, manga, b);
      InsertFresh(jobs, nextPk, job);
      jobs := jobs[nextPk := job];
      nextPk := nextPk + 1;
      r := Pass;
    }

    /** `ChapterJob.objects.filter(url=url)`: the job holding the url. */
    method Holder(url: Json) returns (k: Option<nat>)
      ensures k.Some? ==> k.value in jobs && jobs[k.value].url == url
      ensures k.None? ==> forall j :: j in jobs ==> jobs[j].url != url
    {
      if j :| j in jobs && jobs[j].url == url {
        k := Some(j);
      } else {
        k := None;
      }
    }

    /** The chapter loop of `MonitorManga.update`, up to the first raise. */
    method AddChapterJobs(found: seq<map<string, Json>>, plugin: string, manga: Json, b: Builtins) returns (r: Outcome)
      requires Valid()
      modifies this
      ensures Valid()
      ensures forall k :: k in old(jobs) ==> k in jobs && jobs[k] == old(jobs)[k]
      ensures forall k :: k in jobs && k !in old(jobs) ==> Discovered(jobs[k], found, plugin, manga, b)
      ensures r.Fail? <==> exists i :: 0 <= i < |found| && DictGet(found[i], "url") != JNone && ClaimedElsewhere(old(jobs), DictGet(found[i], "url"), manga)
      ensures r.Fail? ==> r.error == IntegrityError
      ensures r.Pass? ==> forall i :: 0 <= i < |found| && DictGet(found[i], "url") != JNone ==> Tracked(jobs, DictGet(found[i], "url"), manga)
    {
      var i := 0;
      while i < |found|
        invariant 0 <= i <= |found|
        invariant Valid()
        invariant QueuedUpTo(old(jobs), jobs, found, i, plugin, manga, b)
      {
        ghost var before := jobs;
        var o := AddChapterJob(found[i], plugin, manga, b);
        if o.Fail? {
          QueuedFailure(old(jobs), before, found, i, plugin, manga, b);
          return o;
        }
        QueuedStep(old(jobs), before, jobs, found, i, plugin, manga, b);
        i := i + 1;
      }
      r := Pass;
    }
  }

  /** The stored volumes, in table order. */
  class VolumeTable {
    var rows: seq<VolumeRow>

    constructor (rows: seq<VolumeRow>)
      ensures this.rows == rows
    {
      this.rows := rows;
    }

    /** The volume loop of `MonitorChapter.update`: the first volume of the
        manga with an equal number, or a new blank one for the manga (its
        number is never saved). */
    method Locate(manga: Json, n: Json) returns (vi: nat)
      modifies this
      ensures (rows, vi) == FindOrCreateVolumeAsWritten(old(rows), manga, n)
    {
      var found := Find(manga, n);
      if found.None? {
        vi := |rows|;
        rows := rows + [BlankVolume(manga)];
      } else {
        vi := found.value;
      }
    }

    /** The scan of the volume loop: the first matching volume, if any. */
    method Find(manga: Json, n: Json) returns (found: Option<nat>)
      ensures found == FirstVolume(rows, manga, n, 0)
    {
      var i := 0;
      while i < |rows| && !VolumeMatches(rows[i], manga, n)
        invariant 0 <= i <= |rows|
        invariant FirstVolume(rows, manga, n, 0) == FirstVolume(rows, manga, n, i)
      {
        FirstVolumeSkips(rows, manga, n, i);
        i := i + 1;
      }
      found := if i == |rows| then None else Some(i);
    }
  }

  /** The stored chapters, keyed by url. */
  class ChapterTable {
    var rows: map<Json, ChapterRow>

    constructor (rows: map<Json, ChapterRow>)
      ensures this.rows == rows
    {
      this.rows := rows;
    }

    /** `Chapter.objects.get_or_create(url=url, volume=volume)`: the chapter
        with this url in this volume, or a new one. A missing url and a url
        stored under another volume both break a constraint. */
    method GetOrCreate(url: Json, volume: nat) returns (r: Result<ChapterRow>)
      modifies this
      ensures url == JNone ==> r == Err(IntegrityError) && rows == old(rows)
      ensures url != JNone && url in old(rows) && old(rows)[url].volume == volume ==> r == Ok(old(rows)[url]) && rows == old(rows)
      ensures url != JNone && url in old(rows) && old(rows)[url].volume != volume ==> r == Err(IntegrityError) && rows == old(rows)
      ensures url != JNone && url !in old(rows) ==> r == Ok(BlankChapter(volume)) && rows == old(rows)[url := BlankChapter(volume)]
    {
      if url == JNone {
        return Err(IntegrityError);
      }
      if url in rows {
        if rows[url].volume == volume {
          return Ok(rows[url]);
        }
        return Err(IntegrityError);
      }
      rows := rows[url := BlankChapter(volume)];
      r := Ok(BlankChapter(volume));
    }

    /** `chapter.update_fields(...)` on the stored chapter at `url`: saved
        when every block ran, left as it was when one raised. */
    method Update(url: Json, job: ChapterJob, cfg: Config, b: Builtins) returns (o: Outcome)
      requires url in rows
      modifies this
      ensures o == ChapterUpdate(old(rows)[url], job, cfg, b).1
      ensures o.Pass? ==> rows == old(rows)[url := ChapterUpdate(old(rows)[url], job, cfg, b).0]
      ensures o.Fail? ==> rows == old(rows)
    {
      var (row, outcome) := ChapterUpdate(rows[url], job, cfg, b);
      o := outcome;
      if o.Pass? {
        rows := rows[url := row];
      }
    }

    /** `chapter.save()`. */
    method Save(url: Json, row: ChapterRow)
      modifies this
      ensures rows == old(rows)[url := row]
    {
      rows := rows[url := row];
    }
  }

  /** The cache and library folders: archives by path. */
  class Disk {
    var files: map<string, Archive>

    constructor (files: map<string, Archive>)
      ensures this.files == files
    {
      this.files := files;
    }

    /** The zip writing of `MonitorChapter.update`: each page is downloaded
        and written as `PageName(i + 1, n)`, then `ComicInfo.xml`. A raise
        leaves the members written so far in the cache file. */
    method WriteArchive(cache: string, pages: seq<map<string, Json>>, download: (Json, Json) -> Result<Bytes>, xml: Result<Bytes>)
      returns (r: Outcome)
      modifies this
      ensures cache in files && files == old(files)[cache := files[cache]]
      ensures |files[cache]| <= |pages| + 1
      ensures PagesWritten(files[cache], pages, download)
      ensures r.Pass? <==> |files[cache]| == |pages| + 1
      ensures r.Pass? ==> xml.Ok? && Packed(files[cache], pages, download, xml.value)
    {
      var written: Archive := [];
      var i := 0;
      while i < |pages|
        invariant 0 <= i <= |pages| && |written| == i
        invariant files == old(files)
        invariant PagesWritten(written, pages, download)
      {
        if "url" !in pages[i] {
          files := files[cache := written];
          return Fail(KeyError);
        }
        var page := download(pages[i]["url"], PageArguments(pages[i]));
        if page.Err? {
          files := files[cache := written];
          return Fail(page.error);
        }
        PagesWrittenStep(written, pages, download, page.value);
        written := written + [(PageName(i + 1, |pages|), page.value)];
        i := i + 1;
      }
      if xml.Err? {
        files := files[cache := written];
        return Fail(xml.error);
      }
      PackedStep(written, pages, download, xml.value);
      files := files[cache := written + [("ComicInfo.xml", xml.value)]];
      r := Pass;
    }

    /** `shutil.move(src, dst)` of the finished archive. */
    method Move(src: string, dst: string)
      requires src in files
      modifies this
      ensures files == (old(files) - {src})[dst := old(files)[src]]
    {
      files := (files - {src})[dst := files[src]];
    }
  }

  /** The tables the jobs work on. */
  class Store {
    const mangas: MangaTable
    const mangaJobs: MangaJobTable
    const chapterJobs: ChapterJobTable
    const volumes: VolumeTable
    const chapters: ChapterTable
    const disk: Disk

    /** Job keys and urls are sound, a chapter job names a stored manga, and
        a chapter a stored volume. */
    ghost predicate Valid()
      reads this, mangas, chapterJobs, volumes, chapters
    {
      && chapterJobs.Valid()
      && MangasKnown(chapterJobs.jobs, mangas.rows)
      && VolumesKnown(chapters.rows, |volumes.rows|)
    }

    constructor ()
      ensures Valid() && fresh(mangas) && fresh(mangaJobs) && fresh(chapterJobs) && fresh(volumes) && fresh(chapters) && fresh(disk)
    {
      mangas := new MangaTable(map[]);
      mangaJobs := new MangaJobTable(map[]);
      chapterJobs := new ChapterJobTable();
      volumes := new VolumeTable([]);
      chapters := new ChapterTable(map[]);
      disk := new Disk(map[]);
    }

    /** The body of `MonitorManga.update` up to the deletion: refresh the
        manga the plugin data names, then queue its chapters. */
    method RefreshAndQueue(job: MangaJob, mangaData: Result<map<string, Json>>, found: Result<seq<map<string, Json>>>, b: Builtins)
      returns (r: Outcome)
      requires Valid()
      modifies mangas, chapterJobs
      ensures Valid()
      ensures mangas.rows.Keys == old(mangas.rows).Keys
      ensures forall k :: k in old(chapterJobs.jobs) ==> k in chapterJobs.jobs && chapterJobs.jobs[k] == old(chapterJobs.jobs)[k]
      ensures mangaData.Err? ==> r == Fail(mangaData.error) && mangas.rows == old(mangas.rows) && chapterJobs.jobs == old(chapterJobs.jobs)
      ensures mangaData.Ok? ==> mangas.rows == RefreshSpec(old(mangas.rows), job, mangaData.value, b).0
      ensures mangaData.Ok? && RefreshSpec(old(mangas.rows), job, mangaData.value, b).1.Fail? ==>
                r == RefreshSpec(old(mangas.rows), job, mangaData.value, b).1 && chapterJobs.jobs == old(chapterJobs.jobs)
      ensures r.Pass? ==> mangaData.Ok? && found.Ok? && RefreshSpec(old(mangas.rows), job, mangaData.value, b).1.Pass?
      ensures r.Pass? ==> forall k :: k in chapterJobs.jobs && k !in old(chapterJobs.jobs) ==>
                Discovered(chapterJobs.jobs[k], found.value, job.plugin, DictGet(mangaData.value, "url"), b)
      ensures r.Pass? ==> forall i :: 0 <= i < |found.value| && DictGet(found.value[i], "url") != JNone ==>
                Tracked(chapterJobs.jobs, DictGet(found.value[i], "url"), DictGet(mangaData.value, "url"))
    {
      if mangaData.Err? {
        return Fail(mangaData.error);
      }
      var o := mangas.Refresh(job, mangaData.value, b);
      assert MangasKnown(chapterJobs.jobs, mangas.rows);
      if o.Fail? {
        return o;
      }
      if found.Err? {
        return Fail(found.error);
      }
      var url := DictGet(mangaData.value, "url");
      assert url in mangas.rows;
      ghost var queued := chapterJobs.jobs;
      r := chapterJobs.AddChapterJobs(found.value, job.plugin, url, b);
      QueuedKnown(queued, chapterJobs.jobs, mangas.rows, found.value, job.plugin, url, b);
    }

    /** `MonitorManga.update`: `mangaData` and `found` are what the
        plugin's `get_manga` and `get_chapters` return or raise. The job
        deletes itself when everything succeeded; on any raise it stays,
        stamped with `now`. */
    method RunMangaJob(pk: nat, now: Instant, mangaData: Result<map<string, Json>>, found: Result<seq<map<string, Json>>>, b: Builtins) returns (r: Outcome)
      requires Valid() && pk in mangaJobs.jobs
      modifies mangas, mangaJobs, chapterJobs
      ensures Valid()
      ensures r.Pass? ==> mangaJobs.jobs == old(mangaJobs.jobs) - {pk}
      ensures r.Fail? ==> mangaJobs.jobs == old(mangaJobs.jobs)[pk := StampManga(old(mangaJobs.jobs)[pk], now, b)]
      ensures mangas.rows.Keys == old(mangas.rows).Keys
      ensures forall k :: k in old(chapterJobs.jobs) ==> k in chapterJobs.jobs && chapterJobs.jobs[k] == old(chapterJobs.jobs)[k]
      ensures r.Pass? ==> mangaData.Ok? && found.Ok? && DictGet(mangaData.value, "url") in old(mangas.rows)
      ensures mangaData.Err? ==> mangas.rows == old(mangas.rows) && chapterJobs.jobs == old(chapterJobs.jobs)
      ensures mangaData.Ok? ==> mangas.rows == RefreshSpec(old(mangas.rows), old(mangaJobs.jobs)[pk], mangaData.value, b).0
      ensures r.Pass? ==> RefreshSpec(old(mangas.rows), old(mangaJobs.jobs)[pk], mangaData.value, b).1.Pass?
      ensures r.Pass? ==> forall k :: k in chapterJobs.jobs && k !in old(chapterJobs.jobs) ==>
                Discovered(chapterJobs.jobs[k], found.value, old(mangaJobs.jobs)[pk].plugin, DictGet(mangaData.value, "url"), b)
      ensures r.Pass? ==> forall i :: 0 <= i < |found.value| && DictGet(found.value[i], "url") != JNone ==>
                Tracked(chapterJobs.jobs, DictGet(found.value[i], "url"), DictGet(mangaData.value, "url"))
    {
      var job := mangaJobs.jobs[pk];
      r := RefreshAndQueue(job, mangaData, found, b);
      if r.Pass? {
        mangaJobs.jobs := mangaJobs.jobs - {pk};
      } else {
        mangaJobs.jobs := mangaJobs.jobs[pk := StampManga(job, now, b)];
      }
    }

    /** The first half of `MonitorChapter.update`. The volume number
        defaults to 1.0 and goes through `float`; the volume is found or
        created; the chapter is found or created in it and updated from the
        job's arguments. Returns the volume's index. */
    method Place(job: ChapterJob, cfg: Config, b: Builtins) returns (r: Result<nat>)
      requires VolumesKnown(chapters.rows, |volumes.rows|)
      modifies volumes, chapters
      ensures VolumesKnown(chapters.rows, |volumes.rows|)
      ensures VolumePlaced(old(volumes.rows), volumes.rows, job, b)
      ensures ChapterVolumeNumber(job, b).Err? ==> r == Err(ChapterVolumeNumber(job, b).error)
      ensures OnlyChapterChanged(old(chapters.rows), chapters.rows, DictGet(job.arguments, "url"))
      ensures r.Ok? ==> InVolume(chapters.rows, old(volumes.rows), DictGet(job.arguments, "url"), job, b)
      ensures r.Ok? ==> var url := DictGet(job.arguments, "url");
                url in chapters.rows && chapters.rows[url].volume == r.value
                && Updated(old(chapters.rows), chapters.rows, url, r.value, job, cfg, b)
    {
      var vn := ChapterVolumeNumber(job, b);
      if vn.Err? {
        return Err(vn.error);
      }
      var vi := volumes.Locate(job.manga, vn.value);
      var url := DictGet(job.arguments, "url");
      var o := PlaceChapter(url, vi, job, cfg, b);
      if o.Fail? {
        return Err(o.error);
      }
      r := Ok(vi);
    }

    /** `Chapter.objects.get_or_create(url=..., volume=volume)` followed by
        `chapter.update_fields(...)`. */
    method PlaceChapter(url: Json, vi: nat, job: ChapterJob, cfg: Config, b: Builtins) returns (o: Outcome)
      requires VolumesKnown(chapters.rows, |volumes.rows|) && vi < |volumes.rows|
      modifies chapters
      ensures VolumesKnown(chapters.rows, |volumes.rows|)
      ensures OnlyChapterChanged(old(chapters.rows), chapters.rows, url)
      ensures o.Pass? ==> url in chapters.rows && chapters.rows[url].volume == vi
      ensures o.Pass? ==> Updated(old(chapters.rows), chapters.rows, url, vi, job, cfg, b)
    {
      var got := chapters.GetOrCreate(url, vi);
      if got.Err? {
        return Fail(got.error);
      }
      o := chapters.Update(url, job, cfg, b);
    }

    /** `MonitorChapter.update` up to the deletion: `Place`, then the
        pages and `ComicInfo.xml` are zipped into the cache file, the
        archive is moved into the manga's library folder, and the chapter
        is saved with its path and marked downloaded. `pages`, `download`,
        `xml` and `moved` are what `get_pages`, `download_page`,
        `create_xml` and `shutil.move` return or raise. */
    method Download(job: ChapterJob, cfg: Config, b: Builtins, pages: Result<seq<map<string, Json>>>,
                    download: (Json, Json) -> Result<Bytes>, xml: Result<Bytes>, moved: Outcome) returns (r: Outcome)
      requires VolumesKnown(chapters.rows, |volumes.rows|) && job.manga in mangas.rows
      modifies volumes, chapters, disk
      ensures VolumesKnown(chapters.rows, |volumes.rows|)
      ensures VolumePlaced(old(volumes.rows), volumes.rows, job, b)
      ensures ChapterVolumeNumber(job, b).Err? ==> r == Fail(ChapterVolumeNumber(job, b).error)
      ensures OnlyChapterChanged(old(chapters.rows), chapters.rows, DictGet(job.arguments, "url"))
      ensures r.Pass? ==> pages.Ok? && xml.Ok? && moved.Pass?
      ensures r.Pass? ==> Downloaded(chapters.rows, disk.files, DictGet(job.arguments, "url"), pages.value, download, xml.value)
      ensures r.Pass? ==> InVolume(chapters.rows, old(volumes.rows), DictGet(job.arguments, "url"), job, b)
      ensures r.Pass? ==> ChapterVolumeNumber(job, b).Ok?
                          && FiledAt(chapters.rows, DictGet(job.arguments, "url"), cfg, MangaName(mangas.rows[job.manga].state),
                                     VolumeNumber(HeldVolume(old(volumes.rows), job.manga, ChapterVolumeNumber(job, b).value)))
    {
      var volumesBefore := volumes.rows;
      var placed := Place(job, cfg, b);
      if placed.Err? {
        return Fail(placed.error);
      }
      var held := HeldVolume(volumesBefore, job.manga, ChapterVolumeNumber(job, b).value);
      r := Archive(held, job, cfg, b, pages, download, xml, moved, old(chapters.rows), volumesBefore);
    }

    /** What `MonitorChapter.update` does once the chapter is placed in
        `held`, the volume object the lookup returned: fetch the page list,
        then `File` the archive under the chapter's cache and library paths.
        `before` is the chapter table before `Place`. */
    method Archive(held: VolumeRow, job: ChapterJob, cfg: Config, b: Builtins, pages: Result<seq<map<string, Json>>>,
                   download: (Json, Json) -> Result<Bytes>, xml: Result<Bytes>, moved: Outcome,
                   ghost before: map<Json, ChapterRow>, ghost volumesBefore: seq<VolumeRow>) returns (r: Outcome)
      requires job.manga in mangas.rows
      requires VolumesKnown(chapters.rows, |volumes.rows|)
      requires OnlyChapterChanged(before, chapters.rows, DictGet(job.arguments, "url"))
      requires InVolume(chapters.rows, volumesBefore, DictGet(job.arguments, "url"), job, b)
      modifies chapters, disk
      ensures VolumesKnown(chapters.rows, |volumes.rows|)
      ensures OnlyChapterChanged(before, chapters.rows, DictGet(job.arguments, "url"))
      ensures r.Pass? ==> pages.Ok? && xml.Ok? && moved.Pass?
      ensures r.Pass? ==> Downloaded(chapters.rows, disk.files, DictGet(job.arguments, "url"), pages.value, download, xml.value)
      ensures r.Pass? ==> InVolume(chapters.rows, volumesBefore, DictGet(job.arguments, "url"), job, b)
      ensures r.Pass? ==> FiledAt(chapters.rows, DictGet(job.arguments, "url"), cfg, MangaName(mangas.rows[job.manga].state), VolumeNumber(held))
    {
      var url := DictGet(job.arguments, "url");
      if pages.Err? {
        return Fail(pages.error);
      }
      var (cache, path) := ChapterPaths(cfg, job, mangas.rows[job.manga], held, chapters.rows[url], b);
      ghost var placedRows := chapters.rows;
      r := File(url, cache, path, pages.value, download, xml, moved);
      if r.Pass? {
        FiledKeeps(before, placedRows, url, path.value, volumes.rows, volumesBefore, job, b);
      }
    }

    /** The second half of `MonitorChapter.update`: zip the pages and the
        ComicInfo document into `cache`, resolve the library path (a name
        that is not text raises), move the archive there and save the
        chapter with its path, marked downloaded. */
    method File(url: Json, cache: string, path: Result<string>, pages: seq<map<string, Json>>,
                download: (Json, Json) -> Result<Bytes>, xml: Result<Bytes>, moved: Outcome) returns (r: Outcome)
      requires url in chapters.rows
      modifies chapters, disk
      ensures r.Fail? ==> chapters.rows == old(chapters.rows)
      ensures r.Pass? ==> path.Ok? && xml.Ok? && moved.Pass?
      ensures r.Pass? ==> chapters.rows == old(chapters.rows)[url := old(chapters.rows)[url].(file := path.value, downloaded := true)]
      ensures r.Pass? ==> Downloaded(chapters.rows, disk.files, url, pages, download, xml.value)
    {
      var w := disk.WriteArchive(cache, pages, download, xml);
      if w.Fail? {
        return w;
      }
      if path.Err? {
        return Fail(path.error);
      }
      if moved.Fail? {
        return moved;
      }
      disk.Move(cache, path.value);
      chapters.Save(url, chapters.rows[url].(file := path.value, downloaded := true));
      r := Pass;
    }

    /** `MonitorChapter.update`: the job deletes itself once its chapter
        is filed; on any raise it stays, stamped with `now`. */
    method RunChapterJob(pk: nat, now: Instant, cfg: Config, b: Builtins, pages: Result<seq<map<string, Json>>>,
                         download: (Json, Json) -> Result<Bytes>, xml: Result<Bytes>, moved: Outcome) returns (r: Outcome)
      requires Valid() && pk in chapterJobs.jobs
      modifies chapterJobs, volumes, chapters, disk
      ensures Valid()
      ensures r.Pass? ==> chapterJobs.jobs == old(chapterJobs.jobs) - {pk}
      ensures r.Fail? ==> chapterJobs.jobs == old(chapterJobs.jobs)[pk := StampChapter(old(chapterJobs.jobs)[pk], now, b)]
      ensures r.Pass? ==> pages.Ok? && xml.Ok?
      ensures r.Pass? ==> Downloaded(chapters.rows, disk.files, DictGet(old(chapterJobs.jobs)[pk].arguments, "url"), pages.value, download, xml.value)
      ensures r.Pass? ==> InVolume(chapters.rows, old(volumes.rows), DictGet(old(chapterJobs.jobs)[pk].arguments, "url"), old(chapterJobs.jobs)[pk], b)
      ensures r.Pass? ==> var job := old(chapterJobs.jobs)[pk];
                ChapterVolumeNumber(job, b).Ok?
                && FiledAt(chapters.rows, DictGet(job.arguments, "url"), cfg, MangaName(mangas.rows[job.manga].state),
                           VolumeNumber(HeldVolume(old(volumes.rows), job.manga, ChapterVolumeNumber(job, b).value)))
      ensures VolumePlaced(old(volumes.rows), volumes.rows, old(chapterJobs.jobs)[pk], b)
    {
      var job := chapterJobs.jobs[pk];
      r := Download(job, cfg, b, pages, download, xml, moved);
      if r.Pass? {
        chapterJobs.jobs := chapterJobs.jobs - {pk};
      } else {
        StampKeepsUnique(chapterJobs.jobs, pk, StampChapter(job, now, b));
        chapterJobs.jobs := chapterJobs.jobs[pk := StampChapter(job, now, b)];
      }
    }
  }

  /** `float(chapter_data.get("volume_number", 1.0))`. */
  function ChapterVolumeNumber(job: ChapterJob, b: Builtins): Result<Json> {
    b.toFloat(if "volume_number" in job.arguments then job.arguments["volume_number"] else JFloat(1.0))
  }

  /** A chapter row as `get_or_create` makes it: every field unset. */
  function BlankChapter(volume: nat): ChapterRow {
    ChapterRow(volume, MangaModels.State(map[], [], JNone), map[], "", false)
  }

  /** The first `|a|` pages are in `a`, in order, each under its page
      name and holding what `download_page` returned for it. */
  ghost predicate PagesWritten(a: Archive, pages: seq<map<string, Json>>, download: (Json, Json) -> Result<Bytes>) {
    forall j :: 0 <= j < |a| && j < |pages| ==>
      a[j].0 == PageName(j + 1, |pages|) && "url" in pages[j]
      && download(pages[j]["url"], PageArguments(pages[j])) == Ok(a[j].1)
  }

  /** Writing the next page keeps the pages in order. */
  lemma PagesWrittenStep(a: Archive, pages: seq<map<string, Json>>, download: (Json, Json) -> Result<Bytes>, page: Bytes)
    requires PagesWritten(a, pages, download) && |a| < |pages|
    requires "url" in pages[|a|] && download(pages[|a|]["url"], PageArguments(pages[|a|])) == Ok(page)
    ensures PagesWritten(a + [(PageName(|a| + 1, |pages|), page)], pages, download)
  {
  }

  /** Once every page is written, adding the ComicInfo document finishes
      the archive. */
  lemma PackedStep(a: Archive, pages: seq<map<string, Json>>, download: (Json, Json) -> Result<Bytes>, xml: Bytes)
    requires PagesWritten(a, pages, download) && |a| == |pages|
    ensures Packed(a + [("ComicInfo.xml", xml)], pages, download, xml)
  {
    var b := a + [("ComicInfo.xml", xml)];
    assert forall j :: 0 <= j < |a| ==> b[j] == a[j];
  }

  /** A finished chapter archive: every page, then the ComicInfo document. */
  ghost predicate Packed(a: Archive, pages: seq<map<string, Json>>, download: (Json, Json) -> Result<Bytes>, xml: Bytes) {
    |a| == |pages| + 1 && PagesWritten(a, pages, download) && a[|pages|] == ("ComicInfo.xml", xml)
  }

  /** The chapter at `url` is stored and marked downloaded, and its file
      is a finished archive. */
  ghost predicate Downloaded(chapters: map<Json, ChapterRow>, files: map<string, Archive>, url: Json,
                             pages: seq<map<string, Json>>, download: (Json, Json) -> Result<Bytes>, xml: Bytes)
  {
    && url in chapters && chapters[url].downloaded
    && chapters[url].file in files && Packed(files[chapters[url].file], pages, download, xml)
  }

  /** The chapter at `url` is filed under the library path built from the
      manga's name, the volume number `volume` and its own number. */
  predicate FiledAt(chapters: map<Json, ChapterRow>, url: Json, cfg: Config, name: Json, volume: Json) {
    url in chapters && name.JStr? && chapters[url].file == LibraryPath(cfg, name.s, volume, ChapterNumber(chapters[url].state))
  }

  /** No chapter but the one at `url` was touched, and no other was added. */
  predicate OnlyChapterChanged(before: map<Json, ChapterRow>, after: map<Json, ChapterRow>, url: Json) {
    && (forall u :: u in before && u != url ==> u in after && after[u] == before[u])
    && (forall u :: u in after ==> u in before || u == url)
  }

  /** The chapter at `url` is the one `get_or_create` returned, updated by
      `update_fields` without a raise. */
  ghost predicate Updated(before: map<Json, ChapterRow>, after: map<Json, ChapterRow>, url: Json, vi: nat,
                          job: ChapterJob, cfg: Config, b: Builtins) {
    && url != JNone && url in after
    && ChapterUpdate(Prior(before, url, vi), job, cfg, b).1.Pass?
    && after[url] == ChapterUpdate(Prior(before, url, vi), job, cfg, b).0
  }

  /** The volume table after the lookup of the job's volume number. */
  ghost predicate VolumePlaced(before: seq<VolumeRow>, after: seq<VolumeRow>, job: ChapterJob, b: Builtins) {
    var vn := ChapterVolumeNumber(job, b);
    if vn.Ok? then after == FindOrCreateVolumeAsWritten(before, job.manga, vn.value).0 else after == before
  }

  /** The chapter at `url` lies in the volume that the lookup of the job's
      volume number picks in `before`, the volume table before the lookup. */
  ghost predicate InVolume(chapters: map<Json, ChapterRow>, before: seq<VolumeRow>, url: Json, job: ChapterJob, b: Builtins) {
    && url in chapters && ChapterVolumeNumber(job, b).Ok?
    && chapters[url].volume == FindOrCreateVolumeAsWritten(before, job.manga, ChapterVolumeNumber(job, b).value).1
  }

  /** Where a placed chapter ends up: in a volume of the job's manga, which
      is an existing volume with the job's number, or else a new volume whose
      stored number reads 0.0 whatever the job's number was. */
  lemma PlacedVolume(chapters: map<Json, ChapterRow>, before: seq<VolumeRow>, after: seq<VolumeRow>, url: Json, job: ChapterJob, b: Builtins)
    requires VolumePlaced(before, after, job, b) && InVolume(chapters, before, url, job, b)
    ensures var vi := chapters[url].volume; var n := ChapterVolumeNumber(job, b).value;
      && vi < |after| && after[vi].manga == job.manga
      && (vi < |before| ==> after == before && VolumeMatches(after[vi], job.manga, n))
      && (vi == |before| ==> |after| == |before| + 1 && VolumeNumber(after[vi]) == JFloat(0.0))
  {
  }

  /** Recording the archive path on the placed chapter keeps what `Place`
      established about the chapter table. */
  lemma FiledKeeps(before: map<Json, ChapterRow>, mid: map<Json, ChapterRow>, url: Json, path: string,
                   volumes: seq<VolumeRow>, volumesBefore: seq<VolumeRow>, job: ChapterJob, b: Builtins)
    requires url in mid && OnlyChapterChanged(before, mid, url) && VolumesKnown(mid, |volumes|)
    requires InVolume(mid, volumesBefore, url, job, b)
    ensures var after := mid[url := mid[url].(file := path, downloaded := true)];
      OnlyChapterChanged(before, after, url) && VolumesKnown(after, |volumes|) && InVolume(after, volumesBefore, url, job, b)
  {
  }

  /** The chapter `get_or_create` returns when it does not raise. */
  function Prior(chapters: map<Json, ChapterRow>, url: Json, volume: nat): ChapterRow {
    if url in chapters then chapters[url] else BlankChapter(volume)
  }

  /** `chapter.update_fields({**arguments, **chapter_data})`; both are the
      job's arguments. On success the new fields and merged arguments are
      kept; on a raise only the links already written survive. */
  function ChapterUpdate(row: ChapterRow, job: ChapterJob, cfg: Config, b: Builtins): (r: (ChapterRow, Outcome))
    ensures r.0.volume == row.volume && r.0.file == row.file && r.0.downloaded == row.downloaded
    ensures r.1.Fail? ==> r.0.state.fields == row.state.fields && r.0.arguments == row.arguments
  {
    var data := DictUpdate(job.arguments, job.arguments);
    var (st, o) := MangaModels.Run(cfg.chapterSteps, row.state, data, false, b);
    if o.Pass? then (row.(state := st, arguments := DictUpdate(row.arguments, data)), Pass)
    else (row.(state := row.state.(links := st.links)), o)
  }

  /** Stamping a job keeps its url, so urls stay unique. */
  lemma StampKeepsUnique(jobs: map<nat, ChapterJob>, pk: nat, j: ChapterJob)
    requires pk in jobs && j.url == jobs[pk].url && UniqueUrls(jobs)
    ensures UniqueUrls(jobs[pk := j])
  {
  }

  /** The job a newly seen chapter gets. */
  function NewChapterJob(c: map<string, Json>, plugin: string, manga: Json, b: Builtins): ChapterJob {
    ChapterJob(plugin, DictGet(c, "url"), None, SerializeArguments(c, b), manga)
  }

  /** The refresh `MonitorManga.update` applies: the manga is looked up
      by the url the plugin reports (creating it would leave its required
      library unset, so an unknown url raises), and updated with the job's
      arguments overlaid by the plugin data. The update time is not
      stamped. */
  function RefreshSpec(mangas: map<Json, MangaRow>, job: MangaJob, data: map<string, Json>, b: Builtins)
    : (r: (map<Json, MangaRow>, Outcome))
    ensures r.0.Keys == mangas.Keys
    ensures DictGet(data, "url") !in mangas ==> r == (mangas, Fail(IntegrityError))
    ensures forall u :: u in mangas && u != DictGet(data, "url") ==> r.0[u] == mangas[u]
  {
    var u := DictGet(data, "url");
    if u !in mangas then (mangas, Fail(IntegrityError))
    else
      var (row, o) := MangaRefreshAsWritten(mangas[u], DictUpdate(job.arguments, data), b);
      (mangas[u := row], o)
  }

  /** A successful refresh leaves the manga it names stored with its
      library and update time, holding the manga blocks' result over the
      job's arguments overlaid by the plugin data; a manga that was due
      stays due at any later time. */
  lemma RefreshSpecSound(mangas: map<Json, MangaRow>, job: MangaJob, data: map<string, Json>, now: Instant, later: Instant, b: Builtins)
    requires RefreshSpec(mangas, job, data, b).1.Pass?
    requires now <= later
    ensures DictGet(data, "url") in mangas
    ensures var before := mangas[DictGet(data, "url")];
      var after := RefreshSpec(mangas, job, data, b).0[DictGet(data, "url")];
      && after.library == before.library && after.lastUpdate == before.lastUpdate
      && after.state == MangaModels.Run(MangaModels.MangaSteps(), before.state, DictUpdate(job.arguments, data), false, b).0
      && after.arguments == DictUpdate(before.arguments, DictUpdate(job.arguments, data))
      && (Stale(before.lastUpdate, now) ==> Stale(after.lastUpdate, later))
  {
  }

  /** The chapter loop's invariant after `i` chapters: earlier jobs are
      untouched, every new job is one of the found chapters, and each
      chapter seen so far with a url is tracked for this manga and was not
      claimed by another. */
  ghost predicate QueuedUpTo(old0: map<nat, ChapterJob>, cur: map<nat, ChapterJob>, found: seq<map<string, Json>>, i: nat,
                             plugin: string, manga: Json, b: Builtins)
    requires i <= |found|
  {
    && (forall k :: k in old0 ==> k in cur && cur[k] == old0[k])
    && (forall k :: k in cur && k !in old0 ==> Discovered(cur[k], found, plugin, manga, b))
    && (forall j :: 0 <= j < i && DictGet(found[j], "url") != JNone ==>
          !ClaimedElsewhere(old0, DictGet(found[j], "url"), manga) && Tracked(cur, DictGet(found[j], "url"), manga))
  }

  lemma QueuedStep(old0: map<nat, ChapterJob>, before: map<nat, ChapterJob>, after: map<nat, ChapterJob>,
                   found: seq<map<string, Json>>, i: nat, plugin: string, manga: Json, b: Builtins)
    requires i < |found|
    requires QueuedUpTo(old0, before, found, i, plugin, manga, b)
    requires forall k :: k in before ==> k in after && after[k] == before[k]
    requires forall k :: k in after && k !in before ==> after[k] == NewChapterJob(found[i], plugin, manga, b)
    requires DictGet(found[i], "url") == JNone ==> after == before
    requires DictGet(found[i], "url") != JNone ==>
               !ClaimedElsewhere(before, DictGet(found[i], "url"), manga) && Tracked(after, DictGet(found[i], "url"), manga)
    ensures QueuedUpTo(old0, after, found, i + 1, plugin, manga, b)
  {
    DiscoveredStep(old0, before, after, found, i, plugin, manga, b);
    assert forall k :: k in before && k !in old0 ==> before[k].manga == manga;
    TrackedStep(old0, before, after, found, i, manga);
  }

  /** The chapters seen so far stay tracked, and one more is. */
  lemma TrackedStep(old0: map<nat, ChapterJob>, before: map<nat, ChapterJob>, after: map<nat, ChapterJob>,
                    found: seq<map<string, Json>>, i: nat, manga: Json)
    requires i < |found|
    requires forall k :: k in old0 ==> k in before && before[k] == old0[k]
    requires forall k :: k in before && k !in old0 ==> before[k].manga == manga
    requires forall k :: k in before ==> k in after && after[k] == before[k]
    requires forall j :: 0 <= j < i && DictGet(found[j], "url") != JNone ==>
               !ClaimedElsewhere(old0, DictGet(found[j], "url"), manga) && Tracked(before, DictGet(found[j], "url"), manga)
    requires DictGet(found[i], "url") != JNone ==>
               !ClaimedElsewhere(before, DictGet(found[i], "url"), manga) && Tracked(after, DictGet(found[i], "url"), manga)
    ensures forall j :: 0 <= j < i + 1 && DictGet(found[j], "url") != JNone ==>
              !ClaimedElsewhere(old0, DictGet(found[j], "url"), manga) && Tracked(after, DictGet(found[j], "url"), manga)
  {
    forall j | 0 <= j < i + 1 && DictGet(found[j], "url") != JNone
      ensures !ClaimedElsewhere(old0, DictGet(found[j], "url"), manga) && Tracked(after, DictGet(found[j], "url"), manga)
    {
      if j < i {
        TrackedKept(before, after, DictGet(found[j], "url"), manga);
      } else {
        ClaimsOnlyFromOld(old0, before, manga, DictGet(found[j], "url"));
      }
    }
  }

  /** The jobs created by one more chapter are that chapter's jobs. */
  lemma DiscoveredStep(old0: map<nat, ChapterJob>, before: map<nat, ChapterJob>, after: map<nat, ChapterJob>,
                       found: seq<map<string, Json>>, i: nat, plugin: string, manga: Json, b: Builtins)
    requires i < |found|
    requires forall k :: k in before && k !in old0 ==> Discovered(before[k], found, plugin, manga, b)
    requires forall k :: k in before ==> k in after && after[k] == before[k]
    requires forall k :: k in after && k !in before ==> after[k] == NewChapterJob(found[i], plugin, manga, b)
    requires DictGet(found[i], "url") == JNone ==> after == before
    ensures forall k :: k in after && k !in old0 ==> Discovered(after[k], found, plugin, manga, b)
  {
    forall k | k in after && k !in old0
      ensures Discovered(after[k], found, plugin, manga, b)
    {
      if k !in before {
        assert after[k] == NewChapterJob(found[i], plugin, manga, b);
      }
    }
  }

  lemma QueuedFailure(old0: map<nat, ChapterJob>, before: map<nat, ChapterJob>,
                      found: seq<map<string, Json>>, i: nat, plugin: string, manga: Json, b: Builtins)
    requires i < |found|
    requires QueuedUpTo(old0, before, found, i, plugin, manga, b)
    requires DictGet(found[i], "url") != JNone && ClaimedElsewhere(before, DictGet(found[i], "url"), manga)
    ensures exists j :: 0 <= j < |found| && DictGet(found[j], "url") != JNone && ClaimedElsewhere(old0, DictGet(found[j], "url"), manga)
  {
    ClaimsOnlyFromOld(old0, before, manga, DictGet(found[i], "url"));
  }

  /** Jobs added for `manga` claim no url for another manga. */
  lemma ClaimsOnlyFromOld(old0: map<nat, ChapterJob>, cur: map<nat, ChapterJob>, manga: Json, url: Json)
    requires forall k :: k in old0 ==> k in cur && cur[k] == old0[k]
    requires forall k :: k in cur && k !in old0 ==> cur[k].manga == manga
    ensures ClaimedElsewhere(cur, url, manga) <==> ClaimedElsewhere(old0, url, manga)
  {
    if ClaimedElsewhere(cur, url, manga) {
      var k :| k in cur && cur[k].url == url && cur[k].manga != manga;
      assert k in old0;
    }
    if ClaimedElsewhere(old0, url, manga) {
      var k :| k in old0 && old0[k].url == url && old0[k].manga != manga;
      assert k in cur;
    }
  }

  lemma TrackedKept(before: map<nat, ChapterJob>, after: map<nat, ChapterJob>, url: Json, manga: Json)
    requires forall k :: k in before ==> k in after && after[k] == before[k]
    requires Tracked(before, url, manga)
    ensures Tracked(after, url, manga)
  {
    var k :| k in before && before[k].url == url && before[k].manga == manga;
    assert k in after;
  }

  /** `page.get('arguments', {})`. */
  function PageArguments(page: map<string, Json>): Json {
    if "arguments" in page then page["arguments"] else JDict(map[])
  }
}
