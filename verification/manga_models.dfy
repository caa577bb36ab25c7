/** The library records: libraries, manga requests, and the manga, volume
    and chapter rows whose lockable metadata is refreshed from plugin
    patches by `update_fields`. */
module MangaModels {
  import opened PyValues
  import opened LockableFields
  import MangaUtils
  import PluginUtils
  import Consumers

  // ---- update_fields ----

  /** How a patch value becomes the value handed to `set_value`: as given,
      or `Enum(int(x))` for the chapter's format and age rating. */
  datatype Pre = AsGiven | EnumByInt(cls: EnumClass)

  /** One block of an `update_fields` body, in source order. A field block
      names the model attribute, the patch key (`<key>_lock` is its lock
      key), the field class and its default. */
  datatype Step =
    | Field(attr: string, key: string, kind: FieldKind, default: Json, pre: Pre)
    | AltNames
    | AltNamesLock
    | SourceUrl

  /** The part of a record that `update_fields` changes before `save`: the
      raw lockable entries of the instance (a missing entry reads as the
      field default), the alternative-name rows saved so far (each one the
      data dict of its `alternative_name` field), and the chapter's source
      url. */
  datatype State = State(fields: map<string, Json>, links: seq<Json>, sourceUrl: Json)

  /** The instance's raw entry for an attribute. */
  function Raw(st: State, attr: string): Option<Json> {
    if attr in st.fields then Some(st.fields[attr]) else None
  }

  /** The data dict the proxy of a field block reads. */
  function FieldData(st: State, s: Step): (d: map<string, Json>)
    requires s.Field?
    ensures Structured(d)
  {
    GetData(Raw(st, s.attr), s.default)
  }

  function LockKey(key: string): string {
    key + "_lock"
  }

  /** `Formats(int(x))` and `AgeRating(int(x))`: the int conversion may
      raise, and an int that is no member's value raises ValueError. Both
      happen before `set_value`, so neither becomes a ValidationError. */
  function PreConvert(pre: Pre, x: Json, b: Builtins): (r: Result<Json>)
    ensures pre.AsGiven? ==> r == Ok(x)
    ensures pre.EnumByInt? && b.toInt(x).Err? ==> r == Err(b.toInt(x).error)
    ensures pre.EnumByInt? && r.Ok? ==>
              pre.cls.IsMember(r.value) && b.toInt(x).Ok? && PyEq(b.toInt(x).value, pre.cls.values[r.value.index])
    ensures (pre.EnumByInt? && b.toInt(x).Ok? && forall j :: 0 <= j < |pre.cls.values| ==> !PyEq(b.toInt(x).value, pre.cls.values[j]))
              ==> r == Err(ValueError)
  {
    match pre
    case AsGiven => Ok(x)
    case EnumByInt(cls) =>
      match b.toInt(x)
      case Err(e) => Err(e)
      case Ok(n) =>
        match FindValue(cls, n, 0)
        case None => Err(ValueError)
        case Some(k) => Ok(JMember(cls.name, k))
  }

  /** One field block: `set_value(data[key], force)` when the key holds a
      non-None value, then `lock()` or `unlock()` when the lock key holds a
      non-None value, by its truth value. A raise ends the block. */
  function ApplyField(s: Step, st: State, data: map<string, Json>, force: bool, b: Builtins): (r: (State, Outcome))
    requires s.Field?
    ensures r.0.links == st.links && r.0.sourceUrl == st.sourceUrl
    ensures forall a :: a != s.attr ==> Raw(r.0, a) == Raw(st, a)
    ensures DictGet(data, s.key) == JNone && DictGet(data, LockKey(s.key)) == JNone ==> r == (st, Pass)
    ensures r.1.Fail? <==>
              DictGet(data, s.key) != JNone &&
              (PreConvert(s.pre, DictGet(data, s.key), b).Err? ||
               SetValueOn(FieldData(st, s), PreConvert(s.pre, DictGet(data, s.key), b).value, force, CoercionFor(s.kind, b)).Err?)
    ensures r.1.Fail? ==> FieldData(r.0, s) == FieldData(st, s)
    ensures (DictGet(data, s.key) != JNone && IsLocked(FieldData(st, s)) && !force &&
             PreConvert(s.pre, DictGet(data, s.key), b).Ok?) ==> r.1 == Fail(ValidationError)
    ensures r.1.Pass? && DictGet(data, s.key) != JNone ==>
              DictGet(FieldData(r.0, s), "value") == Coerce(CoercionFor(s.kind, b), PreConvert(s.pre, DictGet(data, s.key), b).value).value
    ensures r.1.Pass? && DictGet(data, s.key) == JNone ==>
              DictGet(FieldData(r.0, s), "value") == DictGet(FieldData(st, s), "value")
    ensures r.1.Pass? && DictGet(data, LockKey(s.key)) != JNone ==>
              IsLocked(FieldData(r.0, s)) == Truthy(DictGet(data, LockKey(s.key)))
    ensures r.1.Pass? && DictGet(data, LockKey(s.key)) == JNone ==>
              IsLocked(FieldData(r.0, s)) == IsLocked(FieldData(st, s))
  {
    var d := FieldData(st, s);
    var v := DictGet(data, s.key);
    if v != JNone && PreConvert(s.pre, v, b).Err? then (st, Fail(PreConvert(s.pre, v, b).error))
    else
      var written := if v == JNone then Ok(d) else SetValueOn(d, PreConvert(s.pre, v, b).value, force, CoercionFor(s.kind, b));
      if written.Err? then
        // `_get_data` has installed the dict on the instance before the raise
        Installed(st, s, d);
        (st.(fields := st.fields[s.attr := JDict(d)]), Fail(written.error))
      else
        var lock := DictGet(data, LockKey(s.key));
        if lock == JNone then
          Installed(st, s, written.value);
          (if v == JNone then st else st.(fields := st.fields[s.attr := JDict(written.value)]), Pass)
        else
          var locked := if Truthy(lock) then LockOn(written.value) else UnlockOn(written.value);
          Installed(st, s, locked);
          (st.(fields := st.fields[s.attr := JDict(locked)]), Pass)
  }

  /** A structured dict installed for a field block is what the proxy reads
      back; no other attribute moves. */
  lemma Installed(st: State, s: Step, d: map<string, Json>)
    requires s.Field? && Structured(d)
    ensures var after := st.(fields := st.fields[s.attr := JDict(d)]);
            && FieldData(after, s) == d && after.links == st.links && after.sourceUrl == st.sourceUrl
            && forall a :: a != s.attr ==> Raw(after, a) == Raw(st, a)
  {
  }

  /** The data dict of a fresh alternative-name row after
      `alt_name.alternative_name.value = x`: a non-forced write to an
      unlocked char field holding its default. */
  function LinkData(x: Json, b: Builtins): Result<map<string, Json>> {
    SetValueOn(DefaultStructure(DefaultValue(CharField, JNone, None)), x, false, CoercionFor(CharField, b))
  }

  /** `add_alternative_names`: one row per name, each saved as soon as its
      value is set; a raise stops the loop with the earlier rows kept. */
  function AddLinks(names: seq<Json>, b: Builtins): (r: (seq<Json>, Outcome))
    ensures |r.0| <= |names|
    ensures r.1.Pass? <==> |r.0| == |names|
    ensures forall i :: 0 <= i < |r.0| ==> LinkData(names[i], b).Ok? && r.0[i] == JDict(LinkData(names[i], b).value)
    ensures r.1.Fail? ==> LinkData(names[|r.0|], b).Err? && r.1.error == LinkData(names[|r.0|], b).error
  {
    if names == [] then ([], Pass)
    else
      var first := LinkData(names[0], b);
      if first.Err? then ([], Fail(first.error))
      else
        var rest := AddLinks(names[1..], b);
        var rows := [JDict(first.value)] + rest.0;
        assert forall i :: 1 <= i < |names| ==> names[i] == names[1..][i - 1];
        assert forall i :: 1 <= i < |rows| ==> rows[i] == rest.0[i - 1];
        (rows, rest.1)
  }

  /** One block of an `update_fields` body. */
  function ApplyStep(s: Step, st: State, data: map<string, Json>, force: bool, b: Builtins): (r: (State, Outcome))
    ensures !s.Field? ==> r.0.fields == st.fields
    ensures s.Field? ==> r == ApplyField(s, st, data, force, b)
    ensures st.links <= r.0.links
    ensures !s.SourceUrl? ==> r.0.sourceUrl == st.sourceUrl
    ensures s.AltNamesLock? ==> r.0 == st && (r.1.Fail? <==> DictGet(data, "alt_names_lock") != JNone)
    ensures s.SourceUrl? ==> r.1 == Pass && r.0.sourceUrl == if DictGet(data, "source_url") == JNone then st.sourceUrl else DictGet(data, "source_url")
  {
    match s
    case Field(_, _, _, _, _) => ApplyField(s, st, data, force, b)
    case AltNames =>
      var v := DictGet(data, "alt_names");
      if v == JNone then (st, Pass)
      else
        // `for x in v` iterates what `list(v)` holds
        var l := b.toList(v);
        if l.Err? then (st, Fail(l.error))
        else if !l.value.JList? then (st, Fail(TypeError))
        else
          var added := AddLinks(l.value.items, b);
          (st.(links := st.links + added.0), added.1)
    case AltNamesLock =>
      // the record has no `alt_names` attribute: `self.alt_names` raises
      if DictGet(data, "alt_names_lock") == JNone then (st, Pass) else (st, Fail(AttributeError))
    case SourceUrl =>
      var v := DictGet(data, "source_url");
      if v == JNone then (st, Pass) else (st.(sourceUrl := v), Pass)
  }

  /** The blocks of an `update_fields` body run in order until one raises. */
  function Run(steps: seq<Step>, st: State, data: map<string, Json>, force: bool, b: Builtins): (r: (State, Outcome))
    decreases |steps|
  {
    if steps == [] then (st, Pass)
    else
      var before := Run(steps[..|steps| - 1], st, data, force, b);
      if before.1.Fail? then before else ApplyStep(steps[|steps| - 1], before.0, data, force, b)
  }

  /** When the first `i` blocks pass, the first `i + 1` end as block `i`
      does on their state. */
  lemma RunExtends(steps: seq<Step>, i: nat, st: State, data: map<string, Json>, force: bool, b: Builtins)
    requires i < |steps| && Run(steps[..i], st, data, force, b).1.Pass?
    ensures Run(steps[..i + 1], st, data, force, b) == ApplyStep(steps[i], Run(steps[..i], st, data, force, b).0, data, force, b)
  {
    assert steps[..i + 1][..i] == steps[..i];
  }

  /** Once a block has raised, no later block runs. */
  lemma {:induction false} RunStopsAtFailure(steps: seq<Step>, k: nat, st: State, data: map<string, Json>, force: bool, b: Builtins)
    requires k <= |steps|
    requires Run(steps[..k], st, data, force, b).1.Fail?
    ensures Run(steps, st, data, force, b) == Run(steps[..k], st, data, force, b)
    decreases |steps|
  {
    if k < |steps| {
      var init := steps[..|steps| - 1];
      assert init[..k] == steps[..k];
      RunStopsAtFailure(init, k, st, data, force, b);
    } else {
      assert steps[..k] == steps;
    }
  }

  /** A field whose key and lock key the patch leaves out (or sets to None)
      keeps its raw entry, and saved alternative names are never dropped. */
  lemma {:induction false} RunKeepsUntouched(steps: seq<Step>, st: State, data: map<string, Json>, force: bool, b: Builtins, attr: string)
    requires forall i :: 0 <= i < |steps| && steps[i].Field? && steps[i].attr == attr ==>
               DictGet(data, steps[i].key) == JNone && DictGet(data, LockKey(steps[i].key)) == JNone
    ensures Raw(Run(steps, st, data, force, b).0, attr) == Raw(st, attr)
    ensures st.links <= Run(steps, st, data, force, b).0.links
    decreases |steps|
  {
    if steps != [] {
      var init := steps[..|steps| - 1];
      RunKeepsUntouched(init, st, data, force, b, attr);
      var before := Run(init, st, data, force, b);
      if before.1.Pass? {
        var last := steps[|steps| - 1];
        assert Raw(ApplyStep(last, before.0, data, force, b).0, attr) == Raw(before.0, attr);
      }
    }
  }

  /** The lock key acts the same with or without `force`. */
  lemma LockKeyIgnoresForce(s: Step, st: State, data: map<string, Json>, b: Builtins)
    requires s.Field? && DictGet(data, s.key) == JNone
    ensures ApplyStep(s, st, data, true, b) == ApplyStep(s, st, data, false, b)
  {
  }

  /** The arguments merge is shallow: it agrees with the recursive merge of
      the progress channel exactly when no key holds a dict on both sides,
      and a nested dict in the patch replaces the stored one whole. */
  lemma ShallowMergeAgreesWithDeep(current: map<string, Json>, patch: map<string, Json>)
    requires forall k :: k in current && k in patch ==> !(current[k].JDict? && patch[k].JDict?)
    ensures DictUpdate(current, patch) == Consumers.DeepMerge(current, patch)
  {
  }

  lemma ShallowMergeReplacesNested(current: map<string, Json>, patch: map<string, Json>, k: string)
    requires k in current && k in patch && current[k].JDict? && patch[k].JDict?
    requires exists j :: j in current[k].fields && j !in patch[k].fields
    ensures DictUpdate(current, patch)[k] != Consumers.DeepMerge(current, patch)[k]
  {
    var j :| j in current[k].fields && j !in patch[k].fields;
    Consumers.MergeNested(current, patch, k);
    assert j in Consumers.DeepMerge(current, patch)[k].fields;
  }

  // ---- The update tables of the three entities ----

  function CharStep(attr: string): Step {
    Field(attr, attr, CharField, DefaultValue(CharField, JNone, None), AsGiven)
  }

  function ListStep(attr: string): Step {
    Field(attr, attr, ListField, DefaultValue(ListField, JNone, None), AsGiven)
  }

  /** `Manga.update_fields`. */
  function MangaSteps(): (s: seq<Step>)
    ensures |s| == 8 && s[0] == CharStep("name")
  {
    [CharStep("name"), CharStep("localized_name"), AltNames, AltNamesLock, CharStep("description"),
     ListStep("genres"), ListStep("tags"), Field("complete", "complete", BoolField, DefaultValue(BoolField, JNone, None), AsGiven)]
  }

  /** `Volume.update_fields`: the patch key `volume_number` writes `number`. */
  function VolumeSteps(): (s: seq<Step>)
    ensures |s| == 3
  {
    [CharStep("name"), CharStep("description"),
     Field("number", "volume_number", FloatField, DefaultValue(FloatField, JNone, None), AsGiven)]
  }

  /** `Chapter.update_fields`: format and age rating go through their enum
      first; `chapter_number` writes `number`; `source_url` is a plain
      attribute. `formatDefault` and `ageDefault` index the configured
      default members (`Formats.NORMAL`, `AgeRating.UNKNOWN`). */
  function ChapterSteps(formats: EnumClass, ageRating: EnumClass, formatDefault: nat, ageDefault: nat): (s: seq<Step>)
    requires |formats.values| > 0 && |ageRating.values| > 0
    ensures |s| == 20 && s[19] == SourceUrl
  {
    [CharStep("name"), CharStep("description"), CharStep("localization"), ListStep("publisher"), ListStep("imprint"),
     Field("release_date", "release_date", DateTimeField, DefaultValue(DateTimeField, JNone, None), AsGiven),
     ListStep("writer"), ListStep("penciller"), ListStep("inker"), ListStep("colorist"), ListStep("letterer"),
     ListStep("cover_artist"), ListStep("editor"), ListStep("translator"),
     Field("page_count", "page_count", IntegerField, DefaultValue(IntegerField, JInt(0), None), AsGiven),
     Field("format", "format", EnumField(formats), DefaultValue(EnumField(formats), JNone, Some(formatDefault)), EnumByInt(formats)),
     Field("age_rating", "age_rating", EnumField(ageRating), DefaultValue(EnumField(ageRating), JNone, Some(ageDefault)), EnumByInt(ageRating)),
     CharStep("isbn"),
     Field("number", "chapter_number", FloatField, DefaultValue(FloatField, JFloat(1.0), None), AsGiven),
     SourceUrl]
  }

  /** A patch that writes a locked manga name without `force` is refused at
      the first block: nothing after it runs. */
  lemma LockedMangaNameRefused(st: State, x: Json, b: Builtins)
    requires x != JNone && IsLocked(FieldData(st, CharStep("name")))
    ensures Run(MangaSteps(), st, map["name" := x], false, b).1 == Fail(ValidationError)
    ensures FieldData(Run(MangaSteps(), st, map["name" := x], false, b).0, CharStep("name")) == FieldData(st, CharStep("name"))
  {
    var steps := MangaSteps();
    var data := map["name" := x];
    assert steps[..1] == [CharStep("name")];
    assert steps[..1][..0] == [];
    assert Run(steps[..1], st, data, false, b) == ApplyStep(CharStep("name"), st, data, false, b);
    RunStopsAtFailure(steps, 1, st, data, false, b);
  }

  /** A persisted row: what `save` writes for the record. */
  datatype Row = Row(fields: map<string, Json>, sourceUrl: Json, arguments: map<string, Json>)

  /** A manga, volume or chapter instance as far as `update_fields` goes:
      its update table, its in-memory state, its `arguments` JSON, and the
      row the store holds for it. */
  class Record {
    const steps: seq<Step>
    var state: State
    var arguments: map<string, Json>
    var persisted: Option<Row>

    constructor (steps: seq<Step>, state: State, arguments: map<string, Json>, persisted: Option<Row>)
      ensures this.steps == steps && this.state == state && this.arguments == arguments && this.persisted == persisted
    {
      this.steps := steps;
      this.state := state;
      this.arguments := arguments;
      this.persisted := persisted;
    }

    /** `update_fields(data, force)`: the blocks in order; when all pass,
        the shallow arguments merge and `save`. A raise leaves the blocks
        already run in memory (and the alternative names already saved) but
        skips the merge and the save. */
    method UpdateFields(data: map<string, Json>, force: bool, b: Builtins) returns (r: Outcome)
      modifies this
      ensures (state, r) == Run(steps, old(state), data, force, b)
      ensures r.Pass? ==> arguments == DictUpdate(old(arguments), data) && persisted == Some(Row(state.fields, state.sourceUrl, arguments))
      ensures r.Fail? ==> arguments == old(arguments) && persisted == old(persisted)
    {
      var i := 0;
      while i < |steps|
        invariant 0 <= i <= |steps|
        invariant Run(steps[..i], old(state), data, force, b) == (state, Pass)
        invariant arguments == old(arguments) && persisted == old(persisted)
      {
        RunExtends(steps, i, old(state), data, force, b);
        var next := ApplyStep(steps[i], state, data, force, b);
        state := next.0;
        if next.1.Fail? {
          r := next.1;
          RunStopsAtFailure(steps, i + 1, old(state), data, force, b);
          return;
        }
        i := i + 1;
      }
      assert steps[..i] == steps;
      arguments := DictUpdate(arguments, data);
      persisted := Some(Row(state.fields, state.sourceUrl, arguments));
      r := Pass;
    }
  }

  // ---- Manga: plugin binding and folder ----

  /** Some plugin choice has this key. */
  predicate Offered(choices: seq<PluginUtils.Choice>, key: string) {
    exists c :: c in choices && c.key == key
  }

  class Manga {
    const url: string
    var plugin: string
    var fileFolder: string

    constructor (url: string, plugin: string, fileFolder: string)
      ensures this.url == url && this.plugin == plugin && this.fileFolder == fileFolder
    {
      this.url := url;
      this.plugin := plugin;
      this.fileFolder := fileFolder;
    }

    /** `choose_plugin(key)`: bound once. A non-empty plugin is kept;
        otherwise the key is taken when it is among the choices. */
    method ChoosePlugin(key: string, choices: seq<PluginUtils.Choice>)
      modifies this
      ensures old(plugin) != "" ==> plugin == old(plugin)
      ensures old(plugin) == "" && Offered(choices, key) ==> plugin == key
      ensures !Offered(choices, key) ==> plugin == old(plugin)
      ensures fileFolder == old(fileFolder)
    {
      if plugin != "" {
        return;
      }
      if !Offered(choices, key) {
        return;
      }
      var i := 0;
      while i < |choices|
        invariant 0 <= i <= |choices|
        invariant fileFolder == old(fileFolder)
        invariant plugin == if exists j :: 0 <= j < i && choices[j].key == key then key else old(plugin)
      {
        if choices[i].key == key {
          plugin := choices[i].key;
        }
        i := i + 1;
      }
      assert exists j :: 0 <= j < |choices| && choices[j].key == key;
    }

    /** `set_file_folder_path(name)`: the folder is the filesystem-safe form
        of the name, or of the url's hash when no name is given. */
    method SetFileFolderPath(name: string, b: Builtins)
      modifies this
      ensures fileFolder == MangaUtils.MakeValidFilename(if name == [] then b.sha256(url) else name, "_")
      ensures |fileFolder| <= MangaUtils.MAX_FILENAME_LENGTH
      ensures forall i :: 0 <= i < |fileFolder| ==> !MangaUtils.IsInvalid(fileFolder[i])
      ensures plugin == old(plugin)
    {
      var source := if name == [] then b.sha256(url) else name;
      MangaUtils.UnderscoreIsValid(source);
      fileFolder := MangaUtils.MakeValidFilename(source, "_");
    }
  }

  // ---- Libraries ----

  datatype Library = Library(name: string, folder: string, isDefault: bool)

  /** At most one library is the default. */
  predicate OneDefault(rows: map<nat, Library>) {
    forall a, b :: a in rows && b in rows && rows[a].isDefault && rows[b].isDefault ==> a == b
  }

  class LibraryTable {
    var rows: map<nat, Library>

    constructor ()
      ensures rows == map[]
    {
      rows := map[];
    }

    /** `make_default` on the instance `lib` with key `pk`: every library
        loses the flag in one update, then the instance is saved with it. */
    method MakeDefault(pk: nat, lib: Library)
      modifies this
      ensures rows.Keys == old(rows).Keys + {pk}
      ensures rows[pk] == lib.(isDefault := true)
      ensures forall k :: k in rows && k != pk ==> rows[k] == old(rows)[k].(isDefault := false)
      ensures OneDefault(rows)
    {
      rows := map k | k in rows :: rows[k].(isDefault := false);
      rows := rows[pk := lib.(isDefault := true)];
    }
  }

  // ---- Manga requests ----

  /** `get_plugin_name(key)`: the label of the first choice with this key,
      or the key itself when there is none. */
  function RequestPluginName(choices: seq<PluginUtils.Choice>, key: string): (r: string)
    ensures !Offered(choices, key) ==> r == key
    ensures Offered(choices, key) ==>
              exists i :: 0 <= i < |choices| && choices[i].key == key && r == choices[i].display &&
                          forall j :: 0 <= j < i ==> choices[j].key != key
  {
    if choices == [] then key
    else if choices[0].key == key then choices[0].display
    else
      var r := RequestPluginName(choices[1..], key);
      assert forall i :: 1 <= i < |choices| ==> choices[i] == choices[1..][i - 1];
      if Offered(choices, key) then
        assert Offered(choices[1..], key) by {
          var c :| c in choices && c.key == key;
          assert c != choices[0];
        }
        var i :| 0 <= i < |choices[1..]| && choices[1..][i].key == key && r == choices[1..][i].display &&
                 forall j :: 0 <= j < i ==> choices[1..][j].key != key;
        assert choices[i + 1].key == key;
        r
      else r
  }

  datatype StoredRequest = StoredRequest(plugin: string, variables: map<string, Json>)

  class MangaRequest {
    var plugin: string
    var variables: map<string, Json>

    constructor (plugin: string, variables: map<string, Json>)
      ensures this.plugin == plugin && this.variables == variables
    {
      this.plugin := plugin;
      this.variables := variables;
    }

    /** `choose_plugin(category, domain)`: the key `"{category}_{domain}"`
        is taken when it is among the choices, whatever was bound before. */
    method ChoosePlugin(category: string, domain: string, choices: seq<PluginUtils.Choice>)
      modifies this
      ensures Offered(choices, category + "_" + domain) ==> plugin == category + "_" + domain
      ensures !Offered(choices, category + "_" + domain) ==> plugin == old(plugin)
      ensures variables == old(variables)
    {
      var key := category + "_" + domain;
      if !Offered(choices, key) {
        return;
      }
      var i := 0;
      while i < |choices|
        invariant 0 <= i <= |choices|
        invariant variables == old(variables)
        invariant plugin == if exists j :: 0 <= j < i && choices[j].key == key then key else old(plugin)
      {
        if choices[i].key == key {
          plugin := choices[i].key;
        }
        i := i + 1;
      }
      assert exists j :: 0 <= j < |choices| && choices[j].key == key;
    }
  }

  /** A stored request names its url. */
  predicate HasUrl(variables: map<string, Json>) {
    DictGet(variables, "url") != JNone
  }

  class RequestTable {
    var rows: map<nat, StoredRequest>

    constructor ()
      ensures rows == map[]
    {
      rows := map[];
    }

    /** `request_exist(url)`: some stored request's `variables` holds this
        url under `"url"`. */
    predicate RequestExist(url: string)
      reads this
    {
      exists k :: k in rows && DictGet(rows[k].variables, "url") == JStr(url)
    }

    /** `save`: refused with a plain Exception when `variables` has no url
        (or a None one); otherwise the row is written under `pk`. */
    method Save(pk: nat, req: MangaRequest) returns (r: Outcome)
      modifies this
      ensures !HasUrl(req.variables) ==> r == Fail(BareException) && rows == old(rows)
      ensures HasUrl(req.variables) ==> r == Pass && rows == old(rows)[pk := StoredRequest(req.plugin, req.variables)]
      ensures r.Pass? && req.variables["url"].JStr? ==> RequestExist(req.variables["url"].s)
      ensures (forall k :: k in old(rows) ==> HasUrl(old(rows)[k].variables)) ==> forall k :: k in rows ==> HasUrl(rows[k].variables)
    {
      if DictGet(req.variables, "url") == JNone {
        return Fail(BareException);
      }
      rows := rows[pk := StoredRequest(req.plugin, req.variables)];
      r := Pass;
      assert pk in rows;
    }
  }
}
