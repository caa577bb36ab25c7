/** Lookups over the plugin metadata cache (a JSON list of manifest dicts
    written by the plugin manager) and over the registry of loaded plugin
    classes, keyed `"<category>_<domain>"`. */
module PluginUtils {
  import opened PyValues

  /** One metadata entry, as loaded from the cache file. */
  type Metadata = map<string, Json>

  /** An f-string interpolation `f"{x}"`: strings as they are, any other
      value through `str`. */
  function Text(show: Json -> string, x: Json): string {
    if x.JStr? then x.s else show(x)
  }

  // ---- get_plugin_choices ----

  /** A `(value, label)` pair of the plugin choice fields. */
  datatype Choice = Choice(key: string, display: string)

  /** An entry is offered as a choice when its category, domain and name
      are all present and truthy. */
  predicate Offered(m: Metadata) {
    Truthy(DictGet(m, "category")) && Truthy(DictGet(m, "domain")) && Truthy(DictGet(m, "name"))
  }

  /** `("{category}_{domain}", "{name} ({category})")`. */
  function ChoiceOf(show: Json -> string, m: Metadata): Choice {
    Choice(Text(show, DictGet(m, "category")) + "_" + Text(show, DictGet(m, "domain")),
           Text(show, DictGet(m, "name")) + " (" + Text(show, DictGet(m, "category")) + ")")
  }

  /** `get_plugin_choices` over the loaded metadata: one choice per offered
      entry, in the order of the file. */
  function PluginChoices(show: Json -> string, metadata: seq<Metadata>): (r: seq<Choice>)
    ensures |r| <= |metadata|
    ensures forall i :: 0 <= i < |metadata| && Offered(metadata[i]) ==> ChoiceOf(show, metadata[i]) in r
    ensures forall c :: c in r ==> exists i :: 0 <= i < |metadata| && Offered(metadata[i]) && ChoiceOf(show, metadata[i]) == c
    ensures (forall i :: 0 <= i < |metadata| ==> Offered(metadata[i])) ==> |r| == |metadata|
  {
    if metadata == [] then []
    else
      var rest := PluginChoices(show, metadata[1..]);
      assert forall i :: 1 <= i < |metadata| ==> metadata[i] == metadata[1..][i - 1];
      if Offered(metadata[0]) then [ChoiceOf(show, metadata[0])] + rest else rest
  }

  /** Choices keep the file order: the choices of a concatenation are the
      choices of each part, one after the other. */
  lemma {:induction false} ChoicesAppend(show: Json -> string, a: seq<Metadata>, b: seq<Metadata>)
    ensures PluginChoices(show, a + b) == PluginChoices(show, a) + PluginChoices(show, b)
  {
    if a == [] {
      EmptyAppend(a, b);
    } else {
      var m, rest := a[0], a[1..];
      ConsAppend(a, b);
      ChoicesAppend(show, rest, b);
      ChoicesCons(show, m, rest);
      ChoicesCons(show, m, rest + b);
    }
  }

  lemma EmptyAppend(a: seq<Metadata>, b: seq<Metadata>)
    requires a == []
    ensures a + b == b
  {
  }

  /** A concatenation split after its first entry. */
  lemma ConsAppend(a: seq<Metadata>, b: seq<Metadata>)
    requires a != []
    ensures a == [a[0]] + a[1..] && a + b == [a[0]] + (a[1..] + b)
  {
  }

  /** One unfolding of `PluginChoices`: the first entry's choice, if it is
      offered, then the choices of the rest. */
  lemma ChoicesCons(show: Json -> string, m: Metadata, rest: seq<Metadata>)
    ensures PluginChoices(show, [m] + rest) == (if Offered(m) then [ChoiceOf(show, m)] else []) + PluginChoices(show, rest)
  {
    assert ([m] + rest)[0] == m && ([m] + rest)[1..] == rest;
  }

  // ---- get_plugin_name ----

  /** An entry whose category and domain are both present and equal to the
      ones asked for. */
  predicate Matches(m: Metadata, category: string, domain: string) {
    DictGet(m, "category") == JStr(category) && DictGet(m, "domain") == JStr(domain)
  }

  /** The first matching entry. */
  function FindEntry(metadata: seq<Metadata>, category: string, domain: string): (r: Option<nat>)
    ensures r.Some? ==> r.value < |metadata| && Matches(metadata[r.value], category, domain)
    ensures r.Some? ==> forall j :: 0 <= j < r.value ==> !Matches(metadata[j], category, domain)
    ensures r.None? <==> forall j :: 0 <= j < |metadata| ==> !Matches(metadata[j], category, domain)
  {
    if metadata == [] then None
    else if Matches(metadata[0], category, domain) then Some(0)
    else match FindEntry(metadata[1..], category, domain)
      case None => None
      case Some(k) => Some(k + 1)
  }

  /** `get_plugin_name` over metadata that is a list of dicts: the first
      matching entry's name, or its domain when it has no name; the domain
      asked for when no entry matches. */
  function PluginName(metadata: seq<Metadata>, category: string, domain: string): (r: Json)
    ensures FindEntry(metadata, category, domain).None? ==> r == JStr(domain)
    ensures FindEntry(metadata, category, domain).Some? ==>
              var m := metadata[FindEntry(metadata, category, domain).value];
              r == if DictGet(m, "name") != JNone then DictGet(m, "name") else JStr(domain)
    ensures r != JNone
  {
    match FindEntry(metadata, category, domain)
    case None => JStr(domain)
    case Some(k) =>
      var name := DictGet(metadata[k], "name");
      if name != JNone then name else DictGet(metadata[k], "domain")
  }

  /** The entries of a list whose items are all dicts. */
  function Dicts(items: seq<Json>): (r: seq<Metadata>)
    requires forall i :: 0 <= i < |items| ==> items[i].JDict?
    ensures |r| == |items| && forall i :: 0 <= i < |items| ==> r[i] == items[i].fields
  {
    seq(|items|, i requires 0 <= i < |items| => items[i].fields)
  }

  /** Item `i` is the first item that is not a dict, and no dict before it
      matches. */
  predicate BlockedAt(items: seq<Json>, i: int, category: string, domain: string) {
    && 0 <= i < |items| && !items[i].JDict?
    && forall j :: 0 <= j < i ==> items[j].JDict? && !Matches(items[j].fields, category, domain)
  }

  /** Past a dict that does not match, the blocking item moves down by one. */
  lemma BlockedShift(items: seq<Json>, category: string, domain: string)
    requires items != [] && items[0].JDict? && !Matches(items[0].fields, category, domain)
    ensures (exists i :: BlockedAt(items, i, category, domain)) <==> (exists i :: BlockedAt(items[1..], i, category, domain))
  {
    if exists i :: BlockedAt(items, i, category, domain) {
      var i :| BlockedAt(items, i, category, domain);
      assert BlockedAt(items[1..], i - 1, category, domain);
    }
    if exists i :: BlockedAt(items[1..], i, category, domain) {
      var i :| BlockedAt(items[1..], i, category, domain);
      assert BlockedAt(items, i + 1, category, domain);
    }
  }

  /** The `get_plugin_name` loop over a loaded list: each item is asked for
      `.get`, so an item that is not a dict raises AttributeError unless a
      matching entry comes before it. */
  function ScanNames(items: seq<Json>, category: string, domain: string): (r: Result<Json>)
    ensures r.Ok? ==> r.value != JNone
    ensures r.Err? ==> r.error == AttributeError
    ensures r.Err? <==> exists i :: BlockedAt(items, i, category, domain)
    ensures (forall i :: 0 <= i < |items| ==> items[i].JDict?) ==> r == Ok(PluginName(Dicts(items), category, domain))
  {
    if items == [] then Ok(JStr(domain))
    else if !items[0].JDict? then
      assert BlockedAt(items, 0, category, domain);
      Err(AttributeError)
    else if Matches(items[0].fields, category, domain) then
      var name := DictGet(items[0].fields, "name");
      Ok(if name != JNone then name else DictGet(items[0].fields, "domain"))
    else
      BlockedShift(items, category, domain);
      ScanRest(items, category, domain);
      ScanNames(items[1..], category, domain)
  }

  /** Past a dict that does not match, a list of dicts names the same plugin
      as its tail. */
  lemma ScanRest(items: seq<Json>, category: string, domain: string)
    requires items != [] && items[0].JDict? && !Matches(items[0].fields, category, domain)
    ensures (forall i :: 0 <= i < |items| ==> items[i].JDict?) ==>
              (forall i :: 0 <= i < |items[1..]| ==> items[1..][i].JDict?)
              && PluginName(Dicts(items), category, domain) == PluginName(Dicts(items[1..]), category, domain)
  {
    if forall i :: 0 <= i < |items| ==> items[i].JDict? {
      assert forall i :: 0 <= i < |items[1..]| ==> items[1..][i] == items[i + 1];
      assert Dicts(items)[1..] == Dicts(items[1..]);
      assert Dicts(items) == [items[0].fields] + Dicts(items[1..]);
    }
  }

  /** `get_plugin_name` on what `load_metadata` read: `file` is the parsed
      cache file, or None when it is missing or cannot be read or parsed,
      which `load_metadata` turns into `[]`. A list is scanned; iterating a
      dict or a string yields strings, which have no `.get`; any other
      JSON value is not iterable. */
  function GetPluginName(file: Option<Json>, category: string, domain: string): (r: Result<Json>)
    ensures file.None? ==> r == Ok(JStr(domain))
    ensures file.Some? && file.value.JList? ==> r == ScanNames(file.value.items, category, domain)
    ensures file.Some? && file.value.JList? && (forall i :: 0 <= i < |file.value.items| ==> file.value.items[i].JDict?) ==>
              r == Ok(PluginName(Dicts(file.value.items), category, domain))
    ensures file.Some? && (file.value == JDict(map[]) || file.value == JStr("")) ==> r == Ok(JStr(domain))
    ensures file.Some? && ((file.value.JDict? && file.value.fields != map[]) || (file.value.JStr? && file.value.s != "")) ==>
              r == Err(AttributeError)
    ensures file.Some? && !file.value.JList? && !file.value.JDict? && !file.value.JStr? ==> r == Err(TypeError)
    ensures r.Ok? ==> r.value != JNone
  {
    match file
    case None => Ok(JStr(domain))
    case Some(loaded) =>
      match loaded
      case JList(items) => ScanNames(items, category, domain)
      case JDict(fields) => if fields == map[] then Ok(JStr(domain)) else Err(AttributeError)
      case JStr(text) => if text == "" then Ok(JStr(domain)) else Err(AttributeError)
      case _ => Err(TypeError)
  }

  // ---- the registry of loaded plugin classes ----

  /** What a registered plugin class reports about itself. */
  datatype PluginInfo = PluginInfo(className: string, languages: seq<string>, nsfwOnly: bool)

  /** A plugin instance: the registered class, or the base class (None). */
  datatype PluginInstance = PluginInstance(cls: Option<string>, nsfw: bool)

  /** `get_plugin_by_key`: an instance of the registered class, or of the
      base class when the key is unknown (an error is logged). */
  function PluginByKey(registry: map<string, PluginInfo>, key: string, nsfw: bool): (p: PluginInstance)
    ensures p.nsfw == nsfw
    ensures key in registry ==> p.cls == Some(registry[key].className)
    ensures key !in registry ==> p.cls == None
  {
    if key in registry then PluginInstance(Some(registry[key].className), nsfw) else PluginInstance(None, nsfw)
  }

  /** `s.removeprefix(p)`. */
  function RemovePrefix(s: string, p: string): (r: string)
    ensures p <= s ==> s == p + r
    ensures !(p <= s) ==> r == s
  {
    if p <= s then s[|p|..] else s
  }

  /** `get_plugins_domains`: every registry key that starts with `category`
      (a bare prefix test, not `category + "_"`), with `"{category}_"`
      removed when present; duplicates collapse. */
  method PluginsDomains(registryKeys: seq<string>, category: string) returns (domains: set<string>)
    ensures domains == set k | k in registryKeys && category <= k :: RemovePrefix(k, category + "_")
  {
    domains := {};
    var i := 0;
    while i < |registryKeys|
      invariant 0 <= i <= |registryKeys|
      invariant domains == set k | k in registryKeys[..i] && category <= k :: RemovePrefix(k, category + "_")
    {
      var key := registryKeys[i];
      if category <= key {
        domains := domains + {RemovePrefix(key, category + "_")};
      }
      assert registryKeys[..i + 1] == registryKeys[..i] + [key];
      i := i + 1;
    }
    assert registryKeys[..i] == registryKeys;
  }

  // ---- sorted language lists ----

  /** Python's string order: code point by code point, a proper prefix
      first. */
  predicate LexLe(a: string, b: string) {
    a == [] || (b != [] && (a[0] < b[0] || (a[0] == b[0] && LexLe(a[1..], b[1..]))))
  }

  lemma {:induction false} LexLeTotal(a: string, b: string)
    ensures LexLe(a, b) || LexLe(b, a)
  {
    if a != [] && b != [] && a[0] == b[0] {
      LexLeTotal(a[1..], b[1..]);
    }
  }

  predicate SortedStrings(s: seq<string>) {
    forall i :: 0 <= i < |s| - 1 ==> LexLe(s[i], s[i + 1])
  }

  function Insert(x: string, s: seq<string>): (r: seq<string>)
    requires SortedStrings(s)
    ensures SortedStrings(r) && multiset(r) == multiset(s) + multiset{x}
    ensures |r| == |s| + 1 && (r[0] == x || (s != [] && r[0] == s[0]))
  {
    if s == [] then [x]
    else if LexLe(x, s[0]) then [x] + s
    else
      LexLeTotal(x, s[0]);
      var rest := Insert(x, s[1..]);
      assert s == [s[0]] + s[1..];
      [s[0]] + rest
  }

  /** `sorted(languages)`. */
  function SortStrings(s: seq<string>): (r: seq<string>)
    ensures SortedStrings(r) && multiset(r) == multiset(s)
  {
    if s == [] then []
    else
      assert s == [s[0]] + s[1..];
      Insert(s[0], SortStrings(s[1..]))
  }

  /** One row of `get_plugins`. */
  datatype PluginRow = PluginRow(category: string, domain: string, name: Json, languages: seq<string>, nsfwOnly: bool)

  /** The row for a registry entry, if its key is a core or community key. */
  function RowFor(metadata: seq<Metadata>, key: string, info: PluginInfo): (r: seq<PluginRow>)
    ensures |r| <= 1
    ensures "core" <= key ==> r == [PluginRow("core", RemovePrefix(key, "core_"), PluginName(metadata, "core", RemovePrefix(key, "core_")), SortStrings(info.languages), info.nsfwOnly)]
    ensures !("core" <= key) && "community" <= key ==> r == [PluginRow("community", RemovePrefix(key, "community_"), PluginName(metadata, "community", RemovePrefix(key, "community_")), SortStrings(info.languages), info.nsfwOnly)]
    ensures !("core" <= key) && !("community" <= key) ==> r == []
  {
    if "core" <= key then
      var domain := RemovePrefix(key, "core_");
      [PluginRow("core", domain, PluginName(metadata, "core", domain), SortStrings(info.languages), info.nsfwOnly)]
    else if "community" <= key then
      var domain := RemovePrefix(key, "community_");
      [PluginRow("community", domain, PluginName(metadata, "community", domain), SortStrings(info.languages), info.nsfwOnly)]
    else []
  }

  /** The rows for a run of registry entries, in registry order. */
  function RowsFor(metadata: seq<Metadata>, entries: seq<(string, PluginInfo)>): seq<PluginRow> {
    if entries == [] then [] else RowsFor(metadata, entries[..|entries| - 1]) + RowFor(metadata, entries[|entries| - 1].0, entries[|entries| - 1].1)
  }

  /** Every row names a core or community plugin, with its languages
      sorted. */
  lemma {:induction false} RowsWellFormed(metadata: seq<Metadata>, entries: seq<(string, PluginInfo)>)
    ensures |RowsFor(metadata, entries)| <= |entries|
    ensures forall r :: r in RowsFor(metadata, entries) ==> (r.category == "core" || r.category == "community") && SortedStrings(r.languages)
  {
    if entries != [] {
      RowsWellFormed(metadata, entries[..|entries| - 1]);
    }
  }

  /** `get_plugins`: one row per core or community registry entry, in
      registry order, with the display name from the metadata cache and the
      languages sorted. */
  method Plugins(metadata: seq<Metadata>, registry: seq<(string, PluginInfo)>) returns (rows: seq<PluginRow>)
    ensures rows == RowsFor(metadata, registry)
  {
    rows := [];
    var i := 0;
    while i < |registry|
      invariant 0 <= i <= |registry|
      invariant rows == RowsFor(metadata, registry[..i])
    {
      var added := EntryRows(metadata, registry[i].0, registry[i].1);
      RowsForStep(metadata, registry, i);
      assert rows + added == RowsFor(metadata, registry[..i + 1]);
      rows := rows + added;
      i := i + 1;
    }
    assert registry[..i] == registry;
  }

  /** The body of the `get_plugins` loop for one registry entry: a core
      key and a community key each append their row. */
  method EntryRows(metadata: seq<Metadata>, key: string, info: PluginInfo) returns (added: seq<PluginRow>)
    ensures added == RowFor(metadata, key, info)
  {
    added := [];
    if "core" <= key {
      var domain := RemovePrefix(key, "core_");
      added := added + [PluginRow("core", domain, PluginName(metadata, "core", domain), SortStrings(info.languages), info.nsfwOnly)];
    }
    if "community" <= key {
      CommunityIsNotCore(key);
      var domain := RemovePrefix(key, "community_");
      added := added + [PluginRow("community", domain, PluginName(metadata, "community", domain), SortStrings(info.languages), info.nsfwOnly)];
    }
  }

  /** No key starts with both `community` and `core`. */
  lemma CommunityIsNotCore(key: string)
    requires "community" <= key
    ensures !("core" <= key)
  {
    assert key[2] == 'm';
  }

  /** One more registry entry adds its row, if any, at the end. */
  lemma RowsForStep(metadata: seq<Metadata>, registry: seq<(string, PluginInfo)>, i: nat)
    requires i < |registry|
    ensures RowsFor(metadata, registry[..i + 1]) == RowsFor(metadata, registry[..i]) + RowFor(metadata, registry[i].0, registry[i].1)
  {
    assert registry[..i + 1][..i] == registry[..i];
  }
}
