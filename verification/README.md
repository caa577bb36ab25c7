# Mangarr core, modelled in Dafny

Mangarr is a self-hosted manga library manager. It keeps manga, volumes and chapters whose metadata fields can each be *locked* against automatic overwrites. It watches sources through plugins. A background sweep turns stale mangas into jobs, downloads new chapters into `.cbz` archives with a ComicInfo document, and tells media servers (Kavita) to rescan the libraries it touched.

This project models that core and proves properties of the model. The record store becomes maps keyed by primary key or url, plus a sequence where table order matters. `get_or_create` is lookup-or-insert. Plugin calls, hashing, zip and XML writing, and Python's `str`/`int`/`float`/`isoformat` are inputs or function-typed parameters (`PyValues.Builtins`).

| file | module | models |
|---|---|---|
| py_values.dfy | PyValues | Python values (`Json`): None, bool, int, float (as a real), str, list, dict, temporal values, enum members; the exceptions; truthiness, `dict.get`, decimal text |
| lockable_fields.dfy | LockableFields | the lockable-field proxy (`set_value`, `lock`, `unlock`, the `_get_data` repair), the field's database conversions, and the datetime and enum validators and conversions |
| legacy_types.dfy | DataTypes | the older standalone String/Bool/Int/Float/Date/Enum lockable types, whose locked writes are silently dropped |
| manga_models.dfy | MangaModels | `update_fields` of Manga, Volume and Chapter as a table of field blocks; the shallow `arguments` merge; `choose_plugin`; `set_file_folder_path`; `Library.make_default`; `MangaRequest` |
| comic_info.dfy | ComicInfo | the manga → volume → chapter ComicInfo dict, `create_xml` and `get_file_name` |
| processes.dfy | Processes | `process_exists`, `make_json_serializable`, job saving, `MonitorManga.update` and `MonitorChapter.update` over a store of tables, volume lookup, page naming, archive writing |
| tasks.dfy | Tasks | `update_updates`, the `monitoring` sweep and `trigger_monitor`, and how the sweep's queries relate to `process_exists` |
| process_utils.dfy | ProcessUtils | `convert_datetime`, `wait_for_file`, `move_file` |
| consumers.dfy | Consumers | `deep_merge` and the progress snapshot of `ProcessesConsumer` |
| filenames.dfy, core_utils.dfy | MangaUtils, CoreUtils | `make_valid_filename`, `sanitize_ascii`, `generate_unique_token` |
| search_cache.dfy | SearchCache | the search-result cache |
| plugin_utils.dfy, plugin_manager.dfy | PluginUtils, PluginManager | plugin choice, name, key and domain lookups, and the plugin metadata file updates |
| connectors.dfy | ConnectorClient, ConnectorModels | the `skip_if_errored` latch and `ip`, connector validation, subclass lookup and `notify` |
| language_redirect.dfy, users_utils.dfy | LanguageRedirect, UserUtils | the language-prefix redirect and API token lookup |

The model follows the code as written:
- `MonitorManga.update` neither sorts nor de-duplicates the chapter list. Uniqueness comes only from `get_or_create` on the unique job url.
- It does not stamp the manga's `last_update`, and the store's refresh leaves it unchanged (see Findings).
- A volume created for a chapter gets its number only in memory, so the store keeps a blank volume with number 0.0 (see Findings). The chapter still holds that in-memory volume, so its archive's file name uses the job's volume number.
- It queues a chapter through `get_or_create` one at a time, not as a batch.
- The sweep passes `library=` and `manga=` to `MonitorManga.objects.get_or_create` and reads `manga_monitor.library`, but `MonitorManga` has neither field. So every promotion raises FieldError, every manga run ends in an AttributeError, and neither phase marks a library (see Findings).
- The job's `update` signals "already downloaded" and "no pages" by exceptions that are not defined in mangarr/processes/models.py. The sweep therefore takes each chapter job's outcome as an input (`Tasks.Signal`).

## Model

| member | source | states |
|---|---|---|
| MangaUtils.ReplaceInvalid | mangarr/database/manga/utils.py:10 | after the substitution no rejected character is left except inside the replacement, and a name without rejected characters is unchanged |
| MangaUtils.ReplaceOneForOne | mangarr/database/manga/utils.py:10 | with a one-character replacement the length is kept, each rejected character becomes the replacement and every other character stays in place |
| MangaUtils.ReplaceInvalidAppend | mangarr/database/manga/utils.py:10 | the substitution of a concatenation is the concatenation of the substitutions |
| MangaUtils.Strip | mangarr/database/manga/utils.py:13 | `strip` keeps the contiguous slice after the leading run; everything after the slice belongs to the trailing run; the result neither starts nor ends with a stripped character |
| MangaUtils.StripIdempotent | mangarr/database/manga/utils.py:13 | stripping twice is stripping once |
| MangaUtils.StripKeepsEnd | mangarr/database/manga/utils.py:13 | when the last character is not stripped, only a leading run is removed, and that run ends before any kept character |
| MangaUtils.MakeValidFilename | mangarr/database/manga/utils.py:5-16 | the result has at most 255 characters; it is a prefix of the substituted and stripped name, and equal to it when that fits; it never starts with `.`; with an accepted replacement it holds no rejected character |
| MangaUtils.UnderscoreIsValid | mangarr/database/manga/utils.py:5-16 | with the default `_` replacement the result holds none of `<>:"/\|?*`, newline, carriage return or tab |
| CoreUtils.ReplaceSpaces | mangarr/core/utils.py:31 | the space replacement keeps the length |
| CoreUtils.ReplaceNonAscii | mangarr/core/utils.py:32 | the non-ASCII replacement keeps the length |
| CoreUtils.ReplaceNonWord | mangarr/core/utils.py:33 | the pattern substitution keeps the length |
| CoreUtils.SanitizeAscii | mangarr/core/utils.py:30-34 | `sanitize_ascii` keeps the length |
| CoreUtils.SanitizeAsciiPointwise | mangarr/core/utils.py:30-34 | position by position, ASCII letters, digits, `_` and `-` are kept and every other character, spaces and non-ASCII included, becomes `_` |
| CoreUtils.SanitizeAsciiAlphabet | mangarr/core/utils.py:31-33 | every output character is in `[A-Za-z0-9_-]` |
| CoreUtils.SanitizeAsciiIdempotent | mangarr/core/utils.py:30-34 | sanitising twice is sanitising once |
| CoreUtils.GenerateUniqueToken | mangarr/core/utils.py:15-19 | the token returned is held by no stored record and is the first such draw; there is no token exactly when every draw is taken |
| UserUtils.ExtractToken | mangarr/database/users/utils.py:12-15 | a missing or empty header, or one without the exact `Bearer ` prefix, yields no token; otherwise the token is the rest of the header, stripped of surrounding whitespace |
| UserUtils.FirstProfile | mangarr/database/users/utils.py:9 | `.filter(token=...).first()` finds the first profile holding the token; there is none exactly when no profile holds it |
| UserUtils.ValidateToken | mangarr/database/users/utils.py:11-16 | the header validates exactly when it is well-formed and its token belongs to some profile |
| UserUtils.GetUserByToken | mangarr/database/users/utils.py:4-9 | a malformed header gives None; an unknown token raises AttributeError (`.user` on None); otherwise the user of a profile holding the token |
| UserUtils.ValidateMatchesLookup | mangarr/database/users/utils.py:4-16 | a header validates exactly when the user lookup finds someone; a header that does not validate gives None or raises |
| LanguageRedirect.MatchPrefix | mangarr/core/middleware/language_redirect.py:5 | the anchored pattern matches a configured key exactly when the path starts with `/key/`; no match means no key prefixes the path that way |
| LanguageRedirect.Handle | mangarr/core/middleware/language_redirect.py:12-22 | a path without a language prefix, or with the default one, passes through; otherwise the redirect replaces the leading `/<lang>/` by `/<default>/` and keeps the rest |
| LanguageRedirect.RedirectTargetPassesThrough | mangarr/core/middleware/language_redirect.py:16-20 | the redirect target itself passes through, so a client is redirected at most once |
| LanguageRedirect.BarePrefixNotMatched | mangarr/core/middleware/language_redirect.py:5 | `/cs` without a trailing slash passes through, while `/cs/manga` is redirected to `/en/manga` |
| SearchCache.ResultCache.constructor | mangarr/api/search_cache.py:4 | the cache starts empty |
| SearchCache.ResultCache.GetResult | mangarr/api/search_cache.py:29-31 | the entry stored under `str(task_id)`, or None for an unknown id |
| SearchCache.ResultCache.MarkProcessing | mangarr/api/search_cache.py:7-12 | afterwards the search's status is `processing`; other entries are unchanged |
| SearchCache.ResultCache.StoreResult | mangarr/api/search_cache.py:14-20 | afterwards the search's status is `done` with the data, overwriting any earlier entry; other entries are unchanged |
| SearchCache.ResultCache.RemoveResult | mangarr/api/search_cache.py:25-27 | afterwards the search has no entry; only that entry is dropped, and an unknown id leaves the cache as it was |
| SearchCache.SameKeySameEntry | mangarr/api/search_cache.py:29-31 | two ids with the same string form read the same entry |
| Consumers.DeepMerge | mangarr/websockets/consumers.py:20-31 | the merged keys are exactly the keys of both sides; a key only in the snapshot keeps its value; the patch's value wins unless both sides hold a dict, in which case the result is again a dict |
| Consumers.MergeNested | mangarr/websockets/consumers.py:22-28 | where both sides hold a dict, the merged value is the recursive merge of the two |
| Consumers.MergeEmptyPatch | mangarr/websockets/consumers.py:21-31 | merging an empty patch gives back the snapshot |
| Consumers.MergeIntoEmpty | mangarr/websockets/consumers.py:22-31 | merging into an empty snapshot gives the patch |
| Consumers.MergeIdempotent | mangarr/websockets/consumers.py:20-31 | merging a snapshot with itself changes nothing |
| Consumers.MergePatchTwice | mangarr/websockets/consumers.py:20-31 | applying the same patch twice is applying it once |
| Consumers.ProcessesConsumer.constructor | mangarr/websockets/consumers.py:35-46 | a connection starts with `scanning.manga`, `scanning.chapters`, `downloading.current` and `downloading.of` all 0 |
| Consumers.ProcessesConsumer.SendUpdate | mangarr/websockets/consumers.py:60-63 | the snapshot becomes its merge with the patch and is what is sent; keys the patch does not mention keep their values; no key is lost |
| Consumers.PartialPatchKeepsCounters | mangarr/websockets/consumers.py:60-63 | after a patch that only sets `downloading.current`, the scan counters and `downloading.of` keep their values |
| ProcessUtils.ConvertDatetime | mangarr/processes/utils.py:6-14 | dict keys and list lengths are kept; every datetime leaf becomes its `strftime` text and no datetime is left; dates, times and other leaves are unchanged; a value without datetimes comes back as it was |
| ProcessUtils.ConvertDatetimeIdempotent | mangarr/processes/utils.py:6-14 | converting twice is converting once |
| ProcessUtils.WaitForFile | mangarr/processes/utils.py:16-23 | True exactly at the first poll that sees the file, and every earlier poll missed it; False only after every poll missed and the accumulated sleep reached the timeout; no poll starts at or after the timeout |
| ProcessUtils.FileSystem.constructor | mangarr/processes/utils.py:25 | the file system holds the files given |
| ProcessUtils.FileSystem.MoveFile | mangarr/processes/utils.py:25-41 | a missing source raises FileNotFoundError and changes nothing; success means the destination holds the source's bytes and the source is gone, by a single rename when that works; the destination only ever ends as it was or with the source's bytes; the `.partial` file never survives the fallback; no other file changes; a failure re-raises OSError with the source intact |
| PluginUtils.PluginChoices | mangarr/plugins/utils.py:7-12 | exactly the entries with truthy category, domain and name give a choice `("{category}_{domain}", "{name} ({category})")`, one per entry |
| PluginUtils.ChoicesAppend | mangarr/plugins/utils.py:7-12 | choices follow the file order: the choices of a concatenation are the concatenation of the choices |
| PluginUtils.FindEntry | mangarr/plugins/utils.py:27-30 | the first entry whose category and domain are present and equal to those asked for; None exactly when no entry matches |
| PluginUtils.ScanNames | mangarr/plugins/utils.py:27-33 | the loop over a loaded list raises AttributeError exactly when an item that is not a dict comes before any matching entry; on a list of dicts it gives `PluginName` of those dicts; a result is never None |
| PluginUtils.GetPluginName | mangarr/plugins/utils.py:14-33 | a missing or unreadable cache file gives the domain asked for, as `load_metadata` returns `[]`; a loaded list is scanned, and a list of dicts gives `PluginName`; an empty dict or string gives the domain; a non-empty dict or string raises AttributeError; any other value raises TypeError |
| PluginUtils.PluginName | mangarr/plugins/utils.py:25-33 | the first match's name, or its domain when the name is missing; the domain asked for when nothing matches; never None |
| PluginUtils.PluginByKey | mangarr/plugins/utils.py:37-44 | an instance of the registered class for a known key and of the base class otherwise, with the nsfw flag passed on |
| PluginUtils.RemovePrefix | mangarr/plugins/utils.py:55 | with the prefix present, prefix plus result is the input; otherwise the input is unchanged |
| PluginUtils.PluginsDomains | mangarr/plugins/utils.py:49-56 | exactly the registry keys starting with the category, each with `"{category}_"` removed, as a set |
| PluginUtils.LexLeTotal | mangarr/plugins/utils.py:65 | the string order used by `sorted` is total |
| PluginUtils.Insert | mangarr/plugins/utils.py:65 | inserting into a sorted list keeps it sorted and adds exactly that element |
| PluginUtils.SortStrings | mangarr/plugins/utils.py:65 | `sorted(languages)` is sorted and a permutation of the input |
| PluginUtils.RowFor | mangarr/plugins/utils.py:63-68 | a `core` key gives one core row, a `community` key one community row, any other key none; each row carries the stripped domain, the metadata name, the sorted languages and the nsfw flag |
| PluginUtils.RowsWellFormed | mangarr/plugins/utils.py:58-69 | at most one row per registry entry, every row core or community, every language list sorted |
| PluginUtils.Plugins | mangarr/plugins/utils.py:58-69 | `get_plugins` yields exactly the rows of the registry entries, in registry order |
| PluginUtils.EntryRows | mangarr/plugins/utils.py:63-68 | the two `startswith` tests of one loop step add exactly that entry's row, if any |
| PluginUtils.CommunityIsNotCore | mangarr/plugins/utils.py:63-66 | no key starts with both `core` and `community`, so the two tests never both add a row |
| PluginUtils.RowsForStep | mangarr/plugins/utils.py:62-68 | each registry entry adds its row after the rows of the entries before it |
| PluginManager.ManifestEntry | mangarr/plugins/manager.py:18-28 | the entry keeps the manifest's other keys and sets the normalised version, the source repo, the category, the installed version (None when not installed) and `has_update` true exactly when installed and strictly older; a missing version or domain raises KeyError and an unparsable version ValueError |
| PluginManager.EntriesFor | mangarr/plugins/manager.py:15-28 | at most one entry per repository; when no manifest is usable there are none |
| PluginManager.AllEntries | mangarr/plugins/manager.py:10-28 | every entry carries the category of one of the source lists; without a usable manifest there are none |
| PluginManager.CollectCategory | mangarr/plugins/manager.py:15-28 | the loop over one category's repositories builds exactly its entries, or stops at the first error |
| PluginManager.MetadataFile.constructor | mangarr/plugins/manager.py:30-31 | the cache file holds the content given |
| PluginManager.MetadataFile.UpdateMetadata | mangarr/plugins/manager.py:10-31 | the file is rewritten once with the entries of every source list in order; when building raises, the file is left as it was |
| PluginManager.MetadataFile.UpdateDownloadedMetadata | mangarr/plugins/manager.py:33-56 | only the first entry with the domain gets the normalised downloaded version (None without one) and `has_update` false, and only then is the file written; no match writes nothing; a missing file reads as an empty list; an unparsable version raises before any change |
| PluginManager.FirstWithDomain | mangarr/plugins/manager.py:42-43 | the first entry whose domain matches; None exactly when none does |
| PluginManager.DownloadedValue | mangarr/plugins/manager.py:44-47 | None without a version, the normalised version text otherwise |
| PluginManager.EntriesErrorSticks | mangarr/plugins/manager.py:15-28 | once building the entries raises on a prefix of the repositories, the whole list raises the same error |
| PluginManager.AllEntriesErrorSticks | mangarr/plugins/manager.py:13-28 | once a source list raises, the whole rebuild raises the same error |
| PluginManager.FailedFetchAddsNothing | mangarr/plugins/manager.py:16-17 | a repository whose manifest could not be fetched adds no entry |
| ConnectorClient.Connector.constructor | mangarr/connectors/connectors/base.py:22-26 | the client keeps its address, port and ssl flag and starts with the latch cleared |
| ConnectorClient.Connector.Ip | mangarr/connectors/connectors/base.py:29-35 | `http://ip:port`, or `https://` with ssl, from the resolved address; None when resolution fails |
| ConnectorClient.Connector.SkipIfErrored | mangarr/connectors/connectors/base.py:7-19 | a set latch skips the body and returns None; a raise sets the latch and returns False; a return passes the value on and leaves the latch cleared; a set latch is never cleared |
| ConnectorClient.LatchResult | mangarr/connectors/connectors/base.py:8-17 | the wrapped call returns None when skipped, the body's value when it returns, False when it raised; it never raises |
| ConnectorClient.LatchAfter | mangarr/connectors/connectors/base.py:7-19 | after a run of calls the latch is set exactly when it was set before or some body raised |
| ConnectorClient.NoCallRunsAfterFailure | mangarr/connectors/connectors/base.py:9-17 | after the first raise, every later call is skipped |
| ConnectorModels.Clean | mangarr/connectors/models.py:24-33 | a record without a library raises RelatedObjectDoesNotExist; otherwise ValidationError exactly when another row, excluded by primary key, serves the same library and is seen by the query (a query on the base class sees rows of every class, one on a subclass only its own) |
| ConnectorModels.FullClean | mangarr/connectors/models.py:56-62 | a missing library raises RelatedObjectDoesNotExist, which `full_clean` does not turn into a ValidationError; a failing `clean` or a duplicate Kavita library id is a ValidationError; a pass means all three checks hold |
| ConnectorModels.ConnectorTable.constructor | mangarr/connectors/models.py:11-18 | the table starts empty |
| ConnectorModels.ConnectorTable.Save | mangarr/connectors/models.py:56-58 | the row is stored only when `full_clean` passes, otherwise the table is unchanged; at most one connector of a class per library is kept as an invariant |
| ConnectorModels.Lower | mangarr/connectors/models.py:47 | `str.lower` keeps the length and lower-cases exactly the ASCII capitals |
| ConnectorModels.AvailableConnectors | mangarr/connectors/models.py:43-47 | one `(lower-cased name, name)` pair per subclass, in declaration order |
| ConnectorModels.MatchIndex | mangarr/connectors/models.py:51-53 | the scan stops at the first subclass matching without regard to case, and every earlier one differs |
| ConnectorModels.SubclassByName | mangarr/connectors/models.py:49-54 | the first subclass whose lower-cased name equals the lower-cased name asked for; ValueError exactly when none does |
| ConnectorModels.AvailableNamesResolve | mangarr/connectors/models.py:43-54 | every name offered by `get_available_connectors` is found again by `get_subclass_by_name` |
| ConnectorModels.LowerIdempotent | mangarr/connectors/models.py:47 | lower-casing twice is lower-casing once |
| ConnectorModels.Notify | mangarr/connectors/models.py:35-37 | the base record reports False; a Kavita record reports True exactly when the client call did not raise |
| ConnectorModels.KavitaFailureReportedAsSuccess | mangarr/connectors/models.py:75-80 | with the client wrapper in front, a failed scan request is still reported as success |
| ConnectorModels.KavitaNotifyAsWritten | mangarr/connectors/models.py:75-80 | with the client wrapper in front, the Kavita record reports success whatever the scan request did |
| ConnectorModels.KavitaNotifyChecked | mangarr/connectors/models.py:75-80 | reading the wrapper's result, a raise is reported as failure and a completed call as success |
| LockableFields.DefaultStructure | mangarr/database/manga/lockable_fields.py:14-19 | the default structure has exactly the keys `value` and `locked`, holds the field default and is unlocked |
| LockableFields.Wrap | mangarr/database/manga/lockable_fields.py:33 | a bare value is wrapped as an unlocked `{value, locked}` dict holding it |
| LockableFields.GetData | mangarr/database/manga/lockable_fields.py:111-122 | a stored dict with both keys is used as it is; anything else, a missing entry included, reads as `{value: default, locked: False}` |
| LockableFields.Coerce | mangarr/database/manga/lockable_fields.py:156-163 | a validator's result is taken as it is; a value type leaves None alone and converts everything else; a ValueError or TypeError of the conversion becomes ValidationError and any other error propagates unchanged |
| LockableFields.SetValueOn | mangarr/database/manga/lockable_fields.py:151-166 | a non-forced write to a locked field raises ValidationError; the write succeeds exactly when unlocked or forced and the coercion succeeds; then only `value` changes and the lock is kept; a coercion error is raised as it is |
| LockableFields.LockOn | mangarr/database/manga/lockable_fields.py:168-172 | `lock()` sets the lock and changes no other key |
| LockableFields.UnlockOn | mangarr/database/manga/lockable_fields.py:174-178 | `unlock()` clears the lock and changes no other key |
| LockableFields.LockedFieldWrites | mangarr/database/manga/lockable_fields.py:151-172 | after `lock()` a non-forced write raises, and a forced write stores the coerced value and leaves the field locked |
| LockableFields.PrepValue | mangarr/database/manga/lockable_fields.py:25-34 | a dict is stored as it is; any other value is stored wrapped and unlocked |
| LockableFields.FromDbValue | mangarr/database/manga/lockable_fields.py:36-54 | None becomes the default structure; a dict with both keys is returned unchanged; an unparsable string is wrapped as it is; a parsed string goes through the structure check; anything else is wrapped; the result always has both keys |
| LockableFields.FromDbParsed | mangarr/database/manga/lockable_fields.py:49-54 | a parsed value with both keys is kept, anything else is wrapped |
| LockableFields.PrepFromDbRoundTrip | mangarr/database/manga/lockable_fields.py:25-54 | loading what was stored gives back a structured dict unchanged and any other value, None included, wrapped |
| LockableFields.DefaultValue | mangarr/database/manga/lockable_fields.py:227-319 | each field class uses a truthy configured default, otherwise `""`, `[]`, False, 0, 0.0 or 1900-01-01 12:00 UTC; an enum field's default is always one of its member values |
| LockableFields.ReplaceZ | mangarr/database/manga/lockable_fields.py:356 | no `Z` is left, and a string without `Z` is unchanged |
| LockableFields.ValidateDateTime | mangarr/database/manga/lockable_fields.py:340-364 | None stays None; a datetime is kept; a string is accepted exactly when it parses as ISO 8601 once `Z` is spelled `+00:00`, and then it becomes the parsed datetime; a string that does not parse and any other value raise ValidationError |
| LockableFields.DateTimeFromDb | mangarr/database/manga/lockable_fields.py:321-335 | the base normalisation's keys and lock are kept; a stored string that `fromisoformat` reads becomes that datetime; any other stored value is the base normalisation's |
| LockableFields.DateTimePrep | mangarr/database/manga/lockable_fields.py:369-389 | a datetime value is stored as its ISO text, keys and lock kept; any other data is stored as it is |
| LockableFields.FindMember | mangarr/database/manga/lockable_fields.py:434-436 | the first member whose value equals the input under Python `==` (1, 1.0 and True agree) or whose name equals it; None exactly when no member matches |
| LockableFields.FindValue | mangarr/database/manga/lockable_fields.py:456-459 | the first member whose value equals the stored value under Python `==`; None exactly when none does |
| LockableFields.ValidateEnum | mangarr/database/manga/lockable_fields.py:424-442 | None stays None; a member is kept; otherwise the first member whose value equals the input under Python `==` or whose name equals it, or ValidationError when none does; an accepted value is always a member |
| LockableFields.EnumPrep | mangarr/database/manga/lockable_fields.py:465-485 | a member is stored as its `.value`, keys and lock kept; anything else is stored as it is |
| LockableFields.EnumFromDb | mangarr/database/manga/lockable_fields.py:447-463 | a stored value equal under Python `==` to a member's value becomes the first such member; None and unknown values stay raw; keys and lock are kept |
| LockableFields.FindValueOfMember | mangarr/database/manga/lockable_fields.py:456-459 | in an enum with distinct values, the member found for member `i`'s value is `i` itself |
| LockableFields.EnumRoundTrip | mangarr/database/manga/lockable_fields.py:447-485 | storing a member and loading it back gives the same data dict, with the same member |
| LockableFields.EnumUnknownStaysRaw | mangarr/database/manga/lockable_fields.py:452-461 | a stored value that equals no member's value under Python `==` is left raw |
| LockableFields.LockableField.constructor | mangarr/database/manga/lockable_fields.py:104-109 | the proxy binds the field's name, default, coercion and the instance's raw entry |
| LockableFields.LockableField.LoadData | mangarr/database/manga/lockable_fields.py:111-122 | returns the data the proxy sees and leaves it installed on the instance; a well-formed entry is left untouched, anything else is replaced by the default structure |
| LockableFields.LockableField.SetValue | mangarr/database/manga/lockable_fields.py:140-166 | the instance ends up holding the result of the data-dict write, or the data as it was when that raises; the lock never changes; a failed write keeps the value; a locked, non-forced write raises ValidationError |
| LockableFields.LockableField.Lock | mangarr/database/manga/lockable_fields.py:168-172 | afterwards the field is locked and its value unchanged |
| LockableFields.LockableField.Unlock | mangarr/database/manga/lockable_fields.py:174-178 | afterwards the field is unlocked and its value unchanged |
| LockableFields.LockableField.Assign | mangarr/database/manga/lockable_fields.py:89-96 | a full `{value, locked}` dict replaces the entry regardless of the lock; any other value is a non-forced `set_value` |
| LockableFields.LockableField.EnumPrepValue | mangarr/database/manga/lockable_fields.py:465-476 | what is stored is the data with the member replaced by its value, while the live data keeps the member |
| DataTypes.TypeDefaults | mangarr/database/data_types/models.py:9-14 | each type's default dict has exactly `value` and `locked`, unlocked, with the value the getter falls back to |
| DataTypes.FillDefaultsIdempotent | mangarr/database/data_types/models.py:65-70 | saving twice fills the same defaults as saving once |
| DataTypes.GetValue | mangarr/database/data_types/models.py:43-369 | String, Bool, Int and Float return the stored value or the type default when `value` is absent; DateType parses the stored or default text with `strptime`, raising ValueError when it does not parse and TypeError for a non-string; an enum type without `value` raises KeyError, yields the first member whose value equals the stored one under Python `==` whenever one does, and raises ValueError when none does |
| DataTypes.SetterBody | mangarr/database/data_types/models.py:232-240 | String and Bool store the value; Int and Float store `int(x)`/`float(x)` or raise; DateType re-formats a parsed string or a datetime, only logs a parse failure and saves without assigning for any other type; an enum type stores the member's `.value` |
| DataTypes.EnumSetGetRoundTrip | mangarr/database/data_types/models.py:278-286 | an enum member written through the setter reads back as the same member |
| DataTypes.LegacyField.constructor | mangarr/database/data_types/models.py:41 | a record starts with its `_data` and nothing persisted |
| DataTypes.LegacyField.Save | mangarr/database/data_types/models.py:65-70 | the type's defaults fill the missing keys only, and that dict is what is persisted |
| DataTypes.LegacyField.SetValue | mangarr/database/data_types/models.py:17-23 | while locked the write is a silent no-op: no change, no save, no error; otherwise the setter body's effect, followed by a save when it assigned or saved |
| DataTypes.LegacyField.Lock | mangarr/database/data_types/models.py:57-59 | only `locked` is set, then the record is saved and reads as locked |
| DataTypes.LegacyField.Unlock | mangarr/database/data_types/models.py:61-63 | only `locked` is cleared, then the record is saved and reads as unlocked |
| DataTypes.LockKeepsValue | mangarr/database/data_types/models.py:43-70 | locking and saving never changes what a String, Bool, Int or Float getter returns |
| MangaModels.FieldData | mangarr/database/manga/lockable_fields.py:111-122 | a field block always reads a dict with both `value` and `locked` |
| MangaModels.PreConvert | mangarr/database/manga/models.py:606-619 | `Formats(int(x))`/`AgeRating(int(x))`: the result is the member whose value is `int(x)`; a failing `int` raises its own error and an int that no member holds raises ValueError, both before `set_value` |
| MangaModels.ApplyField | mangarr/database/manga/models.py:157-164 | only the block's own attribute changes; a patch without the key and lock key changes nothing; the block raises exactly when the conversion or `set_value` raises, and then keeps the data; a locked field written without `force` raises ValidationError; on success the value is the coerced patch value and a non-None lock key sets the lock to its truth value, otherwise the lock is kept |
| MangaModels.Installed | mangarr/database/manga/lockable_fields.py:120-127 | a dict written to the instance is what the proxy reads back, and no other attribute moves |
| MangaModels.AddLinks | mangarr/database/manga/models.py:145-150 | one alternative-name row per name in order, each holding the name's coerced value; a raise stops the loop with the earlier rows kept |
| MangaModels.ApplyStep | mangarr/database/manga/models.py:175-182 | a field block is `ApplyField`; the alternative-names block only adds rows; the `alt_names_lock` block raises exactly when the key holds a value; `source_url` is copied when present and never raises |
| MangaModels.RunExtends | mangarr/database/manga/models.py:156-218 | when the first blocks pass, the next block runs on their result |
| MangaModels.RunStopsAtFailure | mangarr/database/manga/models.py:156-221 | once a block has raised, no later block runs |
| MangaModels.RunKeepsUntouched | mangarr/database/manga/models.py:156-218 | a field whose key and lock key the patch leaves out keeps its entry, and saved alternative names are never dropped |
| MangaModels.LockKeyIgnoresForce | mangarr/database/manga/models.py:160-164 | without a value key, the lock key acts the same with or without `force` |
| PyValues.DictUpdate | mangarr/database/manga/models.py:220 | `{**a, **b}`, as in the arguments merge here and the default filling of mangarr/database/data_types/models.py:65-70: the keys are both sides' keys, keys of `b` take its values and every other key of `a` keeps its own |
| PyValues.PyEq | mangarr/database/manga/lockable_fields.py:434-459 | Python `==`: equal values are equal, and a non-number equals only itself; a number never equals a non-number |
| MangaModels.ShallowMergeAgreesWithDeep | mangarr/database/manga/models.py:220 | the shallow merge equals the recursive progress merge when no key holds a dict on both sides |
| MangaModels.ShallowMergeReplacesNested | mangarr/database/manga/models.py:220 | a nested dict in the patch replaces the stored one whole, losing keys the recursive merge would keep |
| MangaModels.MangaSteps | mangarr/database/manga/models.py:156-218 | the manga table has its eight blocks, the name first |
| MangaModels.VolumeSteps | mangarr/database/manga/models.py:315-341 | the volume table has its three blocks |
| MangaModels.ChapterSteps | mangarr/database/manga/models.py:430-654 | the chapter table has its twenty blocks, `source_url` last |
| MangaModels.LockedMangaNameRefused | mangarr/database/manga/models.py:157-158 | a non-forced patch of a locked manga name raises ValidationError at the first block and keeps the name |
| MangaModels.Record.constructor | mangarr/database/manga/models.py:94-107 | a record binds its update table, state, arguments and stored row |
| MangaModels.Record.UpdateFields | mangarr/database/manga/models.py:156-221 | the state is that of the blocks run in order until the first raise; only when all pass are the arguments shallow-merged and the row saved; a raise leaves arguments and the stored row unchanged |
| MangaModels.Manga.constructor | mangarr/database/manga/models.py:94-107 | a manga binds its url, plugin and folder |
| MangaModels.Manga.ChoosePlugin | mangarr/database/manga/models.py:134-143 | a bound plugin is never replaced; an empty one takes the key when it is offered; an unknown key changes nothing |
| MangaModels.Manga.SetFileFolderPath | mangarr/database/manga/models.py:128-132 | the folder is the safe form of the name, or of the url's hash when no name is given: at most 255 characters and none rejected |
| MangaModels.LibraryTable.constructor | mangarr/database/manga/models.py:18-21 | the table starts empty |
| MangaModels.LibraryTable.MakeDefault | mangarr/database/manga/models.py:33-36 | every other library loses the flag, the instance is saved with it, and afterwards exactly one library is the default |
| MangaModels.RequestPluginName | mangarr/database/manga/models.py:51-59 | the label of the first choice with the key, or the key when no choice has it |
| MangaModels.MangaRequest.constructor | mangarr/database/manga/models.py:38-42 | a request binds its plugin and variables |
| MangaModels.MangaRequest.ChoosePlugin | mangarr/database/manga/models.py:61-68 | the key `"{category}_{domain}"` is taken when offered, whatever was bound before; otherwise nothing changes |
| MangaModels.RequestTable.constructor | mangarr/database/manga/models.py:38 | the table starts empty |
| MangaModels.RequestTable.Save | mangarr/database/manga/models.py:85-89 | a request without a url raises and stores nothing; otherwise it is stored, after which `request_exist` finds its url; every stored request keeps having a url |
| ComicInfo.LookupAppend | mangarr/database/manga/models.py:806 | in a concatenation the first part that has the key decides |
| ComicInfo.LookupAbsent | mangarr/database/manga/models.py:806 | a key no entry has reads as None |
| ComicInfo.LookupAt | mangarr/database/manga/models.py:806 | the first entry with the key gives its value |
| ComicInfo.Replaced | mangarr/database/manga/models.py:370-371 | an overlay keeps the first dict's keys in place |
| ComicInfo.ReplacedLookup | mangarr/database/manga/models.py:370-371 | the first dict's keys take the second dict's values where it has them |
| ComicInfo.FreshLookup | mangarr/database/manga/models.py:370-372 | exactly the second dict's keys that the first lacks are appended |
| ComicInfo.Overlay | mangarr/database/manga/models.py:370-372 | `{**a, **b}` keeps `a`'s keys first and in order |
| ComicInfo.OverlayLookup | mangarr/database/manga/models.py:370-372 | a key of `{**a, **b}` has `b`'s value when `b` has it, else `a`'s |
| ComicInfo.OverlayChain | mangarr/database/manga/models.py:778-801 | of several layers, the last one that has a key decides its value |
| ComicInfo.Join | mangarr/database/manga/models.py:268 | `", ".join` of nothing is empty and of one item is that item |
| ComicInfo.JoinSnoc | mangarr/database/manga/models.py:268 | joining one more item after at least one appends `, ` and that item |
| ComicInfo.JoinValue | mangarr/database/manga/models.py:783-795 | a str or a list of str joins (a str character by character); anything else, a list holding a non-str included, raises TypeError |
| ComicInfo.JoinEach | mangarr/database/manga/models.py:783-795 | the fields join one after the other: all join exactly when each is joinable, each result is that field's join, and a failure is a TypeError |
| ComicInfo.Display | mangarr/database/manga/models.py:304-308 | a float with no fractional part is shown as the equal int; anything else as it is |
| ComicInfo.MemberLabel | mangarr/database/manga/models.py:798-799 | an enum member yields its label; anything else raises AttributeError |
| ComicInfo.MangaXml | mangarr/database/manga/models.py:263-271 | the manga dict has its six tags |
| ComicInfo.VolumeXml | mangarr/database/manga/models.py:368-373 | `Volume` is the volume number; `Summary` is the volume's description when non-empty, else the manga's |
| ComicInfo.VolumeXmlKeeps | mangarr/database/manga/models.py:368-373 | every other tag keeps the manga's value |
| ComicInfo.ChapterXml | mangarr/database/manga/models.py:776-801 | the chapter dict exists exactly when the chapter renders (every joined field is text or a list of text, the release date has a year, format and age rating are members); otherwise it raises the error `Render` raises |
| ComicInfo.Render | mangarr/database/manga/models.py:783-800 | the chapter fields are read in dict order and the first raise wins: a publisher or imprint that does not join raises TypeError, then a release date without a year AttributeError, then a credit that does not join TypeError, then a format or age rating that is not a member AttributeError; a rendering has the release date, eight credits and the members' labels |
| ComicInfo.VolumeLayers | mangarr/database/manga/models.py:368-373 | the volume dict is the manga's six tags in order plus `Volume`; `Series` is the manga's; `Summary` is the volume's description when non-empty, else the manga's |
| ComicInfo.ChapterLayers | mangarr/database/manga/models.py:776-801 | the chapter dict starts with the volume's seven tags in order; `Series`, `Volume` and `Number` come from their own layer; `Year` is the release date's year; `Summary` is the chapter's description when non-empty, else the volume's, else the manga's |
| ComicInfo.HeadKeys | mangarr/database/manga/models.py:780-782 | the title, number and summary entries name no tag of an earlier layer |
| ComicInfo.TailKeys | mangarr/database/manga/models.py:783-800 | the chapter's trailing entries name no tag of an earlier layer |
| ComicInfo.CreateXmlSound | mangarr/database/manga/models.py:806-809 | every child is the tag and text of an entry whose value is not None |
| ComicInfo.CreateXml | mangarr/database/manga/models.py:806-809 | at most one child per entry |
| ComicInfo.CreateXmlComplete | mangarr/database/manga/models.py:806-809 | every entry whose value is not None has its child |
| ComicInfo.CreateXmlAllPresent | mangarr/database/manga/models.py:806-809 | with no None value, child `i` is entry `i` |
| ComicInfo.CreateXmlAppend | mangarr/database/manga/models.py:806-809 | the children follow the dict's order |
| ComicInfo.FileName | mangarr/database/manga/models.py:773-774 | the archive name has at most 255 characters, none rejected, and does not start with `.` |
| ComicInfo.FileNameKeepsExtension | mangarr/database/manga/models.py:773-774 | a name that fits in 255 characters keeps its `.cbz` extension |
| ComicInfo.RawFileNameShape | mangarr/database/manga/models.py:774 | the raw name has `-` right after the manga name and ends in `.cbz` |
| ComicInfo.ReplaceKeepsShape | mangarr/database/manga/models.py:774 | the `_` substitution keeps the length, the `-` and the `.cbz` ending |
| ComicInfo.StripKeepsCbz | mangarr/database/manga/models.py:774 | stripping whitespace and then dots keeps the `.cbz` ending |
| ComicInfo.StripStepKeepsCbz | mangarr/database/manga/models.py:774 | one strip removes only a leading run that ends before the `-` |
| Processes.MakeJsonSerializable | mangarr/processes/models.py:19-30 | dicts and lists keep their keys and lengths, every datetime, date and time becomes its ISO text and no temporal value is left; a value without temporal leaves is returned unchanged |
| Processes.SerializeArguments | mangarr/processes/models.py:48-50 | the stored arguments have the same keys, each entry is JSON-serializable and shaped like the original; arguments already serializable are stored unchanged |
| Processes.SerializeArgumentsIdempotent | mangarr/processes/models.py:48-50 | saving a job a second time stores the same arguments as saving it once |
| Processes.StampManga | mangarr/processes/models.py:84-87 | after a failed manga job, its last run is `now`, it is not eligible again at `now`, and its plugin and url are kept, with its arguments serialized |
| Processes.StampChapter | mangarr/processes/models.py:138-141 | the same for a failed chapter job, which also keeps its manga |
| Processes.Stale | mangarr/processes/tasks.py:30-32 | a manga is due a refresh when its last update is more than 24 hours before now |
| Processes.Eligible | mangarr/processes/tasks.py:30-32 | a job may run when it never ran or last ran more than an hour before now |
| Processes.ProcessExists | mangarr/processes/tasks.py:29-32 | `process_exists`: some manga is stale, some chapter or manga job is eligible, or some edit is queued |
| Processes.MangaRefreshAsWritten | mangarr/processes/models.py:65-70 | the refresh as written: the outcome is that of the manga update blocks; library and last-update time never change; on success the state and merged arguments are the blocks' result; on a raise the fields and arguments are kept |
| Processes.StaleMangaStaysDue | mangarr/processes/tasks.py:29-32 | as written, a stale manga refreshed by its job is still reported as pending work at any later time |
| Processes.MangaRefresh | mangarr/processes/models.py:65-70 | the corrected refresh: as written, plus the update time stamped on success, so the refreshed manga is not stale |
| Processes.RefreshedMangaNotDue | mangarr/processes/tasks.py:29-32 | a manga refreshed successfully at `now` is not due again for a day |
| Processes.FirstVolume | mangarr/processes/models.py:98-101 | the first volume of the manga whose number equals the chapter's volume number, with none matching before it; None exactly when no volume matches |
| Processes.FirstVolumeSkips | mangarr/processes/models.py:98-101 | a non-matching volume is passed over by the scan |
| Processes.FindOrCreateVolumeAsWritten | mangarr/processes/models.py:96-105 | as written: the volumes are unchanged exactly when the scan finds a match, and then the match is returned; otherwise one blank volume of the manga is appended and returned, whose stored number is 0.0; the returned volume always belongs to the manga |
| Processes.BlankVolume | mangarr/processes/models.py:103-105 | a created volume belongs to the manga and keeps the default number 0.0 in the store |
| Processes.UnsavedNumberDuplicatesVolume | mangarr/processes/models.py:103-105 | as written, two chapters of volume 2 of a manga create two volumes, because the number of the first is never saved |
| Processes.HeldVolume | mangarr/processes/models.py:96-107 | the volume object the chapter is created with: the stored match when there is one, else the created object whose number `n` was set in memory, which always matches the lookup and differs from the blank row the store keeps |
| Processes.NumberedVolume | mangarr/processes/models.py:103-105 | a created volume saved with number `n` reads back `n` and matches the lookup |
| Processes.FindOrCreateVolume | mangarr/processes/models.py:96-105 | the corrected lookup: the returned volume matches; an existing match is reused with nothing created; otherwise exactly one numbered volume is appended |
| Processes.FindOrCreateVolumeReuses | mangarr/processes/models.py:96-105 | looking the same number up again returns the same volume and creates nothing |
| Processes.Zeros | mangarr/processes/models.py:123 | `k` zero characters |
| Processes.Padded | mangarr/processes/models.py:123 | the zero-filled number is all digits, as wide as the width or the number's own digits, whichever is more |
| Processes.PaddedRoundTrip | mangarr/processes/models.py:123 | reading a zero-filled number back gives the number |
| Processes.ParseLeadingZero | mangarr/processes/models.py:123 | a leading zero does not change the value of a digit string |
| Processes.ParseZeros | mangarr/processes/models.py:123 | any run of leading zeros does not change the value of a digit string |
| Processes.DigitsMonotone | mangarr/processes/models.py:120 | a smaller number never has more digits |
| Processes.PageNames | mangarr/processes/models.py:120-123 | an archive of `n` pages has `n` member names, name `i` being page `i + 1` |
| Processes.PageName | mangarr/processes/models.py:120-123 | a page name is digits followed by `.png`, and the digits read back as the page number |
| Processes.PageNameWidth | mangarr/processes/models.py:120-123 | every page name has exactly as many digits as the page count, then `.png`, so the names sort in page order |
| Processes.PageNamesDistinct | mangarr/processes/models.py:120-123 | different pages of one archive get different names |
| Processes.ChapterVolumeNumber | mangarr/processes/models.py:96 | `float` of the job's `volume_number`, 1.0 when absent; its partner is `Store.Place`, which fails with this error and places nothing new when it raises |
| Processes.LibraryPath | mangarr/processes/models.py:128-130 | the path starts with the library root, `/`, the sanitised manga-name folder and `/`; after the root its only separator is the one before the file name, which is at most the file name limit long, so the archive lies directly in the manga's folder |
| Processes.ChapterPaths | mangarr/processes/models.py:114-130 | the cache file is named after the plugin, manga name and job url; the library path is the sanitised manga name folder and the chapter's file name, and it raises exactly when the manga name is not text |
| Processes.CachePath | mangarr/processes/models.py:114-115 | the cache file lies directly in the cache root and ends in `.cbz` |
| Processes.HolderIsOnly | mangarr/processes/models.py:76 | with unique job urls, the job holding a url tracks it for its manga and no other manga claims it |
| Processes.InsertFresh | mangarr/processes/models.py:76 | a job with a url nobody holds, stored under the next key, keeps keys fresh and urls unique and tracks its url |
| Processes.MangaTable.constructor | mangarr/processes/models.py:65 | the table holds the given mangas |
| Processes.MangaTable.Refresh | mangarr/processes/models.py:65-70 | the table and outcome are those of `RefreshSpec`: an unknown url raises and changes nothing; otherwise only that manga is refreshed |
| Processes.RefreshSpec | mangarr/processes/models.py:65-70 | the refresh as written keeps the set of mangas, leaves every other manga alone, and raises with nothing changed when the plugin's url is unknown; it does not stamp the update time |
| Processes.RefreshSpecSound | mangarr/processes/models.py:65-70 | after a successful refresh the named manga exists, keeps its library and update time, and holds the manga blocks' result over the job arguments overlaid by the plugin data; a manga stale before is stale at any later time |
| Processes.MangaJobTable.constructor | mangarr/processes/models.py:59 | the table holds the given manga jobs |
| Processes.ChapterJobTable.constructor | mangarr/processes/models.py:89 | an empty chapter job table with unique urls |
| Processes.ChapterJobTable.AddChapterJob | mangarr/processes/models.py:72-81 | a chapter without url is skipped; a url tracked for this manga is kept; a new url gets one new job built from the chapter; a url held by another manga raises IntegrityError; existing jobs never change and urls stay unique |
| Processes.ChapterJobTable.Holder | mangarr/processes/models.py:76 | the job holding the url, or None exactly when no job holds it |
| Processes.ChapterJobTable.AddChapterJobs | mangarr/processes/models.py:72-81 | existing jobs are kept and every new job is one of the found chapters; it raises exactly when some found url is held by another manga; on success every found chapter with a url is tracked for this manga |
| Processes.QueuedStep | mangarr/processes/models.py:72-81 | one more chapter keeps the loop's invariant |
| Processes.TrackedStep | mangarr/processes/models.py:72-81 | the chapters seen so far stay tracked, and the next is too |
| Processes.DiscoveredStep | mangarr/processes/models.py:79-81 | the jobs one more chapter creates are built from that chapter |
| Processes.QueuedFailure | mangarr/processes/models.py:76 | a raise in the loop means some found url was held by another manga before the loop |
| Processes.ClaimsOnlyFromOld | mangarr/processes/models.py:76 | the loop's new jobs claim no url for another manga |
| Processes.TrackedKept | mangarr/processes/models.py:76-78 | adding jobs never untracks a url |
| Processes.VolumeTable.constructor | mangarr/processes/models.py:98 | the table holds the given volumes |
| Processes.VolumeTable.Locate | mangarr/processes/models.py:96-105 | the new table and the volume index are those of the find-or-create as written |
| Processes.VolumeTable.Find | mangarr/processes/models.py:98-101 | the loop returns the first matching volume, as `FirstVolume` |
| Processes.ChapterTable.constructor | mangarr/processes/models.py:107 | the table holds the given chapters |
| Processes.ChapterTable.GetOrCreate | mangarr/processes/models.py:107 | a missing url and a url stored under another volume raise IntegrityError; a chapter of this volume is returned unchanged; an unknown url adds one blank chapter in the volume |
| Processes.ChapterTable.Update | mangarr/processes/models.py:109-112 | the chapter is replaced by its updated row when every block ran, and the table is unchanged on a raise |
| Processes.ChapterUpdate | mangarr/processes/models.py:109-112 | updating a chapter keeps its volume, file and downloaded flag; on a raise its fields and arguments are kept |
| Processes.ChapterTable.Save | mangarr/processes/models.py:133-135 | the chapter row is stored at its url and nothing else changes |
| Processes.Disk.constructor | mangarr/processes/models.py:119 | the folders hold the given archives |
| Processes.Disk.WriteArchive | mangarr/processes/models.py:119-126 | only the cache file changes; it holds, in order, the pages downloaded so far under their page names; it succeeds exactly when every page and the ComicInfo document were written, and then it is the finished archive |
| Processes.PagesWrittenStep | mangarr/processes/models.py:121-124 | writing the next downloaded page keeps the pages in order under their names |
| Processes.Disk.Move | mangarr/processes/models.py:132 | the archive leaves the cache path and appears at the library path |
| Processes.Store.constructor | mangarr/processes/models.py:33-37 | empty, fresh tables that satisfy the store invariant |
| Processes.Store.RefreshAndQueue | mangarr/processes/models.py:61-81 | plugin failures change nothing; the manga table is as `RefreshSpec` leaves it; a refresh raise queues nothing; on success every found chapter with a url is tracked, every new job is a found chapter, and old jobs are kept |
| Processes.Store.RunMangaJob | mangarr/processes/models.py:60-87 | on success the job is deleted, the refresh as written passed (the update time is not stamped), every found chapter is tracked and every new chapter job is one of the found chapters; whenever the plugin returned manga data the manga table is the as-written refresh of it, and a `get_manga` raise leaves mangas and chapter jobs unchanged; on any raise the job stays, stamped with `now`; no manga is added or removed and existing chapter jobs are kept |
| Processes.Store.Place | mangarr/processes/models.py:94-112 | the volume table is as the find-or-create as written leaves it; a bad volume number raises; only the job's chapter changes, and on success it lies in the volume that lookup returned and holds the updated fields |
| Processes.PlacedVolume | mangarr/processes/models.py:94-105 | a placed chapter lies in a volume of its manga: the matching one when it existed, with the table unchanged, else the blank volume appended with number 0.0 |
| Processes.Store.PlaceChapter | mangarr/processes/models.py:107-112 | only the job's chapter changes; on success it lies in the given volume and holds the updated fields |
| Processes.Updated | mangarr/processes/models.py:107-112 | the stored chapter is the one get-or-create returned, updated without a raise |
| Processes.FiledKeeps | mangarr/processes/models.py:133-135 | recording the archive path keeps the chapter in its volume and touches no other chapter |
| Processes.Store.Download | mangarr/processes/models.py:92-135 | success needs the page list, the ComicInfo document and the move; the chapter is then stored in the volume the lookup as written returned, marked downloaded, its file is the finished archive, and that file is the library path built with the number of the volume object the chapter holds (`HeldVolume`, the job's number for a new volume); only that chapter changes |
| Processes.Store.Archive | mangarr/processes/models.py:114-135 | after placing: success needs pages, ComicInfo and move, and leaves the chapter downloaded with a finished archive, still in the volume the lookup as written returned, filed under the library path built from the manga's name, the held volume's number and the chapter's number |
| Processes.Store.File | mangarr/processes/models.py:119-135 | on a raise the chapter table is unchanged; on success the chapter gets its library path and the downloaded flag, and that path holds the finished archive |
| Processes.Store.RunChapterJob | mangarr/processes/models.py:91-141 | on success the job is deleted and its chapter is downloaded into the volume the lookup as written returned for its manga and number and filed under the library path with the held volume's number; on any raise the job stays, stamped with `now` |
| Processes.StampKeepsUnique | mangarr/processes/models.py:138-141 | stamping a failed job keeps the job urls unique |
| Tasks.Events | mangarr/processes/tasks.py:52-111 | a phase logs one event per job |
| Tasks.EventsAt | mangarr/processes/tasks.py:52-111 | event `i` of a phase is the event of job `i`, in query order |
| Tasks.EventsPrefix | mangarr/processes/tasks.py:52-111 | the events of the first `n` jobs are the first `n` events of the phase |
| Tasks.LibrariesMembers | mangarr/processes/tasks.py:34-36 | a phase marks a library exactly when one of its jobs reports that library |
| Tasks.LibrariesPrefix | mangarr/processes/tasks.py:52-111 | a phase cut short marks no library the whole phase would not |
| Tasks.CollectMembers | mangarr/processes/tasks.py:80-92 | the skipped list holds exactly the keys the jobs report as skipped |
| Tasks.PassShape | mangarr/processes/tasks.py:48-114 | a complete pass clears the cache, promotes, runs manga jobs, runs chapter jobs, deletes the skipped chapter jobs and runs edits, in that order; it marks the union of the four phases' libraries; it checks the stop signal once per job plus four times |
| Tasks.ProcessExistsIffWork | mangarr/processes/tasks.py:29-96 | on one store, `process_exists` holds exactly when one of the pass's four queries returns a row |
| Tasks.RoundMatchesStore | mangarr/processes/tasks.py:46-52 | a round answered from the store runs a pass exactly when that pass has work |
| Tasks.UpToGrow | mangarr/processes/tasks.py:48-114 | the stages done so far are a prefix of any later point of the pass |
| Tasks.UpToPrefix | mangarr/processes/tasks.py:48-114 | a pass cut short inside a stage has logged a prefix of the whole pass |
| Tasks.LibrariesUpToGrow | mangarr/processes/tasks.py:48-114 | later stages only add marked libraries |
| Tasks.PieceLibrariesBelow | mangarr/processes/tasks.py:52-111 | a stage cut short marks no library the whole stage would not |
| Tasks.EventsRanked | mangarr/processes/tasks.py:52-111 | every event of a phase belongs to that phase |
| Tasks.OrderedAppend | mangarr/processes/tasks.py:48-114 | appending a later phase keeps the log in phase order |
| Tasks.JobPhases | mangarr/processes/tasks.py:48-96 | cache clearing, promotions, manga jobs and chapter jobs come in that order, and nothing of a later step |
| Tasks.PassPhaseOrder | mangarr/processes/tasks.py:48-114 | the events of a pass are ordered by phase and none belongs to the notification step |
| Tasks.EveryJobRuns | mangarr/processes/tasks.py:55-111 | every stale manga, eligible manga job, eligible chapter job and edit of a pass runs, whatever the jobs before it raised |
| Tasks.SkippedAreDeleted | mangarr/processes/tasks.py:80-98 | the chapter jobs deleted after the chapter phase are exactly those that reported an already downloaded chapter or no pages |
| Tasks.PassHasNoNotify | mangarr/processes/tasks.py:116-118 | a pass sends no notification |
| Tasks.PromotionMarksOnlyCreated | mangarr/processes/tasks.py:56-57 | a promotion marks its library exactly when it created a manga job |
| Tasks.MangaRunMarksOnlyReturned | mangarr/processes/tasks.py:69-71 | a manga job marks its library exactly when its `update` returned and its library could be read |
| Tasks.AsWrittenMangaPhasesMarkNothing | mangarr/processes/tasks.py:52-75 | as written, with every promotion raising FieldError and every `manga_monitor.library` read raising AttributeError, a pass marks only the libraries of its chapter jobs and edits |
| Tasks.PassesStep | mangarr/processes/tasks.py:46-114 | one more pass appends its events and its libraries |
| Tasks.PassesHaveNoNotify | mangarr/processes/tasks.py:116-118 | no pass of the inner loop notifies; notifications wait until nothing is due |
| Tasks.Notifications | mangarr/processes/tasks.py:117-118 | one notification per library, in order |
| Tasks.NotifiedOnce | mangarr/processes/tasks.py:116-118 | a sweep that reaches the notifications notifies each marked library exactly once and no other |
| Tasks.Monitor.constructor | mangarr/processes/tasks.py:38 | no run is scheduled, nothing is marked or logged, no stop check made |
| Tasks.Monitor.Trigger | mangarr/processes/tasks.py:131-133 | the schedule is cleared, so a sweep is due at any time; nothing else changes |
| Tasks.Monitor.Touch | mangarr/processes/tasks.py:34-36 | a library is marked exactly when it was already or the job changed something; the set holds it once |
| Tasks.Monitor.CheckStop | mangarr/processes/tasks.py:53 | one more stop check, answering whether the signal is set at this check |
| Tasks.Monitor.Phase | mangarr/processes/tasks.py:52-111 | each job is preceded by a stop check; without a stop every job runs; with one, the jobs before it ran and the last check saw it; the log, marked libraries and skipped list are those of the jobs that ran |
| Tasks.Monitor.Stage | mangarr/processes/tasks.py:48-114 | a stage and the stop check after it: a prefix of the stage is logged and its libraries marked; without a stop the whole stage ran with its exact number of checks, none seeing the signal |
| Tasks.Monitor.Advance | mangarr/processes/tasks.py:48-114 | one more stage of a pass completed, or the pass stopped after logging a prefix of itself and marking some of its libraries |
| Tasks.Monitor.RunPass | mangarr/processes/tasks.py:47-114 | without a stop the whole pass is logged, its libraries marked and its checks made without seeing the signal; with a stop the last check saw it and a prefix of the pass was done |
| Tasks.Monitor.Turn | mangarr/processes/tasks.py:46-114 | one more pass done, or the stop seen at the loop head with nothing done, or seen during the pass with a prefix done |
| Tasks.Monitor.Passes | mangarr/processes/tasks.py:46-114 | the inner loop runs complete passes while work is due and ends drained, unreachable, on a stop at its head, or on a stop inside a pass, each with the passes done so far |
| Tasks.Monitor.NotifyAll | mangarr/processes/tasks.py:116-118 | every marked library is notified once, and only those |
| Tasks.Monitor.Sweep | mangarr/processes/tasks.py:42-128 | the sweep completes only when nothing is due and no stop was seen, and then every marked library was notified once; an unreachable store notifies nothing; unless the loop returned, the next sweep is due an hour after this one ended |
| Tasks.Monitor.Tick | mangarr/processes/tasks.py:41-129 | a sweep runs exactly when the signal is clear and a sweep is due; the loop goes on unless the signal was seen; after a sweep that did not return the next run is an hour after it ended |
| Tasks.Monitor.Monitoring | mangarr/processes/tasks.py:39-129 | the loop ends early only when a stop check saw the signal |
| Tasks.InterruptedShape | mangarr/processes/tasks.py:46-114 | a pass cut short after complete passes leaves those passes and a prefix of the next |
| Tasks.StageCompleted | mangarr/processes/tasks.py:48-114 | completing a stage extends the log, libraries and checks by the whole stage |
| Tasks.StoppedInStage | mangarr/processes/tasks.py:48-114 | a pass stopped inside a stage has logged a prefix of the pass and marked some of its libraries |
| Tasks.Extends | mangarr/processes/tasks.py:48-114 | a log extended by a prefix of a pass is that pass cut short |
| Tasks.StoppedLibraries | mangarr/processes/tasks.py:48-114 | a pass stopped inside a stage marks no library the whole pass would not |
| Tasks.PhaseStep | mangarr/processes/tasks.py:52-111 | one more job of a phase appends its event, its library and its skipped key |

## Left out

- Threads, the ten-second sleep and the `stop_event` object are not modelled. The stop signal is an input: the index of the first stop check that sees it set. Once set it stays set.
- The `threading.Timer` clean-up of the search cache (mangarr/api/search_cache.py:22-23) is not modelled. A stored result stays until it is removed.
- Outside calls are parameters or inputs:
  - the network, DNS resolution, the Kavita HTTP call and the plugin manifest fetches;
  - the plugin calls `get_manga`, `get_chapters`, `get_pages` and `download_page`.
- Library internals are uninterpreted function parameters: SHA-256, zip writing, ElementTree/minidom pretty-printing, `strftime`/`isoformat`/`fromisoformat`, `str`/`int`/`float` of a value, and version ordering.
- `clear_cache` is not modelled: its file deletions are one `ClearCache` event.
- The library folder `mkdir` is not modelled.
- Floats are modelled as reals, so volume and chapter numbers compare exactly. IEEE rounding is not modelled.
- Python dicts become `map`s, which lose insertion order. The ComicInfo dict is the exception: it is an ordered association list, because its order becomes the XML order.
- Exceptions are values of `PyValues.PyError`. Logging is not modelled.
- `OperationalError` is modelled only as the store being unreachable when `process_exists` is asked. A raise inside a pass is caught per job, as in the code.
- `ChapterDownloaded`, `ChapterHadNoPages` and `EditChapter` are imported by mangarr/processes/tasks.py:14 but not defined in mangarr/processes/models.py. Their effect is taken as an input per chapter job and per edit. `EditChapter.update` itself is not part of this model.
- `notify_connectors` is modelled as a `NotifyLibrary` event. Its fan-out to the library's connectors is not part of this model.
- `Tasks.Monitor.Passes` requires a finite description of the sweep: the last answer of `process_exists` must not be "work is due". A sweep that never drains cannot be described by this input.
- `MonitorManga.update` calls `Manga.objects.get_or_create(url=...)` without the required library. The model treats an unknown url as an IntegrityError that the job's handler catches.
- A patch carrying `alt_names_lock` reads a missing `alt_names` attribute (mangarr/database/manga/models.py:178-182). It is modelled as written, as an AttributeError.
- The naive-datetime branch of the datetime validator names an unbound `django` module (mangarr/database/manga/lockable_fields.py:358). The model takes the parsed value as given by the parsing parameter and does not model that branch.
- `CoreUtils.GenerateUniqueToken`: the unbounded retry loop is modelled over a finite sequence of random draws. It reports None when every draw was taken.
- `UserUtils.ExtractToken`: the header is parsed as the code does it, which is stricter than the Bearer scheme of section 2.1 of RFC 6750.
- The duplicate helper modules are modelled once each: the filename helpers, the token helpers and the user models.
- ConnectorModels.Lower: only ASCII capitals are lower-cased. Python's `str.lower` folds all of Unicode, so a character such as U+212A KELVIN SIGN, which Python lowers to `k`, is left as it is here.
- ConnectorModels.SubclassByName: inherits that ASCII-only folding, so a name that matches a subclass only after Unicode lower-casing (`"\u212Aavita"` for Kavita) raises ValueError here instead of finding the subclass.
- ComicInfo.MangaXml: the genres and tags are taken as lists of text. The TypeError that `", ".join` raises for any other value is modelled for the chapter's fields only.
- ComicInfo.JoinValue: Python joins the keys of a dict; here a dict raises TypeError, because a `map` keeps no key order.
- PyValues.PyEq: numbers compare by value across bool, int and float, but lists and dicts compare structurally, so `[1] == [1.0]` is false here while Python says True.
- MangaUtils.ReplaceInvalid: the replacement is inserted literally. `re.sub` would also process backslash escapes and group references in it; the `_` used by the code has none.
- ProcessUtils.FileSystem.MoveFile: a move of a file onto itself, or onto its own `.partial` name, is excluded by its precondition. What `rename` and `copy2` do with such aliased paths is platform behaviour the model does not describe.
- The request handlers, views, forms, templates, the plugin loader and downloader, the Selenium driver set-up and the restart helpers are not part of this model.

## Findings

The rest of the model, the store included, follows the code as written. The corrected members stand beside it and state what the code evidently intends.

| source | as written | input that shows it | evidently intended | confidence | as-written member | corrected member |
|---|---|---|---|---|---|---|
| mangarr/connectors/models.py:75-80 | `Kavita.notify` returns True unless the client call raises, but the client's `skip_if_errored` wrapper (mangarr/connectors/connectors/base.py:12-17) turns a raise into a `False` return | a first scan request that raises: the wrapper returns False and the record reports success | a failed scan is reported as a failed notification | not executed | ConnectorModels.KavitaFailureReportedAsSuccess | ConnectorModels.KavitaNotifyChecked |
| mangarr/processes/models.py:103-105 | a created volume gets its number only in memory (`volume.number.value = ...` without `save`), so the stored row keeps the default 0.0 | two chapter jobs of volume 2.0 of the same manga: the second finds no volume 2.0 and creates a second one | the new volume is saved with its number and found again | not executed | Processes.UnsavedNumberDuplicatesVolume | Processes.FindOrCreateVolumeReuses |
| mangarr/processes/models.py:65-70 | `MonitorManga.update` never calls `Manga.update_last_update` (mangarr/database/manga/models.py:152-154), so a stale manga stays stale after a successful refresh | any manga whose `last_update` is over a day old: `process_exists` (mangarr/processes/tasks.py:29-32) stays true after its job succeeds, and the sweep promotes it again on every pass | the refresh stamps `last_update`, so the manga is not due for a day | not executed | Processes.StaleMangaStaysDue | Processes.RefreshedMangaNotDue |
| mangarr/processes/tasks.py:56 | `MonitorManga.objects.get_or_create(library=..., manga=...)` names fields that `MonitorManga` (mangarr/processes/models.py:33-37, 59) does not have, so it raises FieldError, which the handler at mangarr/processes/tasks.py:60-61 logs | any manga whose `last_update` is over a day old: no manga job is created for it and its library is not marked | a stale manga gets a manga job, and a created job marks its library | not executed | Tasks.AsWrittenMangaPhasesMarkNothing | Tasks.PromotionMarksOnlyCreated |
| mangarr/processes/tasks.py:71 | `manga_monitor.library` reads a field `MonitorManga` does not have, so after `update()` has run it raises AttributeError, which the handler at mangarr/processes/tasks.py:74-75 logs | any eligible manga job whose `update` returns: its library is not marked | a manga run that returns marks its manga's library | not executed | Tasks.AsWrittenMangaPhasesMarkNothing | Tasks.MangaRunMarksOnlyReturned |
