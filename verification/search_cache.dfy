/** The in-memory cache of background search results: one entry per search
    task, keyed by `str(task_id)`, that is first marked as processing and
    later replaced by the finished result. */
module SearchCache {
  import opened PyValues

  /** One cache entry: status `"processing"` (no data yet) or `"done"` with
      the result, and the time it was written. */
  datatype Entry = Processing(timestamp: real) | Done(data: Json, timestamp: real)
  {
    function Status(): string {
      if Processing? then "processing" else "done"
    }
  }

  class ResultCache {
    /** `str(task_id)`: how every operation turns a task id into its key. */
    const key: Json -> string
    /** The module-level `_search_results` dict. */
    var results: map<string, Entry>

    constructor (key: Json -> string)
      ensures this.key == key && results == map[]
    {
      this.key := key;
      results := map[];
    }

    /** `get_result`: the entry for this task, or None when there is none. */
    function GetResult(taskId: Json): (r: Option<Entry>)
      reads this
      ensures key(taskId) !in results ==> r == None
      ensures key(taskId) in results ==> r == Some(results[key(taskId)])
    {
      if key(taskId) in results then Some(results[key(taskId)]) else None
    }

    /** `mark_processing`: the search's entry becomes a processing marker;
        other tasks' entries are unchanged. */
    method MarkProcessing(taskId: Json, now: real)
      modifies this
      ensures GetResult(taskId) == Some(Processing(now)) && GetResult(taskId).value.Status() == "processing"
      ensures results.Keys == old(results).Keys + {key(taskId)}
      ensures forall k :: k in old(results) && k != key(taskId) ==> results[k] == old(results)[k]
    {
      results := results[key(taskId) := Processing(now)];
    }

    /** `store_result`: the search's entry becomes the finished result,
        overwriting any earlier entry (the delayed clean-up timer is not
        modelled). */
    method StoreResult(taskId: Json, data: Json, now: real)
      modifies this
      ensures GetResult(taskId) == Some(Done(data, now)) && GetResult(taskId).value.Status() == "done"
      ensures results.Keys == old(results).Keys + {key(taskId)}
      ensures forall k :: k in old(results) && k != key(taskId) ==> results[k] == old(results)[k]
    {
      results := results[key(taskId) := Done(data, now)];
    }

    /** `remove_result`: drops the search's entry if there is one; an unknown
        id is not an error. */
    method RemoveResult(taskId: Json)
      modifies this
      ensures GetResult(taskId) == None
      ensures results.Keys == old(results).Keys - {key(taskId)}
      ensures forall k :: k in results ==> results[k] == old(results)[k]
      ensures key(taskId) !in old(results) ==> results == old(results)
    {
      results := results - {key(taskId)};
    }
  }

  /** Two task ids with the same string form address the same entry. */
  lemma SameKeySameEntry(cache: ResultCache, a: Json, b: Json)
    requires cache.key(a) == cache.key(b)
    ensures cache.GetResult(a) == cache.GetResult(b)
  {
  }
}
