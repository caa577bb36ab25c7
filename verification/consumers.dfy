/** The progress channel pushed to browsers: each consumer keeps a snapshot
    of scan and download counters and folds every partial update into it
    with a recursive dictionary merge, so counters a patch does not mention
    keep their last value. */
module Consumers {
  import opened PyValues

  /** `deep_merge(a, b)`: a fresh dictionary holding every key of either
      side; where both sides hold a dictionary the two are merged
      recursively, otherwise `b`'s value wins and keys only in `a` keep
      `a`'s value. Both inputs are immutable values here, which is what the
      deep copies in the source achieve. */
  function DeepMerge(a: map<string, Json>, b: map<string, Json>): (r: map<string, Json>)
    ensures r.Keys == a.Keys + b.Keys
    ensures forall k :: k in a && k !in b ==> r[k] == a[k]
    ensures forall k :: k in b && !(k in a && a[k].JDict? && b[k].JDict?) ==> r[k] == b[k]
    ensures forall k :: k in a && k in b && a[k].JDict? && b[k].JDict? ==> r[k].JDict?
    decreases JDict(b)
  {
    map k | k in a.Keys + b.Keys ::
      if k !in b then a[k]
      else if k in a && a[k].JDict? && b[k].JDict? then JDict(DeepMerge(a[k].fields, b[k].fields))
      else b[k]
  }

  /** Where both sides hold a dictionary, the result holds their merge. */
  lemma MergeNested(a: map<string, Json>, b: map<string, Json>, k: string)
    requires k in a && k in b && a[k].JDict? && b[k].JDict?
    ensures DeepMerge(a, b)[k] == JDict(DeepMerge(a[k].fields, b[k].fields))
  {
  }

  /** Merging an empty patch gives back the snapshot. */
  lemma MergeEmptyPatch(a: map<string, Json>)
    ensures DeepMerge(a, map[]) == a
  {
  }

  /** Merging into an empty snapshot gives back the patch. */
  lemma MergeIntoEmpty(b: map<string, Json>)
    ensures DeepMerge(map[], b) == b
  {
  }

  /** Re-sending the current snapshot as a patch changes nothing. */
  lemma {:induction false} MergeIdempotent(a: map<string, Json>)
    ensures DeepMerge(a, a) == a
    decreases JDict(a)
  {
    var r := DeepMerge(a, a);
    forall k | k in a
      ensures r[k] == a[k]
    {
      if a[k].JDict? {
        MergeIdempotent(a[k].fields);
        MergeNested(a, a, k);
      }
    }
  }

  /** Applying the same patch twice is applying it once. */
  lemma {:induction false} MergePatchTwice(a: map<string, Json>, b: map<string, Json>)
    ensures DeepMerge(DeepMerge(a, b), b) == DeepMerge(a, b)
    decreases JDict(b)
  {
    var once := DeepMerge(a, b);
    var twice := DeepMerge(once, b);
    forall k | k in once
      ensures twice[k] == once[k]
    {
      if k in b && b[k].JDict? && once[k].JDict? {
        if k in a && a[k].JDict? {
          MergeNested(a, b, k);
          MergePatchTwice(a[k].fields, b[k].fields);
        } else {
          MergeIdempotent(b[k].fields);
        }
        MergeNested(once, b, k);
      }
    }
  }

  /** The snapshot a consumer starts from on connect. */
  function InitialSnapshot(): (s: map<string, Json>)
    ensures s.Keys == {"scanning", "downloading"}
    ensures s["scanning"] == JDict(map["manga" := JInt(0), "chapters" := JInt(0)])
    ensures s["downloading"] == JDict(map["current" := JInt(0), "of" := JInt(0)])
  {
    map[
      "scanning" := JDict(map["manga" := JInt(0), "chapters" := JInt(0)]),
      "downloading" := JDict(map["current" := JInt(0), "of" := JInt(0)])
    ]
  }

  /** One websocket consumer and its progress snapshot `datas`. */
  class ProcessesConsumer {
    var datas: map<string, Json>

    /** `connect`: installs the zeroed snapshot (group join and the first
        send are transport). */
    constructor ()
      ensures datas == InitialSnapshot()
    {
      datas := InitialSnapshot();
    }

    /** `send_update`: folds the patch into the snapshot and returns what is
        sent to the browser, the whole new snapshot. */
    method SendUpdate(patch: map<string, Json>) returns (sent: map<string, Json>)
      modifies this
      ensures datas == DeepMerge(old(datas), patch) && sent == datas
      ensures forall k :: k in old(datas) && k !in patch ==> datas[k] == old(datas)[k]
      ensures datas.Keys == old(datas).Keys + patch.Keys
    {
      datas := DeepMerge(datas, patch);
      sent := datas;
    }
  }

  /** Counters that a patch leaves out keep their values: after a patch
      that only moves `downloading.current`, the scan counters and
      `downloading.of` are still those of the snapshot. */
  lemma PartialPatchKeepsCounters(snapshot: map<string, Json>, current: int)
    requires snapshot == InitialSnapshot()
    ensures var merged := DeepMerge(snapshot, map["downloading" := JDict(map["current" := JInt(current)])]);
            && merged["scanning"] == snapshot["scanning"]
            && merged["downloading"] == JDict(map["current" := JInt(current), "of" := JInt(0)])
  {
    var b := map["current" := JInt(current)];
    var patch := map["downloading" := JDict(b)];
    assert "scanning" !in patch;
    MergeNested(snapshot, patch, "downloading");
    var a := snapshot["downloading"].fields;
    assert "of" in a && "of" !in b && a["of"] == JInt(0);
    var inner := DeepMerge(a, b);
    assert inner.Keys == {"current", "of"};
    assert inner["current"] == JInt(current) && inner["of"] == JInt(0);
    assert inner == map["current" := JInt(current), "of" := JInt(0)];
  }
}
