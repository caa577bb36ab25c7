/** File helpers of the download jobs: datetime conversion for JSON, polling
    for a file, and moving a finished archive into the library with a
    rename-or-copy commit. */
module ProcessUtils {
  import opened PyValues

  /** `a` and `b` have the same dict keys and list lengths all the way
      down; leaves that are temporal values of one of `kinds` have become
      strings in `b`; every other leaf is unchanged. */
  predicate SameShape(a: Json, b: Json, kinds: set<TemporalKind>)
    decreases a
  {
    match a
    case JDict(f) => b.JDict? && b.fields.Keys == f.Keys && forall k :: k in f ==> SameShape(f[k], b.fields[k], kinds)
    case JList(items) => b.JList? && |b.items| == |items| && forall i :: 0 <= i < |items| ==> SameShape(items[i], b.items[i], kinds)
    case JTime(t) => if t.kind in kinds then b.JStr? else b == a
    case _ => b == a
  }

  /** No temporal value of one of `kinds` is left anywhere in `v`. */
  predicate Free(v: Json, kinds: set<TemporalKind>)
    decreases v
  {
    match v
    case JDict(f) => forall k :: k in f ==> Free(f[k], kinds)
    case JList(items) => forall i :: 0 <= i < |items| ==> Free(items[i], kinds)
    case JTime(t) => t.kind !in kinds
    case _ => true
  }

  /** `convert_datetime`: datetimes become their
      `%Y-%m-%dT%H:%M:%S%z` text (`b.strftime`), dates and times are left
      as they are, dicts and lists are rebuilt around the converted
      values. */
  function ConvertDatetime(v: Json, b: Builtins): (r: Json)
    ensures SameShape(v, r, {DateTimeKind})
    ensures Free(r, {DateTimeKind})
    ensures Free(v, {DateTimeKind}) ==> r == v
    ensures v.JTime? && v.t.kind == DateTimeKind ==> r == JStr(b.strftime(v.t))
    decreases v
  {
    match v
    case JDict(f) =>
      var r := JDict(map k | k in f :: ConvertDatetime(f[k], b));
      assert Free(v, {DateTimeKind}) ==> r.fields == f;
      r
    case JList(items) =>
      var r := JList(seq(|items|, i requires 0 <= i < |items| => ConvertDatetime(items[i], b)));
      assert Free(v, {DateTimeKind}) ==> r.items == items;
      r
    case JTime(t) => if t.kind == DateTimeKind then JStr(b.strftime(t)) else v
    case _ => v
  }

  /** Converting twice is converting once. */
  lemma ConvertDatetimeIdempotent(v: Json, b: Builtins)
    ensures ConvertDatetime(ConvertDatetime(v, b), b) == ConvertDatetime(v, b)
  {
  }

  // ---- wait_for_file ----

  /** `wait_for_file(path, timeout, interval)`: polls whether the file
      exists (`existsAt(i)` is the answer of poll `i`) until it does or the
      accumulated sleep reaches the timeout. Times are in milliseconds.
      Returns whether the file was seen and how many polls were made. */
  method WaitForFile(existsAt: nat -> bool, timeout: int, interval: int) returns (found: bool, polls: nat)
    requires interval > 0
    ensures found ==> polls >= 1 && existsAt(polls - 1)
    ensures forall i :: 0 <= i < polls - 1 ==> !existsAt(i)
    ensures !found ==> forall i :: 0 <= i < polls ==> !existsAt(i)
    ensures polls >= 1 ==> (polls - 1) * interval < timeout
    ensures !found ==> polls * interval >= timeout
  {
    var elapsed := 0;
    polls := 0;
    while elapsed < timeout
      invariant elapsed == polls * interval
      invariant forall i :: 0 <= i < polls ==> !existsAt(i)
      invariant polls >= 1 ==> (polls - 1) * interval < timeout
      decreases timeout - elapsed
    {
      polls := polls + 1;
      if existsAt(polls - 1) {
        return true, polls;
      }
      elapsed := elapsed + interval;
    }
    found := false;
  }

  // ---- move_file ----

  type Bytes = seq<bv8>

  /** The path `dst.with_suffix(dst.suffix + ".partial")` names: the
      destination with `.partial` appended. */
  function PartialPath(dst: string): string {
    dst + ".partial"
  }

  /** Which of the filesystem calls of `move_file` raise: the rename of the
      source (OSError, e.g. across devices), the copy, the rename of the
      partial file, the unlink of the source. */
  datatype Faults = Faults(rename: bool, copy: bool, renamePartial: bool, unlinkSource: bool)

  class FileSystem {
    var files: map<string, Bytes>

    constructor (files: map<string, Bytes>)
      ensures this.files == files
    {
      this.files := files;
    }

    /** `move_file(src, dst)`. The file system does not change while the
        source is polled for, so `wait_for_file(src)` is whether it is
        there. The destination is only ever produced by a rename: after the
        call it is either as before or holds the source's bytes. */
    method MoveFile(src: string, dst: string, faults: Faults) returns (r: Outcome)
      modifies this
      requires src != dst && src != PartialPath(dst)
      ensures src !in old(files) ==> r == Fail(FileNotFoundError) && files == old(files)
      ensures r.Pass? ==> src in old(files) && dst in files && files[dst] == old(files)[src] && src !in files
      ensures r.Pass? && !faults.rename ==> files == (old(files) - {src})[dst := old(files)[src]]
      ensures dst in files ==> (dst in old(files) && files[dst] == old(files)[dst]) || (src in old(files) && files[dst] == old(files)[src])
      ensures src in old(files) && faults.rename ==> PartialPath(dst) !in files
      ensures forall p :: p in old(files) && p != src && p != dst && p != PartialPath(dst) ==> p in files && files[p] == old(files)[p]
      ensures forall p :: p in files ==> p in old(files) || p == dst
      ensures r.Fail? && src in old(files) ==> r.error == OSError && src in files && files[src] == old(files)[src]
    {
      if src !in files {
        return Fail(FileNotFoundError);
      }
      var content := files[src];
      if !faults.rename {
        files := (files - {src})[dst := content];
        return Pass;
      }
      var partial := PartialPath(dst);
      r := Pass;
      if faults.copy {
        r := Fail(OSError);
      } else {
        files := files[partial := content];
        if faults.renamePartial {
          r := Fail(OSError);
        } else {
          files := (files - {partial})[dst := content];
          if faults.unlinkSource {
            r := Fail(OSError);
          } else {
            files := files - {src};
          }
        }
      }
      if r.Fail? && partial in files {
        files := files - {partial};
      }
    }
  }
}
