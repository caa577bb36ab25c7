/** Outbound connectors that tell a media server to rescan a library after
    new chapters land. The client side keeps an "errored" latch: after the
    first failure every later call is skipped until the process restarts. */
module ConnectorClient {
  import opened PyValues

  /** A connector client (`BaseConnector`). */
  class Connector {
    const address: string
    const port: int
    const ssl: bool
    var errored: bool

    /** `__init__`: the latch starts cleared. */
    constructor (address: string, port: int, ssl: bool)
      ensures this.address == address && this.port == port && this.ssl == ssl
      ensures !errored
    {
      this.address := address;
      this.port := port;
      this.ssl := ssl;
      errored := false;
    }

    /** `ip`: the base URL built from the resolved address, or None when the
        name does not resolve. `resolve` stands for the DNS lookup. */
    function Ip(resolve: string -> Option<string>): (r: Option<string>)
      ensures resolve(address).None? ==> r.None?
      ensures resolve(address).Some? && ssl ==> r == Some("https://" + resolve(address).value + ":" + IntText(port))
      ensures resolve(address).Some? && !ssl ==> r == Some("http://" + resolve(address).value + ":" + IntText(port))
    {
      match resolve(address)
      case None => None
      case Some(ip) =>
        var scheme := "http" + (if ssl then "s" else "");
        assert scheme + "://" == if ssl then "https://" else "http://";
        Some(scheme + "://" + ip + ":" + IntText(port))
    }

    /** A call through `skip_if_errored`. `inner` is what the wrapped body
        would do if it ran: return a value, or raise. While the latch is set
        the body does not run and the call returns None; a raise sets the
        latch and the call returns False; a return passes the value on. */
    method SkipIfErrored(inner: Result<Json>) returns (r: Json, ran: bool)
      modifies this
      ensures r == LatchResult(old(errored), inner)
      ensures ran <==> !old(errored)
      ensures old(errored) ==> r == JNone && errored
      ensures !old(errored) && inner.Ok? ==> r == inner.value && !errored
      ensures !old(errored) && inner.Err? ==> r == JBool(false) && errored
      ensures old(errored) ==> errored
    {
      if errored {
        return JNone, false;
      }
      ran := true;
      match inner
      case Ok(v) =>
        r := v;
      case Err(_) =>
        errored := true;
        r := JBool(false);
    }
  }

  /** What a call through `skip_if_errored` returns, given the latch before
      the call and what the body would do. It never raises. */
  function LatchResult(errored: bool, inner: Result<Json>): (r: Json)
    ensures errored ==> r == JNone
    ensures !errored && inner.Ok? ==> r == inner.value
    ensures !errored && inner.Err? ==> r == JBool(false)
  {
    if errored then JNone else match inner case Ok(v) => v case Err(_) => JBool(false)
  }

  /** The latch after a run of calls, each given by what its body would do. */
  function LatchAfter(errored: bool, calls: seq<Result<Json>>): (e: bool)
    ensures errored ==> e
    ensures e <==> errored || exists i :: 0 <= i < |calls| && calls[i].Err?
    decreases |calls|
  {
    if calls == [] then errored
    else
      var e := LatchAfter(errored || calls[0].Err?, calls[1..]);
      assert forall i :: 1 <= i < |calls| ==> calls[i] == calls[1..][i - 1];
      e
  }

  /** After the first failure, no later body runs, whatever it would do. */
  lemma {:induction false} NoCallRunsAfterFailure(calls: seq<Result<Json>>, k: nat)
    requires k < |calls| && calls[k].Err?
    ensures forall j :: k < j <= |calls| ==> LatchAfter(false, calls[..j])
  {
    forall j | k < j <= |calls|
      ensures LatchAfter(false, calls[..j])
    {
      assert calls[..j][k] == calls[k];
    }
  }
}

/** The connector records stored per library, their validation, and their
    notify entry point. */
module ConnectorModels {
  import opened PyValues
  import ConnectorClient

  /** A stored connector row: its id, concrete class, library, and the
      remote library id (a Kavita field, unique among Kavita rows). */
  datatype ConnectorRow = ConnectorRow(pk: nat, className: string, library: Option<nat>, remoteLibraryId: string)

  /** The base class; its polymorphic manager returns the rows of every
      connector class. */
  const BASE_CLASS: string := "ConnectorBase"

  /** Whether `self.__class__.objects` of class `queried` returns a row of
      class `stored`: the base class sees every row, a subclass its own. */
  predicate Sees(queried: string, stored: string) {
    queried == BASE_CLASS || stored == queried
  }

  /** `ConnectorBase.clean`: reading the unset library raises; otherwise
      another row that the record's class manager returns already serves
      this library. The row itself is excluded by its primary key, which a
      record always has (ids are generated on construction). */
  function Clean(c: ConnectorRow, rows: map<nat, ConnectorRow>): (r: Outcome)
    ensures c.library.None? ==> r == Fail(RelatedObjectDoesNotExist)
    ensures c.library.Some? ==>
              (r.Fail? <==> exists k :: k in rows && k != c.pk && Sees(c.className, rows[k].className) && rows[k].library == c.library)
    ensures c.library.Some? && r.Fail? ==> r.error == ValidationError
  {
    if c.library.None? then Fail(RelatedObjectDoesNotExist)
    else if exists k :: k in rows && k != c.pk && Sees(c.className, rows[k].className) && rows[k].library == c.library
    then Fail(ValidationError) else Pass
  }

  /** `full_clean`: the field checks (a missing library is collected as an
      error), then `clean`, whose RelatedObjectDoesNotExist escapes, then
      the unique remote library id of Kavita rows; collected errors raise
      one ValidationError. */
  function FullClean(c: ConnectorRow, rows: map<nat, ConnectorRow>): (r: Outcome)
    ensures c.library.None? ==> r == Fail(RelatedObjectDoesNotExist)
    ensures c.library.Some? && Clean(c, rows).Fail? ==> r == Fail(ValidationError)
    ensures c.library.Some? && r.Fail? ==> r.error == ValidationError
    ensures r.Pass? ==> c.library.Some? && Clean(c, rows).Pass?
    ensures r.Pass? && c.className == "Kavita" ==>
              forall k :: k in rows && k != c.pk && rows[k].className == "Kavita" ==> rows[k].remoteLibraryId != c.remoteLibraryId
  {
    if c.library.None? then Fail(RelatedObjectDoesNotExist)
    else if Clean(c, rows).Fail? then Fail(ValidationError)
    else if c.className == "Kavita" && exists k :: k in rows && k != c.pk && rows[k].className == "Kavita" && rows[k].remoteLibraryId == c.remoteLibraryId
    then Fail(ValidationError)
    else Pass
  }

  /** At most one connector of each class per library. */
  ghost predicate OnePerLibrary(rows: map<nat, ConnectorRow>) {
    forall a, b :: a in rows && b in rows && a != b && rows[a].className == rows[b].className && rows[a].library.Some?
      ==> rows[a].library != rows[b].library
  }

  class ConnectorTable {
    var rows: map<nat, ConnectorRow>

    constructor ()
      ensures rows == map[]
    {
      rows := map[];
    }

    /** `save`: `full_clean` runs first, so a duplicate is never stored. */
    method Save(c: ConnectorRow) returns (r: Outcome)
      modifies this
      ensures r == FullClean(c, old(rows))
      ensures r.Pass? ==> rows == old(rows)[c.pk := c]
      ensures r.Fail? ==> rows == old(rows)
      ensures OnePerLibrary(old(rows)) ==> OnePerLibrary(rows)
    {
      r := FullClean(c, rows);
      if r.Pass? {
        rows := rows[c.pk := c];
      }
    }
  }

  /** ASCII `str.lower`. */
  function Lower(s: string): (r: string)
    ensures |r| == |s|
    ensures forall i :: 0 <= i < |s| ==> r[i] == if 'A' <= s[i] <= 'Z' then (s[i] as int + 32) as char else s[i]
  {
    if s == [] then [] else [if 'A' <= s[0] <= 'Z' then (s[0] as int + 32) as char else s[0]] + Lower(s[1..])
  }

  /** `get_available_connectors`: `(lower-cased name, name)` per direct
      subclass, in declaration order. */
  function AvailableConnectors(subclasses: seq<string>): (r: seq<(string, string)>)
    ensures |r| == |subclasses|
    ensures forall i :: 0 <= i < |r| ==> r[i] == (Lower(subclasses[i]), subclasses[i])
  {
    if subclasses == [] then [] else [(Lower(subclasses[0]), subclasses[0])] + AvailableConnectors(subclasses[1..])
  }

  /** Where the scan of `get_subclass_by_name` stops: the index of the
      first subclass whose name matches without regard to case, or the
      length when none does. */
  function MatchIndex(subclasses: seq<string>, name: string): (k: nat)
    ensures k <= |subclasses|
    ensures k < |subclasses| ==> Lower(subclasses[k]) == Lower(name)
    ensures forall j :: 0 <= j < k ==> Lower(subclasses[j]) != Lower(name)
    decreases |subclasses|
  {
    if subclasses == [] then 0
    else if Lower(subclasses[0]) == Lower(name) then 0
    else
      var k := MatchIndex(subclasses[1..], name);
      assert forall j :: 1 <= j < k + 1 ==> subclasses[j] == subclasses[1..][j - 1];
      k + 1
  }

  /** `get_subclass_by_name`: the first subclass whose name matches without
      regard to case; ValueError when none does. */
  function SubclassByName(subclasses: seq<string>, name: string): (r: Result<string>)
    ensures r.Ok? ==> r.value in subclasses && Lower(r.value) == Lower(name)
    ensures r.Ok? ==> r.value == subclasses[MatchIndex(subclasses, name)]
    ensures r.Err? <==> forall i :: 0 <= i < |subclasses| ==> Lower(subclasses[i]) != Lower(name)
    ensures r.Err? ==> r.error == ValueError
  {
    var k := MatchIndex(subclasses, name);
    if k == |subclasses| then Err(ValueError) else Ok(subclasses[k])
  }

  /** Every name offered by `get_available_connectors` is found again by
      `get_subclass_by_name`. */
  lemma AvailableNamesResolve(subclasses: seq<string>, i: nat)
    requires i < |subclasses|
    ensures SubclassByName(subclasses, AvailableConnectors(subclasses)[i].0).Ok?
  {
    assert Lower(subclasses[i]) == Lower(AvailableConnectors(subclasses)[i].0) by {
      LowerIdempotent(subclasses[i]);
    }
  }

  lemma LowerIdempotent(s: string)
    ensures Lower(Lower(s)) == Lower(s)
  {
  }

  /** `notify` of a connector record: the base class has none and reports
      False; a Kavita record reports True unless the client call raised.
      `clientCall` is what the client's `notify` does (None when it
      raised). */
  function Notify(className: string, clientCall: Option<Json>): (ok: bool)
    ensures className != "Kavita" ==> !ok
    ensures className == "Kavita" ==> (ok <==> clientCall.Some?)
  {
    if className == "Kavita" then clientCall.Some? else false
  }

  /** `Kavita.notify` as written, on top of the client: the client's
      `notify` is wrapped by `skip_if_errored`, which turns a raise into a
      False return, so the record's `try` never sees an exception. */
  function KavitaNotifyAsWritten(errored: bool, inner: Result<Json>): (ok: bool)
    ensures ok
  {
    Notify("Kavita", Some(ConnectorClient.LatchResult(errored, inner)))
  }

  /** The scan request raised, and the record still reports success. */
  lemma KavitaFailureReportedAsSuccess()
    ensures KavitaNotifyAsWritten(false, Err(NotifyError))
  {
  }

  /** `Kavita.notify` reading the client's result: the False the wrapper
      returns after a raise is reported as a failed notification. */
  function KavitaNotifyChecked(errored: bool, inner: Result<Json>): (ok: bool)
    ensures !errored ==> (ok <==> inner.Ok? && inner.value != JBool(false))
    ensures errored ==> ok
  {
    ConnectorClient.LatchResult(errored, inner) != JBool(false)
  }
}
