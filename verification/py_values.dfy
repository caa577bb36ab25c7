/** The Python values the core passes around: JSON-field contents plus the
    few Python objects (datetimes, enum members) that live in them while a
    record is in memory, the exceptions the core raises or catches, and
    Python's truthiness. */
module PyValues {

  datatype Option<T> = None | Some(value: T)

  /** Exception classes raised or caught by the core. */
  datatype PyError =
    | ValidationError
    | ValueError
    | TypeError
    | AttributeError
    | RelatedObjectDoesNotExist  // a required foreign key read while unset
    | KeyError
    | FieldError          // a query names a field the model does not have
    | IntegrityError      // a unique or not-null constraint of the record store
    | FileNotFoundError
    | OSError
    | PluginError         // anything a source plugin raises
    | NotifyError         // anything an outbound connector raises
    | OperationalError    // the record store could not be reached
    | BareException       // a plain `Exception` raised by the core itself

  datatype Result<T> = Ok(value: T) | Err(error: PyError)

  /** The result of a call made only for its effect: it returned, or it raised. */
  datatype Outcome = Pass | Fail(error: PyError)

  datatype TemporalKind = DateTimeKind | DateKind | TimeKind

  /** A `datetime.datetime`, `datetime.date` or `datetime.time`; only the
      calendar parts the core reads are spelled out. */
  datatype Moment = Moment(kind: TemporalKind, year: int, month: int, day: int, secondOfDay: int)

  /** A Python value as stored in a JSON field or held by a lockable field.
      Python floats are modelled as reals; dictionaries as maps (the
      insertion order of a dict is not kept). */
  datatype Json =
    | JNone
    | JBool(b: bool)
    | JInt(i: int)
    | JFloat(r: real)
    | JStr(s: string)
    | JList(items: seq<Json>)
    | JDict(fields: map<string, Json>)
    | JTime(t: Moment)
    | JMember(enumName: string, index: nat)

  /** Python's `bool(x)`. Enum members are truthy (the default for `Enum`). */
  function Truthy(j: Json): (t: bool)
    ensures j == JNone ==> !t
    ensures j.JStr? ==> (t <==> j.s != [])
  {
    match j
    case JNone => false
    case JBool(b) => b
    case JInt(i) => i != 0
    case JFloat(r) => r != 0.0
    case JStr(s) => s != []
    case JList(items) => items != []
    case JDict(fields) => fields != map[]
    case JTime(_) => true
    case JMember(_, _) => true
  }

  /** `d.get(k)`: the value under `k`, or None when the key is absent. */
  function DictGet(d: map<string, Json>, k: string): (v: Json)
    ensures k !in d ==> v == JNone
    ensures k in d ==> v == d[k]
  {
    if k in d then d[k] else JNone
  }

  /** `{**a, **b}`: every key of `b` takes `b`'s value, and every other key
      of `a` keeps its own. */
  function DictUpdate(a: map<string, Json>, b: map<string, Json>): (r: map<string, Json>)
    ensures r.Keys == a.Keys + b.Keys
    ensures forall k :: k in b ==> r[k] == b[k]
    ensures forall k :: k in a && k !in b ==> r[k] == a[k]
  {
    a + b
  }

  /** The numeric value of a bool, int or float. */
  function AsNumber(j: Json): Option<real> {
    match j
    case JBool(x) => Some(if x then 1.0 else 0.0)
    case JInt(i) => Some(i as real)
    case JFloat(r) => Some(r)
    case _ => None
  }

  /** Python `==`: numbers compare by value across bool, int and float,
      anything else structurally. */
  predicate PyEq(a: Json, b: Json): (r: bool)
    ensures a == b ==> r
    ensures r && !(a.JBool? || a.JInt? || a.JFloat?) ==> a == b
    ensures (a.JBool? || a.JInt? || a.JFloat?) && !(b.JBool? || b.JInt? || b.JFloat?) ==> !r
  {
    if AsNumber(a).Some? && AsNumber(b).Some? then AsNumber(a).value == AsNumber(b).value else a == b
  }

  /** A Python enum class: its members' values, names and display labels, in
      definition order. No two values are equal under `==`. */
  datatype EnumClass = EnumClass(name: string, values: seq<Json>, names: seq<string>, labels: seq<string>)
  {
    ghost predicate WellFormed() {
      && |values| == |names| == |labels|
      && |values| > 0
      && (forall i, j :: 0 <= i < j < |values| ==> !PyEq(values[i], values[j]))
    }

    predicate IsMember(j: Json) {
      j.JMember? && j.enumName == name && j.index < |values|
    }
  }

  /** The Python builtins and library conversions the core calls but whose
      workings are outside the model. Each may raise. */
  datatype Builtins = Builtins(
    toStr: Json -> Result<Json>,
    toInt: Json -> Result<Json>,
    toFloat: Json -> Result<Json>,
    toList: Json -> Result<Json>,
    fromIsoFormat: string -> Option<Moment>,
    isoFormat: Moment -> string,
    strftime: Moment -> string,
    strptime: string -> Option<Moment>,
    sha256: string -> string)

  // ---- Decimal text of integers (`str(n)`, `f"{n}"`) ----

  function DigitChar(d: nat): (c: char)
    requires d < 10
    ensures '0' <= c <= '9'
  {
    ('0' as int + d) as char
  }

  /** `str(n)` for a non-negative integer: its decimal digits, with no
      leading zero except for 0 itself. */
  function Digits(n: nat): (s: string)
    ensures |s| >= 1
    ensures forall i :: 0 <= i < |s| ==> '0' <= s[i] <= '9'
    ensures |s| > 1 ==> s[0] != '0'
    decreases n
  {
    if n < 10 then [DigitChar(n)] else Digits(n / 10) + [DigitChar(n % 10)]
  }

  /** `int(s)` for a string of decimal digits. */
  function ParseDigits(s: string): nat
    requires forall i :: 0 <= i < |s| ==> '0' <= s[i] <= '9'
  {
    if s == [] then 0 else ParseDigits(s[..|s| - 1]) * 10 + (s[|s| - 1] as int - '0' as int)
  }

  /** `int(str(n)) == n`. */
  lemma {:induction false} DigitsRoundTrip(n: nat)
    ensures ParseDigits(Digits(n)) == n
    decreases n
  {
    if n >= 10 {
      DigitsRoundTrip(n / 10);
      var s := Digits(n);
      assert s[..|s| - 1] == Digits(n / 10);
      assert s[|s| - 1] == DigitChar(n % 10);
      assert ParseDigits(s) == n / 10 * 10 + n % 10;
    }
  }

  /** `str(i)` for any integer. */
  function IntText(i: int): (s: string)
    ensures i >= 0 ==> s == Digits(i)
    ensures i < 0 ==> s == "-" + Digits(-i)
  {
    if i >= 0 then Digits(i) else "-" + Digits(-i)
  }
}
