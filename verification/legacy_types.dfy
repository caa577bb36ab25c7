/** The older standalone lockable value records: each keeps a `_data` dict
    with `value` and `locked`, its value setter is silently ignored while the
    record is locked, and `save` fills missing keys from the type's default
    dict before persisting. */
module DataTypes {
  import opened PyValues
  import LockableFields

  datatype LegacyKind =
    | StringType
    | BoolType
    | IntType
    | FloatType
    | DateType
    | EnumType(cls: EnumClass)   // FormatsEnumType, AgeRatingEnumType, StatusEnumType

  /** The ISO string `DateType` starts from. */
  const DATE_DEFAULT_TEXT: string := "1900-01-01T12:00:00+00:00"

  /** The value each type's getter falls back to when `value` is absent. */
  function GetterDefault(kind: LegacyKind): Json {
    match kind
    case StringType => JStr("")
    case BoolType => JBool(false)
    case IntType => JInt(0)
    case FloatType => JFloat(0.0)
    case DateType => JStr(DATE_DEFAULT_TEXT)
    case EnumType(_) => JInt(1)
  }

  /** `STRING_DEFAULT`, `BOOL_DEFAULT`, ... `ENUM_DEFAULT`. */
  function TypeDefaults(kind: LegacyKind): (d: map<string, Json>)
    ensures d.Keys == {"value", "locked"} && d["locked"] == JBool(false)
    ensures d["value"] == GetterDefault(kind)
  {
    map["value" := GetterDefault(kind), "locked" := JBool(false)]
  }

  /** Filling defaults twice is filling them once. */
  lemma FillDefaultsIdempotent(defaults: map<string, Json>, data: map<string, Json>)
    ensures DictUpdate(defaults, DictUpdate(defaults, data)) == DictUpdate(defaults, data)
  {
    var once := DictUpdate(defaults, data);
    var twice := DictUpdate(defaults, once);
    assert twice.Keys == once.Keys;
    forall k | k in once
      ensures twice[k] == once[k]
    {
    }
  }

  /** The `locked` property, read for its truth value as the setter guard does. */
  function IsLocked(data: map<string, Json>): bool {
    Truthy(DictGet(data, "locked"))
  }

  /** The `value` getter of each type. String/Bool/Int/Float return the stored
      value or the type default when absent; DateType parses the stored (or
      default) text with `%Y-%m-%dT%H:%M:%S%z`; an enum type looks the stored
      value up among its members (a missing key raises KeyError, an unknown
      value ValueError). */
  function GetValue(kind: LegacyKind, data: map<string, Json>, b: Builtins): (r: Result<Json>)
    ensures kind.StringType? || kind.BoolType? || kind.IntType? || kind.FloatType? ==>
              r == Ok(if "value" in data then data["value"] else GetterDefault(kind))
    ensures kind.DateType? ==>
              var text := if "value" in data then data["value"] else JStr(DATE_DEFAULT_TEXT);
              && (text.JStr? && b.strptime(text.s).Some? ==> r == Ok(JTime(b.strptime(text.s).value)))
              && (text.JStr? && b.strptime(text.s).None? ==> r == Err(ValueError))
              && (!text.JStr? ==> r == Err(TypeError))
    ensures kind.EnumType? && "value" !in data ==> r == Err(KeyError)
    ensures kind.EnumType? && r.Ok? ==> kind.cls.IsMember(r.value) && PyEq(data["value"], kind.cls.values[r.value.index])
    ensures kind.EnumType? && "value" in data && (forall j :: 0 <= j < |kind.cls.values| ==> !PyEq(data["value"], kind.cls.values[j])) ==>
              r == Err(ValueError)
    ensures kind.EnumType? && "value" in data && (exists j :: 0 <= j < |kind.cls.values| && PyEq(data["value"], kind.cls.values[j])) ==>
              r.Ok? && r.value == JMember(kind.cls.name, r.value.index)
              && forall j :: 0 <= j < r.value.index ==> !PyEq(data["value"], kind.cls.values[j])
  {
    match kind
    case DateType =>
      var text := if "value" in data then data["value"] else JStr(DATE_DEFAULT_TEXT);
      if text.JStr? then
        (match b.strptime(text.s)
         case Some(m) => Ok(JTime(m))
         case None => Err(ValueError))
      else Err(TypeError)
    case EnumType(cls) =>
      if "value" !in data then Err(KeyError)
      else
        (match LockableFields.FindValue(cls, data["value"], 0)
         case Some(i) => Ok(JMember(cls.name, i))
         case None => Err(ValueError))
    case _ => Ok(if "value" in data then data["value"] else GetterDefault(kind))
  }

  /** What the unlocked setter body does with a new value. */
  datatype SetterEffect =
    | Store(v: Json)     // `_data["value"] = v`, then save
    | SaveOnly           // nothing assigned, save still runs
    | LogOnly            // the error is logged; no assignment and no save
    | Raise(e: PyError)  // the exception escapes the setter

  /** The setter body of each type, once the lock guard has let it through.
      Int and Float store `int(x)` / `float(x)`; DateType re-formats a parsed
      string or a datetime (a parse failure is only logged, any other type
      is not assigned but still saved); an enum type stores `x.value`. */
  function SetterBody(kind: LegacyKind, x: Json, b: Builtins): (e: SetterEffect)
    ensures kind.StringType? || kind.BoolType? ==> e == Store(x)
    ensures kind.IntType? ==> (b.toInt(x).Ok? ==> e == Store(b.toInt(x).value)) && (b.toInt(x).Err? ==> e == Raise(b.toInt(x).error))
    ensures kind.FloatType? ==> (b.toFloat(x).Ok? ==> e == Store(b.toFloat(x).value)) && (b.toFloat(x).Err? ==> e == Raise(b.toFloat(x).error))
    ensures kind.DateType? && x.JStr? && b.strptime(x.s).None? ==> e == LogOnly
    ensures kind.DateType? && x.JStr? && b.strptime(x.s).Some? ==> e == Store(JStr(b.strftime(b.strptime(x.s).value)))
    ensures kind.DateType? && x.JTime? && x.t.kind == DateTimeKind ==> e == Store(JStr(b.strftime(x.t)))
    ensures kind.DateType? && !x.JStr? && !(x.JTime? && x.t.kind == DateTimeKind) ==> e == SaveOnly
    ensures kind.EnumType? && kind.cls.IsMember(x) ==> e == Store(kind.cls.values[x.index])
    ensures kind.EnumType? && !kind.cls.IsMember(x) ==> e == Raise(AttributeError)
  {
    match kind
    case StringType => Store(x)
    case BoolType => Store(x)
    case IntType =>
      (match b.toInt(x) case Ok(v) => Store(v) case Err(err) => Raise(err))
    case FloatType =>
      (match b.toFloat(x) case Ok(v) => Store(v) case Err(err) => Raise(err))
    case DateType =>
      if x.JStr? then
        (match b.strptime(x.s)
         case Some(m) => Store(JStr(b.strftime(m)))
         case None => LogOnly)
      else if x.JTime? && x.t.kind == DateTimeKind then Store(JStr(b.strftime(x.t)))
      else SaveOnly
    case EnumType(cls) =>
      if cls.IsMember(x) then Store(cls.values[x.index]) else Raise(AttributeError)
  }

  /** An enum value written through the setter reads back as the same member. */
  lemma {:induction false} EnumSetGetRoundTrip(cls: EnumClass, data: map<string, Json>, i: nat, b: Builtins)
    requires cls.WellFormed() && i < |cls.values|
    ensures SetterBody(EnumType(cls), JMember(cls.name, i), b) == Store(cls.values[i])
    ensures GetValue(EnumType(cls), data["value" := cls.values[i]], b) == Ok(JMember(cls.name, i))
  {
    LockableFields.FindValueOfMember(cls, i, 0);
  }

  /** One legacy value record: `data` is the in-memory `_data`, `stored` the
      dict last persisted (None before the first save). */
  class LegacyField {
    const kind: LegacyKind
    var data: map<string, Json>
    var stored: Option<map<string, Json>>

    constructor (kind: LegacyKind, data: map<string, Json>)
      ensures this.kind == kind && this.data == data && stored == None
    {
      this.kind := kind;
      this.data := data;
      stored := None;
    }

    function Locked(): bool
      reads this
    {
      IsLocked(data)
    }

    /** `save()`: fill the type's defaults under the present keys, persist. */
    method Save()
      modifies this
      ensures data == DictUpdate(TypeDefaults(kind), old(data))
      ensures stored == Some(data)
    {
      data := TypeDefaults(kind) + data;
      stored := Some(data);
    }

    /** The `value` setter behind `prevent_if_locked`: while locked it is a
        silent no-op (no change, no save, no error). */
    method SetValue(x: Json, b: Builtins) returns (r: Outcome)
      modifies this
      ensures old(Locked()) ==> r == Pass && data == old(data) && stored == old(stored)
      ensures !old(Locked()) ==>
                match SetterBody(kind, x, b)
                case Store(v) => r == Pass && data == DictUpdate(TypeDefaults(kind), old(data)["value" := v]) && stored == Some(data)
                case SaveOnly => r == Pass && data == DictUpdate(TypeDefaults(kind), old(data)) && stored == Some(data)
                case LogOnly => r == Pass && data == old(data) && stored == old(stored)
                case Raise(e) => r == Fail(e) && data == old(data) && stored == old(stored)
    {
      if IsLocked(data) {
        return Pass;
      }
      match SetterBody(kind, x, b)
      case Store(v) =>
        data := data["value" := v];
        Save();
        r := Pass;
      case SaveOnly =>
        Save();
        r := Pass;
      case LogOnly =>
        r := Pass;
      case Raise(e) =>
        r := Fail(e);
    }

    /** `lock()`: sets `locked` only, then saves. */
    method Lock()
      modifies this
      ensures data == DictUpdate(TypeDefaults(kind), old(data)["locked" := JBool(true)])
      ensures stored == Some(data) && Locked()
    {
      data := data["locked" := JBool(true)];
      Save();
    }

    /** `unlock()`: clears `locked` only, then saves. */
    method Unlock()
      modifies this
      ensures data == DictUpdate(TypeDefaults(kind), old(data)["locked" := JBool(false)])
      ensures stored == Some(data) && !Locked()
    {
      data := data["locked" := JBool(false)];
      Save();
    }
  }

  /** Locking never alters the stored value: after `lock()` the getter of a
      String/Bool/Int/Float record returns what it returned before. */
  lemma LockKeepsValue(kind: LegacyKind, data: map<string, Json>, b: Builtins)
    requires kind.StringType? || kind.BoolType? || kind.IntType? || kind.FloatType?
    ensures GetValue(kind, DictUpdate(TypeDefaults(kind), data["locked" := JBool(true)]), b) == GetValue(kind, data, b)
  {
  }
}
