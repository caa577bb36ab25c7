/** Lockable metadata fields: a JSON dict `{value, locked}` per field, a
    proxy that reads and writes it on the owning record, typed coercion on
    write, and a lock that makes a non-forced write raise. */
module LockableFields {
  import opened PyValues

  /** What `set_value` applies to a new value: a validator (which raises
      ValidationError itself) or a `value_type` constructor (whose
      ValueError/TypeError is turned into ValidationError). */
  datatype Coercion =
    | Validator(validate: Json -> Result<Json>)
    | ValueType(convert: Json -> Result<Json>)

  /** The concrete lockable field classes. */
  datatype FieldKind =
    | CharField
    | ListField
    | BoolField
    | IntegerField
    | FloatField
    | DateTimeField
    | EnumField(cls: EnumClass)

  /** A data dict that has both keys the proxy relies on. */
  predicate Structured(d: map<string, Json>) {
    "value" in d && "locked" in d
  }

  /** A raw field value that is such a dict. */
  predicate HasStructure(j: Json) {
    j.JDict? && Structured(j.fields)
  }

  /** `{value: <default>, locked: False}`. */
  function DefaultStructure(default: Json): (d: map<string, Json>)
    ensures Structured(d) && d.Keys == {"value", "locked"}
    ensures d["value"] == default && !Truthy(d["locked"])
  {
    map["value" := default, "locked" := JBool(false)]
  }

  /** `{value: raw, locked: False}`: how a bare value is wrapped. */
  function Wrap(v: Json): (d: map<string, Json>)
    ensures Structured(d) && d["value"] == v && !Truthy(d["locked"])
  {
    DefaultStructure(v)
  }

  /** `data.get('locked', False)`, read for its truth value. */
  function IsLocked(d: map<string, Json>): bool {
    Truthy(DictGet(d, "locked"))
  }

  /** `LockableFieldProxy._get_data`: the instance's dict when it has both
      keys, otherwise a fresh unlocked dict holding the field default. */
  function GetData(raw: Option<Json>, default: Json): (d: map<string, Json>)
    ensures Structured(d)
    ensures raw.Some? && HasStructure(raw.value) ==> d == raw.value.fields
    ensures !(raw.Some? && HasStructure(raw.value)) ==> d["value"] == default && !IsLocked(d)
  {
    if raw.Some? && HasStructure(raw.value) then raw.value.fields else DefaultStructure(default)
  }

  /** The coercion step of `set_value`: a validator is applied as is; a
      value type is applied to everything but None, and its ValueError or
      TypeError surfaces as ValidationError. */
  function Coerce(c: Coercion, x: Json): (r: Result<Json>)
    ensures c.ValueType? && x == JNone ==> r == Ok(JNone)
    ensures c.ValueType? && x != JNone && c.convert(x).Ok? ==> r == c.convert(x)
    ensures c.ValueType? && x != JNone && c.convert(x).Err? && c.convert(x).error in {ValueError, TypeError} ==>
              r == Err(ValidationError)
    ensures c.ValueType? && x != JNone && c.convert(x).Err? && c.convert(x).error !in {ValueError, TypeError} ==>
              r == c.convert(x)
    ensures c.Validator? ==> r == c.validate(x)
  {
    match c
    case Validator(f) => f(x)
    case ValueType(t) =>
      if x == JNone then Ok(x)
      else
        match t(x)
        case Ok(v) => Ok(v)
        case Err(e) => Err(if e == ValueError || e == TypeError then ValidationError else e)
  }

  /** `LockableFieldProxy.set_value` on the field's data dict. A non-forced
      write to a locked field raises ValidationError; otherwise the coerced
      value replaces `value` and every other key, `locked` included, is kept. */
  function SetValueOn(d: map<string, Json>, x: Json, force: bool, c: Coercion): (r: Result<map<string, Json>>)
    requires Structured(d)
    ensures IsLocked(d) && !force ==> r == Err(ValidationError)
    ensures r.Ok? <==> (!IsLocked(d) || force) && Coerce(c, x).Ok?
    ensures r.Ok? ==> r.value.Keys == d.Keys && r.value["value"] == Coerce(c, x).value
    ensures r.Ok? ==> forall k :: k in d && k != "value" ==> r.value[k] == d[k]
    ensures r.Ok? ==> IsLocked(r.value) == IsLocked(d)
    ensures (!IsLocked(d) || force) && Coerce(c, x).Err? ==> r == Err(Coerce(c, x).error)
  {
    if IsLocked(d) && !force then Err(ValidationError)
    else
      match Coerce(c, x)
      case Err(e) => Err(e)
      case Ok(v) => Ok(d["value" := v])
  }

  /** `lock()` on the data dict: `locked` becomes true, nothing else moves. */
  function LockOn(d: map<string, Json>): (r: map<string, Json>)
    requires Structured(d)
    ensures Structured(r) && IsLocked(r) && r.Keys == d.Keys
    ensures forall k :: k in d && k != "locked" ==> r[k] == d[k]
  {
    d["locked" := JBool(true)]
  }

  /** `unlock()` on the data dict: `locked` becomes false, nothing else moves. */
  function UnlockOn(d: map<string, Json>): (r: map<string, Json>)
    requires Structured(d)
    ensures Structured(r) && !IsLocked(r) && r.Keys == d.Keys
    ensures forall k :: k in d && k != "locked" ==> r[k] == d[k]
  {
    d["locked" := JBool(false)]
  }

  /** After `lock()`, a non-forced write raises and a forced write stores the
      coerced value and leaves the field locked. */
  lemma LockedFieldWrites(d: map<string, Json>, x: Json, c: Coercion)
    requires Structured(d)
    ensures SetValueOn(LockOn(d), x, false, c) == Err(ValidationError)
    ensures Coerce(c, x).Ok? ==>
              var r := SetValueOn(LockOn(d), x, true, c);
              r.Ok? && r.value["value"] == Coerce(c, x).value && IsLocked(r.value)
  {
  }

  /** `LockableFieldBase.get_prep_value` for a value that is not a proxy:
      a dict is stored as it is, anything else is wrapped unlocked. */
  function PrepValue(v: Json): (r: Json)
    ensures v.JDict? ==> r == v
    ensures !v.JDict? ==> HasStructure(r) && r.fields == Wrap(v)
  {
    if v.JDict? then v else JDict(Wrap(v))
  }

  /** `LockableFieldBase.from_db_value`. None becomes the default structure,
      a structured dict is returned unchanged, a string is first parsed as
      JSON (an unparsable string is wrapped as it is), and anything else is
      wrapped unlocked. The result always has both keys. */
  function FromDbValue(v: Json, parseJson: string -> Option<Json>, default: Json): (d: map<string, Json>)
    ensures Structured(d)
    ensures v == JNone ==> d == DefaultStructure(default)
    ensures HasStructure(v) ==> d == v.fields
    ensures v.JStr? && parseJson(v.s).None? ==> d == Wrap(v)
    ensures v.JStr? && parseJson(v.s).Some? ==> d == FromDbParsed(parseJson(v.s).value)
    ensures v != JNone && !v.JStr? && !HasStructure(v) ==> d == Wrap(v)
  {
    if v == JNone then DefaultStructure(default)
    else if v.JStr? then
      match parseJson(v.s)
      case None => Wrap(v)
      case Some(p) => FromDbParsed(p)
    else FromDbParsed(v)
  }

  /** The structure check `from_db_value` applies once the value is parsed. */
  function FromDbParsed(p: Json): (d: map<string, Json>)
    ensures Structured(d)
    ensures HasStructure(p) ==> d == p.fields
    ensures !HasStructure(p) ==> d == Wrap(p)
  {
    if HasStructure(p) then p.fields else Wrap(p)
  }

  /** What `from_db_value` reconstructs from what `get_prep_value` stored
      (JSON serialisation in between is the identity on these values); None
      comes back wrapped, not as the default. */
  lemma PrepFromDbRoundTrip(v: Json, parseJson: string -> Option<Json>, default: Json)
    ensures FromDbValue(PrepValue(v), parseJson, default) == if HasStructure(v) then v.fields else Wrap(v)
  {
  }

  // ---- Field defaults and coercions of the concrete field classes ----

  /** The datetime `LockableDateTimeField` defaults to: 1900-01-01 12:00 UTC. */
  const DEFAULT_DATETIME: Moment := Moment(DateTimeKind, 1900, 1, 1, 12 * 3600)

  /** `get_default_value` of each field class: the configured default when it
      is truthy, otherwise the class's own (`""`, `[]`, `False`, `0`, `0.0`,
      1900-01-01 12:00, the enum's first member value). For an enum field the
      configured default is a member index. */
  function DefaultValue(kind: FieldKind, configured: Json, configuredMember: Option<nat>): (v: Json)
    requires kind.EnumField? ==> |kind.cls.values| > 0
    ensures !kind.EnumField? && Truthy(configured) ==> v == configured
    ensures kind == CharField && !Truthy(configured) ==> v == JStr("")
    ensures kind == ListField && !Truthy(configured) ==> v == JList([])
    ensures kind == BoolField && !Truthy(configured) ==> v == JBool(false)
    ensures kind == IntegerField && !Truthy(configured) ==> v == JInt(0)
    ensures kind == FloatField && !Truthy(configured) ==> v == JFloat(0.0)
    ensures kind == DateTimeField && !Truthy(configured) ==> v == JTime(DEFAULT_DATETIME)
    ensures kind.EnumField? ==> v in kind.cls.values
  {
    match kind
    case EnumField(cls) =>
      if configuredMember.Some? && configuredMember.value < |cls.values| && Truthy(cls.values[configuredMember.value])
      then cls.values[configuredMember.value]
      else cls.values[0]
    case _ =>
      if Truthy(configured) then configured
      else
        match kind
        case CharField => JStr("")
        case ListField => JList([])
        case BoolField => JBool(false)
        case IntegerField => JInt(0)
        case FloatField => JFloat(0.0)
        case DateTimeField => JTime(DEFAULT_DATETIME)
  }

  /** The coercion each field class installs on its descriptor. */
  function CoercionFor(kind: FieldKind, b: Builtins): Coercion {
    match kind
    case CharField => ValueType(b.toStr)
    case ListField => ValueType(b.toList)
    case BoolField => ValueType((x: Json) => Ok(JBool(Truthy(x))))
    case IntegerField => ValueType(b.toInt)
    case FloatField => ValueType(b.toFloat)
    case DateTimeField => Validator((x: Json) => ValidateDateTime(b, x))
    case EnumField(cls) => Validator((x: Json) => ValidateEnum(cls, x))
  }

  /** `value.replace('Z', '+00:00')`. */
  function ReplaceZ(s: string): (r: string)
    ensures 'Z' !in r
    ensures 'Z' !in s ==> r == s
    ensures |r| >= |s|
  {
    if s == [] then []
    else (if s[0] == 'Z' then "+00:00" else [s[0]]) + ReplaceZ(s[1..])
  }

  /** The datetime validator: None stays None, a datetime is kept, a string
      is parsed as ISO 8601 (after `Z` is spelled `+00:00`), anything else
      or an unparsable string raises ValidationError. */
  function ValidateDateTime(b: Builtins, x: Json): (r: Result<Json>)
    ensures x == JNone ==> r == Ok(JNone)
    ensures x.JTime? && x.t.kind == DateTimeKind ==> r == Ok(x)
    ensures r.Ok? && r.value != JNone ==> r.value.JTime?
    ensures !x.JStr? && !x.JNone? && !(x.JTime? && x.t.kind == DateTimeKind) ==> r == Err(ValidationError)
    ensures x.JStr? ==> (r.Ok? <==> b.fromIsoFormat(ReplaceZ(x.s)).Some?)
    ensures x.JStr? && b.fromIsoFormat(ReplaceZ(x.s)).Some? ==> r == Ok(JTime(b.fromIsoFormat(ReplaceZ(x.s)).value))
    ensures x.JStr? && b.fromIsoFormat(ReplaceZ(x.s)).None? ==> r == Err(ValidationError)
  {
    if x == JNone then Ok(JNone)
    else if x.JTime? && x.t.kind == DateTimeKind then Ok(x)
    else if x.JStr? then
      match b.fromIsoFormat(ReplaceZ(x.s))
      case Some(m) => Ok(JTime(m))
      case None => Err(ValidationError)
    else Err(ValidationError)
  }

  /** `LockableDateTimeField.from_db_value`: the base normalisation, then a
      non-None stored value is parsed with `fromisoformat`; a value that does
      not parse stays raw. */
  function DateTimeFromDb(v: Json, parseJson: string -> Option<Json>, b: Builtins): (d: map<string, Json>)
    ensures Structured(d)
    ensures var base := FromDbValue(v, parseJson, JTime(DEFAULT_DATETIME));
            d.Keys == base.Keys && d["locked"] == base["locked"]
    ensures var stored := FromDbValue(v, parseJson, JTime(DEFAULT_DATETIME))["value"];
            stored.JStr? && b.fromIsoFormat(stored.s).Some? ==> d["value"] == JTime(b.fromIsoFormat(stored.s).value)
    ensures var stored := FromDbValue(v, parseJson, JTime(DEFAULT_DATETIME))["value"];
            !(stored.JStr? && b.fromIsoFormat(stored.s).Some?) ==> d == FromDbValue(v, parseJson, JTime(DEFAULT_DATETIME))
  {
    var base := FromDbValue(v, parseJson, JTime(DEFAULT_DATETIME));
    var stored := base["value"];
    if stored.JStr? && b.fromIsoFormat(stored.s).Some? then base["value" := JTime(b.fromIsoFormat(stored.s).value)]
    else base
  }

  /** `LockableDateTimeField.get_prep_value` on the proxy's data: a datetime
      value is stored as its ISO string, in a copy. */
  function DateTimePrep(d: map<string, Json>, b: Builtins): (r: map<string, Json>)
    requires Structured(d)
    ensures r.Keys == d.Keys && r["locked"] == d["locked"]
    ensures d["value"].JTime? && d["value"].t.kind == DateTimeKind ==> r["value"] == JStr(b.isoFormat(d["value"].t))
    ensures !(d["value"].JTime? && d["value"].t.kind == DateTimeKind) ==> r == d
  {
    var v := d["value"];
    if v.JTime? && v.t.kind == DateTimeKind then d["value" := JStr(b.isoFormat(v.t))] else d
  }

  /** A datetime stored by `get_prep_value` loads back as the same
      datetime, given that `fromisoformat` reads what `isoformat` writes. */
  lemma DateTimeRoundTrip(d: map<string, Json>, parseJson: string -> Option<Json>, b: Builtins)
    requires Structured(d) && d["value"].JTime? && d["value"].t.kind == DateTimeKind
    requires b.fromIsoFormat(b.isoFormat(d["value"].t)) == Some(d["value"].t)
    ensures DateTimeFromDb(JDict(DateTimePrep(d, b)), parseJson, b) == d
  {
    var p := DateTimePrep(d, b);
    assert HasStructure(JDict(p));
    assert FromDbValue(JDict(p), parseJson, JTime(DEFAULT_DATETIME)) == p;
    assert p["value" := d["value"]] == d;
  }

  // ---- Enum fields ----

  /** The first index at or after `from` whose member value or name equals
      `x` under Python `==`. */
  function FindMember(cls: EnumClass, x: Json, from: nat): (r: Option<nat>)
    requires |cls.names| == |cls.values|
    requires from <= |cls.values|
    ensures r.Some? ==> from <= r.value < |cls.values| && (PyEq(x, cls.values[r.value]) || x == JStr(cls.names[r.value]))
    ensures r.Some? ==> forall j :: from <= j < r.value ==> !PyEq(x, cls.values[j]) && x != JStr(cls.names[j])
    ensures r.None? ==> forall j :: from <= j < |cls.values| ==> !PyEq(x, cls.values[j]) && x != JStr(cls.names[j])
    decreases |cls.values| - from
  {
    if from == |cls.values| then None
    else if PyEq(x, cls.values[from]) || x == JStr(cls.names[from]) then Some(from)
    else FindMember(cls, x, from + 1)
  }

  /** The first index at or after `from` whose member value equals `x`
      under Python `==`. */
  function FindValue(cls: EnumClass, x: Json, from: nat): (r: Option<nat>)
    requires from <= |cls.values|
    ensures r.Some? ==> from <= r.value < |cls.values| && PyEq(x, cls.values[r.value])
    ensures r.Some? ==> forall j :: from <= j < r.value ==> !PyEq(x, cls.values[j])
    ensures r.None? ==> forall j :: from <= j < |cls.values| ==> !PyEq(x, cls.values[j])
    decreases |cls.values| - from
  {
    if from == |cls.values| then None
    else if PyEq(x, cls.values[from]) then Some(from)
    else FindValue(cls, x, from + 1)
  }

  /** The enum validator: None stays None, a member is kept, otherwise the
      first member whose value or name equals the input; no match raises
      ValidationError. */
  function ValidateEnum(cls: EnumClass, x: Json): (r: Result<Json>)
    ensures x == JNone ==> r == Ok(JNone)
    ensures cls.IsMember(x) ==> r == Ok(x)
    ensures x != JNone && !cls.IsMember(x) && |cls.names| == |cls.values| ==>
              match FindMember(cls, x, 0)
              case Some(i) => r == Ok(JMember(cls.name, i))
              case None => r == Err(ValidationError)
    ensures r.Ok? && r.value != JNone ==> cls.IsMember(r.value)
  {
    if x == JNone then Ok(JNone)
    else if cls.IsMember(x) then Ok(x)
    else if |cls.names| != |cls.values| then Err(ValidationError)
    else
      match FindMember(cls, x, 0)
      case Some(i) => Ok(JMember(cls.name, i))
      case None => Err(ValidationError)
  }

  /** `LockableEnumField.get_prep_value` on the proxy's data: a member is
      replaced by its `.value`, in a copy; anything else is stored as is. */
  function EnumPrep(d: map<string, Json>, cls: EnumClass): (r: map<string, Json>)
    requires Structured(d)
    ensures r.Keys == d.Keys && r["locked"] == d["locked"]
    ensures cls.IsMember(d["value"]) ==> r["value"] == cls.values[d["value"].index]
    ensures !cls.IsMember(d["value"]) ==> r == d
  {
    var v := d["value"];
    if cls.IsMember(v) then d["value" := cls.values[v.index]] else d
  }

  /** `LockableEnumField.from_db_value` after the base normalisation: a
      non-None stored value equal to a member's value becomes the first such
      member; an unknown value stays raw. */
  function EnumFromDb(d: map<string, Json>, cls: EnumClass): (r: map<string, Json>)
    requires Structured(d)
    ensures r.Keys == d.Keys && r["locked"] == d["locked"]
    ensures d["value"] != JNone && FindValue(cls, d["value"], 0).Some? ==>
              r["value"] == JMember(cls.name, FindValue(cls, d["value"], 0).value)
    ensures d["value"] == JNone || FindValue(cls, d["value"], 0).None? ==> r == d
  {
    var stored := d["value"];
    if stored == JNone then d
    else
      match FindValue(cls, stored, 0)
      case Some(i) => d["value" := JMember(cls.name, i)]
      case None => d
  }

  /** In a well-formed enum the first member holding the value of member `i`
      is `i` itself. */
  lemma {:induction false} FindValueOfMember(cls: EnumClass, i: nat, from: nat)
    requires cls.WellFormed()
    requires from <= i < |cls.values|
    ensures FindValue(cls, cls.values[i], from) == Some(i)
    decreases i - from
  {
    if from < i {
      assert !PyEq(cls.values[from], cls.values[i]);
      FindValueOfMember(cls, i, from + 1);
    }
  }

  /** Storing an enum member and loading it back yields the same member:
      `from_db_value(get_prep_value(d)) == d` for a member whose value is not
      None. */
  lemma EnumRoundTrip(d: map<string, Json>, cls: EnumClass, parseJson: string -> Option<Json>)
    requires cls.WellFormed() && Structured(d)
    requires cls.IsMember(d["value"]) && cls.values[d["value"].index] != JNone
    ensures EnumFromDb(FromDbValue(JDict(EnumPrep(d, cls)), parseJson, cls.values[0]), cls) == d
  {
    var i := d["value"].index;
    var p := EnumPrep(d, cls);
    assert HasStructure(JDict(p));
    assert FromDbValue(JDict(p), parseJson, cls.values[0]) == p;
    FindValueOfMember(cls, i, 0);
    assert d["value"] == JMember(cls.name, i);
    assert p["value" := JMember(cls.name, i)] == d;
  }

  /** A stored value equal to no member's value is left raw by
      `from_db_value`. */
  lemma EnumUnknownStaysRaw(d: map<string, Json>, cls: EnumClass)
    requires Structured(d)
    requires forall j :: 0 <= j < |cls.values| ==> !PyEq(d["value"], cls.values[j])
    ensures EnumFromDb(d, cls) == d
  {
  }

  // ---- The proxy on one record's field ----

  /** One lockable field of one record instance: `raw` is what the
      instance's `__dict__` holds under the field name (None when the key is
      absent); the proxy's operations read and rewrite it. */
  class LockableField {
    const name: string
    const default: Json
    const coercion: Coercion
    var raw: Option<Json>

    constructor (name: string, default: Json, coercion: Coercion, raw: Option<Json>)
      ensures this.name == name && this.default == default && this.coercion == coercion && this.raw == raw
    {
      this.name := name;
      this.default := default;
      this.coercion := coercion;
      this.raw := raw;
    }

    /** The data dict the proxy sees. */
    function Data(): map<string, Json>
      reads this
    {
      GetData(raw, default)
    }

    /** `proxy.value`. */
    function Value(): Json
      reads this
    {
      DictGet(Data(), "value")
    }

    /** `proxy.locked`. */
    function Locked(): bool
      reads this
    {
      IsLocked(Data())
    }

    /** `_get_data`: returns the data dict, installing `{value: default,
        locked: False}` on the instance when the raw entry is missing or
        lacks either key. */
    method LoadData() returns (d: map<string, Json>)
      modifies this
      ensures d == old(Data()) && raw == Some(JDict(d))
      ensures old(raw).Some? && HasStructure(old(raw).value) ==> raw == old(raw)
      ensures !(old(raw).Some? && HasStructure(old(raw).value)) ==> d == DefaultStructure(default)
    {
      if raw.Some? && HasStructure(raw.value) {
        d := raw.value.fields;
      } else {
        d := DefaultStructure(default);
        raw := Some(JDict(d));
      }
    }

    /** `set_value(x, force)`. A non-forced write to a locked field raises
        ValidationError and changes nothing; a failed coercion raises and
        keeps the stored value; no write changes the lock. */
    method SetValue(x: Json, force: bool) returns (r: Outcome)
      modifies this
      ensures var s := SetValueOn(old(Data()), x, force, coercion);
              && (s.Ok? ==> r == Pass && raw == Some(JDict(s.value)))
              && (s.Err? ==> r == Fail(s.error) && raw == Some(JDict(old(Data()))))
      ensures Locked() == old(Locked())
      ensures r.Fail? ==> Value() == old(Value())
      ensures old(Locked()) && !force ==> r == Fail(ValidationError)
    {
      var data := LoadData();
      if IsLocked(data) && !force {
        return Fail(ValidationError);
      }
      var coerced := Coerce(coercion, x);
      if coerced.Err? {
        return Fail(coerced.error);
      }
      data := data["value" := coerced.value];
      raw := Some(JDict(data));
      r := Pass;
    }

    /** `lock()`: sets `locked`, never touches `value`. */
    method Lock()
      modifies this
      ensures raw == Some(JDict(LockOn(old(Data()))))
      ensures Locked() && Value() == old(Value())
    {
      var data := LoadData();
      data := data["locked" := JBool(true)];
      raw := Some(JDict(data));
    }

    /** `unlock()`: clears `locked`, never touches `value`. */
    method Unlock()
      modifies this
      ensures raw == Some(JDict(UnlockOn(old(Data()))))
      ensures !Locked() && Value() == old(Value())
    {
      var data := LoadData();
      data := data["locked" := JBool(false)];
      raw := Some(JDict(data));
    }

    /** `LockableFieldDescriptor.__set__`: a full `{value, locked}` dict
        replaces the raw entry outright (the lock does not apply); any other
        value goes through `set_value(x, force=False)`. */
    method Assign(x: Json) returns (r: Outcome)
      modifies this
      ensures HasStructure(x) ==> r == Pass && raw == Some(x)
      ensures !HasStructure(x) ==>
                var s := SetValueOn(old(Data()), x, false, coercion);
                (s.Ok? ==> r == Pass && raw == Some(JDict(s.value))) &&
                (s.Err? ==> r == Fail(s.error) && raw == Some(JDict(old(Data()))))
    {
      if HasStructure(x) {
        raw := Some(x);
        r := Pass;
      } else {
        r := SetValue(x, false);
      }
    }

    /** `LockableEnumField.get_prep_value(proxy)`: what is written to the
        store. The member is converted on a copy; the live dict keeps it. */
    method EnumPrepValue(cls: EnumClass) returns (stored: Json)
      modifies this
      ensures stored == JDict(EnumPrep(old(Data()), cls))
      ensures raw == Some(JDict(old(Data())))
    {
      var data := LoadData();
      stored := JDict(EnumPrep(data, cls));
    }
  }
}
