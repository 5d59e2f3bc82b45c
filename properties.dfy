/** Typed field descriptors (ndb.py, class Property and its specialisations).

    A property is declared once per model class. Its validation substitutes the default
    for a missing value, then rejects a required value that is still missing, a value of
    the wrong type, a value outside the declared choices, and a value the custom
    validator rejects, in that order. */
module Properties {
  import opened Results
  import opened Values

  /** The identity of a declared property: the model (kind) that declares it and its attribute name. */
  datatype PropRef = PropRef(kind: string, name: string)

  /** String, Integer, Boolean, Float and DateTime properties; a DateTime property carries
      its two auto-populate flags. */
  datatype DataType =
    | StringType
    | IntegerType
    | BooleanType
    | FloatType
    | DateTimeType(autoNowAdd: bool, autoNow: bool)

  /** A field descriptor. `default` is VNone when there is none; the validator is any predicate
      on values (the library calls it and treats an exception as rejection). */
  datatype Property = Property(
    ref: PropRef,
    dataType: DataType,
    default: Value,
    required: bool,
    validator: Option<Value -> bool>,
    choices: Option<seq<Value>>)

  predicate IsAutoTimestamp(p: Property) {
    p.dataType.DateTimeType? && (p.dataType.autoNowAdd || p.dataType.autoNow)
  }

  /** Property.empty: only None counts as empty. */
  predicate Empty(v: Value) {
    v == VNone
  }

  /** The isinstance check against the property's data type. An IntegerProperty accepts
      booleans, because bool is a subclass of int. */
  predicate HasType(v: Value, t: DataType) {
    match t
    case StringType => v.VString?
    case IntegerType => v.VInt? || v.VBool?
    case BooleanType => v.VBool?
    case FloatType => v.VFloat?
    case DateTimeType(_, _) => v.VTimestamp?
  }

  /** The value validation works on: a missing value is replaced by the default (itself None when there is none). */
  function Defaulted(p: Property, v: Value): Value {
    if v.VNone? then p.default else v
  }

  /** When a value is acceptable for a property, stated as independent conditions. */
  predicate Admissible(p: Property, w: Value) {
    && (p.required ==> !w.VNone?)
    && (w.VNone? || HasType(w, p.dataType))
    && (p.choices.Some? ==> PyIn(w, p.choices.value))
    && (p.validator.Some? ==> p.validator.value(w))
  }

  /** Property.validate. */
  function Validate(p: Property, value: Value): (r: Result<Value>)
    ensures r.Ok? <==> Admissible(p, Defaulted(p, value))
    ensures r.Ok? ==> r.value == Defaulted(p, value)
    ensures !value.VNone? && !HasType(value, p.dataType) ==> r == Err(BadType)
    ensures p.required && value.VNone? && p.default.VNone? ==> r == Err(MissingRequired)
  {
    var v := if Empty(value) && !Empty(p.default) then p.default else value;
    if p.required && Empty(v) then Err(MissingRequired)
    else if v != VNone && !HasType(v, p.dataType) then Err(BadType)
    else if p.choices.Some? && !PyIn(v, p.choices.value) then Err(BadChoice)
    else if p.validator.Some? && !p.validator.value(v) then Err(ValidatorRejected)
    else Ok(v)
  }

  /** A validated value validates to itself: re-validation on decoding changes nothing. */
  lemma ValidateIdempotent(p: Property, v: Value)
    requires Validate(p, v).Ok?
    ensures Validate(p, Validate(p, v).value) == Validate(p, v)
  {
  }

  /** Which error validation reports, in the order the checks run. */
  lemma ValidateErrorOrder(p: Property, v: Value)
    requires Validate(p, v).Err?
    ensures var w := Defaulted(p, v);
      match Validate(p, v).error
      case MissingRequired => p.required && w.VNone?
      case BadType => !(p.required && w.VNone?) && !w.VNone? && !HasType(w, p.dataType)
      case BadChoice => (w.VNone? || HasType(w, p.dataType)) && !(p.required && w.VNone?)
                        && p.choices.Some? && !PyIn(w, p.choices.value)
      case ValidatorRejected => (w.VNone? || HasType(w, p.dataType)) && !(p.required && w.VNone?)
                                && (p.choices.Some? ==> PyIn(w, p.choices.value))
                                && p.validator.Some? && !p.validator.value(w)
      case _ => false
  {
  }

  /** Property._to_datastore and DateTimeProperty._to_datastore, applied to a validated value;
      `now` is the clock reading at the time of the write. */
  function ToStored(p: Property, v: Value, now: int): (r: Value)
    ensures p.dataType.DateTimeType? && p.dataType.autoNow ==> r == VTimestamp(now)
    ensures p.dataType.DateTimeType? && p.dataType.autoNowAdd && v.VNone? ==> r == VTimestamp(now)
    ensures !v.VNone? && !(p.dataType.DateTimeType? && p.dataType.autoNow) ==> r == v
    ensures v.VNone? && !IsAutoTimestamp(p) ==> r == p.default
  {
    match p.dataType
    case DateTimeType(autoNowAdd, autoNow) =>
      var w := if autoNow || (autoNowAdd && v.VNone?) then VTimestamp(now) else v;
      if w.VNone? then p.default else w
    case _ =>
      if Empty(v) then p.default else v
  }

  /** Property._from_datastore and DateTimeProperty._from_datastore: `stored` is the record's
      entry for this property, None when the record has none. */
  function FromStored(p: Property, stored: Option<Value>): (r: Result<Value>)
    ensures stored.None? && p.dataType.DateTimeType? ==> r == Err(MissingTimestamp)
    ensures stored.None? && !p.dataType.DateTimeType? ==> r == Validate(p, VNone)
    ensures stored.Some? ==> r == Validate(p, stored.value)
  {
    match p.dataType
    case DateTimeType(_, _) =>
      if stored.None? then Err(MissingTimestamp) else Validate(p, stored.value)
    case _ =>
      Validate(p, if stored.Some? then stored.value else VNone)
  }

  /** Storing a validated value and reading it back gives the same value, for every property
      that is not auto-populated. */
  lemma StoredRoundTrip(p: Property, v: Value, now: int)
    requires !IsAutoTimestamp(p)
    requires Validate(p, v).Ok?
    ensures FromStored(p, Some(ToStored(p, Validate(p, v).value, now))) == Validate(p, v)
  {
    var w := Validate(p, v).value;
    if w.VNone? {
      assert p.default.VNone?;
    }
    ValidateIdempotent(p, v);
  }

  /** An auto_now property reads back as the clock reading of the write, whenever that passes validation. */
  lemma AutoNowRoundTrip(p: Property, v: Value, now: int)
    requires p.dataType.DateTimeType? && p.dataType.autoNow
    ensures FromStored(p, Some(ToStored(p, v, now))) == Validate(p, VTimestamp(now))
    ensures Validate(p, VTimestamp(now)).Ok? ==> Validate(p, VTimestamp(now)).value == VTimestamp(now)
  {
  }

  /** An auto_now_add property keeps the timestamp it already holds on every later write,
      unless auto_now is set as well, which takes precedence. */
  lemma AutoNowAddStable(p: Property, t: int, now: int)
    requires p.dataType.DateTimeType? && p.dataType.autoNowAdd
    ensures ToStored(p, VTimestamp(t), now) == (if p.dataType.autoNow then VTimestamp(now) else VTimestamp(t))
  {
  }

  /** User.isAdmin of the test suite: BooleanProperty(required=True, default=False). */
  function IsAdmin(): Property {
    Property(PropRef("User", "isAdmin"), BooleanType, VBool(false), true, None, None)
  }

  /** Message.importance of the test suite: StringProperty(choices=["low", "normal", "urgent"], default="normal"). */
  function Importance(): Property {
    Property(PropRef("Message", "importance"), StringType, VString("normal"), false, None,
             Some([VString("low"), VString("normal"), VString("urgent")]))
  }

  /** A missing isAdmin reads as False; a missing importance as "normal", while "" and "asdf"
      are rejected as outside the choices and the listed choices are kept. */
  lemma TestSuiteExamples()
    ensures Validate(IsAdmin(), VNone) == Ok(VBool(false))
    ensures Validate(IsAdmin(), VBool(true)) == Ok(VBool(true))
    ensures Validate(Importance(), VNone) == Ok(VString("normal"))
    ensures Validate(Importance(), VString("")) == Err(BadChoice)
    ensures Validate(Importance(), VString("asdf")) == Err(BadChoice)
    ensures Validate(Importance(), VString("urgent")) == Ok(VString("urgent"))
  {
    var choices := Importance().choices.value;
    assert PyEq(VString("normal"), choices[1]) && PyEq(VString("urgent"), choices[2]);
    assert "" != "low" && "" != "normal" && "" != "urgent";
  }
}
