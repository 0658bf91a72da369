/**
 * The field normaliser of ModelGenerator: trimToNull, the name a member
 * contributes, the type detection, and updateModelFieldBean, which folds a
 * @ModelField annotation into a field bean.
 */
module FieldNormalizer {
  import opened Wrappers
  import opened JavaText
  import opened JavaNumbers
  import opened Beans

  /** ModelField.DEFAULTVALUE_UNDEFINED: the default value that means "undefined". */
  const DEFAULTVALUE_UNDEFINED: string := "undefined"

  /** trimToNull: absent for empty or all-whitespace text, otherwise the text
      without its surrounding whitespace. */
  function TrimToNull(s: string): (r: Option<string>)
    ensures r.None? <==> !HasText(s)
    ensures r.Some? ==> |r.value| > 0 && !IsWhitespace(r.value[0]) && !IsWhitespace(r.value[|r.value| - 1])
    ensures r.Some? ==> exists i :: 0 <= i <= |s| - |r.value| && PaddedAt(r.value, s, i)
  {
    var t := TrimWhitespace(s);
    if |t| > 0 then Some(t) else None
  }

  /** Trimming what trimToNull returned changes nothing. */
  lemma TrimToNullIdempotent(s: string)
    requires TrimToNull(s).Some?
    ensures TrimToNull(TrimToNull(s).value) == TrimToNull(s)
  {
    TrimWhitespaceIdempotent(s);
  }

  // ---------------------------------------------------------------------------
  // Names and types of discovered members
  // ---------------------------------------------------------------------------

  /** The field name an accessor method stands for: getX and isX give x with its
      first letter in lower case; any other method name is kept. */
  function AccessorFieldName(methodName: string): (r: string)
    ensures StartsWith(methodName, "get") ==> r == Uncapitalize(methodName[3..]) && |r| == |methodName| - 3
    ensures !StartsWith(methodName, "get") && StartsWith(methodName, "is") ==>
      r == Uncapitalize(methodName[2..]) && |r| == |methodName| - 2
    ensures !StartsWith(methodName, "get") && !StartsWith(methodName, "is") ==> r == methodName
  {
    if StartsWith(methodName, "get") then Uncapitalize(methodName[3..])
    else if StartsWith(methodName, "is") then Uncapitalize(methodName[2..])
    else methodName
  }

  /** The JavaBeans accessors of a property p (getP and isP) both give p back. */
  lemma AccessorFieldNameOfProperty(p: string)
    requires |p| > 0 && 'a' <= p[0] <= 'z'
    ensures AccessorFieldName("get" + Capitalize(p)) == p
    ensures AccessorFieldName("is" + Capitalize(p)) == p
  {
    var g := "get" + Capitalize(p);
    var i := "is" + Capitalize(p);
    assert g[..3] == "get" && g[3..] == Capitalize(p);
    assert i[..2] == "is" && i[2..] == Capitalize(p);
    assert i[..3] != "get" by { assert i[0] == 'i'; }
    UncapitalizeCapitalize(p);
  }

  /** The first ModelType, in declaration order, that supports the Java type. */
  function FirstSupported(order: seq<ModelType>, supports: (ModelType, string) -> bool, javaType: string)
    : (r: Option<ModelType>)
    ensures r.Some? ==> r.value in order && supports(r.value, javaType)
    ensures r.Some? ==> exists k :: 0 <= k < |order| && order[k] == r.value
                         && forall m :: 0 <= m < k ==> !supports(order[m], javaType)
    ensures r.None? <==> forall m :: 0 <= m < |order| ==> !supports(order[m], javaType)
  {
    if order == [] then None
    else if supports(order[0], javaType) then Some(order[0])
    else
      var r := FirstSupported(order[1..], supports, javaType);
      assert forall m :: 0 < m < |order| ==> order[m] == order[1..][m - 1];
      assert r.Some? ==> exists k :: 0 <= k < |order| && order[k] == r.value
                           && forall m :: 0 <= m < k ==> !supports(order[m], javaType) by {
        if r.Some? {
          var k :| 0 <= k < |order[1..]| && order[1..][k] == r.value
                   && forall m :: 0 <= m < k ==> !supports(order[1..][m], javaType);
          assert order[k + 1] == r.value;
        }
      }
      r
  }

  /** The type a member gets before its annotation is consulted: detected from
      its Java type when the model autodetects types, AUTO otherwise. */
  function DetectedType(autodetect: bool, detection: TypeDetection, javaType: string): (r: Option<ModelType>)
    ensures !autodetect ==> r == Some(Auto)
    ensures autodetect ==> r == FirstSupported(detection.order, detection.supports, javaType)
  {
    if autodetect then FirstSupported(detection.order, detection.supports, javaType) else Some(Auto)
  }

  // ---------------------------------------------------------------------------
  // updateModelFieldBean
  // ---------------------------------------------------------------------------

  /** The five types for which allowNull is honoured. */
  predicate IsNullableType(t: FieldType) {
    t == Builtin(Integer) || t == Builtin(Float) || t == Builtin(Number)
    || t == Builtin(StringType) || t == Builtin(Boolean)
  }

  /** The four types whose default value is converted rather than quoted. */
  predicate IsConvertedType(t: FieldType) {
    t == Builtin(Boolean) || t == Builtin(Integer) || t == Builtin(Float) || t == Builtin(Number)
  }

  /** The default value an annotation's text gives a field of type t: the
      undefined sentinel verbatim, Boolean.valueOf for BOOLEAN, Long.valueOf for
      INTEGER, Double.valueOf for FLOAT and NUMBER (the last two throw
      NumberFormatException on a text they cannot read), and the text in double
      quotes for every other type. */
  function DefaultValueOf(t: FieldType, text: string): (r: Result<DefaultValue>)
    ensures text == DEFAULTVALUE_UNDEFINED ==> r == Ok(TextValue(text))
    ensures text != DEFAULTVALUE_UNDEFINED && t == Builtin(Boolean) ==>
              r == Ok(BooleanValue(EqualsIgnoreCase(text, "true")))
    ensures text != DEFAULTVALUE_UNDEFINED && t == Builtin(Integer) && ParseLong(text).Some? ==>
              r == Ok(LongValue(ParseLong(text).value))
    ensures text != DEFAULTVALUE_UNDEFINED && t == Builtin(Integer) && ParseLong(text).None? ==>
              r == Err(ForInputString(text))
    ensures text != DEFAULTVALUE_UNDEFINED && (t == Builtin(Float) || t == Builtin(Number)) ==>
              r == (if ParseDouble(text).Ok? then Ok(DoubleLiteral(Trim(text))) else Err(ParseDouble(text).message))
    ensures text != DEFAULTVALUE_UNDEFINED && !IsConvertedType(t) ==> r == Ok(TextValue("\"" + text + "\""))
    ensures r.Err? <==> text != DEFAULTVALUE_UNDEFINED
                        && ((t == Builtin(Integer) && ParseLong(text).None?)
                            || ((t == Builtin(Float) || t == Builtin(Number)) && ParseDouble(text).Err?))
    ensures r.Ok? && r.value.LongValue? ==> LONG_MIN <= r.value.number <= LONG_MAX
  {
    if text == DEFAULTVALUE_UNDEFINED then Ok(TextValue(DEFAULTVALUE_UNDEFINED))
    else if t == Builtin(Boolean) then Ok(BooleanValue(BooleanValueOf(text)))
    else if t == Builtin(Integer) then
      match ParseLong(text)
      case None => Err(ForInputString(text))
      case Some(n) => Ok(LongValue(n))
    else if t == Builtin(Float) || t == Builtin(Number) then
      match ParseDouble(text)
      case Err(m) => Err(m)
      case Ok(literal) => Ok(DoubleLiteral(literal))
    else Ok(TextValue("\"" + text + "\""))
  }

  /** An INTEGER default written as a long reads back as that long. */
  lemma IntegerDefaultRoundTrip(n: int)
    requires LONG_MIN <= n <= LONG_MAX
    ensures DefaultValueOf(Builtin(Integer), LongToString(n)) == Ok(LongValue(n))
  {
    ParseLongRoundTrip(n);
  }

  /** Blanks around a FLOAT or NUMBER default do not change the value it gives. */
  lemma DoubleDefaultTrimmed(t: FieldType, text: string)
    requires t == Builtin(Float) || t == Builtin(Number)
    requires text != DEFAULTVALUE_UNDEFINED && Trim(text) != DEFAULTVALUE_UNDEFINED
    ensures DefaultValueOf(t, text) == DefaultValueOf(t, Trim(text))
  {
    ParseDoubleTrimmed(text);
    TrimIdempotent(text);
  }

  /** A default that converts for an INTEGER field converts for a FLOAT or
      NUMBER field too, to the same literal. */
  lemma IntegerDefaultIsDouble(text: string)
    requires DefaultValueOf(Builtin(Integer), text).Ok?
    ensures DefaultValueOf(Builtin(Float), text).Ok? && DefaultValueOf(Builtin(Number), text).Ok?
    ensures text != DEFAULTVALUE_UNDEFINED ==>
              DefaultValueOf(Builtin(Float), text) == Ok(DoubleLiteral(text))
              && DefaultValueOf(Builtin(Number), text) == Ok(DoubleLiteral(text))
  {
    if text != DEFAULTVALUE_UNDEFINED {
      ParseLongIsDouble(text);
    }
  }

  /** The default value a field ends up with: converted from the annotation's
      text when it has text, the bean's own otherwise. */
  function DefaultAfter(t: FieldType, text: string, current: Option<DefaultValue>): (r: Result<Option<DefaultValue>>)
    ensures !HasText(text) ==> r == Ok(current)
    ensures HasText(text) && r.Ok? ==> r.value.Some? && Ok(r.value.value) == DefaultValueOf(t, text)
    ensures r.Err? <==> HasText(text) && DefaultValueOf(t, text).Err?
  {
    if !HasText(text) then Ok(current)
    else
      match DefaultValueOf(t, text)
      case Err(m) => Err(m)
      case Ok(v) => Ok(Some(v))
  }

  /** The reference a field ends up with: unchanged when the annotation's
      reference is empty, the type name when it carries only a type, and the
      whole reference otherwise. */
  function ReferenceAfter(reference: ReferenceBean, current: Option<FieldReference>): (r: Option<FieldReference>)
    ensures !reference.HasAnyProperties() ==> r == current
    ensures reference.TypeOnly() ==> r == Some(TypeName(reference.refType.value))
    ensures reference.HasAnyProperties() && !reference.TypeOnly() ==> r == Some(FullReference(reference))
  {
    if !reference.HasAnyProperties() then current
    else if reference.TypeOnly() then Some(TypeName(reference.refType.value))
    else Some(FullReference(reference))
  }

  /** The bean with the annotation's attributes applied, given the converted
      default value. */
  function Applied(bean: FieldBean, ann: ModelFieldAnnotation, defaultValue: Option<DefaultValue>): FieldBean {
    var t := bean.fieldType;
    FieldBean(
      bean.name,
      t,
      if HasText(ann.dateFormat) && t == Builtin(Date) then Some(ann.dateFormat) else bean.dateFormat,
      defaultValue,
      if (ann.useNull || ann.allowNull) && IsNullableType(t) then Some(true) else bean.allowNull,
      if !ann.allowBlank then Some(false) else bean.allowBlank,
      if ann.unique then Some(true) else bean.unique,
      TrimToNull(ann.mapping),
      if !ann.persist then Some(false) else bean.persist,
      if ann.critical then Some(true) else bean.critical,
      TrimToNull(ann.convert),
      TrimToNull(ann.calculate),
      if |ann.depends| > 0 then Some(ann.depends) else None,
      ReferenceAfter(ann.reference, bean.reference),
      bean.validators)
  }

  /** The bean updateModelFieldBean leaves behind, or the exception it throws. */
  function NormalizedField(bean: FieldBean, ann: ModelFieldAnnotation): (r: Result<FieldBean>)
    ensures r.Err? <==> HasText(ann.defaultValue) && DefaultValueOf(bean.fieldType, ann.defaultValue).Err?
    ensures r.Ok? ==> r.value.name == bean.name && r.value.fieldType == bean.fieldType
                      && r.value.validators == bean.validators
  {
    match DefaultAfter(bean.fieldType, ann.defaultValue, bean.defaultValue)
    case Err(m) => Err(m)
    case Ok(dv) => Ok(Applied(bean, ann, dv))
  }

  /** The typed attributes: a date format only for DATE fields, the default
      value converted per type, allowNull only for the five nullable types. */
  lemma NormalizedFieldTyped(bean: FieldBean, ann: ModelFieldAnnotation)
    requires NormalizedField(bean, ann).Ok?
    ensures var r := NormalizedField(bean, ann).value;
      && (r.dateFormat != bean.dateFormat ==> bean.fieldType == Builtin(Date) && r.dateFormat == Some(ann.dateFormat))
      && (bean.fieldType == Builtin(Date) && HasText(ann.dateFormat) ==> r.dateFormat == Some(ann.dateFormat))
      && (!HasText(ann.defaultValue) ==> r.defaultValue == bean.defaultValue)
      && (HasText(ann.defaultValue) ==>
            r.defaultValue.Some? && Ok(r.defaultValue.value) == DefaultValueOf(bean.fieldType, ann.defaultValue))
      && (r.allowNull != bean.allowNull ==>
            r.allowNull == Some(true) && (ann.useNull || ann.allowNull) && IsNullableType(bean.fieldType))
      && ((ann.useNull || ann.allowNull) && IsNullableType(bean.fieldType) ==> r.allowNull == Some(true))
  {
  }

  /** The flags: allowBlank and persist can only be switched off, unique and
      critical only switched on; every other value leaves the bean's own. */
  lemma NormalizedFieldFlags(bean: FieldBean, ann: ModelFieldAnnotation)
    requires NormalizedField(bean, ann).Ok?
    ensures var r := NormalizedField(bean, ann).value;
      && r.allowBlank == (if ann.allowBlank then bean.allowBlank else Some(false))
      && r.persist == (if ann.persist then bean.persist else Some(false))
      && r.unique == (if ann.unique then Some(true) else bean.unique)
      && r.critical == (if ann.critical then Some(true) else bean.critical)
  {
  }

  /** The expressions are trimmed (blank ones dropped), an empty depends list
      becomes absent, and a reference with only a type collapses to the name. */
  lemma NormalizedFieldExpressions(bean: FieldBean, ann: ModelFieldAnnotation)
    requires NormalizedField(bean, ann).Ok?
    ensures var r := NormalizedField(bean, ann).value;
      && r.mapping == TrimToNull(ann.mapping)
      && r.convert == TrimToNull(ann.convert)
      && r.calculate == TrimToNull(ann.calculate)
      && (r.depends.None? <==> |ann.depends| == 0)
      && (r.depends.Some? ==> r.depends.value == ann.depends)
      && r.reference == ReferenceAfter(ann.reference, bean.reference)
  {
  }

  /** The default-value step of updateModelFieldBean. */
  method ConvertDefault(t: FieldType, text: string, current: Option<DefaultValue>)
    returns (r: Result<Option<DefaultValue>>)
    ensures r == DefaultAfter(t, text, current)
  {
    r := Ok(current);
    if HasText(text) {
      if text == DEFAULTVALUE_UNDEFINED {
        r := Ok(Some(TextValue(DEFAULTVALUE_UNDEFINED)));
      } else if t == Builtin(Boolean) {
        r := Ok(Some(BooleanValue(BooleanValueOf(text))));
      } else if t == Builtin(Integer) {
        var parsed := ParseLong(text);
        if parsed.None? {
          return Err(ForInputString(text));
        }
        r := Ok(Some(LongValue(parsed.value)));
      } else if t == Builtin(Float) || t == Builtin(Number) {
        var read := ParseDouble(text);
        if read.Err? {
          return Err(read.message);
        }
        r := Ok(Some(DoubleLiteral(read.value)));
      } else {
        r := Ok(Some(TextValue("\"" + text + "\"")));
      }
    }
  }

  /** updateModelFieldBean: the default value converted (a default value
      that does not convert throws), then the annotation's other setters. */
  method UpdateModelFieldBean(bean: FieldBean, ann: ModelFieldAnnotation) returns (r: Result<FieldBean>)
    ensures r == NormalizedField(bean, ann)
  {
    var converted := ConvertDefault(bean.fieldType, ann.defaultValue, bean.defaultValue);
    if converted.Err? {
      return Err(converted.message);
    }
    var updated := ApplySetters(bean, ann, converted.value);
    r := Ok(updated);
  }

  /** The setters of updateModelFieldBean other than the default value's,
      applied one after the other (each attribute is kept in a local until the
      bean is rebuilt). */
  method ApplySetters(bean: FieldBean, ann: ModelFieldAnnotation, defaultValue: Option<DefaultValue>)
    returns (updated: FieldBean)
    ensures updated == Applied(bean, ann, defaultValue)
  {
    var dateFormat, allowNull := TypedSetters(bean, ann);
    var allowBlank, unique, persist, critical := FlagSetters(bean, ann);
    var mapping, convert, calculate, depends, reference := ExpressionSetters(bean, ann);
    updated := FieldBean(bean.name, bean.fieldType, dateFormat, defaultValue, allowNull, allowBlank, unique, mapping,
                         persist, critical, convert, calculate, depends, reference, bean.validators);
  }

  /** The date format and allowNull setters, which depend on the field's type. */
  method TypedSetters(bean: FieldBean, ann: ModelFieldAnnotation)
    returns (dateFormat: Option<string>, allowNull: Option<bool>)
    ensures dateFormat == Applied(bean, ann, None).dateFormat
    ensures allowNull == Applied(bean, ann, None).allowNull
  {
    var t := bean.fieldType;
    dateFormat := bean.dateFormat;
    if HasText(ann.dateFormat) && t == Builtin(Date) {
      dateFormat := Some(ann.dateFormat);
    }
    allowNull := bean.allowNull;
    if (ann.useNull || ann.allowNull)
       && (t == Builtin(Integer) || t == Builtin(Float) || t == Builtin(Number)
           || t == Builtin(StringType) || t == Builtin(Boolean)) {
      allowNull := Some(true);
    }
  }

  /** The allowBlank, unique, persist and critical setters. */
  method FlagSetters(bean: FieldBean, ann: ModelFieldAnnotation)
    returns (allowBlank: Option<bool>, unique: Option<bool>, persist: Option<bool>, critical: Option<bool>)
    ensures allowBlank == Applied(bean, ann, None).allowBlank
    ensures unique == Applied(bean, ann, None).unique
    ensures persist == Applied(bean, ann, None).persist
    ensures critical == Applied(bean, ann, None).critical
  {
    allowBlank := bean.allowBlank;
    if !ann.allowBlank {
      allowBlank := Some(false);
    }
    unique := bean.unique;
    if ann.unique {
      unique := Some(true);
    }
    persist := bean.persist;
    if !ann.persist {
      persist := Some(false);
    }
    critical := bean.critical;
    if ann.critical {
      critical := Some(true);
    }
  }

  /** The mapping, convert, calculate, depends and reference setters. */
  method ExpressionSetters(bean: FieldBean, ann: ModelFieldAnnotation)
    returns (mapping: Option<string>, convert: Option<string>, calculate: Option<string>,
             depends: Option<seq<string>>, reference: Option<FieldReference>)
    ensures mapping == Applied(bean, ann, None).mapping
    ensures convert == Applied(bean, ann, None).convert
    ensures calculate == Applied(bean, ann, None).calculate
    ensures depends == Applied(bean, ann, None).depends
    ensures reference == Applied(bean, ann, None).reference
  {
    mapping := TrimToNull(ann.mapping);
    convert := TrimToNull(ann.convert);
    calculate := TrimToNull(ann.calculate);
    depends := None;
    if |ann.depends| > 0 {
      depends := Some(ann.depends);
    }
    reference := bean.reference;
    if ann.reference.HasAnyProperties() {
      if ann.reference.TypeOnly() {
        reference := Some(TypeName(ann.reference.refType.value));
      } else {
        reference := Some(FullReference(ann.reference));
      }
    }
  }
}
