/**
 * createModel and createModelBean of ModelGenerator: the model header taken
 * from @Model, the member walk (interfaces: every method by name; classes:
 * type-level annotations, then fields with the first declaration of a name
 * winning, then annotated methods by name), and the contribution of one member
 * to the model.
 */
module ModelAssembler {
  import opened Wrappers
  import opened JavaText
  import opened JavaOrder
  import opened KeyedLists
  import opened DataOptions
  import opened OutputConfigs
  import opened Beans
  import opened FieldNormalizer

  // ---------------------------------------------------------------------------
  // Collections the walk builds
  // ---------------------------------------------------------------------------

  /** The values of the present entries, in order. */
  function Present<T(!new)>(s: seq<Option<T>>): (r: seq<T>)
    ensures |r| <= |s|
    ensures forall x :: x in r <==> Some(x) in s
  {
    if s == [] then []
    else
      var init := s[..|s| - 1];
      assert s == init + [s[|s| - 1]];
      Present(init) + (if s[|s| - 1].Some? then [s[|s| - 1].value] else [])
  }

  /** The loop that collects the results that are not null. */
  method CollectPresent<T(!new)>(s: seq<Option<T>>) returns (r: seq<T>)
    ensures r == Present(s)
  {
    r := [];
    var i := 0;
    while i < |s|
      invariant 0 <= i <= |s|
      invariant r == Present(s[..i])
    {
      assert s[..i + 1][..i] == s[..i];
      if s[i].Some? {
        r := r + [s[i].value];
      }
      i := i + 1;
    }
    assert s[..i] == s;
  }

  /** The validations a member's annotations yield, each bound to the field name. */
  function BuiltValidations(name: string, specs: seq<Option<ValidationSpec>>): (r: seq<Validation>)
    ensures |r| <= |specs|
    ensures forall v :: v in r ==> v.field == name
    ensures forall v :: v in r <==> exists k :: 0 <= k < |specs| && specs[k] == Some(ValidationSpec(v.kind, v.parameters)) && v.field == name
  {
    if specs == [] then []
    else
      var init := specs[..|specs| - 1];
      var prev := BuiltValidations(name, init);
      var last := specs[|specs| - 1];
      assert forall k :: 0 <= k < |init| ==> specs[k] == init[k];
      prev + (match last case Some(spec) => [Validation(spec.kind, name, spec.parameters)] case None => [])
  }

  // ---------------------------------------------------------------------------
  // The model header
  // ---------------------------------------------------------------------------

  /** The proxy attributes of `new ModelBean()`: nothing set. */
  function DefaultProxy(): ProxySettings {
    ProxySettings(false, false, None, None, None, None, None, None, None, None, None, None, false, None)
  }

  /** `new ModelBean()` with a name: extends Ext.data.Model, id property "id",
      type autodetection on, nothing else set. */
  function DefaultModel(name: string): ModelBean {
    ModelBean(name, true, "Ext.data.Model", "id", None, DefaultProxy(), None, None, false, None, [], [], [])
  }

  /** The proxy attributes @Model sets: the method and property names trimmed,
      blank ones absent, and the canonical data options. */
  function ProxySettingsOf(a: ModelAnnotation): (p: ProxySettings)
    ensures p.allDataOptions == Some(Canonical(a.allDataOptions))
    ensures p.createMethod.None? <==> !HasText(a.createMethod)
    ensures p.readMethod.None? <==> !HasText(a.readMethod)
    ensures p.updateMethod.None? <==> !HasText(a.updateMethod)
    ensures p.destroyMethod.None? <==> !HasText(a.destroyMethod)
    ensures p.paging == a.paging && p.writeAllFields == a.writeAllFields
  {
    ProxySettings(
      a.paging, a.disablePagingParameters, TrimToNull(a.createMethod), TrimToNull(a.readMethod),
      TrimToNull(a.updateMethod), TrimToNull(a.destroyMethod), TrimToNull(a.messageProperty),
      TrimToNull(a.writer), TrimToNull(a.reader), TrimToNull(a.successProperty),
      TrimToNull(a.totalProperty), TrimToNull(a.rootProperty), a.writeAllFields,
      Some(Canonical(a.allDataOptions)))
  }

  /** The client id property @Model names: taken only when it has text. */
  function ClientIdOf(a: ModelAnnotation): (r: Option<string>)
    ensures r.Some? <==> HasText(a.clientIdProperty)
    ensures r == TrimToNull(a.clientIdProperty)
  {
    var clientId := TrimToNull(a.clientIdProperty);
    if clientId.Some? && HasText(clientId.value) then clientId else None
  }

  /** The hasMany list @Model names: taken only when its first entry has text. */
  function HasManyOf(a: ModelAnnotation): (r: Option<seq<string>>)
    ensures r.Some? <==> |a.hasMany| > 0 && HasText(a.hasMany[0])
    ensures r.Some? ==> r.value == a.hasMany
  {
    if |a.hasMany| > 0 && HasText(a.hasMany[0]) then Some(a.hasMany) else None
  }

  /** The model createModel starts from, before any field is seen. */
  function ModelHeader(simpleName: string, annotation: Option<ModelAnnotation>): (m: ModelBean)
    ensures m.fields == [] && m.associations == [] && m.validations == []
    // the annotation's value names the model when it has text
    ensures m.name == (if annotation.Some? && HasText(annotation.value.value) then annotation.value.value else simpleName)
    ensures annotation.None? ==> m == DefaultModel(simpleName)
  {
    var name := if annotation.Some? && HasText(annotation.value.value) then annotation.value.value else simpleName;
    match annotation
    case None => DefaultModel(name)
    case Some(a) =>
      var clientId := ClientIdOf(a);
      ModelBean(
        name, a.autodetectTypes, a.extend, a.idProperty, TrimToNull(a.versionProperty), ProxySettingsOf(a),
        TrimToNull(a.identifier), clientId, clientId.Some?, HasManyOf(a), [], [], [])
  }

  /** What @Model sets: the plain attributes as given, the optional ones
      trimmed to null, the client id property written by the writer exactly
      when it is set, and hasMany only when its first entry has text. */
  lemma ModelHeaderAnnotated(simpleName: string, a: ModelAnnotation)
    ensures var m := ModelHeader(simpleName, Some(a));
      && m.autodetectTypes == a.autodetectTypes && m.extend == a.extend && m.idProperty == a.idProperty
      && m.versionProperty == TrimToNull(a.versionProperty)
      && m.identifier == TrimToNull(a.identifier)
      && m.proxy == ProxySettingsOf(a)
      && (m.clientIdProperty.Some? <==> HasText(a.clientIdProperty))
      && m.clientIdProperty == TrimToNull(a.clientIdProperty)
      && m.clientIdPropertyAddToWriter == m.clientIdProperty.Some?
      && (m.hasMany.Some? <==> |a.hasMany| > 0 && HasText(a.hasMany[0]))
      && (m.hasMany.Some? ==> m.hasMany.value == a.hasMany)
  {
  }

  /** The header part of createModel, with the AllDataOptionsBean built from
      the annotation. */
  method CreateHeader(simpleName: string, annotation: Option<ModelAnnotation>) returns (model: ModelBean)
    ensures model == ModelHeader(simpleName, annotation)
  {
    model := DefaultModel(simpleName);
    if annotation.Some? && HasText(annotation.value.value) {
      model := model.(name := annotation.value.value);
    }
    if annotation.Some? {
      var a := annotation.value;
      var options := new AllDataOptionsBean.FromAnnotation(a.allDataOptions);
      var proxy := ProxySettings(
        a.paging, a.disablePagingParameters, TrimToNull(a.createMethod), TrimToNull(a.readMethod),
        TrimToNull(a.updateMethod), TrimToNull(a.destroyMethod), TrimToNull(a.messageProperty),
        TrimToNull(a.writer), TrimToNull(a.reader), TrimToNull(a.successProperty),
        TrimToNull(a.totalProperty), TrimToNull(a.rootProperty), a.writeAllFields,
        Some(options.Value()));
      var clientIdProperty := TrimToNull(a.clientIdProperty);
      var addToWriter := false;
      if clientIdProperty.Some? && HasText(clientIdProperty.value) {
        addToWriter := true;
      } else {
        clientIdProperty := None;
      }
      var hasMany := model.hasMany;
      if |a.hasMany| > 0 && HasText(a.hasMany[0]) {
        hasMany := Some(a.hasMany);
      }
      model := ModelBean(model.name, a.autodetectTypes, a.extend, a.idProperty, TrimToNull(a.versionProperty),
                         proxy, TrimToNull(a.identifier), clientIdProperty, addToWriter, hasMany, [], [], []);
    }
  }

  // ---------------------------------------------------------------------------
  // createModelBean: what one member contributes
  // ---------------------------------------------------------------------------

  /** A method that returns nothing contributes nothing. */
  predicate IsVoidMethod(m: Accessible) {
    m.kind.MethodMember? && m.kind.returnsVoid
  }

  /** The name a member stands for before its annotation is consulted. */
  function MemberName(m: Accessible): string {
    if m.kind.MethodMember? then AccessorFieldName(m.name) else m.name
  }

  /** The field name a member ends up with: the annotation's value when it has
      text, the member's own name otherwise. */
  function ResolvedName(m: Accessible): string {
    if m.fieldAnnotation.Some? && HasText(m.fieldAnnotation.value.value) then m.fieldAnnotation.value.value
    else MemberName(m)
  }

  /** A detected type as the type of a field bean (none detected: no type). */
  function AsFieldType(t: Option<ModelType>): FieldType {
    if t.Some? then Builtin(t.value) else Unresolved
  }

  /** The type of an annotated member's field: the custom type when it has text,
      the annotation's type unless NOT_SPECIFIED, the detected one otherwise. */
  function AnnotatedType(ann: ModelFieldAnnotation, detected: Option<ModelType>): (t: FieldType)
    ensures HasText(ann.customType) ==> t == Custom(ann.customType)
    ensures !HasText(ann.customType) && ann.modelType != NotSpecified ==> t == Builtin(ann.modelType)
    ensures !HasText(ann.customType) && ann.modelType == NotSpecified && detected.Some? ==> t == Builtin(detected.value)
    ensures !HasText(ann.customType) && ann.modelType == NotSpecified && detected.None? ==> t == Unresolved
  {
    if HasText(ann.customType) then Custom(ann.customType)
    else if ann.modelType != NotSpecified then Builtin(ann.modelType)
    else AsFieldType(detected)
  }

  /** The field bean a member yields, if any, or the exception its annotation throws. */
  function MemberField(model: ModelBean, m: Accessible, detection: TypeDetection): (r: Result<Option<FieldBean>>)
    ensures r.Err? ==> m.fieldAnnotation.Some?
    ensures r.Ok? && r.value.Some? ==> r.value.value.name == ResolvedName(m) && r.value.value.validators.None?
    ensures r.Ok? && r.value.None? <==>
      m.fieldAnnotation.None? && DetectedType(model.autodetectTypes, detection, m.javaType).None?
    // an unannotated member never throws, and its bean is a bare one of the detected type
    ensures m.fieldAnnotation.None? && r.Ok? && r.value.Some? ==>
      r.value.value == NewFieldBean(ResolvedName(m), Builtin(DetectedType(model.autodetectTypes, detection, m.javaType).value))
    ensures r.Ok? && r.value.Some? ==>
      r.value.value.fieldType
        == if m.fieldAnnotation.Some?
           then AnnotatedType(m.fieldAnnotation.value, DetectedType(model.autodetectTypes, detection, m.javaType))
           else Builtin(DetectedType(model.autodetectTypes, detection, m.javaType).value)
    // an annotated member's bean is a new bean of the annotated type, normalised
    ensures m.fieldAnnotation.Some? ==>
      var ann := m.fieldAnnotation.value;
      var n := NormalizedField(NewFieldBean(ResolvedName(m), AnnotatedType(ann, DetectedType(model.autodetectTypes, detection, m.javaType))), ann);
      (r.Err? <==> n.Err?) && (n.Ok? ==> r == Ok(Some(n.value))) && (n.Err? ==> r == Err(n.message))
    ensures r.Err? <==>
      m.fieldAnnotation.Some? && HasText(m.fieldAnnotation.value.defaultValue)
      && DefaultValueOf(AnnotatedType(m.fieldAnnotation.value, DetectedType(model.autodetectTypes, detection, m.javaType)),
                        m.fieldAnnotation.value.defaultValue).Err?
  {
    var detected := DetectedType(model.autodetectTypes, detection, m.javaType);
    match m.fieldAnnotation
    case Some(ann) =>
      (match NormalizedField(NewFieldBean(ResolvedName(m), AnnotatedType(ann, detected)), ann)
       case Err(e) => Err(e)
       case Ok(b) => Ok(Some(b)))
    case None =>
      if detected.Some? then Ok(Some(NewFieldBean(ResolvedName(m), Builtin(detected.value)))) else Ok(None)
  }

  /** One more validation annotation looked at. */
  lemma BuiltValidationsStep(name: string, specs: seq<Option<ValidationSpec>>, i: int)
    requires 0 <= i < |specs|
    ensures BuiltValidations(name, specs[..i + 1])
         == BuiltValidations(name, specs[..i])
            + (match specs[i] case Some(spec) => [Validation(spec.kind, name, spec.parameters)] case None => [])
  {
    assert specs[..i + 1][..i] == specs[..i];
  }

  /** The validations a member with a field adds: those of its @ModelValidation
      annotations if it has any, those of its other annotations otherwise; none
      when validations are not included. */
  function AddedValidations(m: Accessible, includeValidation: IncludeValidation): seq<Validation> {
    if includeValidation == IncludeNone then []
    else if |m.validationAnnotations| > 0 then BuiltValidations(ResolvedName(m), m.validationAnnotations)
    else BuiltValidations(ResolvedName(m), m.otherAnnotations)
  }

  /** The model after createModelBean has seen member m: its field put under
      the resolved name, the marker annotations pointing at that name, its
      association and validations appended. */
  function ModelBeanStep(model: ModelBean, m: Accessible, detection: TypeDetection, includeValidation: IncludeValidation)
    : (r: Result<ModelBean>)
    // a void method changes nothing; only a @ModelField annotation can throw
    ensures IsVoidMethod(m) ==> r == Ok(model)
    ensures r.Err? <==> !IsVoidMethod(m) && MemberField(model, m, detection).Err?
  {
    if IsVoidMethod(m) then Ok(model)
    else
      match MemberField(model, m, detection)
      case Err(e) => Err(e)
      case Ok(field) => Ok(Contribution(model, m, field, includeValidation))
  }

  /** What a member that does not throw contributes: its field (if any), the
      markers, its association and its validations. */
  function Contribution(model: ModelBean, m: Accessible, field: Option<FieldBean>, includeValidation: IncludeValidation)
    : ModelBean
  {
    var name := ResolvedName(m);
    ModelBean(
      model.name, model.autodetectTypes, model.extend,
      if m.isId then name else model.idProperty,
      if m.isVersion then Some(name) else model.versionProperty,
      model.proxy, model.identifier,
      if m.clientId.Some? then Some(name) else model.clientIdProperty,
      if m.clientId.Some? then m.clientId.value else model.clientIdPropertyAddToWriter,
      model.hasMany,
      if field.Some? then Put(model.fields, field.value, BeanName) else model.fields,
      model.associations + (if m.association.Some? then [m.association.value] else []),
      model.validations + (if field.Some? then AddedValidations(m, includeValidation) else []))
  }

  /** A step keeps the name, extend, type autodetection, identifier, hasMany
      and proxy settings, and only appends associations (at most one) and
      validations (all for the member's field). */
  lemma StepKeeps(model: ModelBean, m: Accessible, detection: TypeDetection, includeValidation: IncludeValidation)
    requires ModelBeanStep(model, m, detection, includeValidation).Ok?
    ensures var r := ModelBeanStep(model, m, detection, includeValidation).value;
      && r.name == model.name && r.extend == model.extend && r.autodetectTypes == model.autodetectTypes
      && r.proxy == model.proxy && r.identifier == model.identifier && r.hasMany == model.hasMany
      && |model.associations| <= |r.associations| <= |model.associations| + 1
      && r.associations[..|model.associations|] == model.associations
      && |model.validations| <= |r.validations|
      && r.validations[..|model.validations|] == model.validations
      && (forall k :: |model.validations| <= k < |r.validations| ==> r.validations[k].field == ResolvedName(m))
  {
    if !IsVoidMethod(m) {
      var r := ModelBeanStep(model, m, detection, includeValidation).value;
      var added := r.validations[|model.validations|..];
      assert r.validations == model.validations + added;
      assert forall k :: |model.validations| <= k < |r.validations| ==> r.validations[k] in added;
    }
  }

  /** A member without field leaves fields and validations alone; a member
      with one puts it under its resolved name. */
  lemma StepFields(model: ModelBean, m: Accessible, detection: TypeDetection, includeValidation: IncludeValidation)
    requires ModelBeanStep(model, m, detection, includeValidation).Ok? && !IsVoidMethod(m)
    ensures var r := ModelBeanStep(model, m, detection, includeValidation).value;
            var field := MemberField(model, m, detection).value;
      && (field.None? ==> r.fields == model.fields && r.validations == model.validations)
      && (field.Some? ==> r.fields == Put(model.fields, field.value, BeanName)
                          && r.validations == model.validations + AddedValidations(m, includeValidation))
  {
  }

  /** The marker annotations point the model at the member's resolved name;
      without them the model keeps its own. */
  lemma StepMarkers(model: ModelBean, m: Accessible, detection: TypeDetection, includeValidation: IncludeValidation)
    requires ModelBeanStep(model, m, detection, includeValidation).Ok? && !IsVoidMethod(m)
    ensures var r := ModelBeanStep(model, m, detection, includeValidation).value;
      && r.idProperty == (if m.isId then ResolvedName(m) else model.idProperty)
      && r.versionProperty == (if m.isVersion then Some(ResolvedName(m)) else model.versionProperty)
      && r.clientIdProperty == (if m.clientId.Some? then Some(ResolvedName(m)) else model.clientIdProperty)
      && r.clientIdPropertyAddToWriter
         == (if m.clientId.Some? then m.clientId.value else model.clientIdPropertyAddToWriter)
      && r.associations == model.associations + (if m.association.Some? then [m.association.value] else [])
  {
  }

  /** A member that yields a field leaves exactly that bean under its name and
      every other name as it was; the names stay distinct. */
  lemma StepFieldLookup(model: ModelBean, m: Accessible, detection: TypeDetection, includeValidation: IncludeValidation,
                        n: string)
    requires DistinctNames(model.fields) && !IsVoidMethod(m)
    requires MemberField(model, m, detection).Ok? && MemberField(model, m, detection).value.Some?
    ensures ModelBeanStep(model, m, detection, includeValidation).Ok?
    ensures var fields := ModelBeanStep(model, m, detection, includeValidation).value.fields;
            && DistinctNames(fields)
            && Lookup(fields, ResolvedName(m), BeanName) == Some(MemberField(model, m, detection).value.value)
            && (n != ResolvedName(m) ==> Lookup(fields, n, BeanName) == Lookup(model.fields, n, BeanName))
  {
    var f := MemberField(model, m, detection).value.value;
    PutLookup(model.fields, f, BeanName, n);
    PutDistinct(model.fields, f, BeanName);
  }

  /** The name, type and @ModelField handling of createModelBean. */
  method MemberFieldBean(model: ModelBean, m: Accessible, detection: TypeDetection)
    returns (name: string, r: Result<Option<FieldBean>>)
    ensures name == ResolvedName(m)
    ensures r == MemberField(model, m, detection)
  {
    name := if m.kind.MethodMember? then AccessorFieldName(m.name) else m.name;
    var modelType := DetectedType(model.autodetectTypes, detection, m.javaType);
    if m.fieldAnnotation.Some? {
      var ann := m.fieldAnnotation.value;
      if HasText(ann.value) {
        name := ann.value;
      }
      var t: FieldType;
      if HasText(ann.customType) {
        t := Custom(ann.customType);
      } else if ann.modelType != NotSpecified {
        t := Builtin(ann.modelType);
      } else {
        t := AsFieldType(modelType);
      }
      var updated := UpdateModelFieldBean(NewFieldBean(name, t), ann);
      if updated.Err? {
        return name, Err(updated.message);
      }
      r := Ok(Some(updated.value));
    } else if modelType.Some? {
      r := Ok(Some(NewFieldBean(name, Builtin(modelType.value))));
    } else {
      r := Ok(None);
    }
  }

  /** The validation loop of createModelBean. */
  method MemberValidations(m: Accessible, name: string, includeValidation: IncludeValidation)
    returns (added: seq<Validation>)
    requires name == ResolvedName(m)
    ensures added == AddedValidations(m, includeValidation)
  {
    added := [];
    if includeValidation == IncludeNone {
      return;
    }
    var specs := if |m.validationAnnotations| > 0 then m.validationAnnotations else m.otherAnnotations;
    var i := 0;
    while i < |specs|
      invariant 0 <= i <= |specs|
      invariant added == BuiltValidations(name, specs[..i])
    {
      BuiltValidationsStep(name, specs, i);
      if specs[i].Some? {
        added := added + [Validation(specs[i].value.kind, name, specs[i].value.parameters)];
      }
      i := i + 1;
    }
    assert specs[..i] == specs;
  }

  /** createModelBean, step by step over one member. */
  method CreateModelBean(model: ModelBean, m: Accessible, detection: TypeDetection, includeValidation: IncludeValidation)
    returns (r: Result<ModelBean>)
    ensures r == ModelBeanStep(model, m, detection, includeValidation)
  {
    if m.kind.MethodMember? && m.kind.returnsVoid {
      return Ok(model);
    }
    assert !IsVoidMethod(m);
    var name, fieldBean := MemberFieldBean(model, m, detection);
    if fieldBean.Err? {
      return Err(fieldBean.message);
    }
    var fields := model.fields;
    var added := [];
    if fieldBean.value.Some? {
      fields := Put(fields, fieldBean.value.value, BeanName);
      added := MemberValidations(m, name, includeValidation);
    }
    var validations := model.validations + added;
    var idProperty := model.idProperty;
    if m.isId {
      idProperty := name;
    }
    var clientIdProperty := model.clientIdProperty;
    var addToWriter := model.clientIdPropertyAddToWriter;
    if m.clientId.Some? {
      clientIdProperty := Some(name);
      addToWriter := m.clientId.value;
    }
    var versionProperty := model.versionProperty;
    if m.isVersion {
      versionProperty := Some(name);
    }
    var associations := model.associations + (if m.association.Some? then [m.association.value] else []);
    r := Ok(ModelBean(model.name, model.autodetectTypes, model.extend, idProperty, versionProperty, model.proxy,
                      model.identifier, clientIdProperty, addToWriter, model.hasMany, fields, associations,
                      validations));
    assert MemberField(model, m, detection) == Ok(fieldBean.value);
  }

  // ---------------------------------------------------------------------------
  // The member walk
  // ---------------------------------------------------------------------------

  /** createModelBean over a list of members, left to right; the first
      exception ends the walk. */
  function ApplyMembers(model: ModelBean, ms: seq<Accessible>, detection: TypeDetection, includeValidation: IncludeValidation)
    : Result<ModelBean>
    decreases |ms|
  {
    if ms == [] then Ok(model)
    else
      match ApplyMembers(model, ms[..|ms| - 1], detection, includeValidation)
      case Err(e) => Err(e)
      case Ok(prev) => ModelBeanStep(prev, ms[|ms| - 1], detection, includeValidation)
  }

  /** The walk keeps the name, extend, type autodetection and proxy settings,
      and only appends associations and validations. */
  lemma {:induction false} ApplyMembersKeeps(model: ModelBean, ms: seq<Accessible>, detection: TypeDetection,
                                             includeValidation: IncludeValidation)
    ensures var r := ApplyMembers(model, ms, detection, includeValidation);
      r.Ok? ==>
        && r.value.name == model.name && r.value.extend == model.extend
        && r.value.autodetectTypes == model.autodetectTypes && r.value.proxy == model.proxy
        && |model.associations| <= |r.value.associations|
        && r.value.associations[..|model.associations|] == model.associations
        && |model.validations| <= |r.value.validations|
        && r.value.validations[..|model.validations|] == model.validations
    decreases |ms|
  {
    if ms != [] {
      ApplyMembersKeeps(model, ms[..|ms| - 1], detection, includeValidation);
      var prev := ApplyMembers(model, ms[..|ms| - 1], detection, includeValidation);
      if prev.Ok? {
        var m := ms[|ms| - 1];
        var r := ModelBeanStep(prev.value, m, detection, includeValidation);
        if r.Ok? {
          StepKeeps(prev.value, m, detection, includeValidation);
          assert r.value.associations[..|model.associations|]
              == r.value.associations[..|prev.value.associations|][..|model.associations|];
          assert r.value.validations[..|model.validations|]
              == r.value.validations[..|prev.value.validations|][..|model.validations|];
        }
      }
    }
  }

  /** The walk keeps the field names distinct. */
  lemma {:induction false} ApplyMembersDistinct(model: ModelBean, ms: seq<Accessible>, detection: TypeDetection,
                                                includeValidation: IncludeValidation)
    requires DistinctNames(model.fields)
    ensures var r := ApplyMembers(model, ms, detection, includeValidation);
      r.Ok? ==> DistinctNames(r.value.fields)
    decreases |ms|
  {
    if ms != [] {
      ApplyMembersDistinct(model, ms[..|ms| - 1], detection, includeValidation);
      var prev := ApplyMembers(model, ms[..|ms| - 1], detection, includeValidation);
      if prev.Ok? {
        var m := ms[|ms| - 1];
        var r := ModelBeanStep(prev.value, m, detection, includeValidation);
        if r.Ok? && !IsVoidMethod(m) {
          StepFields(prev.value, m, detection, includeValidation);
          if MemberField(prev.value, m, detection).value.Some? {
            PutDistinct(prev.value.fields, MemberField(prev.value, m, detection).value.value, BeanName);
          }
        }
      }
    }
  }

  /** One more member walked. */
  lemma ApplyMembersStep(model: ModelBean, ms: seq<Accessible>, i: int, detection: TypeDetection,
                         includeValidation: IncludeValidation, current: ModelBean)
    requires 0 <= i < |ms| && ApplyMembers(model, ms[..i], detection, includeValidation) == Ok(current)
    ensures ApplyMembers(model, ms[..i + 1], detection, includeValidation)
         == ModelBeanStep(current, ms[i], detection, includeValidation)
  {
    assert ms[..i + 1][..i] == ms[..i];
  }

  /** Once the walk has thrown, it stays thrown. */
  lemma {:induction false} ApplyMembersErr(model: ModelBean, ms: seq<Accessible>, i: int, detection: TypeDetection,
                                           includeValidation: IncludeValidation)
    requires 0 <= i <= |ms|
    requires ApplyMembers(model, ms[..i], detection, includeValidation).Err?
    ensures ApplyMembers(model, ms, detection, includeValidation) == ApplyMembers(model, ms[..i], detection, includeValidation)
    decreases |ms| - i
  {
    if i < |ms| {
      assert ms[..i + 1][..i] == ms[..i];
      ApplyMembersErr(model, ms, i + 1, detection, includeValidation);
    } else {
      assert ms[..i] == ms;
    }
  }

  /** createModelBean over each member of ms in turn. */
  method WalkMembers(model: ModelBean, ms: seq<Accessible>, detection: TypeDetection, includeValidation: IncludeValidation)
    returns (r: Result<ModelBean>)
    ensures r == ApplyMembers(model, ms, detection, includeValidation)
  {
    var current := model;
    var i := 0;
    while i < |ms|
      invariant 0 <= i <= |ms|
      invariant ApplyMembers(model, ms[..i], detection, includeValidation) == Ok(current)
    {
      ApplyMembersStep(model, ms, i, detection, includeValidation, current);
      var next := CreateModelBean(current, ms[i], detection, includeValidation);
      if next.Err? {
        ApplyMembersErr(model, ms, i + 1, detection, includeValidation);
        return next;
      }
      current := next.value;
      i := i + 1;
    }
    assert ms[..i] == ms;
    r := Ok(current);
  }

  /** A type-level @ModelField's type: its custom type when it has text, its
      declared type otherwise. */
  function TypeLevelType(ann: ModelFieldAnnotation): FieldType {
    if HasText(ann.customType) then Custom(ann.customType) else Builtin(ann.modelType)
  }

  /** One type-level @ModelField: with a name, it is normalised and added as
      a field; without one it is skipped. */
  function TypeFieldStep(prev: ModelBean, ann: ModelFieldAnnotation): (r: Result<ModelBean>)
    ensures r.Ok? ==> r.value == prev.(fields := r.value.fields)
  {
    if !HasText(ann.value) then Ok(prev)
    else
      match NormalizedField(NewFieldBean(ann.value, TypeLevelType(ann)), ann)
      case Err(e) => Err(e)
      case Ok(b) => Ok(prev.(fields := Put(prev.fields, b, BeanName)))
  }

  /** A type-level field keeps the names distinct, keeps every name and adds
      its own. */
  lemma TypeFieldStepNames(prev: ModelBean, ann: ModelFieldAnnotation)
    requires DistinctNames(prev.fields)
    ensures var r := TypeFieldStep(prev, ann);
      r.Ok? ==>
        && DistinctNames(r.value.fields)
        && (forall n :: n in FieldNames(prev.fields) ==> n in FieldNames(r.value.fields))
        && (HasText(ann.value) ==> ann.value in FieldNames(r.value.fields))
  {
    if HasText(ann.value) {
      var b := NormalizedField(NewFieldBean(ann.value, TypeLevelType(ann)), ann);
      if b.Ok? {
        PutDistinct(prev.fields, b.value, BeanName);
        PutKeys(prev.fields, b.value, BeanName);
      }
    }
  }

  /** A type-level field keeps a name the model already has. */
  lemma TypeFieldStepKeeps(prev: ModelBean, ann: ModelFieldAnnotation, n: string)
    requires DistinctNames(prev.fields) && n in FieldNames(prev.fields)
    ensures var r := TypeFieldStep(prev, ann); r.Ok? ==> n in FieldNames(r.value.fields)
  {
    TypeFieldStepNames(prev, ann);
  }

  /** The type-level @ModelField annotations, in order; nothing but the fields
      of the model changes. */
  function ApplyTypeFields(model: ModelBean, anns: seq<ModelFieldAnnotation>): (r: Result<ModelBean>)
    ensures r.Ok? ==> r.value == model.(fields := r.value.fields)
    decreases |anns|
  {
    if anns == [] then Ok(model)
    else
      match ApplyTypeFields(model, anns[..|anns| - 1])
      case Err(e) => Err(e)
      case Ok(prev) => TypeFieldStep(prev, anns[|anns| - 1])
  }

  /** The type-level fields keep the names distinct and every named annotation
      ends up as a field. */
  lemma ApplyTypeFieldsNames(model: ModelBean, anns: seq<ModelFieldAnnotation>)
    requires DistinctNames(model.fields)
    ensures var r := ApplyTypeFields(model, anns);
      r.Ok? ==>
        && DistinctNames(r.value.fields)
        && (forall n :: n in FieldNames(model.fields) ==> n in FieldNames(r.value.fields))
        && (forall k :: 0 <= k < |anns| && HasText(anns[k].value) ==> anns[k].value in FieldNames(r.value.fields))
  {
    ApplyTypeFieldsKeeps(model, anns);
    forall k | 0 <= k < |anns| && HasText(anns[k].value) {
      ApplyTypeFieldsCovers(model, anns, k);
    }
  }

  /** Applying @ModelField type-level annotations keeps the names distinct and
      keeps every name. */
  lemma {:induction false} ApplyTypeFieldsKeeps(model: ModelBean, anns: seq<ModelFieldAnnotation>)
    requires DistinctNames(model.fields)
    ensures var r := ApplyTypeFields(model, anns);
      r.Ok? ==>
        && DistinctNames(r.value.fields)
        && (forall n :: n in FieldNames(model.fields) ==> n in FieldNames(r.value.fields))
    decreases |anns|
  {
    if anns != [] {
      var init := anns[..|anns| - 1];
      ApplyTypeFieldsKeeps(model, init);
      var prev := ApplyTypeFields(model, init);
      if prev.Ok? {
        TypeFieldStepNames(prev.value, anns[|anns| - 1]);
      }
    }
  }

  /** A type-level annotation with a name puts a field of that name. */
  lemma {:induction false} ApplyTypeFieldsCovers(model: ModelBean, anns: seq<ModelFieldAnnotation>, k: int)
    requires DistinctNames(model.fields)
    requires 0 <= k < |anns| && HasText(anns[k].value)
    ensures var r := ApplyTypeFields(model, anns);
      r.Ok? ==> anns[k].value in FieldNames(r.value.fields)
    decreases |anns|
  {
    var init := anns[..|anns| - 1];
    var prev := ApplyTypeFields(model, init);
    ApplyTypeFieldsKeeps(model, init);
    if prev.Ok? {
      assert ApplyTypeFields(model, anns) == TypeFieldStep(prev.value, anns[|anns| - 1]);
      if k < |init| {
        assert anns[k] == init[k];
        ApplyTypeFieldsCovers(model, init, k);
        TypeFieldStepKeeps(prev.value, anns[|anns| - 1], anns[k].value);
      } else {
        TypeFieldStepNames(prev.value, anns[|anns| - 1]);
      }
    }
  }

  /** Once a type-level field has thrown, the remaining ones are not looked at. */
  lemma {:induction false} ApplyTypeFieldsErr(model: ModelBean, anns: seq<ModelFieldAnnotation>, i: int)
    requires 0 <= i <= |anns|
    requires ApplyTypeFields(model, anns[..i]).Err?
    ensures ApplyTypeFields(model, anns) == ApplyTypeFields(model, anns[..i])
    decreases |anns| - i
  {
    if i < |anns| {
      assert anns[..i + 1][..i] == anns[..i];
      ApplyTypeFieldsErr(model, anns, i + 1);
    } else {
      assert anns[..i] == anns;
    }
  }

  /** The type-level @ModelField loop of createModel. */
  method AddTypeLevelFields(model: ModelBean, anns: seq<ModelFieldAnnotation>) returns (r: Result<ModelBean>)
    ensures r == ApplyTypeFields(model, anns)
  {
    var fields := model.fields;
    var k := 0;
    while k < |anns|
      invariant 0 <= k <= |anns|
      invariant ApplyTypeFields(model, anns[..k]) == Ok(model.(fields := fields))
    {
      assert anns[..k + 1][..k] == anns[..k];
      var ann := anns[k];
      if HasText(ann.value) {
        var t := if HasText(ann.customType) then Custom(ann.customType) else Builtin(ann.modelType);
        var updated := UpdateModelFieldBean(NewFieldBean(ann.value, t), ann);
        if updated.Err? {
          ApplyTypeFieldsErr(model, anns, k + 1);
          return Err(updated.message);
        }
        fields := Put(fields, updated.value, BeanName);
      }
      k := k + 1;
    }
    assert anns[..k] == anns;
    r := Ok(model.(fields := fields));
  }

  // ---------------------------------------------------------------------------
  // Which fields and methods are walked
  // ---------------------------------------------------------------------------

  /** The names of the bean properties with a read method that is not
      @JsonIgnore'd. */
  function ReadableProperties(pds: seq<PropertyDescriptor>): (r: set<string>)
    ensures forall n :: n in r <==> exists k :: 0 <= k < |pds| && pds[k].name == n
                                     && pds[k].hasReadMethod && !pds[k].readMethodIgnored
  {
    if pds == [] then {}
    else
      var init := pds[..|pds| - 1];
      var last := pds[|pds| - 1];
      assert forall k :: 0 <= k < |init| ==> pds[k] == init[k];
      ReadableProperties(init) + (if last.hasReadMethod && !last.readMethodIgnored then {last.name} else {})
  }

  /** The property-descriptor loop of createModel. */
  method CollectReadMethods(pds: seq<PropertyDescriptor>) returns (readMethods: set<string>)
    ensures readMethods == ReadableProperties(pds)
  {
    readMethods := {};
    var p := 0;
    while p < |pds|
      invariant 0 <= p <= |pds|
      invariant readMethods == ReadableProperties(pds[..p])
    {
      assert pds[..p + 1][..p] == pds[..p];
      if pds[p].hasReadMethod && !pds[p].readMethodIgnored {
        readMethods := readMethods + {pds[p].name};
      }
      p := p + 1;
    }
    assert pds[..p] == pds;
  }

  /** A field the walk takes up (unless its name was taken already): it has
      @ModelField or @ModelAssociation, or it is public or readable and not
      @JsonIgnore'd. */
  predicate Eligible(readable: set<string>, f: Accessible) {
    || f.fieldAnnotation.Some?
    || f.association.Some?
    || (((f.kind.FieldMember? && f.kind.isPublic) || f.name in readable) && !f.jsonIgnore)
  }

  /** Eligible, for a fixed set of readable properties. */
  function EligibleIn(readable: set<string>): Accessible -> bool {
    f => Eligible(readable, f)
  }

  /** A member's name as the field walk and Collections.sort compare members. */
  function NameKey(m: Accessible): string {
    m.name
  }

  /** The fields walked, in hierarchy order. */
  function SelectFields(fs: seq<Accessible>, readable: set<string>): seq<Accessible> {
    SelectFirst(fs, EligibleIn(readable), NameKey)
  }

  /** The field walk of createModel: a field is walked when it is eligible and
      its name has not been walked yet. */
  method WalkableFields(fs: seq<Accessible>, readable: set<string>) returns (selected: seq<Accessible>)
    ensures selected == SelectFields(fs, readable)
  {
    selected := [];
    var seen: set<string> := {};
    var f := 0;
    while f < |fs|
      invariant 0 <= f <= |fs|
      invariant selected == SelectFirst(fs[..f], EligibleIn(readable), NameKey)
      invariant forall n :: n in seen <==> n in Keys(selected, NameKey)
    {
      var field := fs[f];
      assert fs[..f + 1] == fs[..f] + [field];
      SelectFirstSnoc(fs[..f], field, EligibleIn(readable), NameKey);
      WalkStep(selected, seen, field, readable);
      if field.name !in seen && Eligible(readable, field) {
        seen := seen + {field.name};
        selected := selected + [field];
      }
      f := f + 1;
    }
    assert fs[..f] == fs;
  }

  /** One step of the field walk: the set of walked names tracks the keys of
      the selection. */
  lemma WalkStep(selected: seq<Accessible>, seen: set<string>, field: Accessible, readable: set<string>)
    requires forall n :: n in seen <==> n in Keys(selected, NameKey)
    ensures var next := SelectNext(selected, field, EligibleIn(readable), NameKey);
      if field.name !in seen && Eligible(readable, field) then
        next == selected + [field] && forall n :: n in seen + {field.name} <==> n in Keys(next, NameKey)
      else
        next == selected
  {
    assert EligibleIn(readable)(field) == Eligible(readable, field);
    assert NameKey(field) == field.name;
    KeysSnoc(selected, field, NameKey);
  }

  /** The field declaration a name is walked with is the first eligible one
      in hierarchy order. */
  lemma FieldWalkFirstWins(fs: seq<Accessible>, readable: set<string>, k: int)
    requires 0 <= k < |fs| && Eligible(readable, fs[k])
    requires forall j :: 0 <= j < k ==> !(Eligible(readable, fs[j]) && fs[j].name == fs[k].name)
    ensures Lookup(SelectFields(fs, readable), fs[k].name, NameKey) == Some(fs[k])
  {
    SelectFirstWins(fs, EligibleIn(readable), NameKey, k);
  }

  /** A method the walk of a class takes up: it has @ModelField or
      @ModelAssociation and is not @JsonIgnore'd. */
  predicate IsCandidate(m: Accessible) {
    (m.fieldAnnotation.Some? || m.association.Some?) && !m.jsonIgnore
  }

  /** The candidate methods, in their order. */
  function Candidates(ms: seq<Accessible>): (r: seq<Accessible>)
    ensures forall x :: x in r <==> x in ms && IsCandidate(x)
    ensures |r| <= |ms|
  {
    if ms == [] then []
    else
      var init := ms[..|ms| - 1];
      assert ms == init + [ms[|ms| - 1]];
      Candidates(init) + (if IsCandidate(ms[|ms| - 1]) then [ms[|ms| - 1]] else [])
  }

  /** The candidate-method loop of createModel. */
  method CandidateMethods(ms: seq<Accessible>) returns (candidates: seq<Accessible>)
    ensures candidates == Candidates(ms)
  {
    candidates := [];
    var c := 0;
    while c < |ms|
      invariant 0 <= c <= |ms|
      invariant candidates == Candidates(ms[..c])
    {
      assert ms[..c + 1][..c] == ms[..c];
      if IsCandidate(ms[c]) {
        candidates := candidates + [ms[c]];
      }
      c := c + 1;
    }
    assert ms[..c] == ms;
  }

  // ---------------------------------------------------------------------------
  // createModel
  // ---------------------------------------------------------------------------

  /** The model after the type-level annotations of a class. */
  function WithTypeLevel(model: ModelBean, cls: ClassInput): Result<ModelBean> {
    match ApplyTypeFields(model, cls.typeFieldAnnotations)
    case Err(e) => Err(e)
    case Ok(typed) =>
      Ok(typed.(associations := typed.associations + Present(cls.typeAssociations),
                validations := typed.validations + Present(cls.typeValidations)))
  }

  /** The field walk and then the candidate-method walk of a class. */
  function ClassWalk(start: ModelBean, cls: ClassInput, detection: TypeDetection, includeValidation: IncludeValidation)
    : Result<ModelBean>
  {
    match ApplyMembers(start, SelectFields(cls.fields, ReadableProperties(cls.properties)), detection, includeValidation)
    case Err(e) => Err(e)
    case Ok(walked) => ApplyMembers(walked, SortBy(Candidates(cls.methods), NameKey), detection, includeValidation)
  }

  /** The model createModel returns for a class, or the exception it throws. */
  function AssembledModel(cls: ClassInput, detection: TypeDetection, includeValidation: IncludeValidation)
    : Result<ModelBean>
  {
    var header := ModelHeader(cls.simpleName, cls.modelAnnotation);
    if cls.isInterface then
      ApplyMembers(header, SortBy(cls.methods, NameKey), detection, includeValidation)
    else
      match WithTypeLevel(header, cls)
      case Err(e) => Err(e)
      case Ok(start) => ClassWalk(start, cls, detection, includeValidation)
  }

  /** The class walk keeps what the whole walk keeps. */
  lemma ClassWalkKeeps(start: ModelBean, cls: ClassInput, detection: TypeDetection, includeValidation: IncludeValidation)
    ensures var r := ClassWalk(start, cls, detection, includeValidation);
      r.Ok? ==>
        && r.value.name == start.name && r.value.extend == start.extend
        && r.value.autodetectTypes == start.autodetectTypes && r.value.proxy == start.proxy
        && |start.associations| <= |r.value.associations|
        && r.value.associations[..|start.associations|] == start.associations
        && |start.validations| <= |r.value.validations|
        && r.value.validations[..|start.validations|] == start.validations
  {
    var fs := SelectFields(cls.fields, ReadableProperties(cls.properties));
    ApplyMembersKeeps(start, fs, detection, includeValidation);
    var walked := ApplyMembers(start, fs, detection, includeValidation);
    if walked.Ok? {
      var w := walked.value;
      ApplyMembersKeeps(w, SortBy(Candidates(cls.methods), NameKey), detection, includeValidation);
      var r := ApplyMembers(w, SortBy(Candidates(cls.methods), NameKey), detection, includeValidation);
      if r.Ok? {
        assert r.value.associations[..|start.associations|]
            == r.value.associations[..|w.associations|][..|start.associations|];
        assert r.value.validations[..|start.validations|]
            == r.value.validations[..|w.validations|][..|start.validations|];
      }
    }
  }

  /** The class walk keeps the field names distinct. */
  lemma ClassWalkDistinct(start: ModelBean, cls: ClassInput, detection: TypeDetection, includeValidation: IncludeValidation)
    requires DistinctNames(start.fields)
    ensures var r := ClassWalk(start, cls, detection, includeValidation);
      r.Ok? ==> DistinctNames(r.value.fields)
  {
    var fs := SelectFields(cls.fields, ReadableProperties(cls.properties));
    ApplyMembersDistinct(start, fs, detection, includeValidation);
    var walked := ApplyMembers(start, fs, detection, includeValidation);
    if walked.Ok? {
      ApplyMembersDistinct(walked.value, SortBy(Candidates(cls.methods), NameKey), detection, includeValidation);
    }
  }

  /** Every assembled model has distinct field names, and the name, extend,
      type autodetection and proxy settings of its header. */
  lemma AssembledModelWellFormed(cls: ClassInput, detection: TypeDetection, includeValidation: IncludeValidation)
    ensures var r := AssembledModel(cls, detection, includeValidation);
            var header := ModelHeader(cls.simpleName, cls.modelAnnotation);
            r.Ok? ==> DistinctNames(r.value.fields) && r.value.name == header.name
                      && r.value.extend == header.extend && r.value.autodetectTypes == header.autodetectTypes
                      && r.value.proxy == header.proxy
  {
    if cls.isInterface {
      InterfaceModelWellFormed(cls, detection, includeValidation);
    } else {
      ClassModelWellFormed(cls, detection, includeValidation);
    }
  }

  lemma InterfaceModelWellFormed(cls: ClassInput, detection: TypeDetection, includeValidation: IncludeValidation)
    requires cls.isInterface
    ensures var r := AssembledModel(cls, detection, includeValidation);
            var header := ModelHeader(cls.simpleName, cls.modelAnnotation);
            r.Ok? ==> DistinctNames(r.value.fields) && r.value.name == header.name
                      && r.value.extend == header.extend && r.value.autodetectTypes == header.autodetectTypes
                      && r.value.proxy == header.proxy
  {
    var header := ModelHeader(cls.simpleName, cls.modelAnnotation);
    ApplyMembersKeeps(header, SortBy(cls.methods, NameKey), detection, includeValidation);
    ApplyMembersDistinct(header, SortBy(cls.methods, NameKey), detection, includeValidation);
  }

  lemma ClassModelWellFormed(cls: ClassInput, detection: TypeDetection, includeValidation: IncludeValidation)
    requires !cls.isInterface
    ensures var r := AssembledModel(cls, detection, includeValidation);
            var header := ModelHeader(cls.simpleName, cls.modelAnnotation);
            r.Ok? ==> DistinctNames(r.value.fields) && r.value.name == header.name
                      && r.value.extend == header.extend && r.value.autodetectTypes == header.autodetectTypes
                      && r.value.proxy == header.proxy
  {
    var header := ModelHeader(cls.simpleName, cls.modelAnnotation);
    ApplyTypeFieldsNames(header, cls.typeFieldAnnotations);
    var start := WithTypeLevel(header, cls);
    if start.Ok? {
      ClassWalkKeeps(start.value, cls, detection, includeValidation);
      ClassWalkDistinct(start.value, cls, detection, includeValidation);
    }
  }

  /** In a class, the type-level associations and validations come first, in
      their order, before anything a member contributes. */
  lemma TypeLevelFirst(cls: ClassInput, detection: TypeDetection, includeValidation: IncludeValidation)
    requires !cls.isInterface
    ensures var r := AssembledModel(cls, detection, includeValidation);
            r.Ok? ==>
              && |Present(cls.typeAssociations)| <= |r.value.associations|
              && r.value.associations[..|Present(cls.typeAssociations)|] == Present(cls.typeAssociations)
              && |Present(cls.typeValidations)| <= |r.value.validations|
              && r.value.validations[..|Present(cls.typeValidations)|] == Present(cls.typeValidations)
  {
    var header := ModelHeader(cls.simpleName, cls.modelAnnotation);
    TypeLevelStart(header, cls);
    var start := WithTypeLevel(header, cls);
    if start.Ok? {
      ClassWalkKeeps(start.value, cls, detection, includeValidation);
    }
  }

  /** Starting from a model with no associations and validations, the
      type-level ones are all there are before the walk. */
  lemma TypeLevelStart(header: ModelBean, cls: ClassInput)
    requires header.associations == [] && header.validations == []
    ensures var start := WithTypeLevel(header, cls);
      start.Ok? ==> start.value.associations == Present(cls.typeAssociations)
                    && start.value.validations == Present(cls.typeValidations)
  {
  }

  /** createModel: the header, then the member walk. */
  method CreateModel(cls: ClassInput, detection: TypeDetection, includeValidation: IncludeValidation)
    returns (r: Result<ModelBean>)
    ensures r == AssembledModel(cls, detection, includeValidation)
  {
    var model := CreateHeader(cls.simpleName, cls.modelAnnotation);
    var readMethods := CollectReadMethods(cls.properties);

    if cls.isInterface {
      var methods := SortBy(cls.methods, NameKey);
      r := WalkMembers(model, methods, detection, includeValidation);
      return;
    }

    var typed := AddTypeLevelFields(model, cls.typeFieldAnnotations);
    if typed.Err? {
      return typed;
    }
    var associations := CollectPresent(cls.typeAssociations);
    var validations := CollectPresent(cls.typeValidations);
    model := typed.value.(associations := typed.value.associations + associations,
                          validations := typed.value.validations + validations);

    var selected := WalkableFields(cls.fields, readMethods);
    var walked := WalkMembers(model, selected, detection, includeValidation);
    if walked.Err? {
      return walked;
    }
    var candidates := CandidateMethods(cls.methods);
    r := WalkMembers(walked.value, SortBy(candidates, NameKey), detection, includeValidation);
  }
}
