/**
 * The entities the model compiler works on: the annotations it reads (as
 * already-extracted records), the field and model beans it builds, and the
 * descriptors of a class's fields and methods that stand in for reflection.
 */
module Beans {
  import opened Wrappers
  import opened DataOptions
  import opened KeyedLists

  /** The ModelType constants the generator distinguishes. */
  datatype ModelType = Auto | Integer | Float | Number | StringType | Boolean | Date | NotSpecified

  /** The type of a ModelFieldBean: a ModelType, a custom type name given
      verbatim, or no type at all (a ModelType reference that is null). */
  datatype FieldType = Builtin(modelType: ModelType) | Custom(typeName: string) | Unresolved

  /** A field's default value as ModelFieldBean stores it: a string (the
      undefined sentinel, or a quoted text), a Boolean, a Long, or a Double kept as
      its trimmed literal. */
  datatype DefaultValue =
    | TextValue(text: string)
    | BooleanValue(flag: bool)
    | LongValue(number: int)
    | DoubleLiteral(literal: string)

  /** The reference of a field: its type, and whichever other attributes are set. */
  datatype ReferenceBean = ReferenceBean(refType: Option<string>, otherProperties: map<string, string>)
  {
    predicate HasAnyProperties() {
      refType.Some? || |otherProperties| > 0
    }

    predicate TypeOnly() {
      refType.Some? && |otherProperties| == 0
    }
  }

  /** What a field's reference attribute holds: a bare type name or the full bean. */
  datatype FieldReference = TypeName(name: string) | FullReference(bean: ReferenceBean)

  /** A validation (AbstractValidation): its kind ("presence", "length", ...),
      the field it applies to, and its kind-specific parameters. */
  datatype Validation = Validation(kind: string, field: string, parameters: map<string, string>)

  /** An association (AbstractAssociation): its kind, its target model and its
      other attributes. */
  datatype Association = Association(kind: string, model: string, parameters: map<string, string>)

  /** The @ModelField annotation. */
  datatype ModelFieldAnnotation = ModelFieldAnnotation(
    value: string,
    modelType: ModelType,
    customType: string,
    dateFormat: string,
    defaultValue: string,
    useNull: bool,
    allowNull: bool,
    allowBlank: bool,
    unique: bool,
    mapping: string,
    persist: bool,
    critical: bool,
    convert: string,
    calculate: string,
    depends: seq<string>,
    reference: ReferenceBean)

  /** ModelFieldBean: a field of the generated model. None is Java's null, an
      attribute the output leaves out. */
  datatype FieldBean = FieldBean(
    name: string,
    fieldType: FieldType,
    dateFormat: Option<string>,
    defaultValue: Option<DefaultValue>,
    allowNull: Option<bool>,
    allowBlank: Option<bool>,
    unique: Option<bool>,
    mapping: Option<string>,
    persist: Option<bool>,
    critical: Option<bool>,
    convert: Option<string>,
    calculate: Option<string>,
    depends: Option<seq<string>>,
    reference: Option<FieldReference>,
    validators: Option<seq<Validation>>)

  /** `new ModelFieldBean(name, type)`: a name and a type, nothing else set. */
  function NewFieldBean(name: string, fieldType: FieldType): (b: FieldBean)
    ensures b.name == name && b.fieldType == fieldType && b.validators.None?
  {
    FieldBean(name, fieldType, None, None, None, None, None, None, None, None, None, None, None, None, None)
  }

  /** The @Model annotation on a class. */
  datatype ModelAnnotation = ModelAnnotation(
    value: string,
    autodetectTypes: bool,
    extend: string,
    idProperty: string,
    versionProperty: string,
    paging: bool,
    disablePagingParameters: bool,
    createMethod: string,
    readMethod: string,
    updateMethod: string,
    destroyMethod: string,
    messageProperty: string,
    writer: string,
    reader: string,
    successProperty: string,
    totalProperty: string,
    rootProperty: string,
    writeAllFields: bool,
    allDataOptions: AllDataOptions,
    identifier: string,
    clientIdProperty: string,
    hasMany: seq<string>)

  /** The ModelBean attributes that only the proxy configuration reads
      (ProxyObject is built from them). */
  datatype ProxySettings = ProxySettings(
    paging: bool,
    disablePagingParameters: bool,
    createMethod: Option<string>,
    readMethod: Option<string>,
    updateMethod: Option<string>,
    destroyMethod: Option<string>,
    messageProperty: Option<string>,
    writer: Option<string>,
    reader: Option<string>,
    successProperty: Option<string>,
    totalProperty: Option<string>,
    rootProperty: Option<string>,
    writeAllFields: bool,
    allDataOptions: Option<OptionsBeanValue>)

  /** ModelBean: the canonical model of one class. The fields are a
      LinkedHashMap from name to bean, kept here as a list in insertion order
      with distinct names. */
  datatype ModelBean = ModelBean(
    name: string,
    autodetectTypes: bool,
    extend: string,
    idProperty: string,
    versionProperty: Option<string>,
    proxy: ProxySettings,
    identifier: Option<string>,
    clientIdProperty: Option<string>,
    clientIdPropertyAddToWriter: bool,
    hasMany: Option<seq<string>>,
    fields: seq<FieldBean>,
    associations: seq<Association>,
    validations: seq<Validation>)

  /** The key of a field bean in the model's map. */
  function BeanName(b: FieldBean): string {
    b.name
  }

  /** The names of a list of field beans, in order. */
  function FieldNames(fields: seq<FieldBean>): seq<string> {
    Keys(fields, BeanName)
  }

  /** The names in a list of field beans are pairwise different (map keys). */
  ghost predicate DistinctNames(fields: seq<FieldBean>) {
    DistinctKeys(fields, BeanName)
  }

  // ---------------------------------------------------------------------------
  // What reflection would report about a class
  // ---------------------------------------------------------------------------

  /** A reflected member: a field (public or not) or a method (void or not). */
  datatype MemberKind = FieldMember(isPublic: bool) | MethodMember(returnsVoid: bool)

  /** What a validation annotation yields once its kind and parameters are
      read; the field it applies to is supplied by the caller. */
  datatype ValidationSpec = ValidationSpec(kind: string, parameters: map<string, string>)

  /** A field or method with the annotations the generator looks at.
      `javaType` names the field type or the method's return type;
      `association` is the association built from its @ModelAssociation, if it
      has one; `validationAnnotations` are its @ModelValidation annotations,
      each with the validation it yields at the configured inclusion level
      (None where none is built); `otherAnnotations` are its remaining
      annotations and those of its read and write accessors, each with the
      validation it contributes, if any. */
  datatype Accessible = Accessible(
    kind: MemberKind,
    name: string,
    javaType: string,
    fieldAnnotation: Option<ModelFieldAnnotation>,
    isId: bool,
    clientId: Option<bool>,
    isVersion: bool,
    association: Option<Association>,
    jsonIgnore: bool,
    validationAnnotations: seq<Option<ValidationSpec>>,
    otherAnnotations: seq<Option<ValidationSpec>>)

  /** A bean property as the Introspector reports it: its name, whether it has
      a read method, and whether that read method is @JsonIgnore'd. */
  datatype PropertyDescriptor = PropertyDescriptor(name: string, hasReadMethod: bool, readMethodIgnored: bool)

  /** A class as reflection would present it. `fields` are in the order the
      class hierarchy is walked (the class first, then its superclasses);
      `methods` likewise. The type-level annotation lists hold the association
      or validation each annotation yields, if any. */
  datatype ClassInput = ClassInput(
    simpleName: string,
    modelAnnotation: Option<ModelAnnotation>,
    isInterface: bool,
    properties: seq<PropertyDescriptor>,
    typeFieldAnnotations: seq<ModelFieldAnnotation>,
    typeAssociations: seq<Option<Association>>,
    typeValidations: seq<Option<Validation>>,
    fields: seq<Accessible>,
    methods: seq<Accessible>)

  /** ModelType.values() in declaration order, and ModelType.supports. */
  datatype TypeDetection = TypeDetection(order: seq<ModelType>, supports: (ModelType, string) -> bool)
}
