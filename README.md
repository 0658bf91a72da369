# extclassgenerator: the model compiler, verified

extclassgenerator is an annotation processor. For every class annotated with
`@Model` it writes an `Ext.define(...)` JavaScript model definition, in one of
three dialects: Ext JS 4, Ext JS 5 or Sencha Touch 2. This project models in
Dafny how that definition is computed, and proves properties of the model:

- **Options.** The processor options become an `OutputConfig`, with their
  defaults (`AnnotationProcessor`). The `@Model(allDataOptions = ...)` flags
  become the canonical `AllDataOptionsBean` (`DataOptions`).
- **Model assembly.** `createModel` and `createModelBean` build a `ModelBean`:
  - the model name and the `@Model` settings;
  - the type-level `@ModelField`, association and validation annotations;
  - the field walk, where the declaration nearest the class wins;
  - the candidate methods, taken in name order;
  - each member's field name, type, markers, association and validations (`ModelAssembler`).
- **Field normalisation.** `updateModelFieldBean` folds a `@ModelField`
  annotation into a field bean (`FieldNormalizer`).
- **Validators.** `addValidatorsToField` and `getValidatorClass` build the
  per-field validator lists of Ext JS 5 and its sorted `requires` classes
  (`ValidationResolver`).
- **Document and text.** `generateJavascript` builds the model object and its
  config object under the per-dialect rules (`DialectSerializer`). It wraps
  the rendered JSON in `Ext.define("<name>",...);` and then rewrites quotes and
  line breaks.
- **Output location.** The processor derives each resource's name and package
  from the model name. In base-and-subclass mode it renames the defined class to
  `<name>Base` (`AnnotationProcessor`).

Beside these, small modules model the Java library behaviour the core relies
on:

- `JavaText`: `Util.trimWhitespace`/`hasText`, `indexOf`/`lastIndexOf`,
  `String.trim`, ASCII case folding, `String.replace(char, char)` and `replaceAll("\r?\n", sep)`.
- `JavaOrder`: `String.compareTo`, the stable `Collections.sort`, `TreeSet` order.
- `JavaNumbers`: `Long.valueOf` and `Double.valueOf`, with the messages of the
  `NumberFormatException`s they throw.
- `KeyedLists`: the insertion-ordered `LinkedHashMap` behind `ModelBean.addField`,
  and first-wins selection.

Reflection is replaced by descriptor inputs: a `ClassInput` lists a class's
property descriptors, fields and methods in discovery order, with each
member's annotations already read. Code the model does not see enters as
explicit parameters, of type `Environment` and `TypeDetection`:
`ModelType.supports`, `ModelFieldBean.updateTypes` and `hasOnlyName`,
`ProxyObject.hasContent`, the Jackson serialisation and the platform line
separator.

State that the source updates step by step is modelled in one of two ways. The
`AllDataOptionsBean` constructor is a class constructor. Every other
step-by-step operation is a method with loops, proved equal to a
specification function: the setter sequence, the option setters, the field
walk, the validator folding and the document building. The lemmas then prove
what the source promises about those functions.

In three places the code behaves differently from what a quick reading
suggests, and the model follows the code. The fourth item is a flaw the
model has to resolve:

- **Subclass file.** Base-and-subclass mode only probes for the plain
  subclass file. The code that would create it when it is absent is commented
  out (lines 178-196 of `ClassAnnotationProcessor.java`). The model writes only
  the `Base` resource.
- **Repeated field names.** Only the field walk skips a field name it has
  already seen (lines 212-222 of `ModelGenerator.java`). A candidate method, or
  a type-level `@ModelField` (line 180), with the name of an earlier field
  replaces that field in place through `ModelBean.addField`. This is modelled
  as `KeyedLists.Put`.
- **Order of `requires`.** The `requires` set is a sorted `TreeSet`
  whenever Ext JS 5 output has validations (lines 540-543), even when none
  of them names a field and so none adds a validator class. Otherwise it is a
  `HashSet`, whose order the model leaves open.
- **Undeclared `clazz`.** `createModel` uses a `clazz` that it never declares
  (lines 125 and 138). The model reads the class from the same descriptor as
  `typeElement`.

## Model

| member | source | states |
|---|---|---|
| JavaText.TrimWhitespace | src/main/java/ch/rasc/extclassgenerator/ModelGenerator.java:761 | the trimmed text is empty exactly when the input has no text; otherwise it starts and ends with a non-whitespace character and sits inside the input with only whitespace around it |
| JavaText.TrimWhitespaceIdempotent | src/main/java/ch/rasc/extclassgenerator/ModelGenerator.java:761 | trimming twice is trimming once |
| FieldNormalizer.TrimToNull | src/main/java/ch/rasc/extclassgenerator/ModelGenerator.java:760-766 | null exactly for empty or all-whitespace input; otherwise the input with the surrounding whitespace removed: non-empty, with no whitespace at either end, and found at some offset of the input with only whitespace around it |
| FieldNormalizer.TrimToNullIdempotent | src/main/java/ch/rasc/extclassgenerator/ModelGenerator.java:760-766 | a trimmed value trims to itself |
| FieldNormalizer.AccessorFieldName | src/main/java/ch/rasc/extclassgenerator/ModelGenerator.java:279-287 | `getX` and `isX` yield `X` uncapitalised, three and two characters shorter; any other method name is kept verbatim |
| JavaText.Uncapitalize | src/main/java/ch/rasc/extclassgenerator/ModelGenerator.java:279-282 | the name keeps its length and all but its first character, which is lower-cased |
| FieldNormalizer.AccessorFieldNameOfProperty | src/main/java/ch/rasc/extclassgenerator/ModelGenerator.java:279-284 | `get` or `is` followed by a capitalised property name yields that property name again |
| JavaText.UncapitalizeCapitalize | src/main/java/ch/rasc/extclassgenerator/ModelGenerator.java:280 | uncapitalize undoes capitalize on a lower-case initial |
| FieldNormalizer.FirstSupported | src/main/java/ch/rasc/extclassgenerator/ModelGenerator.java:294-299 | the first model type in ModelType order that supports the Java type; none exactly when no type supports it |
| FieldNormalizer.DetectedType | src/main/java/ch/rasc/extclassgenerator/ModelGenerator.java:292-303 | AUTO when type autodetection is off, the first supporting type otherwise |
| FieldNormalizer.DefaultValueOf | src/main/java/ch/rasc/extclassgenerator/ModelGenerator.java:428-444 | the undefined sentinel is stored verbatim; BOOLEAN gets `Boolean.valueOf` ("true" in any case); INTEGER gets the parsed long, or throws with `For input string: "<text>"`; FLOAT and NUMBER get the trimmed literal when `Double.valueOf` reads it and throw its exception otherwise; every other type gets the text in double quotes; it throws exactly in those two cases |
| FieldNormalizer.IntegerDefaultRoundTrip | src/main/java/ch/rasc/extclassgenerator/ModelGenerator.java:435-436 | an INTEGER default written as a long reads back as that long |
| FieldNormalizer.IntegerDefaultIsDouble | src/main/java/ch/rasc/extclassgenerator/ModelGenerator.java:435-440 | a default that converts for INTEGER converts for FLOAT and NUMBER, to the same literal |
| FieldNormalizer.DoubleDefaultTrimmed | src/main/java/ch/rasc/extclassgenerator/ModelGenerator.java:438-439 | blanks around a FLOAT or NUMBER default do not change the value it gives |
| JavaNumbers.ParseLong | src/main/java/ch/rasc/extclassgenerator/ModelGenerator.java:436 | a text reads exactly when it is an optional sign and at least one decimal digit whose signed value is in the 64-bit range; the value is that signed value |
| JavaNumbers.ParseLongLeadingZero | src/main/java/ch/rasc/extclassgenerator/ModelGenerator.java:436 | a leading zero does not change what a digit string reads as |
| JavaNumbers.ParseLongSigned | src/main/java/ch/rasc/extclassgenerator/ModelGenerator.java:436 | "+d" reads as d, and "-d" as the negation of d's value when that is in range |
| JavaNumbers.DigitsValueLeadingZero | src/main/java/ch/rasc/extclassgenerator/ModelGenerator.java:436 | a leading zero does not change the value of a digit string |
| JavaNumbers.Trim | src/main/java/ch/rasc/extclassgenerator/ModelGenerator.java:439 | `String.trim`: empty exactly when every character is at most U+0020; otherwise it starts and ends above U+0020; a text already so bounded is kept |
| JavaNumbers.ParseDouble | src/main/java/ch/rasc/extclassgenerator/ModelGenerator.java:439 | `Double.valueOf`: a text that reads gives its trimmed form; a text that does not throws "empty String" exactly when nothing is left after trimming, and otherwise "multiple points" or `For input string: "<trimmed text>"` |
| JavaNumbers.ParseLongIsDouble | src/main/java/ch/rasc/extclassgenerator/ModelGenerator.java:436-439 | every text `Long.valueOf` reads, `Double.valueOf` reads too |
| JavaNumbers.DecimalLiteralReads | src/main/java/ch/rasc/extclassgenerator/ModelGenerator.java:439 | digits with one point and at least one digit, such as "1.5", ".5" or "1.", read |
| JavaNumbers.PlainMantissa | src/main/java/ch/rasc/extclassgenerator/ModelGenerator.java:439 | a text of digits and points throws "multiple points" when it holds two points, reads when it holds a digit, and otherwise throws with its own text |
| JavaNumbers.MultiplePointsRejected | src/main/java/ch/rasc/extclassgenerator/ModelGenerator.java:439 | a mantissa with a second point throws "multiple points" |
| JavaNumbers.ParseDoubleTrimmed | src/main/java/ch/rasc/extclassgenerator/ModelGenerator.java:439 | the characters up to U+0020 around a text do not change what it reads as |
| JavaNumbers.ParseDoubleSpecial | src/main/java/ch/rasc/extclassgenerator/ModelGenerator.java:439 | "NaN" and "-Infinity" read; "nan" throws |
| JavaNumbers.ParseDoubleHex | src/main/java/ch/rasc/extclassgenerator/ModelGenerator.java:439 | "0x1.8p3" reads; a hexadecimal literal without its binary exponent throws |
| JavaNumbers.ParseDoubleExponent | src/main/java/ch/rasc/extclassgenerator/ModelGenerator.java:439 | an exponent marker without digits throws; a signed exponent and a type suffix read |
| JavaNumbers.ParseLongRoundTrip | src/main/java/ch/rasc/extclassgenerator/ModelGenerator.java:436 | `Long.valueOf(Long.toString(n)) == n` for every long n |
| JavaNumbers.DigitsValueOfDigits | src/main/java/ch/rasc/extclassgenerator/ModelGenerator.java:436 | the decimal digits of a natural number read back as that number |
| FieldNormalizer.DefaultAfter | src/main/java/ch/rasc/extclassgenerator/ModelGenerator.java:426-445 | a default text without text leaves the bean's default as it was; with text the default becomes the converted value; it fails exactly when the conversion throws, which only INTEGER, FLOAT and NUMBER conversions can do |
| FieldNormalizer.ReferenceAfter | src/main/java/ch/rasc/extclassgenerator/ModelGenerator.java:484-492 | an empty reference leaves the field's reference as it was; a reference carrying only a type collapses to the type name; any other reference is kept whole |
| FieldNormalizer.NormalizedField | src/main/java/ch/rasc/extclassgenerator/ModelGenerator.java:416-493 | updateModelFieldBean throws exactly when the default text has text and its conversion throws; otherwise the field keeps its name, type and validators |
| FieldNormalizer.NormalizedFieldTyped | src/main/java/ch/rasc/extclassgenerator/ModelGenerator.java:421-452 | the date format changes only for a DATE field and is set whenever a DATE field's annotation gives one; the default value is converted from the annotation's text when it has text and kept otherwise; allowNull changes only to true, and exactly when useNull or allowNull is set and the type is INTEGER, FLOAT, NUMBER, STRING or BOOLEAN |
| FieldNormalizer.NormalizedFieldFlags | src/main/java/ch/rasc/extclassgenerator/ModelGenerator.java:454-470 | allowBlank and persist are set only to false, when the annotation says false; unique and critical only to true, when the annotation says true; otherwise each keeps the bean's value |
| FieldNormalizer.NormalizedFieldExpressions | src/main/java/ch/rasc/extclassgenerator/ModelGenerator.java:462-492 | mapping, convert and calculate are the trimmed-to-null annotation texts; depends is absent exactly for an empty list and the list otherwise; the reference follows ReferenceAfter |
| FieldNormalizer.UpdateModelFieldBean | src/main/java/ch/rasc/extclassgenerator/ModelGenerator.java:416-493 | the setter sequence (default conversion first, then the setters) yields NormalizedField |
| FieldNormalizer.ConvertDefault | src/main/java/ch/rasc/extclassgenerator/ModelGenerator.java:426-445 | the default-value branch yields DefaultAfter |
| FieldNormalizer.TypedSetters | src/main/java/ch/rasc/extclassgenerator/ModelGenerator.java:421-452 | the dateFormat and allowNull setters give the normalised bean's values |
| FieldNormalizer.FlagSetters | src/main/java/ch/rasc/extclassgenerator/ModelGenerator.java:454-470 | the allowBlank, unique, persist and critical setters give the normalised bean's values |
| FieldNormalizer.ExpressionSetters | src/main/java/ch/rasc/extclassgenerator/ModelGenerator.java:462-492 | the mapping, convert, calculate, depends and reference setters give the normalised bean's values |
| FieldNormalizer.ApplySetters | src/main/java/ch/rasc/extclassgenerator/ModelGenerator.java:421-492 | the setter sequence yields the bean with every annotation attribute applied |
| Beans.NewFieldBean | src/main/java/ch/rasc/extclassgenerator/ModelGenerator.java:328 | a new field bean has the given name and type and a null validator list |
| ModelAssembler.AnnotatedType | src/main/java/ch/rasc/extclassgenerator/ModelGenerator.java:315-329 | an annotated member's type is the custom type when that has text, else the annotation's type unless NOT_SPECIFIED, else the detected type, else none |
| ModelAssembler.MemberField | src/main/java/ch/rasc/extclassgenerator/ModelGenerator.java:305-339 | an unannotated member never throws and yields a bare bean of the detected type, or none when no type was detected; an annotated member yields the new bean of its annotated type, normalised, and throws exactly when that bean's default conversion throws; a field bean carries the resolved name, that type and a null validator list |
| ModelAssembler.MemberFieldBean | src/main/java/ch/rasc/extclassgenerator/ModelGenerator.java:261-339 | the name and the field bean computed for a member are ResolvedName and MemberField |
| ModelAssembler.BuiltValidations | src/main/java/ch/rasc/extclassgenerator/ModelGenerator.java:371-378 | the validations built are exactly the present specs, each for the member's field name |
| ModelAssembler.MemberValidations | src/main/java/ch/rasc/extclassgenerator/ModelGenerator.java:364-412 | the validations a member adds: none without validation, its @ModelValidation annotations when it has some, its other annotations otherwise |
| ModelAssembler.ModelBeanStep | src/main/java/ch/rasc/extclassgenerator/ModelGenerator.java:259-414 | a void method changes nothing; a member throws exactly when it is not void and its @ModelField throws |
| ModelAssembler.StepKeeps | src/main/java/ch/rasc/extclassgenerator/ModelGenerator.java:259-414 | a member keeps the model's name, extend, autodetection, proxy, identifier and hasMany; it adds at most one association and only validations for its own field, and only appends |
| ModelAssembler.StepFields | src/main/java/ch/rasc/extclassgenerator/ModelGenerator.java:330-339 | a member with a field bean puts it into the fields (replace by name or append) and adds its validations; a member without adds no field and no validation |
| ModelAssembler.StepMarkers | src/main/java/ch/rasc/extclassgenerator/ModelGenerator.java:341-362 | @ModelId sets idProperty, @ModelVersion versionProperty and @ModelClientId the client id property and its writer flag, all to the member's name; @ModelAssociation appends its association |
| ModelAssembler.StepFieldLookup | src/main/java/ch/rasc/extclassgenerator/ModelGenerator.java:332 | after addField the member's name maps to its new bean, every other name keeps its bean, and names stay unique |
| ModelAssembler.CreateModelBean | src/main/java/ch/rasc/extclassgenerator/ModelGenerator.java:259-414 | createModelBean yields ModelBeanStep |
| ModelAssembler.ApplyMembersKeeps | src/main/java/ch/rasc/extclassgenerator/ModelGenerator.java:250-252 | walking members keeps name, extend, autodetection and proxy, and only appends associations and validations |
| ModelAssembler.ApplyMembersDistinct | src/main/java/ch/rasc/extclassgenerator/ModelGenerator.java:250-252 | walking members keeps field names unique |
| ModelAssembler.ApplyMembersErr | src/main/java/ch/rasc/extclassgenerator/ModelGenerator.java:250-252 | the first exception ends the walk: the result is that exception |
| ModelAssembler.WalkMembers | src/main/java/ch/rasc/extclassgenerator/ModelGenerator.java:250-252 | the loop over members yields ApplyMembers |
| ModelAssembler.TypeFieldStep | src/main/java/ch/rasc/extclassgenerator/ModelGenerator.java:166-182 | a type-level @ModelField changes nothing but the fields |
| ModelAssembler.TypeFieldStepNames | src/main/java/ch/rasc/extclassgenerator/ModelGenerator.java:166-182 | a type-level @ModelField with text adds its name, keeps every name and keeps names unique |
| ModelAssembler.ApplyTypeFields | src/main/java/ch/rasc/extclassgenerator/ModelGenerator.java:164-182 | the type-level @ModelField loop changes nothing but the fields |
| ModelAssembler.ApplyTypeFieldsNames | src/main/java/ch/rasc/extclassgenerator/ModelGenerator.java:164-182 | after the type-level @ModelField loop every earlier name and every annotation value with text is a field name, and names are unique |
| ModelAssembler.ApplyTypeFieldsErr | src/main/java/ch/rasc/extclassgenerator/ModelGenerator.java:164-182 | the first exception ends the type-level loop |
| ModelAssembler.AddTypeLevelFields | src/main/java/ch/rasc/extclassgenerator/ModelGenerator.java:164-182 | the type-level @ModelField loop yields ApplyTypeFields |
| ModelAssembler.Present | src/main/java/ch/rasc/extclassgenerator/ModelGenerator.java:187-205 | exactly the associations or validations that the factories did not return as null |
| ModelAssembler.CollectPresent | src/main/java/ch/rasc/extclassgenerator/ModelGenerator.java:187-205 | the null-skipping loops yield Present |
| ModelAssembler.TypeLevelStart | src/main/java/ch/rasc/extclassgenerator/ModelGenerator.java:184-205 | before the walk the model's associations and validations are exactly the type-level ones |
| ModelAssembler.ReadableProperties | src/main/java/ch/rasc/extclassgenerator/ModelGenerator.java:131-136 | a name is a read method exactly when some property descriptor of that name has a read method without @JsonIgnore |
| ModelAssembler.CollectReadMethods | src/main/java/ch/rasc/extclassgenerator/ModelGenerator.java:121-136 | the descriptor loop yields ReadableProperties |
| KeyedLists.SelectFirst | src/main/java/ch/rasc/extclassgenerator/ModelGenerator.java:212-222 | the selection holds only eligible entries of the input, no name twice, and a name for every eligible entry |
| KeyedLists.SelectFirstWins | src/main/java/ch/rasc/extclassgenerator/ModelGenerator.java:212-222 | the first eligible entry with a name is the one selected for it |
| ModelAssembler.WalkableFields | src/main/java/ch/rasc/extclassgenerator/ModelGenerator.java:207-227 | the field walk with its `fields` set of seen names yields the first-wins selection of the eligible fields |
| ModelAssembler.FieldWalkFirstWins | src/main/java/ch/rasc/extclassgenerator/ModelGenerator.java:212-222 | the declaration nearest the class is the one processed for its name; superclass declarations of the same name are skipped |
| ModelAssembler.Candidates | src/main/java/ch/rasc/extclassgenerator/ModelGenerator.java:235-239 | exactly the methods with @ModelField or @ModelAssociation and without @JsonIgnore |
| ModelAssembler.CandidateMethods | src/main/java/ch/rasc/extclassgenerator/ModelGenerator.java:229-241 | the method walk yields Candidates |
| JavaOrder.SortBy | src/main/java/ch/rasc/extclassgenerator/ModelGenerator.java:243-248 | the sorted methods are in name order and are a permutation of the input |
| JavaOrder.SortByStable | src/main/java/ch/rasc/extclassgenerator/ModelGenerator.java:243-248 | the sort is stable: methods with the same name keep their relative order |
| JavaOrder.InsertBySorted | src/main/java/ch/rasc/extclassgenerator/ModelGenerator.java:243-248 | inserting into a name-sorted list keeps it sorted |
| JavaOrder.InsertByElements | src/main/java/ch/rasc/extclassgenerator/ModelGenerator.java:243-248 | insertion adds exactly the one element |
| JavaOrder.LessIrreflexive | src/main/java/ch/rasc/extclassgenerator/ModelGenerator.java:152 | `compareTo` never puts a string before itself |
| JavaOrder.LessTransitive | src/main/java/ch/rasc/extclassgenerator/ModelGenerator.java:152 | `compareTo` order is transitive |
| JavaOrder.LessTotal | src/main/java/ch/rasc/extclassgenerator/ModelGenerator.java:152 | any two different strings are ordered one way |
| JavaOrder.LessAsymmetric | src/main/java/ch/rasc/extclassgenerator/ModelGenerator.java:152 | no two strings are each before the other |
| ModelAssembler.ProxySettingsOf | src/main/java/ch/rasc/extclassgenerator/ModelGenerator.java:87-101 | the CRUD methods are null exactly when blank; paging and writeAllFields are copied; the all-data options are the canonical bean |
| ModelAssembler.ClientIdOf | src/main/java/ch/rasc/extclassgenerator/ModelGenerator.java:105-113 | the client id property is set exactly when the annotation's text has text, and is then the trimmed text |
| ModelAssembler.HasManyOf | src/main/java/ch/rasc/extclassgenerator/ModelGenerator.java:115-118 | hasMany is set exactly when its first entry has text, and is then the whole list |
| ModelAssembler.ModelHeader | src/main/java/ch/rasc/extclassgenerator/ModelGenerator.java:70-119 | the model is named by the annotation's value when that has text, by the simple class name otherwise; it starts without fields, associations and validations; without @Model it has the defaults |
| ModelAssembler.ModelHeaderAnnotated | src/main/java/ch/rasc/extclassgenerator/ModelGenerator.java:81-119 | with @Model the model copies autodetection, extend and idProperty, trims versionProperty and identifier to null, and sets the client id property and its writer flag exactly when it has text |
| ModelAssembler.CreateHeader | src/main/java/ch/rasc/extclassgenerator/ModelGenerator.java:70-119 | the setter sequence yields ModelHeader |
| ModelAssembler.ClassWalkKeeps | src/main/java/ch/rasc/extclassgenerator/ModelGenerator.java:207-252 | the field and method walks keep name, extend, autodetection and proxy, and only append associations and validations |
| ModelAssembler.ClassWalkDistinct | src/main/java/ch/rasc/extclassgenerator/ModelGenerator.java:207-252 | the field and method walks keep field names unique |
| ModelAssembler.AssembledModelWellFormed | src/main/java/ch/rasc/extclassgenerator/ModelGenerator.java:67-257 | a created model has unique field names and the name, extend, autodetection and proxy settings of its header |
| ModelAssembler.TypeLevelFirst | src/main/java/ch/rasc/extclassgenerator/ModelGenerator.java:184-252 | for a class, the type-level associations and validations come first, in order, before those of the members |
| ModelAssembler.CreateModel | src/main/java/ch/rasc/extclassgenerator/ModelGenerator.java:67-257 | createModel yields AssembledModel: the interface branch walks all methods in name order, a class walks the type-level annotations, the first-wins fields and the sorted candidate methods |
| KeyedLists.Put | src/main/java/ch/rasc/extclassgenerator/ModelGenerator.java:180 | addField replaces the entry with the same name in place, or appends; the keys change only by the new one |
| KeyedLists.PutDistinct | src/main/java/ch/rasc/extclassgenerator/ModelGenerator.java:180 | addField keeps names unique |
| KeyedLists.PutKeys | src/main/java/ch/rasc/extclassgenerator/ModelGenerator.java:180 | addField keeps every name and adds the new one |
| KeyedLists.PutLookup | src/main/java/ch/rasc/extclassgenerator/ModelGenerator.java:180 | after addField the name maps to the new bean and every other name to its old bean |
| KeyedLists.Lookup | src/main/java/ch/rasc/extclassgenerator/ModelGenerator.java:537 | a lookup finds an entry with that name exactly when the name is a key |
| KeyedLists.KeyIndex | src/main/java/ch/rasc/extclassgenerator/ModelGenerator.java:537 | the position of the first entry with the name, or -1 exactly when there is none |
| ValidationResolver.ValidatorClass | src/main/java/ch/rasc/extclassgenerator/ModelGenerator.java:735-758 | a class exactly for email, exclusion, format, inclusion, length, presence and range, and null for every other kind |
| ValidationResolver.ValidatorClassNaming | src/main/java/ch/rasc/extclassgenerator/ModelGenerator.java:735-758 | the class of each of those kinds is `Ext.data.validator.` followed by the capitalised kind |
| ValidationResolver.FieldValidators | src/main/java/ch/rasc/extclassgenerator/ModelGenerator.java:704-728 | a field that no validation names keeps its null list; every kind named for the field is in its list |
| ValidationResolver.FieldValidatorsDistinct | src/main/java/ch/rasc/extclassgenerator/ModelGenerator.java:717-727 | no validator list holds two validations of the same kind |
| ValidationResolver.FieldValidatorsExtends | src/main/java/ch/rasc/extclassgenerator/ModelGenerator.java:706-727 | an existing list is only appended to |
| ValidationResolver.FieldValidatorsFrom | src/main/java/ch/rasc/extclassgenerator/ModelGenerator.java:704-728 | a list holds only its earlier entries and validations for that field |
| ValidationResolver.FieldValidatorsFirstFound | src/main/java/ch/rasc/extclassgenerator/ModelGenerator.java:704-728 | starting from null, the list is the first validation of each kind for the field, in discovery order |
| ValidationResolver.FirstOfKindWins | src/main/java/ch/rasc/extclassgenerator/ModelGenerator.java:717-727 | the first validation of a kind for the field is the one kept |
| ValidationResolver.FieldValidatorsStable | src/main/java/ch/rasc/extclassgenerator/ModelGenerator.java:717-727 | a list that already holds every kind named for its field is left unchanged |
| ValidationResolver.FieldValidatorsIdempotent | src/main/java/ch/rasc/extclassgenerator/ModelGenerator.java:698-733 | folding the same validations in again changes no list |
| ValidationResolver.ClassesOfExactly | src/main/java/ch/rasc/extclassgenerator/ModelGenerator.java:712-715 | the classes a field requires are exactly those of the validations naming it that have a class |
| ValidationResolver.KindPresent | src/main/java/ch/rasc/extclassgenerator/ModelGenerator.java:717-723 | the alreadyExists search is true exactly when the kind is in the list |
| ValidationResolver.FoldValidation | src/main/java/ch/rasc/extclassgenerator/ModelGenerator.java:705-727 | one validation: the list is created when null and gets the validation unless its kind is there; the required set stays sorted and gains the validation's class when it names the field |
| ValidationResolver.FoldField | src/main/java/ch/rasc/extclassgenerator/ModelGenerator.java:704-729 | the inner loop yields the field's FieldValidators; the required set stays sorted and gains exactly the field's classes |
| ValidationResolver.WithValidators | src/main/java/ch/rasc/extclassgenerator/ModelGenerator.java:703-730 | the fields keep their number, names and order |
| ValidationResolver.WithValidatorsIdempotent | src/main/java/ch/rasc/extclassgenerator/ModelGenerator.java:698-733 | running addValidatorsToField again does not change the lists, and nothing but the validator lists ever changes |
| ValidationResolver.RequiredClassesExactly | src/main/java/ch/rasc/extclassgenerator/ModelGenerator.java:701-715 | the required classes are exactly the validator classes of validations whose field name matches some field |
| ValidationResolver.RequiredClassesOfFields | src/main/java/ch/rasc/extclassgenerator/ModelGenerator.java:703-730 | the required classes are those of some field |
| ValidationResolver.AddValidatorsToField | src/main/java/ch/rasc/extclassgenerator/ModelGenerator.java:698-733 | the nested loops yield WithValidators as the new fields, and a strictly ascending requires list (the TreeSet) holding exactly RequiredClasses |
| JavaOrder.SortedInsert | src/main/java/ch/rasc/extclassgenerator/ModelGenerator.java:714 | TreeSet.add keeps the list strictly ascending and adds exactly the one element |
| JavaOrder.StrictlySortedUnique | src/main/java/ch/rasc/extclassgenerator/ModelGenerator.java:701 | two strictly ascending lists with the same elements are equal, so a TreeSet's order is determined by its contents |
| JavaOrder.TreeSetOrder | src/main/java/ch/rasc/extclassgenerator/ModelGenerator.java:701 | the iteration order of a TreeSet: strictly ascending, with exactly the set's elements |
| DialectSerializer.WithClass | src/main/java/ch/rasc/extclassgenerator/ModelGenerator.java:547-559 | Set.add adds exactly the class and keeps a TreeSet ordered |
| DialectSerializer.IdentifierClass | src/main/java/ch/rasc/extclassgenerator/ModelGenerator.java:552-560 | a class exactly for the sequential, uuid and negative identifiers |
| DialectSerializer.IdentifierClassNaming | src/main/java/ch/rasc/extclassgenerator/ModelGenerator.java:552-560 | the class of each of those identifiers is `Ext.data.identifier.` followed by the capitalised strategy name |
| DialectSerializer.AssociationModelsExactly | src/main/java/ch/rasc/extclassgenerator/ModelGenerator.java:522-525 | the collected models are exactly the associations' targets |
| DialectSerializer.CollectAssociationModels | src/main/java/ch/rasc/extclassgenerator/ModelGenerator.java:522-525 | the association loop yields AssociationModels |
| DialectSerializer.UsesRule | src/main/java/ch/rasc/extclassgenerator/ModelGenerator.java:521-532 | `uses` is present exactly when some association targets another model, and holds exactly the association targets other than the model's own name |
| DialectSerializer.RequiresSet | src/main/java/ch/rasc/extclassgenerator/ModelGenerator.java:538-561 | the requires set is a TreeSet, ordered, exactly when Ext JS 5 moves the validations into the fields |
| DialectSerializer.RequiresRule | src/main/java/ch/rasc/extclassgenerator/ModelGenerator.java:538-561 | a class is required exactly in Ext JS 5, for a validator of a matching field, the Direct proxy of a proxy with content, or the identifier strategy |
| DialectSerializer.CollectRequires | src/main/java/ch/rasc/extclassgenerator/ModelGenerator.java:537-561 | the requires steps yield RequiresSet and the validated fields |
| DialectSerializer.ValidatedFieldsRule | src/main/java/ch/rasc/extclassgenerator/ModelGenerator.java:540-543 | field names are unchanged; in Ext JS 5 every validation's kind is in the list of the field it names |
| DialectSerializer.UpdatedFields | src/main/java/ch/rasc/extclassgenerator/ModelGenerator.java:599-601 | updateTypes keeps the number of fields |
| DialectSerializer.UpdateFieldTypes | src/main/java/ch/rasc/extclassgenerator/ModelGenerator.java:599-601 | the updateTypes loop yields UpdatedFields |
| DialectSerializer.FieldConfigs | src/main/java/ch/rasc/extclassgenerator/ModelGenerator.java:603-611 | one fields entry per field |
| DialectSerializer.CollectFieldConfigs | src/main/java/ch/rasc/extclassgenerator/ModelGenerator.java:603-612 | the fields loop yields FieldConfigs: the bare name where hasOnlyName holds, the bean otherwise |
| DialectSerializer.ListedMap | src/main/java/ch/rasc/extclassgenerator/ModelGenerator.java:534-629 | puts under distinct keys give a map: unique keys, each with the value put, and a key is present exactly when its value is |
| DialectSerializer.ConfigObjectMap | src/main/java/ch/rasc/extclassgenerator/ModelGenerator.java:534-629 | the config object has unique keys, each with the value its rule gives |
| DialectSerializer.ConfigEntriesMap | src/main/java/ch/rasc/extclassgenerator/ModelGenerator.java:534-629 | the same for the config object generateJavascript builds |
| DialectSerializer.ModelObjectMap | src/main/java/ch/rasc/extclassgenerator/ModelGenerator.java:518-637 | the model object has unique keys; for Ext JS 4 and 5 it holds extend, uses and the config entries merged, and for Touch 2 extend, uses and `config` |
| DialectSerializer.ExtJs4Document | src/main/java/ch/rasc/extclassgenerator/ModelGenerator.java:540-637 | Ext JS 4: no requires, identifier, versionProperty or config key; the identifier goes under `idgen`; validations are present exactly when there are some |
| DialectSerializer.ExtJs4Identity | src/main/java/ch/rasc/extclassgenerator/ModelGenerator.java:567-585 | Ext JS 4: `idgen` carries the identifier, and there is no identifier or versionProperty key |
| DialectSerializer.ExtJs4Fields | src/main/java/ch/rasc/extclassgenerator/ModelGenerator.java:599-612 | Ext JS 4: the fields entry lists the fields after updateTypes, unchanged by validators |
| DialectSerializer.ExtJs5Document | src/main/java/ch/rasc/extclassgenerator/ModelGenerator.java:540-637 | Ext JS 5: never validations, idgen or config; the identifier goes under `identifier`; versionProperty is present exactly when it has text |
| DialectSerializer.ExtJs5Identity | src/main/java/ch/rasc/extclassgenerator/ModelGenerator.java:567-585 | Ext JS 5: `identifier` carries the identifier, there is no idgen, and versionProperty is present exactly when it has text |
| DialectSerializer.ExtJs5Requires | src/main/java/ch/rasc/extclassgenerator/ModelGenerator.java:563-565 | Ext JS 5: requires is present exactly when the requires set is not empty, and then holds it |
| DialectSerializer.ExtJs5Fields | src/main/java/ch/rasc/extclassgenerator/ModelGenerator.java:540-612 | Ext JS 5: the fields carry the inline validators |
| DialectSerializer.Touch2Document | src/main/java/ch/rasc/extclassgenerator/ModelGenerator.java:540-637 | Touch 2: the settings are nested under `config`, beside only extend and uses; no requires, idgen or versionProperty; clientIdProperty only when not "clientId"; validations exactly when there are some |
| DialectSerializer.CommonRules | src/main/java/ch/rasc/extclassgenerator/ModelGenerator.java:577-629 | every dialect: idProperty only when it has text and is not "id"; the fields entry is always there; the proxy exactly when it has content; extend always |
| DialectSerializer.BuildModelObject | src/main/java/ch/rasc/extclassgenerator/ModelGenerator.java:518-637 | the building steps yield ModelObject and the updated fields |
| DialectSerializer.DefineStatementRewritten | src/main/java/ch/rasc/extclassgenerator/ModelGenerator.java:639-693 | the text is `Ext.define(`, the name in the chosen quotes, a comma, the separator in debug mode, the rewritten JSON and `);` |
| DialectSerializer.RewrittenProperties | src/main/java/ch/rasc/extclassgenerator/ModelGenerator.java:680-693 | in single-quote mode no double quote is left; CRLF output holds only CR LF pairs and rewriting it again changes nothing; a separator without LF leaves no LF |
| DialectSerializer.RewrittenPlain | src/main/java/ch/rasc/extclassgenerator/ModelGenerator.java:680-693 | text without line breaks and without quotes to replace is left unchanged |
| DialectSerializer.RewrittenAppend | src/main/java/ch/rasc/extclassgenerator/ModelGenerator.java:680-693 | the rewrite distributes over concatenation, except where a CR LF pair is split |
| DialectSerializer.WriteStatement | src/main/java/ch/rasc/extclassgenerator/ModelGenerator.java:639-693 | the StringBuilder and the rewrites yield the rewritten define statement |
| DialectSerializer.GenerateJavascript | src/main/java/ch/rasc/extclassgenerator/ModelGenerator.java:495-696 | generateJavascript yields JavascriptText, and the fields in the state it leaves them in |
| JavaText.ReplaceChar | src/main/java/ch/rasc/extclassgenerator/ModelGenerator.java:681 | each `"` becomes `'` and every other character is unchanged |
| JavaText.ReplaceCharRemoves | src/main/java/ch/rasc/extclassgenerator/ModelGenerator.java:681 | no `"` is left after the replacement, and every other character is kept in place |
| JavaText.ReplaceLineBreaksRemovesLf | src/main/java/ch/rasc/extclassgenerator/ModelGenerator.java:684-693 | with a separator without LF, no LF is left |
| JavaText.ReplaceLineBreaksCrLf | src/main/java/ch/rasc/extclassgenerator/ModelGenerator.java:684-686 | after the CRLF rewrite every LF follows a CR |
| JavaText.ReplaceLineBreaksCrLfIdempotent | src/main/java/ch/rasc/extclassgenerator/ModelGenerator.java:684-686 | the CRLF rewrite is idempotent |
| JavaText.ReplaceLineBreaksNoBreak | src/main/java/ch/rasc/extclassgenerator/ModelGenerator.java:684-693 | text without LF is left unchanged |
| JavaText.ReplaceLineBreaksKeepsOut | src/main/java/ch/rasc/extclassgenerator/ModelGenerator.java:684-693 | the rewrite adds no character that is in neither the text nor the separator |
| JavaText.ReplaceLineBreaksAppend | src/main/java/ch/rasc/extclassgenerator/ModelGenerator.java:684-693 | the line-break rewrite distributes over concatenation unless a CR LF pair is split |
| DataOptions.Canonical | src/main/java/ch/rasc/extclassgenerator/AllDataOptionsBean.java:35-57 | the all-default combination sets nothing; associated is set exactly when true; critical exactly when changes and critical are true; persist exactly when changes is false, persist true and the combination not all-default; a set flag is never false |
| DataOptions.HasAnyPropertiesExactly | src/main/java/ch/rasc/extclassgenerator/AllDataOptionsBean.java:60-63 | the canonical bean has a property exactly when associated or changes is true, or persist and critical are both true |
| DataOptions.AllDataOptionsBean.FromAnnotation | src/main/java/ch/rasc/extclassgenerator/AllDataOptionsBean.java:35-57 | the constructor leaves the bean holding Canonical of the annotation's flags |
| DataOptions.AllDataOptionsBean.constructor | src/main/java/ch/rasc/extclassgenerator/AllDataOptionsBean.java:31-33 | the default constructor sets no property |
| AnnotationProcessor.OptionValue | src/main/java/ch/rasc/extclassgenerator/ClassAnnotationProcessor.java:83 | an option's value, null exactly when it is not given |
| AnnotationProcessor.FlagChoice | src/main/java/ch/rasc/extclassgenerator/ClassAnnotationProcessor.java:82-116 | debug is off exactly for the text "false"; useSingleQuotes and surroundApiWithQuotes are on exactly for "true"; without options the configuration is Ext JS 4, debug, no validation, double quotes, unquoted api and the system line ending |
| AnnotationProcessor.FormatChoice | src/main/java/ch/rasc/extclassgenerator/ClassAnnotationProcessor.java:87-97 | TOUCH2 and EXTJS5 are chosen exactly when the option equals their name ignoring case; a missing or blank option gives EXTJS4 |
| AnnotationProcessor.FormatByName | src/main/java/ch/rasc/extclassgenerator/ClassAnnotationProcessor.java:87-97 | every format named in any case is chosen |
| AnnotationProcessor.ValidationChoice | src/main/java/ch/rasc/extclassgenerator/ClassAnnotationProcessor.java:99-111 | ALL and BUILTIN are chosen exactly when the option equals their name ignoring case; a missing or blank option gives NONE |
| AnnotationProcessor.ValidationByName | src/main/java/ch/rasc/extclassgenerator/ClassAnnotationProcessor.java:99-111 | ALL and BUILTIN named in any case are chosen |
| AnnotationProcessor.LineEndingChoice | src/main/java/ch/rasc/extclassgenerator/ClassAnnotationProcessor.java:118-129 | an option whose upper case names a line ending chooses it; any other line ending than SYSTEM comes from such an option; a missing or unrecognised option leaves SYSTEM |
| AnnotationProcessor.ReadOptions | src/main/java/ch/rasc/extclassgenerator/ClassAnnotationProcessor.java:80-129 | the setter sequence yields ConfigOf, and createBaseAndSubclass is on exactly for "true" |
| AnnotationProcessor.ReadOutputFormat | src/main/java/ch/rasc/extclassgenerator/ClassAnnotationProcessor.java:87-97 | the format branch yields FormatOption |
| AnnotationProcessor.ReadIncludeValidation | src/main/java/ch/rasc/extclassgenerator/ClassAnnotationProcessor.java:99-111 | the validation branch yields ValidationOption |
| AnnotationProcessor.ReadLineEnding | src/main/java/ch/rasc/extclassgenerator/ClassAnnotationProcessor.java:118-129 | the line-ending branch, with its ignored exception, yields LineEndingOption |
| JavaText.ToUpperCase | src/main/java/ch/rasc/extclassgenerator/ClassAnnotationProcessor.java:123 | upper-casing keeps the length and maps each character |
| AnnotationProcessor.LocationOfDotted | src/main/java/ch/rasc/extclassgenerator/ClassAnnotationProcessor.java:150-159 | with two or more dots the file name is the text after the last dot and the package the text strictly between the first and the last dot |
| AnnotationProcessor.LocationOfSingleDot | src/main/java/ch/rasc/extclassgenerator/ClassAnnotationProcessor.java:150-159 | with a single dot the file name is the text after it and the package is empty |
| AnnotationProcessor.LocationOfPlain | src/main/java/ch/rasc/extclassgenerator/ClassAnnotationProcessor.java:150-166 | a name without a dot is the file name, with an empty package; a blank name falls back to the simple class name |
| AnnotationProcessor.DeriveLocation | src/main/java/ch/rasc/extclassgenerator/ClassAnnotationProcessor.java:146-166 | the branches assigning fileName and outPackageName yield LocationOf |
| JavaText.IndexOf | src/main/java/ch/rasc/extclassgenerator/ClassAnnotationProcessor.java:154 | the first position of the character, or -1 exactly when it is absent |
| JavaText.LastIndexOf | src/main/java/ch/rasc/extclassgenerator/ClassAnnotationProcessor.java:151 | the last position of the character, or -1 exactly when it is absent |
| AnnotationProcessor.LazyEnd | src/main/java/ch/rasc/extclassgenerator/ClassAnnotationProcessor.java:169-170 | the reluctant `.+?` stops at the first quote followed by a comma and crosses no line terminator |
| AnnotationProcessor.FirstMatch | src/main/java/ch/rasc/extclassgenerator/ClassAnnotationProcessor.java:169-170 | a match ends at least 13 characters after where the search starts |
| AnnotationProcessor.BaseRenamed | src/main/java/ch/rasc/extclassgenerator/ClassAnnotationProcessor.java:169-170 | replaceFirst either leaves the code unchanged or inserts "Base" at one place |
| AnnotationProcessor.StatementMatch | src/main/java/ch/rasc/extclassgenerator/ClassAnnotationProcessor.java:169-170 | in a define statement the first match ends just after the model name |
| AnnotationProcessor.BaseRenamedHead | src/main/java/ch/rasc/extclassgenerator/ClassAnnotationProcessor.java:169-170 | renaming a define statement appends "Base" to the model name and nothing else |
| AnnotationProcessor.BaseRenamedStatement | src/main/java/ch/rasc/extclassgenerator/ClassAnnotationProcessor.java:168-170 | for generated code, with the quote and line-ending rewrites applied, only the first define name gets "Base" appended |
| AnnotationProcessor.ElementOutcomeRules | src/main/java/ch/rasc/extclassgenerator/ClassAnnotationProcessor.java:137-212 | an exception from building the model (a default value that does not convert) is reported with its message; otherwise the generated code is written as `<file>.js` in the derived package, or, in base-and-subclass mode, the renamed code as `<file>Base.js` |
| AnnotationProcessor.ProcessElement | src/main/java/ch/rasc/extclassgenerator/ClassAnnotationProcessor.java:137-212 | the loop body yields ElementOutcome |
| AnnotationProcessor.ProcessElements | src/main/java/ch/rasc/extclassgenerator/ClassAnnotationProcessor.java:135-214 | the element loop yields ElementOutcomes, one per element in order |
| AnnotationProcessor.ProcessAnnotations | src/main/java/ch/rasc/extclassgenerator/ClassAnnotationProcessor.java:131-215 | the annotation loop yields AnnotationOutcomes |
| AnnotationProcessor.AnnotationOutcomesCount | src/main/java/ch/rasc/extclassgenerator/ClassAnnotationProcessor.java:131-215 | one outcome per annotated class |
| AnnotationProcessor.Process | src/main/java/ch/rasc/extclassgenerator/ClassAnnotationProcessor.java:64-218 | a round yields nothing when processing is over, without annotations or without root elements, and otherwise the outcomes under the configuration the options give |

## Left out

- Reflection and annotation discovery are left out: `Introspector`, `BeanInfo`, `ReflectionUtils`, `AnnotationUtils`, `TypeElement` and the `@JsonIgnore` lookups. They are replaced by the `ClassInput` descriptor, which lists members in discovery order with their annotations read.
- Jackson rendering is left out, with its mix-ins, JSON views and the pretty printer (`ModelGenerator.java` lines 497-516 and 645-673). These depend on a foreign library. The model object is a list of key/value entries, and `Environment.render` stands for its JSON text.
- Code outside the core is taken as given, through the `Environment` and `TypeDetection` parameters, and is not modelled:
  - `ModelType.supports` and the ModelType declaration order;
  - `ModelFieldBean.updateTypes` and `hasOnlyName`;
  - `ProxyObject`: `Environment.proxyHasContent` and the `JProxy` value are given the whole `ModelBean`, as `new ProxyObject(model, outputConfig)` is;
  - the inner working of the association and validation factories; the model takes each annotation's result as an input;
  - `AbstractValidation.addValidationToModel`.
- `Double.valueOf` defaults for FLOAT and NUMBER fields are kept as their trimmed literal text, because floating point is not modelled. So "1.5" and "1.50" stay distinct although they are the same Double. Which texts it reads and the messages it throws are modelled, as the JDK's `FloatingDecimal` reads them.
- `PartialDataOptionsBean` and the proxy settings that are only copied (messageProperty, reader, writer and the like) are not modelled. Only their copying happens in the core.
- I/O is left out: the Filer resource creation and writing, the `FileNotFoundException` probe for the subclass file, and the Messager notes. Each class yields an `Outcome` instead: the package, resource name and content written, or the message reported. Two `@Model` classes with the same package and file name both yield their resource in the model. In Java the second `createResource` (ClassAnnotationProcessor.java:171 and 200) throws a `FilerException`, which the catch at lines 209-211 reports.
- `System.getProperty("line.separator")` is read by `Environment.lineSeparator`, a parameter.
- Full regular-expression semantics are left out. `replaceAll("\r?\n", sep)` and the `replaceFirst` that renames the class are modelled as the string rewrites those two patterns perform. The separator is inserted literally, whereas `replaceAll` would treat a `$` or `\` in it as special; no platform line separator contains either.
- Case folding (`equalsIgnoreCase`, `toUpperCase`, `Util.uncapitalize`) covers ASCII letters only. `Long.valueOf` accepts ASCII digits only.
- `String.compareTo` is modelled as lexicographic order on characters. The model does not distinguish UTF-16 code units from code points.
- In-place updates are modelled as returned values: field beans whose validator lists or types the source changes in place, and the `ModelBean` that `createModelBean` mutates. Aliasing between those objects is not captured.
- The iteration order of a `HashSet` is left open; the model keeps only its contents. This covers the `uses` set, and the `requires` set unless the output is Ext JS 5 and has validations.
- `ModelBean`, `ModelFieldBean` and `ModelField` are not part of this model. The model assumes:
  - the `ModelBean` defaults: extend `Ext.data.Model`, idProperty `id`, type autodetection on;
  - the sentinel `ModelField.DEFAULTVALUE_UNDEFINED` is `"undefined"`;
  - the `LineEnding` names are `CRLF`, `LF` and `SYSTEM`.
- A class without `@Model` makes the processor throw a `NullPointerException` with no message. The model records this as `Reported(None)`.
- AnnotationProcessor.BaseRenamedStatement assumes that the model name is non-empty and holds no quote or line terminator. For other names the model defines what `replaceFirst` does (`BaseRenamed`), but proves no closed form.
- AnnotationProcessor.ElementOutcomeRules states the renamed `<file>Base.js` code of base-and-subclass mode under the same name assumption, for the same reason.
