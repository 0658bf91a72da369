/**
 * generateJavascript: the model object of one ModelBean in the three output
 * dialects (Ext JS 4, Ext JS 5, Sencha Touch 2), the Ext.define statement
 * around its JSON text, and the quote and line-ending rewrites of that text.
 *
 * The model object is a LinkedHashMap<String, Object>; here it is the list of
 * its entries in insertion order. Every key is put at most once, so each put
 * appends, and the list has unique keys.
 */
module DialectSerializer {
  import opened Wrappers
  import opened JavaText
  import opened JavaOrder
  import opened OutputConfigs
  import opened Beans
  import opened KeyedLists
  import opened ValidationResolver

  // ---------------------------------------------------------------------------
  // The document
  // ---------------------------------------------------------------------------

  /** A Set<String> of class names: a TreeSet, written in ascending order, or a
      HashSet, whose iteration order is left open. */
  datatype ClassSet = TreeSet(elems: seq<string>) | HashSet(members: set<string>)
  {
    function Members(): set<string> {
      match this
      case TreeSet(elems) => set x | x in elems
      case HashSet(members) => members
    }
  }

  /** A TreeSet's list is ascending without repetitions. */
  ghost predicate Ordered(s: ClassSet) {
    s.TreeSet? ==> StrictlySorted(s.elems)
  }

  /** Set.add. */
  function WithClass(s: ClassSet, c: string): (r: ClassSet)
    requires Ordered(s)
    ensures Ordered(r) && r.TreeSet? == s.TreeSet?
    ensures r.Members() == s.Members() + {c}
  {
    match s
    case TreeSet(elems) => TreeSet(SortedInsert(elems, c))
    case HashSet(members) => HashSet(members + {c})
  }

  /** A field as the fields list holds it: its bare name, or the whole bean. */
  datatype FieldConfig = NameOnly(name: string) | FullField(bean: FieldBean)

  /** The values the model object holds, as they are handed to Jackson. */
  datatype JsonValue =
    | JString(text: string)
    | JClasses(classes: ClassSet)
    | JFields(configs: seq<FieldConfig>)
    | JNames(names: seq<string>)
    | JAssociations(associations: seq<Association>)
    | JValidations(validations: seq<Validation>)
    // new ProxyObject(model, outputConfig): the proxy sees the whole model bean
    | JProxy(model: ModelBean, config: OutputConfig)
    | JObject(entries: seq<Entry>)

  /** The keys generateJavascript puts. */
  datatype Key =
    | Extend | Uses | Config | Requires | Identifier | Idgen | IdProperty | VersionProperty
    | ClientIdProperty | Fields | HasMany | Associations | Validations | Proxy
  {
    /** The key as it appears in the JSON text. */
    function Name(): string {
      match this
      case Extend => "extend"
      case Uses => "uses"
      case Config => "config"
      case Requires => "requires"
      case Identifier => "identifier"
      case Idgen => "idgen"
      case IdProperty => "idProperty"
      case VersionProperty => "versionProperty"
      case ClientIdProperty => "clientIdProperty"
      case Fields => "fields"
      case HasMany => "hasMany"
      case Associations => "associations"
      case Validations => "validations"
      case Proxy => "proxy"
    }
  }

  /** One key of a LinkedHashMap<String, Object> and its value. */
  datatype Entry = Entry(key: Key, value: JsonValue)

  /** The keys of a list of entries. */
  function KeySet(entries: seq<Entry>): set<Key>
    decreases |entries|
  {
    if entries == [] then {} else {entries[0].key} + KeySet(entries[1..])
  }

  /** LinkedHashMap.get: the value of the first entry with key k. */
  function ValueOf(entries: seq<Entry>, k: Key): Option<JsonValue>
    decreases |entries|
  {
    if entries == [] then None
    else if entries[0].key == k then Some(entries[0].value)
    else ValueOf(entries[1..], k)
  }

  /** No key occurs twice. */
  predicate UniqueKeys(entries: seq<Entry>)
    decreases |entries|
  {
    entries == [] || (entries[0].key !in KeySet(entries[1..]) && UniqueKeys(entries[1..]))
  }

  lemma {:induction false} KeySetAppend(a: seq<Entry>, b: seq<Entry>)
    ensures KeySet(a + b) == KeySet(a) + KeySet(b)
    decreases |a|
  {
    if a != [] {
      assert (a + b)[1..] == a[1..] + b;
      KeySetAppend(a[1..], b);
    } else {
      assert a + b == b;
    }
  }

  /** Looking up in a concatenation: the first part wins. */
  lemma {:induction false} ValueOfAppend(a: seq<Entry>, b: seq<Entry>, k: Key)
    ensures ValueOf(a + b, k) == if k in KeySet(a) then ValueOf(a, k) else ValueOf(b, k)
    decreases |a|
  {
    if a != [] {
      assert (a + b)[1..] == a[1..] + b;
      ValueOfAppend(a[1..], b, k);
    } else {
      assert a + b == b;
    }
  }

  /** A key has a value exactly when it is present. */
  lemma {:induction false} ValueOfPresent(entries: seq<Entry>, k: Key)
    ensures ValueOf(entries, k).Some? <==> k in KeySet(entries)
    decreases |entries|
  {
    if entries != [] { ValueOfPresent(entries[1..], k); }
  }

  /** Appending entries with new keys keeps the keys unique. */
  lemma {:induction false} UniqueKeysAppend(a: seq<Entry>, b: seq<Entry>)
    requires UniqueKeys(a) && UniqueKeys(b) && KeySet(a) * KeySet(b) == {}
    ensures UniqueKeys(a + b)
    decreases |a|
  {
    if a != [] {
      assert (a + b)[1..] == a[1..] + b;
      KeySetAppend(a[1..], b);
      UniqueKeysAppend(a[1..], b);
    } else {
      assert a + b == b;
    }
  }

  /** The entry of key k, when k has a value. */
  function PutIfPresent(k: Key, v: Option<JsonValue>): seq<Entry> {
    if v.Some? then [Entry(k, v.value)] else []
  }

  /** The entries of the keys in `order` that have a value, in that order:
      a sequence of `if (...) map.put(k, v)`. */
  function Listed(order: seq<Key>, value: Key -> Option<JsonValue>): seq<Entry>
    decreases |order|
  {
    if order == [] then []
    else Listed(order[..|order| - 1], value) + PutIfPresent(order[|order| - 1], value(order[|order| - 1]))
  }

  lemma ListedStep(order: seq<Key>, value: Key -> Option<JsonValue>, i: int)
    requires 0 <= i < |order|
    ensures Listed(order[..i + 1], value) == Listed(order[..i], value) + PutIfPresent(order[i], value(order[i]))
  {
    assert order[..i + 1][..i] == order[..i];
  }

  lemma {:induction false} ListedAppend(a: seq<Key>, b: seq<Key>, value: Key -> Option<JsonValue>)
    ensures Listed(a + b, value) == Listed(a, value) + Listed(b, value)
    decreases |b|
  {
    if b == [] {
      assert a + b == a;
    } else {
      var b' := b[..|b| - 1];
      assert (a + b)[..|a + b| - 1] == a + b';
      ListedAppend(a, b', value);
    }
  }

  /** Listed entries form a map: the keys are unique, they are the keys of
      `order` that have a value, and each maps to its value. */
  lemma {:induction false} ListedMap(order: seq<Key>, value: Key -> Option<JsonValue>, k: Key)
    requires forall i, j :: 0 <= i < j < |order| ==> order[i] != order[j]
    ensures UniqueKeys(Listed(order, value))
    ensures k in KeySet(Listed(order, value)) <==> k in order && value(k).Some?
    ensures ValueOf(Listed(order, value), k) == if k in order then value(k) else None
    decreases |order|
  {
    if order != [] {
      var init := order[..|order| - 1];
      var last := order[|order| - 1];
      var prev := Listed(init, value);
      var part := PutIfPresent(last, value(last));
      assert forall i :: 0 <= i < |init| ==> init[i] == order[i];
      assert forall x :: x in order <==> x in init || x == last;
      ListedMap(init, value, k);
      ListedMap(init, value, last);
      KeySetAppend(prev, part);
      ValueOfAppend(prev, part, k);
      ValueOfPresent(prev, k);
      if value(last).Some? {
        assert [Entry(last, value(last).value)][1..] == [];
        UniqueKeysAppend(prev, part);
      } else {
        assert prev + part == prev;
      }
    }
  }

  /** The collaborators whose code is not part of this model:
      ModelFieldBean.updateTypes and hasOnlyName, ProxyObject.hasContent,
      Jackson's serialisation of the model object (with the view and mix-ins
      the configuration selects, pretty-printed in debug mode), and the
      platform's line.separator. */
  datatype Environment = Environment(
    updateTypes: (FieldBean, OutputConfig) -> FieldBean,
    hasOnlyName: (FieldBean, OutputConfig) -> bool,
    proxyHasContent: (ModelBean, OutputConfig) -> bool,
    render: (seq<Entry>, OutputConfig) -> string,
    lineSeparator: string)

  const PROXY_CLASS := "Ext.data.proxy.Direct"

  /** The class an Ext JS 5 identifier strategy needs. */
  function IdentifierClass(identifier: string): (r: Option<string>)
    ensures r.Some? <==> identifier in {"sequential", "uuid", "negative"}
  {
    if identifier == "sequential" then Some("Ext.data.identifier.Sequential")
    else if identifier == "uuid" then Some("Ext.data.identifier.Uuid")
    else if identifier == "negative" then Some("Ext.data.identifier.Negative")
    else None
  }

  /** Each identifier class is the strategy name, capitalised, in Ext.data.identifier. */
  lemma IdentifierClassNaming(identifier: string)
    requires identifier in {"sequential", "uuid", "negative"}
    ensures IdentifierClass(identifier) == Some("Ext.data.identifier." + Capitalize(identifier))
  {
    if identifier == "sequential" {
      CapitalizedAs(identifier, "Sequential");
      assert "Ext.data.identifier." + "Sequential" == "Ext.data.identifier.Sequential";
    } else if identifier == "uuid" {
      CapitalizedAs(identifier, "Uuid");
      assert "Ext.data.identifier." + "Uuid" == "Ext.data.identifier.Uuid";
    } else {
      CapitalizedAs(identifier, "Negative");
      assert "Ext.data.identifier." + "Negative" == "Ext.data.identifier.Negative";
    }
  }

  /** Util.hasText on a String that may be null. */
  predicate HasTextOpt(o: Option<string>) {
    o.Some? && HasText(o.value)
  }

  // ---------------------------------------------------------------------------
  // What the model object holds
  // ---------------------------------------------------------------------------

  /** The target models of the associations. */
  function AssociationModels(associations: seq<Association>): set<string> {
    if associations == [] then {}
    else AssociationModels(associations[..|associations| - 1]) + {associations[|associations| - 1].model}
  }

  lemma {:induction false} AssociationModelsExactly(associations: seq<Association>, c: string)
    ensures c in AssociationModels(associations) <==> exists i :: 0 <= i < |associations| && associations[i].model == c
  {
    if associations != [] {
      var init := associations[..|associations| - 1];
      AssociationModelsExactly(init, c);
      assert forall i :: 0 <= i < |init| ==> init[i] == associations[i];
    }
  }

  /** The "uses" classes: the association targets other than the model. */
  function UsedModels(model: ModelBean): set<string> {
    AssociationModels(model.associations) - {model.name}
  }

  /** Ext JS 5 moves the validations into the fields. */
  predicate ValidatorsInFields(model: ModelBean, config: OutputConfig) {
    |model.validations| > 0 && config.outputFormat == ExtJs5
  }

  /** The fields after addValidatorsToField, when it runs. */
  function ValidatedFields(model: ModelBean, config: OutputConfig): seq<FieldBean> {
    if ValidatorsInFields(model, config) then WithValidators(model.fields, model.validations) else model.fields
  }

  /** The fields after updateTypes. */
  function UpdatedFields(fields: seq<FieldBean>, config: OutputConfig, env: Environment): (r: seq<FieldBean>)
    ensures |r| == |fields|
  {
    seq(|fields|, i requires 0 <= i < |fields| => env.updateTypes(fields[i], config))
  }

  /** The fields list: a bare name where the bean has nothing else to say. */
  function FieldConfigs(fields: seq<FieldBean>, config: OutputConfig, env: Environment): (r: seq<FieldConfig>)
    ensures |r| == |fields|
  {
    seq(|fields|, i requires 0 <= i < |fields| =>
      if env.hasOnlyName(fields[i], config) then NameOnly(fields[i].name) else FullField(fields[i]))
  }

  /** The fields list of the generated model. */
  function ModelFieldConfigs(model: ModelBean, config: OutputConfig, env: Environment): seq<FieldConfig> {
    FieldConfigs(UpdatedFields(ValidatedFields(model, config), config, env), config, env)
  }

  /** The requires set: the validator classes (a TreeSet), the Direct proxy and
      the identifier strategy's class, all for Ext JS 5 only. */
  ghost function RequiresSet(model: ModelBean, config: OutputConfig, env: Environment): (r: ClassSet)
    ensures Ordered(r)
    ensures r.TreeSet? <==> ValidatorsInFields(model, config)
  {
    var extjs5 := config.outputFormat == ExtJs5;
    var validators: ClassSet :=
      if ValidatorsInFields(model, config) then TreeSet(TreeSetOrder(RequiredClasses(model.fields, model.validations)))
      else HashSet({});
    var withProxy := if env.proxyHasContent(model, config) && extjs5 then WithClass(validators, PROXY_CLASS) else validators;
    if HasTextOpt(model.identifier) && extjs5 && IdentifierClass(model.identifier.value).Some? then
      WithClass(withProxy, IdentifierClass(model.identifier.value).value)
    else withProxy
  }

  /** The keys of the config object in the order they are put; "identifier"
      and "idgen" exclude each other. */
  const CONFIG_ORDER: seq<Key> :=
    [Requires, Identifier, Idgen, IdProperty, VersionProperty, ClientIdProperty,
     Fields, HasMany, Associations, Validations, Proxy]

  /** What each key of the config object maps to, if it is put. */
  function ConfigValue(model: ModelBean, config: OutputConfig, env: Environment,
                       classes: ClassSet, fieldConfigs: seq<FieldConfig>, k: Key): Option<JsonValue> {
    var format := config.outputFormat;
    match k
    case Requires => if classes.Members() != {} then Some(JClasses(classes)) else None
    case Identifier =>
      if HasTextOpt(model.identifier) && format != ExtJs4 then Some(JString(model.identifier.value)) else None
    case Idgen =>
      if HasTextOpt(model.identifier) && format == ExtJs4 then Some(JString(model.identifier.value)) else None
    case IdProperty =>
      if HasText(model.idProperty) && model.idProperty != "id" then Some(JString(model.idProperty)) else None
    case VersionProperty =>
      if format == ExtJs5 && HasTextOpt(model.versionProperty) then Some(JString(model.versionProperty.value)) else None
    case ClientIdProperty =>
      if HasTextOpt(model.clientIdProperty) && (format != Touch2 || model.clientIdProperty.value != "clientId")
      then Some(JString(model.clientIdProperty.value)) else None
    case Fields => Some(JFields(fieldConfigs))
    case HasMany => if model.hasMany.Some? then Some(JNames(model.hasMany.value)) else None
    case Associations => if |model.associations| > 0 then Some(JAssociations(model.associations)) else None
    case Validations => if |model.validations| > 0 && format != ExtJs5 then Some(JValidations(model.validations)) else None
    case Proxy => if env.proxyHasContent(model, config) then Some(JProxy(model, config)) else None
    case _ => None
  }

  /** The config object, given its requires set and fields list. */
  function ConfigObject(model: ModelBean, config: OutputConfig, env: Environment,
                        classes: ClassSet, fieldConfigs: seq<FieldConfig>): seq<Entry> {
    Listed(CONFIG_ORDER, k => ConfigValue(model, config, env, classes, fieldConfigs, k))
  }

  /** The config object generateJavascript builds. */
  ghost function ConfigEntries(model: ModelBean, config: OutputConfig, env: Environment): seq<Entry> {
    ConfigObject(model, config, env, RequiresSet(model, config, env), ModelFieldConfigs(model, config, env))
  }

  /** The "uses" value: the other models, when there are any. */
  function UsesValue(model: ModelBean): Option<JsonValue> {
    if UsedModels(model) != {} then Some(JClasses(HashSet(UsedModels(model)))) else None
  }

  /** The model object around a config object: extend, uses, then the config
      object, merged into the top level (putAll) for Ext JS 4 and 5 and nested
      under "config" for Touch 2. */
  function ModelObjectOf(model: ModelBean, config: OutputConfig, cfg: seq<Entry>): seq<Entry> {
    PutIfPresent(Extend, Some(JString(model.extend)))
    + PutIfPresent(Uses, UsesValue(model))
    + (if config.outputFormat == ExtJs4 || config.outputFormat == ExtJs5 then cfg else [Entry(Config, JObject(cfg))])
  }

  /** The model object generateJavascript serialises. */
  ghost function ModelObject(model: ModelBean, config: OutputConfig, env: Environment): seq<Entry> {
    ModelObjectOf(model, config, ConfigEntries(model, config, env))
  }

  /** What each key of the model object maps to. */
  ghost function ModelValue(model: ModelBean, config: OutputConfig, env: Environment, k: Key): Option<JsonValue> {
    match k
    case Extend => Some(JString(model.extend))
    case Uses => UsesValue(model)
    case Config => if config.outputFormat == Touch2 then Some(JObject(ConfigEntries(model, config, env))) else None
    case _ =>
      if config.outputFormat == Touch2 then None
      else ConfigValue(model, config, env, RequiresSet(model, config, env), ModelFieldConfigs(model, config, env), k)
  }

  // ---------------------------------------------------------------------------
  // The text
  // ---------------------------------------------------------------------------

  const DEFINE_OPEN := "Ext.define("
  const QUOTE := "\""
  const COMMA := ","
  const DEBUG_BREAK := "\r\n"
  const DEFINE_CLOSE := ");"

  /** `Ext.define("<name>",<json>);`, with a CR LF after the name in debug mode. */
  function DefineStatement(name: string, json: string, debug: bool): string {
    DEFINE_OPEN + QUOTE + name + QUOTE + COMMA + (if debug then DEBUG_BREAK else "") + json + DEFINE_CLOSE
  }

  /** The separator every line break becomes. */
  function LineSeparator(ending: LineEnding, system: string): string {
    match ending
    case CrLf => "\r\n"
    case Lf => "\n"
    case SystemEnding => system
  }

  /** Double quotes become single quotes when asked for; then every line break
      becomes the configured separator. */
  function Rewritten(s: string, config: OutputConfig, system: string): string {
    var quoted := if config.useSingleQuotes then ReplaceChar(s, '"', '\'') else s;
    ReplaceLineBreaks(quoted, LineSeparator(config.lineEnding, system))
  }

  /** The JavaScript generateJavascript returns. */
  ghost function JavascriptText(model: ModelBean, config: OutputConfig, env: Environment): string {
    var json := env.render(ModelObject(model, config, env), config);
    Rewritten(DefineStatement(model.name, json, config.debug), config, env.lineSeparator)
  }

  // ---------------------------------------------------------------------------
  // The dialect rules
  // ---------------------------------------------------------------------------

  /** The config object is a map: unique keys, each with its value. */
  lemma ConfigObjectMap(model: ModelBean, config: OutputConfig, env: Environment,
                        classes: ClassSet, fieldConfigs: seq<FieldConfig>, k: Key)
    ensures UniqueKeys(ConfigObject(model, config, env, classes, fieldConfigs))
    ensures ValueOf(ConfigObject(model, config, env, classes, fieldConfigs), k)
      == ConfigValue(model, config, env, classes, fieldConfigs, k)
  {
    ConfigOrderDistinct();
    ListedMap(CONFIG_ORDER, k => ConfigValue(model, config, env, classes, fieldConfigs, k), k);
  }

  /** No key is put twice into the config object. */
  lemma ConfigOrderDistinct()
    ensures forall i, j :: 0 <= i < j < |CONFIG_ORDER| ==> CONFIG_ORDER[i] != CONFIG_ORDER[j]
  {
  }

  lemma ConfigEntriesMap(model: ModelBean, config: OutputConfig, env: Environment, k: Key)
    ensures UniqueKeys(ConfigEntries(model, config, env))
    ensures ValueOf(ConfigEntries(model, config, env), k)
      == ConfigValue(model, config, env, RequiresSet(model, config, env), ModelFieldConfigs(model, config, env), k)
  {
    ConfigObjectMap(model, config, env, RequiresSet(model, config, env), ModelFieldConfigs(model, config, env), k);
  }

  /** The extend and uses entries at the head of the model object. */
  lemma HeadMap(model: ModelBean, k: Key)
    ensures UniqueKeys(PutIfPresent(Extend, Some(JString(model.extend))) + PutIfPresent(Uses, UsesValue(model)))
    ensures KeySet(PutIfPresent(Extend, Some(JString(model.extend))) + PutIfPresent(Uses, UsesValue(model))) <= {Extend, Uses}
    ensures ValueOf(PutIfPresent(Extend, Some(JString(model.extend))) + PutIfPresent(Uses, UsesValue(model)), k) ==
      if k == Extend then Some(JString(model.extend)) else if k == Uses then UsesValue(model) else None
  {
    var head := PutIfPresent(Extend, Some(JString(model.extend))) + PutIfPresent(Uses, UsesValue(model));
    var tail := PutIfPresent(Uses, UsesValue(model));
    assert head[0] == Entry(Extend, JString(model.extend)) && head[1..] == tail;
    if UsesValue(model).Some? {
      assert tail[1..] == [];
      assert KeySet(tail) == {Uses};
      assert ValueOf(tail, k) == if k == Uses then UsesValue(model) else None;
    }
    assert KeySet(head) == {Extend} + KeySet(tail);
  }

  /** The model object is a map: unique keys, each with its value. */
  lemma ModelObjectMap(model: ModelBean, config: OutputConfig, env: Environment, k: Key)
    ensures UniqueKeys(ModelObject(model, config, env))
    ensures ValueOf(ModelObject(model, config, env), k) == ModelValue(model, config, env, k)
  {
    var cfg := ConfigEntries(model, config, env);
    var head := PutIfPresent(Extend, Some(JString(model.extend))) + PutIfPresent(Uses, UsesValue(model));
    var rest := if config.outputFormat == ExtJs4 || config.outputFormat == ExtJs5 then cfg else [Entry(Config, JObject(cfg))];
    HeadMap(model, k);
    KeySetAppend(head, rest);
    ValueOfAppend(head, rest, k);
    ValueOfPresent(head, k);
    if config.outputFormat == ExtJs4 || config.outputFormat == ExtJs5 {
      ConfigEntriesMap(model, config, env, k);
      forall j | j in KeySet(head) ensures j !in KeySet(cfg) {
        ConfigEntriesMap(model, config, env, j);
        ValueOfPresent(cfg, j);
      }
    } else {
      assert [Entry(Config, JObject(cfg))][1..] == [];
    }
    UniqueKeysAppend(head, rest);
  }

  /** "uses" lists the association targets other than the model itself, and
      appears exactly when there is one. */
  lemma UsesRule(model: ModelBean, config: OutputConfig, env: Environment, c: string)
    ensures ValueOf(ModelObject(model, config, env), Uses).Some? <==>
      exists i :: 0 <= i < |model.associations| && model.associations[i].model != model.name
    ensures c in UsedModels(model) <==>
      c != model.name && exists i :: 0 <= i < |model.associations| && model.associations[i].model == c
  {
    ModelObjectMap(model, config, env, Uses);
    AssociationModelsExactly(model.associations, c);
    if exists i :: 0 <= i < |model.associations| && model.associations[i].model != model.name {
      var i :| 0 <= i < |model.associations| && model.associations[i].model != model.name;
      AssociationModelsExactly(model.associations, model.associations[i].model);
      assert model.associations[i].model in UsedModels(model);
    } else if UsedModels(model) != {} {
      var d :| d in UsedModels(model);
      AssociationModelsExactly(model.associations, d);
    }
  }

  /** What requires holds: for Ext JS 5 only, the validator classes of the
      validations, the Direct proxy when the proxy has content and the class of
      a known identifier strategy. */
  lemma RequiresRule(model: ModelBean, config: OutputConfig, env: Environment, c: string)
    ensures c in RequiresSet(model, config, env).Members() <==>
      config.outputFormat == ExtJs5 &&
      ((|model.validations| > 0 && c in RequiredClasses(model.fields, model.validations))
       || (env.proxyHasContent(model, config) && c == PROXY_CLASS)
       || (HasTextOpt(model.identifier) && IdentifierClass(model.identifier.value) == Some(c)))
  {
  }

  /** Ext JS 4: "idgen", no requires, no versionProperty, the validations in
      their own list and the fields as they were. */
  lemma ExtJs4Document(model: ModelBean, config: OutputConfig, env: Environment)
    requires config.outputFormat == ExtJs4
    ensures ValueOf(ModelObject(model, config, env), Requires) == None
    ensures ValueOf(ModelObject(model, config, env), Identifier) == None
    ensures ValueOf(ModelObject(model, config, env), Idgen) ==
      if HasTextOpt(model.identifier) then Some(JString(model.identifier.value)) else None
    ensures ValueOf(ModelObject(model, config, env), VersionProperty) == None
    ensures ValueOf(ModelObject(model, config, env), Validations).Some? <==> |model.validations| > 0
    ensures ValueOf(ModelObject(model, config, env), Config) == None
  {
    ExtJs4Identity(model, config, env);
    ModelObjectMap(model, config, env, Requires);
    ModelObjectMap(model, config, env, Validations);
    ModelObjectMap(model, config, env, Config);
    var s := RequiresSet(model, config, env);
    assert s.Members() == {};
  }

  /** Ext JS 4 writes the identifier as idgen and has no versionProperty. */
  lemma ExtJs4Identity(model: ModelBean, config: OutputConfig, env: Environment)
    requires config.outputFormat == ExtJs4
    ensures ValueOf(ModelObject(model, config, env), Identifier) == None
    ensures ValueOf(ModelObject(model, config, env), Idgen) ==
      if HasTextOpt(model.identifier) then Some(JString(model.identifier.value)) else None
    ensures ValueOf(ModelObject(model, config, env), VersionProperty) == None
  {
    ModelObjectMap(model, config, env, Identifier);
    ModelObjectMap(model, config, env, Idgen);
    ModelObjectMap(model, config, env, VersionProperty);
  }

  /** Ext JS 4 writes the fields as they were, without validators. */
  lemma ExtJs4Fields(model: ModelBean, config: OutputConfig, env: Environment)
    requires config.outputFormat == ExtJs4
    ensures ValueOf(ModelObject(model, config, env), Fields) ==
      Some(JFields(FieldConfigs(UpdatedFields(model.fields, config, env), config, env)))
  {
    ModelObjectMap(model, config, env, Fields);
  }

  /** Ext JS 5: "identifier", the validations moved into the fields, the
      versionProperty when it has text, and requires when it is not empty. */
  lemma ExtJs5Document(model: ModelBean, config: OutputConfig, env: Environment)
    requires config.outputFormat == ExtJs5
    ensures ValueOf(ModelObject(model, config, env), Validations) == None
    ensures ValueOf(ModelObject(model, config, env), Idgen) == None
    ensures ValueOf(ModelObject(model, config, env), Identifier) ==
      if HasTextOpt(model.identifier) then Some(JString(model.identifier.value)) else None
    ensures ValueOf(ModelObject(model, config, env), VersionProperty).Some? <==> HasTextOpt(model.versionProperty)
    ensures ValueOf(ModelObject(model, config, env), Config) == None
  {
    ExtJs5Identity(model, config, env);
    ModelObjectMap(model, config, env, Validations);
    ModelObjectMap(model, config, env, Config);
  }

  /** Ext JS 5 writes identifier rather than idgen, and versionProperty. */
  lemma ExtJs5Identity(model: ModelBean, config: OutputConfig, env: Environment)
    requires config.outputFormat == ExtJs5
    ensures ValueOf(ModelObject(model, config, env), Idgen) == None
    ensures ValueOf(ModelObject(model, config, env), Identifier) ==
      if HasTextOpt(model.identifier) then Some(JString(model.identifier.value)) else None
    ensures ValueOf(ModelObject(model, config, env), VersionProperty).Some? <==> HasTextOpt(model.versionProperty)
  {
    ModelObjectMap(model, config, env, Idgen);
    ModelObjectMap(model, config, env, Identifier);
    ModelObjectMap(model, config, env, VersionProperty);
  }

  /** Ext JS 5 writes requires when it is not empty. */
  lemma ExtJs5Requires(model: ModelBean, config: OutputConfig, env: Environment)
    requires config.outputFormat == ExtJs5
    ensures ValueOf(ModelObject(model, config, env), Requires) ==
      if RequiresSet(model, config, env).Members() != {} then Some(JClasses(RequiresSet(model, config, env))) else None
  {
    ModelObjectMap(model, config, env, Requires);
  }

  /** Ext JS 5 writes the fields with the model's validations moved into them. */
  lemma ExtJs5Fields(model: ModelBean, config: OutputConfig, env: Environment)
    requires config.outputFormat == ExtJs5
    ensures ValueOf(ModelObject(model, config, env), Fields) ==
      Some(JFields(FieldConfigs(UpdatedFields(
        if |model.validations| > 0 then WithValidators(model.fields, model.validations) else model.fields,
        config, env), config, env)))
  {
    var fs := if |model.validations| > 0 then WithValidators(model.fields, model.validations) else model.fields;
    assert ValidatedFields(model, config) == fs;
    assert ModelFieldConfigs(model, config, env) == FieldConfigs(UpdatedFields(fs, config, env), config, env);
    ModelObjectMap(model, config, env, Fields);
  }

  /** Touch 2: only extend, uses and config at the top; inside config,
      "identifier", no requires, no versionProperty, the validations in their
      own list, and clientIdProperty only when it is not Touch's default. */
  lemma Touch2Document(model: ModelBean, config: OutputConfig, env: Environment)
    requires config.outputFormat == Touch2
    ensures KeySet(ModelObject(model, config, env)) <= {Extend, Uses, Config}
    ensures ValueOf(ModelObject(model, config, env), Config) == Some(JObject(ConfigEntries(model, config, env)))
    ensures ValueOf(ConfigEntries(model, config, env), Requires) == None
    ensures ValueOf(ConfigEntries(model, config, env), Idgen) == None
    ensures ValueOf(ConfigEntries(model, config, env), VersionProperty) == None
    ensures ValueOf(ConfigEntries(model, config, env), ClientIdProperty).Some? <==>
      HasTextOpt(model.clientIdProperty) && model.clientIdProperty.value != "clientId"
    ensures ValueOf(ConfigEntries(model, config, env), Validations).Some? <==> |model.validations| > 0
  {
    Touch2Keys(model, config, env);
    ModelObjectMap(model, config, env, Config);
    Touch2Entries(model, config, env);
  }

  /** A Touch 2 model object has only extend, uses and config. */
  lemma Touch2Keys(model: ModelBean, config: OutputConfig, env: Environment)
    requires config.outputFormat == Touch2
    ensures KeySet(ModelObject(model, config, env)) <= {Extend, Uses, Config}
  {
    forall k | k in KeySet(ModelObject(model, config, env)) ensures k in {Extend, Uses, Config} {
      ModelObjectMap(model, config, env, k);
      ValueOfPresent(ModelObject(model, config, env), k);
    }
  }

  /** The keys a Touch 2 config object leaves out or puts conditionally. */
  lemma Touch2Entries(model: ModelBean, config: OutputConfig, env: Environment)
    requires config.outputFormat == Touch2
    ensures ValueOf(ConfigEntries(model, config, env), Requires) == None
    ensures ValueOf(ConfigEntries(model, config, env), Idgen) == None
    ensures ValueOf(ConfigEntries(model, config, env), VersionProperty) == None
    ensures ValueOf(ConfigEntries(model, config, env), ClientIdProperty).Some? <==>
      HasTextOpt(model.clientIdProperty) && model.clientIdProperty.value != "clientId"
    ensures ValueOf(ConfigEntries(model, config, env), Validations).Some? <==> |model.validations| > 0
  {
    var classes := RequiresSet(model, config, env);
    var configs := ModelFieldConfigs(model, config, env);
    forall k | k in {Requires, Idgen, VersionProperty, ClientIdProperty, Validations} {
      ConfigObjectMap(model, config, env, classes, configs, k);
    }
    assert classes.Members() == {};
  }

  /** In every dialect idProperty is written only when it is not the default
      "id", and the fields list is always written. */
  lemma CommonRules(model: ModelBean, config: OutputConfig, env: Environment)
    ensures ValueOf(ConfigEntries(model, config, env), IdProperty).Some? <==>
      HasText(model.idProperty) && model.idProperty != "id"
    ensures ValueOf(ConfigEntries(model, config, env), Fields) == Some(JFields(ModelFieldConfigs(model, config, env)))
    ensures ValueOf(ConfigEntries(model, config, env), Proxy).Some? <==> env.proxyHasContent(model, config)
    ensures ValueOf(ModelObject(model, config, env), Extend) == Some(JString(model.extend))
  {
    CommonConfigRules(model, config, env);
    ModelObjectMap(model, config, env, Extend);
  }

  /** The config keys every dialect writes alike. */
  lemma CommonConfigRules(model: ModelBean, config: OutputConfig, env: Environment)
    ensures ValueOf(ConfigEntries(model, config, env), IdProperty).Some? <==>
      HasText(model.idProperty) && model.idProperty != "id"
    ensures ValueOf(ConfigEntries(model, config, env), Fields) == Some(JFields(ModelFieldConfigs(model, config, env)))
    ensures ValueOf(ConfigEntries(model, config, env), Proxy).Some? <==> env.proxyHasContent(model, config)
  {
    var classes := RequiresSet(model, config, env);
    var configs := ModelFieldConfigs(model, config, env);
    ConfigObjectMap(model, config, env, classes, configs, IdProperty);
    ConfigObjectMap(model, config, env, classes, configs, Fields);
    ConfigObjectMap(model, config, env, classes, configs, Proxy);
  }

  /** Adding the validators keeps the fields and their order, and in Ext JS 5
      every validation of a field leaves its kind among that field's validators. */
  lemma ValidatedFieldsRule(model: ModelBean, config: OutputConfig, i: int, k: int)
    requires 0 <= i < |model.fields| && 0 <= k < |model.validations|
    ensures FieldNames(ValidatedFields(model, config)) == FieldNames(model.fields)
    ensures ValidatorsInFields(model, config) && model.validations[k].field == model.fields[i].name ==>
      ValidatedFields(model, config)[i].validators.Some? &&
      model.validations[k].kind in Keys(ValidatedFields(model, config)[i].validators.value, KindKey)
  {
  }

  // ---------------------------------------------------------------------------
  // The text rewrites
  // ---------------------------------------------------------------------------

  /** The rewrites distribute over a concatenation that does not split a CR LF pair. */
  lemma RewrittenAppend(a: string, b: string, config: OutputConfig, system: string)
    requires !(|a| > 0 && a[|a| - 1] == '\r' && |b| > 0 && b[0] == '\n')
    ensures Rewritten(a + b, config, system) == Rewritten(a, config, system) + Rewritten(b, config, system)
  {
    var sep := LineSeparator(config.lineEnding, system);
    if config.useSingleQuotes {
      ReplaceCharAppend(a, b, '"', '\'');
      ReplaceLineBreaksAppend(ReplaceChar(a, '"', '\''), ReplaceChar(b, '"', '\''), sep);
    } else {
      ReplaceLineBreaksAppend(a, b, sep);
    }
  }

  /** A text without line breaks and, when quotes are replaced, without double
      quotes comes through unchanged. */
  lemma RewrittenPlain(s: string, config: OutputConfig, system: string)
    requires '\n' !in s && (config.useSingleQuotes ==> '"' !in s)
    ensures Rewritten(s, config, system) == s
  {
    if config.useSingleQuotes { ReplaceCharAbsent(s, '"', '\''); }
    ReplaceLineBreaksNoBreak(s, LineSeparator(config.lineEnding, system));
  }

  /** The quote and the debug line break come out as configured. */
  lemma RewrittenPieces(config: OutputConfig, system: string)
    ensures Rewritten(QUOTE, config, system) == [if config.useSingleQuotes then '\'' else '"']
    ensures Rewritten(DEBUG_BREAK, config, system) == LineSeparator(config.lineEnding, system)
  {
    var sep := LineSeparator(config.lineEnding, system);
    assert DEBUG_BREAK[1..][1..] == [];
    assert ReplaceLineBreaks(DEBUG_BREAK, sep) == sep + ReplaceLineBreaks([], sep);
    if config.useSingleQuotes {
      ReplaceCharAbsent(DEBUG_BREAK, '"', '\'');
      assert QUOTE[1..] == [];
      assert ReplaceChar(QUOTE, '"', '\'') == ['\''];
      ReplaceLineBreaksNoBreak(['\''], sep);
    } else {
      ReplaceLineBreaksNoBreak(QUOTE, sep);
    }
  }

  /** The head `Ext.define("<name>",` with the quote the configuration asks for. */
  lemma RewrittenHead(name: string, config: OutputConfig, system: string)
    requires '\n' !in name && (config.useSingleQuotes ==> '"' !in name)
    ensures Rewritten(DEFINE_OPEN + QUOTE + name + QUOTE + COMMA, config, system) ==
      DEFINE_OPEN + [if config.useSingleQuotes then '\'' else '"'] + name + [if config.useSingleQuotes then '\'' else '"'] + COMMA
  {
    var quoted := QUOTE + name + QUOTE;
    assert DEFINE_OPEN + QUOTE + name + QUOTE + COMMA == DEFINE_OPEN + quoted + COMMA;
    RewrittenAround(DEFINE_OPEN, quoted, COMMA, config, system);
    RewrittenQuoted(name, config, system);
  }

  /** Neither rewrite touches s, nor can s end or start a CR LF pair. */
  predicate RewriteFree(s: string, config: OutputConfig) {
    '\n' !in s && '\r' !in s && (config.useSingleQuotes ==> '"' !in s)
  }

  /** Text the rewrites leave alone passes through on both sides. */
  lemma RewrittenAround(a: string, m: string, b: string, config: OutputConfig, system: string)
    requires RewriteFree(a, config) && RewriteFree(b, config)
    ensures Rewritten(a + m + b, config, system) == a + Rewritten(m, config, system) + b
  {
    assert |b| > 0 ==> b[0] in b;
    assert |a| > 0 ==> a[|a| - 1] in a;
    RewrittenPlain(a, config, system);
    RewrittenPlain(b, config, system);
    RewrittenAppend(a + m, b, config, system);
    RewrittenAppend(a, m, config, system);
  }

  /** A name between quotes comes out between the configured quotes. */
  lemma RewrittenQuoted(name: string, config: OutputConfig, system: string)
    requires '\n' !in name && (config.useSingleQuotes ==> '"' !in name)
    ensures Rewritten(QUOTE + name + QUOTE, config, system) ==
      [if config.useSingleQuotes then '\'' else '"'] + name + [if config.useSingleQuotes then '\'' else '"']
  {
    RewrittenPieces(config, system);
    RewrittenPlain(name, config, system);
    RewrittenAppend(QUOTE, name, config, system);
    RewrittenAppend(QUOTE + name, QUOTE, config, system);
  }

  /** The statement survives the rewrites: the model's name in the quote the
      configuration asks for, the debug line break as the configured separator,
      the rewritten JSON, and the closing `);`. */
  lemma DefineStatementRewritten(name: string, json: string, config: OutputConfig, system: string)
    requires '\n' !in name && (config.useSingleQuotes ==> '"' !in name)
    ensures Rewritten(DefineStatement(name, json, config.debug), config, system) ==
      DEFINE_OPEN + [if config.useSingleQuotes then '\'' else '"'] + name + [if config.useSingleQuotes then '\'' else '"'] + COMMA
      + (if config.debug then LineSeparator(config.lineEnding, system) else "")
      + Rewritten(json, config, system) + DEFINE_CLOSE
  {
    var nl := if config.debug then DEBUG_BREAK else "";
    var p4 := DEFINE_OPEN + QUOTE + name + QUOTE + COMMA;
    var p5 := p4 + nl;
    var p6 := p5 + json;
    RewrittenHead(name, config, system);
    RewrittenPieces(config, system);
    RewrittenPlain(DEFINE_CLOSE, config, system);
    RewrittenPlain("", config, system);
    assert |p4| > 0 && p4[|p4| - 1] == ',';
    RewrittenAppend(p4, nl, config, system);
    assert |p5| > 0 && p5[|p5| - 1] != '\r';
    RewrittenAppend(p5, json, config, system);
    RewrittenAppend(p6, DEFINE_CLOSE, config, system);
  }

  /** With single quotes and a separator without double quotes, no double
      quote is left; with CR LF every line break is a CR LF pair and a second
      normalisation changes nothing; with a separator without LF no LF is left. */
  lemma RewrittenProperties(s: string, config: OutputConfig, system: string)
    ensures config.useSingleQuotes && '"' !in LineSeparator(config.lineEnding, system) ==> '"' !in Rewritten(s, config, system)
    ensures config.lineEnding == CrLf ==> OnlyCrLf(Rewritten(s, config, system))
    ensures config.lineEnding == CrLf ==> ReplaceLineBreaks(Rewritten(s, config, system), "\r\n") == Rewritten(s, config, system)
    ensures '\n' !in LineSeparator(config.lineEnding, system) ==> '\n' !in Rewritten(s, config, system)
  {
    var sep := LineSeparator(config.lineEnding, system);
    var quoted := if config.useSingleQuotes then ReplaceChar(s, '"', '\'') else s;
    if config.useSingleQuotes && '"' !in sep {
      ReplaceCharRemoves(s, '"', '\'');
      ReplaceLineBreaksKeepsOut(quoted, sep, '"');
    }
    if config.lineEnding == CrLf {
      ReplaceLineBreaksCrLf(quoted);
      ReplaceLineBreaksCrLfIdempotent(quoted);
    }
    if '\n' !in sep {
      ReplaceLineBreaksRemovesLf(quoted, sep);
    }
  }

  // ---------------------------------------------------------------------------
  // generateJavascript
  // ---------------------------------------------------------------------------

  method CollectAssociationModels(associations: seq<Association>) returns (uses: set<string>)
    ensures uses == AssociationModels(associations)
  {
    uses := {};
    for i := 0 to |associations|
      invariant uses == AssociationModels(associations[..i])
    {
      assert associations[..i + 1][..i] == associations[..i];
      uses := uses + {associations[i].model};
    }
    assert associations[..|associations|] == associations;
  }

  method UpdateFieldTypes(fields: seq<FieldBean>, config: OutputConfig, env: Environment) returns (updated: seq<FieldBean>)
    ensures updated == UpdatedFields(fields, config, env)
  {
    updated := [];
    for i := 0 to |fields|
      invariant |updated| == i
      invariant forall j :: 0 <= j < i ==> updated[j] == env.updateTypes(fields[j], config)
    {
      updated := updated + [env.updateTypes(fields[i], config)];
    }
  }

  method CollectFieldConfigs(fields: seq<FieldBean>, config: OutputConfig, env: Environment) returns (configs: seq<FieldConfig>)
    ensures configs == FieldConfigs(fields, config, env)
  {
    configs := [];
    for i := 0 to |fields|
      invariant |configs| == i
      invariant forall j :: 0 <= j < i ==> configs[j] == FieldConfigs(fields, config, env)[j]
    {
      if env.hasOnlyName(fields[i], config) {
        configs := configs + [NameOnly(fields[i].name)];
      } else {
        configs := configs + [FullField(fields[i])];
      }
    }
  }

  /** The requires set, built as generateJavascript builds it; `validated` is
      what addValidatorsToField left in the fields. */
  method CollectRequires(model: ModelBean, config: OutputConfig, env: Environment)
    returns (classes: ClassSet, validated: seq<FieldBean>)
    ensures classes == RequiresSet(model, config, env)
    ensures validated == ValidatedFields(model, config)
  {
    var format := config.outputFormat;
    validated := model.fields;
    classes := HashSet({});
    if |model.validations| > 0 && format == ExtJs5 {
      var sorted;
      validated, sorted := AddValidatorsToField(model.fields, model.validations);
      StrictlySortedUnique(sorted, TreeSetOrder(RequiredClasses(model.fields, model.validations)));
      classes := TreeSet(sorted);
    }
    if env.proxyHasContent(model, config) && format == ExtJs5 {
      classes := WithClass(classes, PROXY_CLASS);
    }
    if HasTextOpt(model.identifier) && format == ExtJs5 {
      var identifier := model.identifier.value;
      if identifier == "sequential" {
        classes := WithClass(classes, "Ext.data.identifier.Sequential");
      } else if identifier == "uuid" {
        classes := WithClass(classes, "Ext.data.identifier.Uuid");
      } else if identifier == "negative" {
        classes := WithClass(classes, "Ext.data.identifier.Negative");
      }
    }
  }

  /** The model object generateJavascript puts together, and the field beans
      as it leaves them (with the Ext JS 5 validators added and the types
      updated). */
  method BuildModelObject(model: ModelBean, config: OutputConfig, env: Environment)
    returns (modelObject: seq<Entry>, fields: seq<FieldBean>)
    ensures modelObject == ModelObject(model, config, env)
    ensures fields == UpdatedFields(ValidatedFields(model, config), config, env)
  {
    modelObject := [Entry(Extend, JString(model.extend))];
    if |model.associations| > 0 {
      var uses := CollectAssociationModels(model.associations);
      uses := uses - {model.name};
      if uses != {} {
        modelObject := modelObject + [Entry(Uses, JClasses(HashSet(uses)))];
      }
    }
    assert modelObject == PutIfPresent(Extend, Some(JString(model.extend))) + PutIfPresent(Uses, UsesValue(model));

    var classes, validated := CollectRequires(model, config, env);
    fields := UpdateFieldTypes(validated, config, env);
    var configs := CollectFieldConfigs(fields, config, env);
    var cfg := ConfigObject(model, config, env, classes, configs);
    assert cfg == ConfigEntries(model, config, env);
    if config.outputFormat == ExtJs4 || config.outputFormat == ExtJs5 {
      modelObject := modelObject + cfg;
    } else {
      modelObject := modelObject + [Entry(Config, JObject(cfg))];
    }
  }

  /** The define statement around the rendered JSON, with the quote and
      line-break rewrites applied. */
  method WriteStatement(name: string, json: string, config: OutputConfig, system: string) returns (text: string)
    ensures text == Rewritten(DefineStatement(name, json, config.debug), config, system)
  {
    var sb := DEFINE_OPEN + QUOTE + name + QUOTE + COMMA;
    if config.debug {
      sb := sb + DEBUG_BREAK;
    }
    sb := sb + json + DEFINE_CLOSE;
    assert sb == DefineStatement(name, json, config.debug);
    text := sb;
    if config.useSingleQuotes {
      text := ReplaceChar(text, '"', '\'');
    }
    if config.lineEnding == CrLf {
      text := ReplaceLineBreaks(text, "\r\n");
    } else if config.lineEnding == Lf {
      text := ReplaceLineBreaks(text, "\n");
    } else if config.lineEnding == SystemEnding {
      text := ReplaceLineBreaks(text, system);
    }
  }

  /** generateJavascript: the statement defining the model in the configured
      dialect, and the field beans as the generation leaves them. */
  method GenerateJavascript(model: ModelBean, config: OutputConfig, env: Environment)
    returns (text: string, fields: seq<FieldBean>)
    ensures text == JavascriptText(model, config, env)
    ensures fields == UpdatedFields(ValidatedFields(model, config), config, env)
  {
    var modelObject;
    modelObject, fields := BuildModelObject(model, config, env);
    text := WriteStatement(model.name, env.render(modelObject, config), config, env.lineSeparator);
  }
}
