/**
 * addValidatorsToField and getValidatorClass of ModelGenerator: for EXTJS5 the
 * model's validations are folded into the validator lists of the fields they
 * name, one validator per kind, and the validator classes they need are
 * collected in a TreeSet.
 */
module ValidationResolver {
  import opened Wrappers
  import opened JavaText
  import opened JavaOrder
  import opened KeyedLists
  import opened Beans

  /** The validation kinds that have a validator class in Ext JS 5. */
  const VALIDATOR_KINDS: seq<string> := ["email", "exclusion", "format", "inclusion", "length", "presence", "range"]

  const VALIDATOR_PACKAGE: string := "Ext.data.validator."

  /** The table getValidatorClass is written as: each kind with the simple
      name of its class in VALIDATOR_PACKAGE. */
  const VALIDATOR_CLASSES: map<string, string> := map[
    "email" := "Email",
    "exclusion" := "Exclusion",
    "format" := "Format",
    "inclusion" := "Inclusion",
    "length" := "Length",
    "presence" := "Presence",
    "range" := "Range"]

  /** getValidatorClass: the validator class of a kind, or null. */
  function ValidatorClass(kind: string): (r: Option<string>)
    ensures r.Some? <==> kind in VALIDATOR_KINDS
  {
    if kind in VALIDATOR_CLASSES then Some(VALIDATOR_PACKAGE + VALIDATOR_CLASSES[kind]) else None
  }

  lemma CapitalizedAs(kind: string, cap: string)
    requires |kind| > 0 && 'a' <= kind[0] <= 'z'
    requires |cap| == |kind| && cap[0] == (kind[0] as int - 32) as char && cap[1..] == kind[1..]
    ensures Capitalize(kind) == cap
  {
  }

  /** Each validator class is the kind, capitalised, in Ext.data.validator. */
  lemma ValidatorClassNaming(kind: string)
    requires kind in VALIDATOR_KINDS
    ensures ValidatorClass(kind) == Some(VALIDATOR_PACKAGE + Capitalize(kind))
  {
    if kind == "email" { CapitalizedAs(kind, "Email"); }
    else if kind == "exclusion" { CapitalizedAs(kind, "Exclusion"); }
    else if kind == "format" { CapitalizedAs(kind, "Format"); }
    else if kind == "inclusion" { CapitalizedAs(kind, "Inclusion"); }
    else if kind == "length" { CapitalizedAs(kind, "Length"); }
    else if kind == "presence" { CapitalizedAs(kind, "Presence"); }
    else { CapitalizedAs(kind, "Range"); }
  }

  // ---------------------------------------------------------------------------
  // One field's validator list
  // ---------------------------------------------------------------------------

  /** The key validator lists are deduplicated by. */
  function KindKey(v: Validation): string {
    v.kind
  }

  /** Being a validation of the field with the given name. */
  function ForField(name: string): Validation -> bool {
    (v: Validation) => v.field == name
  }

  /** A list that may be null, read as a list. */
  function ListOrEmpty(o: Option<seq<Validation>>): seq<Validation> {
    if o.Some? then o.value else []
  }

  /** One validation folded into the validator list of the field `name`. */
  function AddValidation(prev: Option<seq<Validation>>, name: string, v: Validation): Option<seq<Validation>> {
    if v.field != name then prev
    else if v.kind in Keys(ListOrEmpty(prev), KindKey) then Some(ListOrEmpty(prev))
    else Some(ListOrEmpty(prev) + [v])
  }

  /** The class one validation needs for the field `name`, if any. */
  function NeededClass(name: string, v: Validation): set<string> {
    if v.field == name && ValidatorClass(v.kind).Some? then {ValidatorClass(v.kind).value} else {}
  }

  /** The validator list of the field `name` after the validations vs are
      folded into it: a matching validation creates the list if it is null and
      is appended unless one of its kind is there already. */
  function FieldValidators(existing: Option<seq<Validation>>, name: string, vs: seq<Validation>)
    : (r: Option<seq<Validation>>)
    // a field no validation names keeps its (null) list
    ensures r.None? <==> existing.None? && forall k :: 0 <= k < |vs| ==> vs[k].field != name
    // every kind named for the field is in its list
    ensures forall k :: 0 <= k < |vs| && vs[k].field == name ==> r.Some? && vs[k].kind in Keys(r.value, KindKey)
  {
    if vs == [] then existing
    else
      var init := vs[..|vs| - 1];
      var v := vs[|vs| - 1];
      var prev := FieldValidators(existing, name, init);
      assert forall k :: 0 <= k < |init| ==> vs[k] == init[k];
      if v.field != name then prev
      else
        var list := ListOrEmpty(prev);
        if v.kind in Keys(list, KindKey) then Some(list)
        else
          PutKeys(list, v, KindKey);
          Some(list + [v])
  }

  /** A validation joins a list without a validator of its kind, and the kinds
      stay distinct. */
  lemma AppendNewKind(list: seq<Validation>, v: Validation)
    requires v.kind !in Keys(list, KindKey) && DistinctKeys(list, KindKey)
    ensures DistinctKeys(list + [v], KindKey)
  {
    PutDistinct(list, v, KindKey);
  }

  /** The fold keeps what the list held. */
  lemma {:induction false} FieldValidatorsExtends(existing: Option<seq<Validation>>, name: string, vs: seq<Validation>)
    requires existing.Some?
    ensures var r := FieldValidators(existing, name, vs);
      r.Some? && |existing.value| <= |r.value| && r.value[..|existing.value|] == existing.value
    decreases |vs|
  {
    if vs != [] {
      var init := vs[..|vs| - 1];
      FieldValidatorsExtends(existing, name, init);
      var prev := FieldValidators(existing, name, init).value;
      var v := vs[|vs| - 1];
      assert (prev + [v])[..|existing.value|] == prev[..|existing.value|];
    }
  }

  /** The fold adds only validations of the field. */
  lemma {:induction false} FieldValidatorsFrom(existing: Option<seq<Validation>>, name: string, vs: seq<Validation>)
    ensures var r := FieldValidators(existing, name, vs);
      r.Some? ==> forall x :: x in r.value ==>
        x in ListOrEmpty(existing) || exists k :: 0 <= k < |vs| && vs[k] == x && x.field == name
    decreases |vs|
  {
    if vs != [] {
      var init := vs[..|vs| - 1];
      FieldValidatorsFrom(existing, name, init);
      assert forall k :: 0 <= k < |init| ==> vs[k] == init[k];
    }
  }

  /** The fold never puts a second validator of a kind in a list. */
  lemma {:induction false} FieldValidatorsDistinct(existing: Option<seq<Validation>>, name: string, vs: seq<Validation>)
    requires DistinctKeys(ListOrEmpty(existing), KindKey)
    ensures var r := FieldValidators(existing, name, vs);
      r.Some? ==> DistinctKeys(r.value, KindKey)
    decreases |vs|
  {
    if vs != [] {
      var init := vs[..|vs| - 1];
      FieldValidatorsDistinct(existing, name, init);
      var list := ListOrEmpty(FieldValidators(existing, name, init));
      var v := vs[|vs| - 1];
      if v.field == name && v.kind !in Keys(list, KindKey) {
        AppendNewKind(list, v);
      }
    }
  }

  /** One more validation folded in. */
  lemma FieldValidatorsStep(existing: Option<seq<Validation>>, name: string, vs: seq<Validation>, k: int)
    requires 0 <= k < |vs|
    ensures FieldValidators(existing, name, vs[..k + 1])
         == AddValidation(FieldValidators(existing, name, vs[..k]), name, vs[k])
  {
    assert vs[..k + 1][..k] == vs[..k];
  }

  /** For a field that had no list, the validators are the field's validations
      in the order they were found, the first of each kind winning. */
  lemma {:induction false} FieldValidatorsFirstFound(name: string, vs: seq<Validation>)
    ensures ListOrEmpty(FieldValidators(None, name, vs)) == SelectFirst(vs, ForField(name), KindKey)
    decreases |vs|
  {
    if vs != [] {
      var init := vs[..|vs| - 1];
      FieldValidatorsFirstFound(name, init);
    }
  }

  /** The validator a fresh list holds for a kind is the first validation of
      that kind for the field. */
  lemma FirstOfKindWins(name: string, vs: seq<Validation>, k: int)
    requires 0 <= k < |vs| && vs[k].field == name
    requires forall j :: 0 <= j < k ==> !(vs[j].field == name && vs[j].kind == vs[k].kind)
    ensures Lookup(ListOrEmpty(FieldValidators(None, name, vs)), vs[k].kind, KindKey) == Some(vs[k])
  {
    FieldValidatorsFirstFound(name, vs);
    SelectFirstWins(vs, ForField(name), KindKey, k);
  }

  /** A list that already has every kind named for the field is left alone. */
  lemma {:induction false} FieldValidatorsStable(o: Option<seq<Validation>>, name: string, vs: seq<Validation>)
    requires forall k :: 0 <= k < |vs| && vs[k].field == name ==> o.Some? && vs[k].kind in Keys(o.value, KindKey)
    ensures FieldValidators(o, name, vs) == o
    decreases |vs|
  {
    if vs != [] {
      var init := vs[..|vs| - 1];
      assert forall k :: 0 <= k < |init| ==> vs[k] == init[k];
      FieldValidatorsStable(o, name, init);
    }
  }

  /** Folding the same validations in a second time changes nothing. */
  lemma FieldValidatorsIdempotent(existing: Option<seq<Validation>>, name: string, vs: seq<Validation>)
    ensures FieldValidators(FieldValidators(existing, name, vs), name, vs) == FieldValidators(existing, name, vs)
  {
    FieldValidatorsStable(FieldValidators(existing, name, vs), name, vs);
  }

  /** The classes the validations of one field need. */
  function ClassesOf(name: string, vs: seq<Validation>): set<string> {
    if vs == [] then {}
    else
      var v := vs[|vs| - 1];
      ClassesOf(name, vs[..|vs| - 1]) + NeededClass(name, v)
  }

  /** A class is needed for a field when one of its validations has it. */
  lemma {:induction false} ClassesOfExactly(name: string, vs: seq<Validation>, c: string)
    ensures c in ClassesOf(name, vs) <==> exists k :: 0 <= k < |vs| && vs[k].field == name && ValidatorClass(vs[k].kind) == Some(c)
    decreases |vs|
  {
    if vs != [] {
      var init := vs[..|vs| - 1];
      ClassesOfExactly(name, init, c);
      assert forall k :: 0 <= k < |init| ==> vs[k] == init[k];
    }
  }

  /** One more validation looked at. */
  lemma ClassesOfStep(name: string, vs: seq<Validation>, k: int)
    requires 0 <= k < |vs|
    ensures ClassesOf(name, vs[..k + 1]) == ClassesOf(name, vs[..k]) + NeededClass(name, vs[k])
  {
    assert vs[..k + 1][..k] == vs[..k];
  }

  /** Whether a list holds a validator of the given kind (the alreadyExists scan). */
  method KindPresent(validators: seq<Validation>, kind: string) returns (found: bool)
    ensures found <==> kind in Keys(validators, KindKey)
  {
    found := false;
    var i := 0;
    while i < |validators|
      invariant 0 <= i <= |validators|
      invariant kind !in Keys(validators[..i], KindKey)
    {
      assert Keys(validators[..i + 1], KindKey) == Keys(validators[..i], KindKey) + [validators[i].kind];
      if kind == validators[i].kind {
        assert Keys(validators, KindKey)[i] == kind;
        return true;
      }
      i := i + 1;
    }
    assert validators[..i] == validators;
  }

  /** One validation of the inner loop of addValidatorsToField: for the
      field's own validations, the class is added to the TreeSet and the
      validation to the list unless its kind is there. */
  method FoldValidation(name: string, v: Validation, validators0: Option<seq<Validation>>, required0: seq<string>)
    returns (validators: Option<seq<Validation>>, required: seq<string>)
    requires StrictlySorted(required0)
    ensures validators == AddValidation(validators0, name, v)
    ensures StrictlySorted(required)
    ensures forall c :: c in required <==> c in required0 || c in NeededClass(name, v)
  {
    validators := validators0;
    required := required0;
    if name == v.field {
      var list := if validators.Some? then validators.value else [];
      var validatorClass := ValidatorClass(v.kind);
      if validatorClass.Some? {
        required := SortedInsert(required, validatorClass.value);
      }
      var alreadyExists := KindPresent(list, v.kind);
      if !alreadyExists {
        list := list + [v];
      }
      validators := Some(list);
    }
  }

  /** The inner loop of addValidatorsToField for one field: its new validator
      list, and the TreeSet with the classes its validations need added. */
  method FoldField(f: FieldBean, vs: seq<Validation>, required0: seq<string>)
    returns (validators: Option<seq<Validation>>, required: seq<string>)
    requires StrictlySorted(required0)
    ensures validators == FieldValidators(f.validators, f.name, vs)
    ensures StrictlySorted(required)
    ensures forall c :: c in required <==> c in required0 || c in ClassesOf(f.name, vs)
  {
    validators := f.validators;
    required := required0;
    var k := 0;
    while k < |vs|
      invariant 0 <= k <= |vs|
      invariant validators == FieldValidators(f.validators, f.name, vs[..k])
      invariant StrictlySorted(required)
      invariant forall c :: c in required <==> c in required0 || c in ClassesOf(f.name, vs[..k])
    {
      FieldValidatorsStep(f.validators, f.name, vs, k);
      ClassesOfStep(f.name, vs, k);
      validators, required := FoldValidation(f.name, vs[k], validators, required);
      k := k + 1;
    }
    assert vs[..k] == vs;
  }

  // ---------------------------------------------------------------------------
  // All fields
  // ---------------------------------------------------------------------------

  /** A field with the validations folded into its list. */
  function WithValidator(f: FieldBean, vs: seq<Validation>): FieldBean {
    f.(validators := FieldValidators(f.validators, f.name, vs))
  }

  /** Every field of the map, in order, with the validations folded in. */
  function WithValidators(fields: seq<FieldBean>, vs: seq<Validation>): (r: seq<FieldBean>)
    ensures |r| == |fields|
    ensures FieldNames(r) == FieldNames(fields)
  {
    var r := seq(|fields|, i requires 0 <= i < |fields| => WithValidator(fields[i], vs));
    assert forall i :: 0 <= i < |fields| ==> FieldNames(r)[i] == FieldNames(fields)[i];
    r
  }

  /** A list holding each field with the validations folded in is WithValidators. */
  lemma WithValidatorsPointwise(fields: seq<FieldBean>, vs: seq<Validation>, updated: seq<FieldBean>)
    requires |updated| == |fields|
    requires forall j :: 0 <= j < |fields| ==> updated[j] == WithValidator(fields[j], vs)
    ensures updated == WithValidators(fields, vs)
  {
  }

  /** Only the validator lists change; a second fold changes nothing. */
  lemma WithValidatorsIdempotent(fields: seq<FieldBean>, vs: seq<Validation>)
    ensures WithValidators(WithValidators(fields, vs), vs) == WithValidators(fields, vs)
    ensures forall i :: 0 <= i < |fields| ==> WithValidators(fields, vs)[i].(validators := fields[i].validators) == fields[i]
  {
    var once := WithValidators(fields, vs);
    forall i | 0 <= i < |fields| ensures WithValidator(once[i], vs) == once[i] {
      FieldValidatorsIdempotent(fields[i].validators, fields[i].name, vs);
    }
  }

  /** The classes required by the validations that name some field. */
  function RequiredClasses(fields: seq<FieldBean>, vs: seq<Validation>): set<string> {
    if fields == [] then {}
    else RequiredClasses(fields[..|fields| - 1], vs) + ClassesOf(fields[|fields| - 1].name, vs)
  }

  /** A class is required when the validations of some field need it. */
  lemma {:induction false} RequiredClassesOfFields(fields: seq<FieldBean>, vs: seq<Validation>, c: string)
    ensures c in RequiredClasses(fields, vs) <==> exists i :: 0 <= i < |fields| && c in ClassesOf(fields[i].name, vs)
    decreases |fields|
  {
    if fields != [] {
      var init := fields[..|fields| - 1];
      RequiredClassesOfFields(init, vs, c);
      assert forall i :: 0 <= i < |init| ==> fields[i] == init[i];
    }
  }

  /** The requires set holds the validator class of exactly the validations
      that name a field and have one. */
  lemma RequiredClassesExactly(fields: seq<FieldBean>, vs: seq<Validation>, c: string)
    ensures c in RequiredClasses(fields, vs) <==>
      exists i, k :: 0 <= i < |fields| && 0 <= k < |vs| && vs[k].field == fields[i].name
                     && vs[k].kind in VALIDATOR_KINDS && c == VALIDATOR_PACKAGE + Capitalize(vs[k].kind)
  {
    RequiredClassesOfFields(fields, vs, c);
    forall i | 0 <= i < |fields| {
      ClassesOfExactly(fields[i].name, vs, c);
    }
    if c in RequiredClasses(fields, vs) {
      var i :| 0 <= i < |fields| && c in ClassesOf(fields[i].name, vs);
      var k :| 0 <= k < |vs| && vs[k].field == fields[i].name && ValidatorClass(vs[k].kind) == Some(c);
      ValidatorClassNaming(vs[k].kind);
    }
    if exists i, k :: 0 <= i < |fields| && 0 <= k < |vs| && vs[k].field == fields[i].name
                      && vs[k].kind in VALIDATOR_KINDS && c == VALIDATOR_PACKAGE + Capitalize(vs[k].kind) {
      var i, k :| 0 <= i < |fields| && 0 <= k < |vs| && vs[k].field == fields[i].name
                  && vs[k].kind in VALIDATOR_KINDS && c == VALIDATOR_PACKAGE + Capitalize(vs[k].kind);
      ValidatorClassNaming(vs[k].kind);
      assert c in ClassesOf(fields[i].name, vs);
    }
  }

  /** One more field looked at. */
  lemma RequiredClassesStep(fields: seq<FieldBean>, vs: seq<Validation>, i: int)
    requires 0 <= i < |fields|
    ensures RequiredClasses(fields[..i + 1], vs) == RequiredClasses(fields[..i], vs) + ClassesOf(fields[i].name, vs)
  {
    assert fields[..i + 1][..i] == fields[..i];
  }

  /** addValidatorsToField: the fields with their validator lists updated,
      and the TreeSet of the validator classes needed, as an ascending list. */
  method AddValidatorsToField(fields: seq<FieldBean>, vs: seq<Validation>)
    returns (updated: seq<FieldBean>, required: seq<string>)
    ensures updated == WithValidators(fields, vs)
    ensures StrictlySorted(required)
    ensures forall c :: c in required <==> c in RequiredClasses(fields, vs)
  {
    updated := [];
    required := [];
    var i := 0;
    while i < |fields|
      invariant 0 <= i <= |fields|
      invariant |updated| == i
      invariant forall j :: 0 <= j < i ==> updated[j] == WithValidator(fields[j], vs)
      invariant StrictlySorted(required)
      invariant forall c :: c in required <==> c in RequiredClasses(fields[..i], vs)
    {
      RequiredClassesStep(fields, vs, i);
      var f := fields[i];
      var validators, required' := FoldField(f, vs, required);
      required := required';
      updated := updated + [f.(validators := validators)];
      i := i + 1;
    }
    assert fields[..i] == fields;
    WithValidatorsPointwise(fields, vs, updated);
  }
}
