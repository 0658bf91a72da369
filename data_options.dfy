/** AllDataOptionsBean: the canonical form of the four flags of an
    @AllDataOptions annotation, as the writer configuration of a model's proxy
    carries them. */
module DataOptions {
  import opened Wrappers

  /** The annotation's four flags; their defaults are persist = true and the
      other three false. */
  datatype AllDataOptions = AllDataOptions(associated: bool, changes: bool, critical: bool, persist: bool)

  predicate IsAllDefault(o: AllDataOptions) {
    o.persist && !o.associated && !o.changes && !o.critical
  }

  /** The four nullable Boolean fields of the bean; None is Java's null, which
      the JSON output omits. */
  datatype OptionsBeanValue = OptionsBeanValue(
    associated: Option<bool>, changes: Option<bool>, critical: Option<bool>, persist: Option<bool>)
  {
    /** hasAnyProperties: at least one field is non-null. */
    predicate HasAnyProperties() {
      associated.Some? || changes.Some? || critical.Some? || persist.Some?
    }
  }

  /** The fields the annotation constructor leaves behind. The all-default
      combination sets nothing; critical survives only together with changes;
      persist only without changes; a field that is set always holds true. */
  function Canonical(o: AllDataOptions): (v: OptionsBeanValue)
    ensures IsAllDefault(o) ==> !v.HasAnyProperties()
    ensures v.associated.Some? <==> o.associated
    ensures v.changes.Some? <==> o.changes
    ensures v.critical.Some? <==> o.changes && o.critical
    ensures v.persist.Some? <==> !o.changes && o.persist && !IsAllDefault(o)
    ensures v.associated != Some(false) && v.changes != Some(false)
    ensures v.critical != Some(false) && v.persist != Some(false)
  {
    if IsAllDefault(o) then OptionsBeanValue(None, None, None, None)
    else
      OptionsBeanValue(
        if o.associated then Some(true) else None,
        if o.changes then Some(true) else None,
        if o.changes && o.critical then Some(true) else None,
        if !o.changes && o.persist then Some(true) else None)
  }

  /** Which annotations produce a bean with something set: associated or
      changes, or persist together with critical (persist alone is the default,
      and critical without changes is dropped). */
  lemma HasAnyPropertiesExactly(o: AllDataOptions)
    ensures Canonical(o).HasAnyProperties() <==> o.associated || o.changes || (o.persist && o.critical)
  {
  }

  class AllDataOptionsBean {
    var associated: Option<bool>
    var changes: Option<bool>
    var critical: Option<bool>
    var persist: Option<bool>

    /** The default constructor: nothing set. */
    constructor ()
      ensures !HasAnyProperties()
    {
      associated, changes, critical, persist := None, None, None, None;
    }

    /** AllDataOptionsBean(AllDataOptions): copies the flags that carry
        information beyond the defaults. */
    constructor FromAnnotation(o: AllDataOptions)
      ensures Value() == Canonical(o)
    {
      associated, changes, critical, persist := None, None, None, None;
      if !(o.persist && !o.associated && !o.changes && !o.critical) {
        if o.associated {
          associated := Some(o.associated);
        }
        if o.changes {
          changes := Some(o.changes);
          if o.critical {
            critical := Some(o.critical);
          }
        } else {
          if o.persist {
            persist := Some(o.persist);
          }
        }
      }
    }

    function Value(): OptionsBeanValue
      reads this
    {
      OptionsBeanValue(associated, changes, critical, persist)
    }

    predicate HasAnyProperties()
      reads this
    {
      Value().HasAnyProperties()
    }
  }
}
