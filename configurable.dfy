/** `Configurable::ClassMethods`: every class that includes `Configurable`
    owns one configuration slot. The slot is empty until a default
    configuration is declared; later overrides may change the values of the
    declared keys but never add a key. */
module Configurable {
  import opened Errors
  import opened Values

  /** What `configure(o)` does to a slot: raises when there is no default
      configuration, raises when `o` names a key the stored Hash lacks, and
      otherwise yields the stored Hash with `o` merged over it. Only the top
      level is checked: a nested Hash replaces the old value whole. */
  function Configured(slot: Option<Table>, o: Table): (r: Result<Table>)
    ensures r == Raised(DefaultConfigNotExists) <==> slot.None?
    ensures r == Raised(ConfigParamNotFound) <==> slot.Some? && !(o.Keys <= slot.value.Keys)
    ensures r.Raised? ==> r.error != NotConfigured
    ensures r.Ok? ==>
      r.value.Keys == slot.value.Keys &&
      (forall k :: k in o ==> r.value[k] == o[k]) &&
      (forall k :: k in slot.value && k !in o ==> r.value[k] == slot.value[k])
  {
    if slot.None? then Raised(DefaultConfigNotExists)
    else
      var unknown := o.Keys - slot.value.Keys;
      if unknown != {} then Raised(ConfigParamNotFound)
      else
        assert o.Keys <= slot.value.Keys by {
          forall k | k in o.Keys ensures k in slot.value.Keys { assert k !in unknown; }
        }
        Ok(slot.value + o)
  }

  /** What `config` returns for a slot: the stored Hash, or `NotConfigured`. */
  function Current(slot: Option<Table>): (r: Result<Table>)
    ensures r.Ok? <==> slot.Some?
    ensures r.Ok? ==> r.value == slot.value
    ensures r.Raised? ==> r.error == NotConfigured
  {
    if slot.None? then Raised(NotConfigured) else Ok(slot.value)
  }

  /** Overrides with a subset of the declared keys are accepted, however
      often they are applied, and applying the same override twice leaves the
      same Hash as applying it once. */
  lemma ConfigureIdempotent(h: Table, o: Table)
    requires o.Keys <= h.Keys
    ensures Configured(Some(h), o).Ok?
    ensures Configured(Some(Configured(Some(h), o).value), o) == Configured(Some(h), o)
  {
    var once := Configured(Some(h), o).value;
    assert once + o == once;
  }

  /** Two accepted overrides in a row leave what the second merged over the
      first, applied at once, leaves. */
  lemma ConfigureComposes(h: Table, o1: Table, o2: Table)
    requires o1.Keys <= h.Keys && o2.Keys <= h.Keys
    ensures Configured(Some(h), o1).Ok?
    ensures Configured(Some(Configured(Some(h), o1).value), o2) == Configured(Some(h), o1 + o2)
  {
    var first := Configured(Some(h), o1).value;
    assert first + o2 == h + (o1 + o2);
  }

  /** A nested Hash under a declared key is accepted whatever its own keys
      are, and replaces the stored value whole. */
  lemma NestedHashReplacedWhole(h: Table, k: Key, inner: seq<(Key, Shape)>)
    requires k in h
    ensures Configured(Some(h), map[k := Hash(inner)]) == Ok(h[k := Hash(inner)])
  {
    assert h + map[k := Hash(inner)] == h[k := Hash(inner)];
  }

  /** A class that has included `Configurable`; `config` is its `@config`. */
  class Owner {
    var config: Option<Table>

    /** A freshly defined class has no configuration. */
    constructor ()
      ensures config == None
    {
      config := None;
    }

    /** `default_configuration`: store `h`, replacing whatever was stored. */
    method DefaultConfiguration(h: Table)
      modifies this
      ensures config == Some(h)
    {
      config := Some(h);
    }

    /** `configure`: check that a default exists, then that every key of
        `o` is declared, and only then merge `o` in; a rejected call leaves
        the slot as it was. */
    method Configure(o: Table) returns (r: Result<Table>)
      modifies this
      ensures r == Configured(old(config), o)
      ensures config == if r.Ok? then Some(r.value) else old(config)
    {
      if config.None? {
        return Raised(DefaultConfigNotExists);
      }
      var unknown := o.Keys - config.value.Keys;
      if unknown != {} {
        return Raised(ConfigParamNotFound);
      }
      config := Some(config.value + o);
      r := Ok(config.value);
    }

    /** `config`: the stored Hash, or `NotConfigured`. */
    method Config() returns (r: Result<Table>)
      ensures r == Current(config)
    {
      if config.None? {
        return Raised(NotConfigured);
      }
      r := Ok(config.value);
    }
  }
}
