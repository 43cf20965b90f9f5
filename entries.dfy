/**
 * The catalog data model: a library maps system ids to system entries, a
 * system entry maps source ids to light sources. Every field a raw catalog
 * may leave out is an Option; JavaScript's falsiness of a missing field, of
 * "" and of 0 is spelled out by StrFalsy and IntFalsy.
 */
module Entries {
  import opened Tables

  /** One illumination level of a source: bright and dim radii and a cone angle. */
  datatype LightLevel = LightLevel(bright: real, dim: real, angle: real)

  /** The `light` field: absent, a bare descriptor, or an ordered sequence of levels. */
  datatype Light = NoLight | Single(level: LightLevel) | Levels(levels: seq<LightLevel>)

  /** The `consumable` field: absent, a boolean, or one of the strings "true"/"false". */
  datatype Consumable = Undefined | Flag(value: bool) | FlagString(value: bool)

  /** A light source. `kind` is the source's `type` field. */
  datatype Source = Source(
    name: Option<string>,
    kind: Option<string>,
    consumable: Consumable,
    states: Option<int>,
    light: Light)

  /** A system entry: its id, topology name, quantity label, sources and aliases. */
  datatype SystemEntry = SystemEntry(
    system: Option<string>,
    topology: Option<string>,
    quantity: Option<string>,
    sources: Option<Table<Source>>,
    aliases: Option<Table<string>>)

  type Library = Table<SystemEntry>

  /** `!x` for a string field: missing or empty. */
  predicate StrFalsy(s: Option<string>) {
    s.None? || s.value == ""
  }

  /** `!x` for a number field: missing or zero. */
  predicate IntFalsy(n: Option<int>) {
    n.None? || n.value == 0
  }

  /** The sources of an entry; a missing `sources` iterates as nothing. */
  function SourcesOf(e: SystemEntry): Table<Source> {
    e.sources.GetOr([])
  }

  /** Every system of the library carries a `sources` object. */
  predicate SourcesPresent(lib: Library) {
    forall i :: 0 <= i < |lib| ==> lib[i].1.sources.Some?
  }

  /**
   * A source as the defaulting pass leaves it when its reference is itself
   * complete: a name, a non-empty type, a boolean `consumable`, `light` never
   * a bare descriptor, and a non-zero `states` whenever there is `light`.
   */
  predicate Complete(s: Source) {
    && s.name.Some?
    && !StrFalsy(s.kind)
    && s.consumable.Flag?
    && !s.light.Single?
    && (s.light.Levels? ==> !IntFalsy(s.states))
  }

  predicate AllComplete(t: Table<Source>) {
    forall i :: 0 <= i < |t| ==> Complete(t[i].1)
  }

  /** The invariants of a defaulted catalog. */
  predicate Defaulted(lib: Library) {
    forall i :: 0 <= i < |lib| ==>
      && lib[i].1.system.Some?
      && !StrFalsy(lib[i].1.topology)
      && !StrFalsy(lib[i].1.quantity)
      && lib[i].1.sources.Some?
      && AllComplete(lib[i].1.sources.value)
  }
}
