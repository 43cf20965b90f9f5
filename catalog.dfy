/**
 * A catalog object that the source changes in place: the defaulting pass
 * walks it system by system and source by source, and the fallback update
 * rewrites the "default" entry's sources.
 */
module Catalogs {
  import opened Tables
  import opened Entries
  import opened Defaults
  import opened Fallback

  /** The field checks of `applyFieldDefaults` on one source, one at a time. */
  method DefaultSource(key: string, s: Source, refsrc: Option<Source>) returns (src: Source)
    ensures src == FillSource(key, s, refsrc)
  {
    src := s;
    if StrFalsy(src.name) {
      src := src.(name := Some(key));
    }
    if StrFalsy(src.kind) {
      src := src.(kind := if refsrc.Some? then refsrc.value.kind else Some("equipment"));
    }
    if src.consumable.Undefined? {
      src := src.(consumable := if refsrc.Some? then refsrc.value.consumable else Flag(false));
    }
    if src.consumable == FlagString(true) {
      src := src.(consumable := Flag(true));
    }
    if src.consumable == FlagString(false) {
      src := src.(consumable := Flag(false));
    }
    if src.light.Single? {
      src := src.(light := Levels([src.light.level]));
    }
    if src.light.Levels? && IntFalsy(src.states) {
      src := src.(states := Some(|src.light.levels| + 1));
    }
  }

  /** The per-source loop of `applyFieldDefaults`, rewriting each source in place. */
  method DefaultSources(sources: Table<Source>, rs: Option<Table<Source>>) returns (r: Table<Source>)
    ensures r == FillSources(sources, rs)
  {
    r := sources;
    var j := 0;
    while j < |r|
      invariant 0 <= j <= |r| == |sources|
      invariant forall p :: 0 <= p < j ==> r[p] == FillSources(sources, rs)[p]
      invariant forall p :: j <= p < |r| ==> r[p] == sources[p]
    {
      var src := DefaultSource(r[j].0, r[j].1, RefSource(rs, r[j].0));
      r := SetAt(r, j, src);
      j := j + 1;
    }
  }

  /** The alias loop of `applyFieldDefaults`. */
  method DefaultAliases(sources: Table<Source>, aliases: Table<string>, rs: Option<Table<Source>>) returns (r: Table<Source>)
    ensures r == ResolveAliases(sources, aliases, rs)
  {
    r := sources;
    var k := 0;
    while k < |aliases|
      invariant 0 <= k <= |aliases|
      invariant r == ResolveAliases(sources, aliases[..k], rs)
    {
      var alias := aliases[k].0;
      var aliasref := aliases[k].1;
      var own := Find(r, aliasref);
      var aliasedSource := if own.Some? then own else RefSource(rs, aliasref);
      if aliasedSource.Some? {
        r := Put(r, alias, aliasedSource.value.(name := Some(alias)));
      }
      assert aliases[..k + 1][..k] == aliases[..k];
      k := k + 1;
    }
    assert aliases[..k] == aliases;
  }

  /** The body of the system loop of `applyFieldDefaults`: one system's fields, sources and aliases. */
  method DefaultEntry(key: string, e: SystemEntry, ref: Option<SystemEntry>) returns (entry: SystemEntry)
    requires ref.Some? ==> ref.value.sources.Some?
    ensures entry == FillEntry(key, e, ref)
  {
    entry := e;
    if StrFalsy(entry.system) {
      entry := entry.(system := Some(key));
    }
    if StrFalsy(entry.topology) {
      entry := entry.(topology := if ref.Some? then ref.value.topology else Some("standard"));
    }
    if StrFalsy(entry.quantity) {
      entry := entry.(quantity := if ref.Some? then ref.value.quantity else Some("quantity"));
    }
    if entry.sources.None? {
      entry := entry.(sources := Some([]));
    }
    var rs := if ref.Some? then ref.value.sources else None;
    var sources := DefaultSources(entry.sources.value, rs);
    if entry.aliases.Some? {
      sources := DefaultAliases(sources, entry.aliases.value, rs);
    }
    entry := entry.(sources := Some(sources));
  }

  class Catalog {
    var systems: Library

    constructor (systems: Library)
      ensures this.systems == systems
    {
      this.systems := systems;
    }

    /** `applyFieldDefaults(this, reference)`: default every system in place. */
    method ApplyFieldDefaults(reference: Option<Library>)
      requires reference.Some? ==> SourcesPresent(reference.value)
      modifies this
      ensures systems == FillDefaults(old(systems), reference)
    {
      ghost var original := systems;
      var i := 0;
      while i < |systems|
        invariant 0 <= i <= |systems| == |original|
        invariant forall j :: 0 <= j < i ==> systems[j] == FillDefaults(original, reference)[j]
        invariant forall j :: i <= j < |systems| ==> systems[j] == original[j]
      {
        var entry := DefaultEntry(systems[i].0, systems[i].1, RefSystem(reference, systems[i].0));
        systems := SetAt(systems, i, entry);
        i := i + 1;
      }
    }

    /**
     * `updateFallbackLightSource(this[key], item, bright, dim)`: replace the
     * entry's first source by the self-light item, or retune its first level.
     */
    method UpdateFallbackLightSource(key: string, item: Option<string>, bright: real, dim: real)
      requires key in Keys(systems)
      requires Find(systems, key).value.sources.Some?
      requires FallbackDefined(Find(systems, key).value.sources.value, item)
      modifies this
      ensures systems == Put(old(systems), key, FallbackEntry(old(Find(systems, key).value), item, bright, dim))
    {
      var library := Find(systems, key).value;
      var hash := library.sources.value;
      if !StrFalsy(item) {
        if |hash| > 0 {
          var name := hash[0].0;
          hash := Remove(hash, name);
        }
        hash := Put(hash, item.value, SelfSource(item.value, bright, dim));
      } else {
        var src := hash[0].1;
        var first := src.light.levels[0];
        first := first.(bright := bright);
        first := first.(dim := dim);
        hash := SetAt(hash, 0, src.(light := Levels(src.light.levels[0 := first])));
      }
      assert hash == FallbackSources(library.sources.value, item, bright, dim);
      systems := Put(systems, key, library.(sources := Some(hash)));
    }
  }
}
