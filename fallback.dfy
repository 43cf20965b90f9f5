/**
 * `SourceLibrary.updateFallbackLightSource`: on the fallback path the
 * "default" system's first source is either replaced by a self-light
 * source named after the configured item, or retuned in place to the
 * configured radii.
 */
module Fallback {
  import opened Tables
  import opened Entries

  /** The source inserted for a configured self-light item. */
  function SelfSource(item: string, bright: real, dim: real): (r: Source)
    ensures Complete(r) && r.name == Some(item) && r.consumable == Flag(false)
    ensures r.light == Levels([LightLevel(bright, dim, 360.0)]) && r.states == Some(2)
  {
    Source(Some(item), Some("none"), Flag(false), Some(2), Levels([LightLevel(bright, dim, 360.0)]))
  }

  /** `hash[name].light[0]` exists: a first source whose light sequence is not empty. */
  predicate Retunable(sources: Table<Source>): (b: bool)
    ensures b ==> |Keys(sources)| > 0 && sources[0].1.light.Levels?
  {
    |sources| > 0 && sources[0].1.light.Levels? && |sources[0].1.light.levels| > 0
  }

  /** The update does not throw: either an item is given, or there is a first light level to retune. */
  predicate FallbackDefined(sources: Table<Source>, item: Option<string>): (b: bool)
    ensures !StrFalsy(item) ==> b
    ensures StrFalsy(item) ==> (b <==> Retunable(sources))
  {
    !StrFalsy(item) || Retunable(sources)
  }

  /** The first level of a source's light, with new bright and dim radii. */
  function Retune(s: Source, bright: real, dim: real): (r: Source)
    requires s.light.Levels? && |s.light.levels| > 0
    ensures r.name == s.name && r.kind == s.kind && r.consumable == s.consumable && r.states == s.states
    ensures r.light.Levels? && |r.light.levels| == |s.light.levels|
    ensures r.light.levels[0] == LightLevel(bright, dim, s.light.levels[0].angle)
    ensures r.light.levels[1..] == s.light.levels[1..]
  {
    var levels := s.light.levels;
    s.(light := Levels(levels[0 := levels[0].(bright := bright, dim := dim)]))
  }

  /** The sources of the "default" entry after the update. */
  function FallbackSources(sources: Table<Source>, item: Option<string>, bright: real, dim: real): (r: Table<Source>)
    requires FallbackDefined(sources, item)
    ensures !StrFalsy(item) ==> item.value in Keys(r)
    ensures StrFalsy(item) ==> Keys(r) == Keys(sources)
  {
    if !StrFalsy(item) then
      var rest := if |sources| > 0 then Remove(sources, sources[0].0) else sources;
      Put(rest, item.value, SelfSource(item.value, bright, dim))
    else
      SetAt(sources, 0, Retune(sources[0].1, bright, dim))
  }

  /** The whole "default" entry after the update: only its sources change. */
  function FallbackEntry(e: SystemEntry, item: Option<string>, bright: real, dim: real): (r: SystemEntry)
    requires e.sources.Some? && FallbackDefined(e.sources.value, item)
    ensures r.system == e.system && r.topology == e.topology && r.quantity == e.quantity && r.aliases == e.aliases
    ensures r.sources == Some(FallbackSources(e.sources.value, item, bright, dim))
  {
    e.(sources := Some(FallbackSources(e.sources.value, item, bright, dim)))
  }

  /** Deleting the first key leaves the rest in order. */
  lemma RemoveFirst<V>(t: Table<V>)
    requires |t| > 0
    ensures Remove(t, t[0].0) == t[1..]
  {
    FindAt(t, 0);
  }

  /**
   * With an item: the first source is gone (unless it is the item itself),
   * the item maps to a non-consumable two-state source with one level of
   * the given radii at 360 degrees, every other source is untouched, and
   * the item is appended after the remaining keys unless one of them is the
   * item, whose place it then keeps.
   */
  lemma FallbackReplacesFirst(sources: Table<Source>, item: Option<string>, bright: real, dim: real)
    requires !StrFalsy(item)
    ensures
      var r := FallbackSources(sources, item, bright, dim);
      var rest := if |sources| > 0 then sources[1..] else sources;
      && Find(r, item.value) == Some(Source(item, Some("none"), Flag(false), Some(2), Levels([LightLevel(bright, dim, 360.0)])))
      && (|sources| > 0 && sources[0].0 != item.value ==> sources[0].0 !in Keys(r))
      && (forall k :: k != item.value && (|sources| == 0 || k != sources[0].0) ==> Find(r, k) == Find(sources, k))
      && Keys(r) == (if item.value in Keys(rest) then Keys(rest) else Keys(rest) + [item.value])
  {
    ItemEntries(sources, item, bright, dim);
    ItemKeys(sources, item, bright, dim);
  }

  /** The values half of `FallbackReplacesFirst`. */
  lemma ItemEntries(sources: Table<Source>, item: Option<string>, bright: real, dim: real)
    requires !StrFalsy(item)
    ensures
      var r := FallbackSources(sources, item, bright, dim);
      && Find(r, item.value) == Some(SelfSource(item.value, bright, dim))
      && (|sources| > 0 && sources[0].0 != item.value ==> sources[0].0 !in Keys(r))
      && (forall k :: k != item.value && (|sources| == 0 || k != sources[0].0) ==> Find(r, k) == Find(sources, k))
  {
    var rest := if |sources| > 0 then Remove(sources, sources[0].0) else sources;
    var self := SelfSource(item.value, bright, dim);
    PutFind(rest, item.value, self, item.value);
    if |sources| > 0 && sources[0].0 != item.value {
      PutFind(rest, item.value, self, sources[0].0);
      RemoveFind(sources, sources[0].0, sources[0].0);
    }
    forall k | k != item.value && (|sources| == 0 || k != sources[0].0)
      ensures Find(Put(rest, item.value, self), k) == Find(sources, k)
    {
      PutFind(rest, item.value, self, k);
      if |sources| > 0 { RemoveFind(sources, sources[0].0, k); }
    }
  }

  /** The keys half of `FallbackReplacesFirst`. */
  lemma ItemKeys(sources: Table<Source>, item: Option<string>, bright: real, dim: real)
    requires !StrFalsy(item)
    ensures
      var r := FallbackSources(sources, item, bright, dim);
      var rest := if |sources| > 0 then sources[1..] else sources;
      Keys(r) == (if item.value in Keys(rest) then Keys(rest) else Keys(rest) + [item.value])
  {
    if |sources| > 0 {
      RemoveFirst(sources);
    }
  }

  /**
   * Without an item: the keys and every source but the first are
   * unchanged, and of the first source only the bright and dim radii of its
   * first light level change.
   */
  lemma FallbackRetunesFirst(sources: Table<Source>, item: Option<string>, bright: real, dim: real)
    requires StrFalsy(item) && Retunable(sources)
    ensures
      var r := FallbackSources(sources, item, bright, dim);
      var s, t := sources[0].1, r[0].1;
      && Keys(r) == Keys(sources)
      && r[1..] == sources[1..]
      && t.name == s.name && t.kind == s.kind && t.consumable == s.consumable && t.states == s.states
      && t.light.Levels? && |t.light.levels| == |s.light.levels|
      && t.light.levels[0] == LightLevel(bright, dim, s.light.levels[0].angle)
      && t.light.levels[1..] == s.light.levels[1..]
  {
  }

  /** The update makes nothing consumable that was not: the self-light source is not, and a retune keeps `consumable`. */
  lemma FallbackKeepsNonConsumable(sources: Table<Source>, item: Option<string>, bright: real, dim: real)
    requires FallbackDefined(sources, item)
    requires forall j :: 0 <= j < |sources| ==> sources[j].1.consumable == Flag(false)
    ensures var r := FallbackSources(sources, item, bright, dim);
      forall j :: 0 <= j < |r| ==> r[j].1.consumable == Flag(false)
  {
    if !StrFalsy(item) {
      var rest: Table<Source> := if |sources| > 0 then Remove(sources, sources[0].0) else sources;
      if |sources| > 0 {
        RemoveFirst(sources);
      }
      PutNonConsumable(rest, item.value, SelfSource(item.value, bright, dim));
    } else {
      RetuneNonConsumable(sources, bright, dim);
    }
  }

  lemma RetuneNonConsumable(sources: Table<Source>, bright: real, dim: real)
    requires Retunable(sources)
    requires forall j :: 0 <= j < |sources| ==> sources[j].1.consumable == Flag(false)
    ensures var r := SetAt(sources, 0, Retune(sources[0].1, bright, dim));
      forall j :: 0 <= j < |r| ==> r[j].1.consumable == Flag(false)
  {
    var r := SetAt(sources, 0, Retune(sources[0].1, bright, dim));
    assert |r| == |sources| by { assert |Keys(r)| == |Keys(sources)|; }
    forall j | 0 <= j < |r| ensures r[j].1.consumable == Flag(false) {
      if j > 0 { assert r[j] == sources[j]; }
    }
  }

  lemma PutNonConsumable(t: Table<Source>, k: string, s: Source)
    requires s.consumable == Flag(false)
    requires forall j :: 0 <= j < |t| ==> t[j].1.consumable == Flag(false)
    ensures var r := Put(t, k, s);
      forall j :: 0 <= j < |r| ==> r[j].1.consumable == Flag(false)
  {
  }
}
