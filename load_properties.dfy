/**
 * What `load` hands back: the requested system untouched by the fallback
 * update, or the "default" system with its first source replaced or
 * retuned, and with equipment ignored nothing consumable either way.
 */
module LoadProperties {
  import opened Tables
  import opened Entries
  import opened Fallback
  import opened Merging
  import opened MergeProperties
  import opened SourceLibraries

  /** Whether the user catalog as merged has system `k`. */
  predicate UserHas(input: UserInput, common: Library, k: string)
    requires SourcesPresent(common)
  {
    var ud := UserData(input, common);
    ud.Some? && k in Keys(ud.value)
  }

  /** A system either catalog has is loaded as merged: the fallback update does not touch it. */
  lemma LoadRequestedSystem(systemId: string, selfBright: real, selfDim: real, selfItem: Option<string>,
                            input: UserInput, common: Library, ignoreEquipment: bool)
    requires SourcesPresent(common)
    requires systemId in Keys(common) || UserHas(input, common, systemId)
    ensures var e := LoadEntry(systemId, selfBright, selfDim, selfItem, input, common, ignoreEquipment);
      && e.Some?
      && e.value.sources == Some(MergedSources(UserData(input, common), common, systemId, ignoreEquipment))
      && e.value.topology ==
           (if systemId in Keys(common) then Find(common, systemId).value.topology
            else Find(UserData(input, common).value, systemId).value.topology)
  {
    var ud := UserData(input, common);
    MergeSystemKeys(ud, common, ignoreEquipment);
    MergeSystemFields(ud, common, ignoreEquipment, systemId);
  }

  /** The fallback path: neither catalog has the requested system but the common one has "default". */
  predicate FallsBack(systemId: string, input: UserInput, common: Library)
    requires SourcesPresent(common)
  {
    systemId !in Keys(common) && !UserHas(input, common, systemId) && "default" in Keys(common)
  }

  /** Facts about the merged "default" entry on the fallback path. */
  lemma MergedDefault(systemId: string, input: UserInput, common: Library, ignoreEquipment: bool)
    requires SourcesPresent(common) && FallsBack(systemId, input, common)
    ensures var merged := Merged(input, common, ignoreEquipment);
      && systemId !in Keys(merged)
      && "default" in Keys(merged)
      && Find(merged, "default").value.sources == Some(MergedSources(UserData(input, common), common, "default", ignoreEquipment))
      && Find(merged, "default").value.topology == Find(common, "default").value.topology
  {
    var ud := UserData(input, common);
    MergeSystemKeys(ud, common, ignoreEquipment);
    MergeSystemFields(ud, common, ignoreEquipment, "default");
  }

  /** On the fallback path `load` yields the merged "default" entry after the fallback update, when that is defined. */
  lemma FallbackLoad(systemId: string, selfBright: real, selfDim: real, selfItem: Option<string>,
                     input: UserInput, common: Library, ignoreEquipment: bool)
    requires SourcesPresent(common) && FallsBack(systemId, input, common)
    ensures var e := Find(Merged(input, common, ignoreEquipment), "default").value;
      var ms := MergedSources(UserData(input, common), common, "default", ignoreEquipment);
      && e.sources == Some(ms)
      && e.topology == Find(common, "default").value.topology
      && LoadEntry(systemId, selfBright, selfDim, selfItem, input, common, ignoreEquipment) ==
           (if FallbackDefined(ms, selfItem) then Some(FallbackEntry(e, selfItem, selfBright, selfDim)) else None)
  {
    MergedDefault(systemId, input, common, ignoreEquipment);
  }

  /**
   * On the fallback path with a self-light item, `load` always succeeds and
   * its system maps the item to the self-light source.
   */
  lemma LoadFallbackWithItem(systemId: string, selfBright: real, selfDim: real, selfItem: Option<string>,
                             input: UserInput, common: Library, ignoreEquipment: bool)
    requires SourcesPresent(common) && FallsBack(systemId, input, common)
    requires !StrFalsy(selfItem)
    ensures var e := LoadEntry(systemId, selfBright, selfDim, selfItem, input, common, ignoreEquipment);
      && e.Some?
      && e.value.topology == Find(common, "default").value.topology
      && Find(SourcesOf(e.value), selfItem.value) == Some(SelfSource(selfItem.value, selfBright, selfDim))
  {
    FallbackLoad(systemId, selfBright, selfDim, selfItem, input, common, ignoreEquipment);
    var ms := MergedSources(UserData(input, common), common, "default", ignoreEquipment);
    FallbackReplacesFirst(ms, selfItem, selfBright, selfDim);
  }

  /**
   * On the fallback path without an item, `load` succeeds exactly when the
   * first merged "default" source has a first light level, and then keeps
   * every key and changes only that level's radii.
   */
  lemma LoadFallbackRetune(systemId: string, selfBright: real, selfDim: real, selfItem: Option<string>,
                           input: UserInput, common: Library, ignoreEquipment: bool)
    requires SourcesPresent(common) && FallsBack(systemId, input, common)
    requires StrFalsy(selfItem)
    ensures var e := LoadEntry(systemId, selfBright, selfDim, selfItem, input, common, ignoreEquipment);
      var ms := MergedSources(UserData(input, common), common, "default", ignoreEquipment);
      && (e.Some? <==> Retunable(ms))
      && (e.Some? ==>
            && Keys(SourcesOf(e.value)) == Keys(ms)
            && SourcesOf(e.value)[1..] == ms[1..]
            && SourcesOf(e.value)[0].1.light.levels[0] == LightLevel(selfBright, selfDim, ms[0].1.light.levels[0].angle))
  {
    FallbackLoad(systemId, selfBright, selfDim, selfItem, input, common, ignoreEquipment);
    var ms := MergedSources(UserData(input, common), common, "default", ignoreEquipment);
    if Retunable(ms) {
      FallbackRetunesFirst(ms, selfItem, selfBright, selfDim);
    }
  }

  /** With `ignoreEquipment` no source of the loaded system is consumable, on either path. */
  lemma LoadIgnoringEquipment(systemId: string, selfBright: real, selfDim: real, selfItem: Option<string>,
                              input: UserInput, common: Library)
    requires SourcesPresent(common)
    ensures var e := LoadEntry(systemId, selfBright, selfDim, selfItem, input, common, true);
      e.Some? ==> forall j :: 0 <= j < |SourcesOf(e.value)| ==> SourcesOf(e.value)[j].1.consumable == Flag(false)
  {
    var ud := UserData(input, common);
    var merged := Merged(input, common, true);
    var e := LoadEntry(systemId, selfBright, selfDim, selfItem, input, common, true);
    MergeSystemKeys(ud, common, true);
    if e.Some? {
      var k := if systemId in Keys(merged) then systemId else "default";
      MergeSystemFields(ud, common, true, k);
      var ms := MergedSources(ud, common, k, true);
      NothingConsumable(ud, common, k);
      if systemId !in Keys(merged) {
        FallbackKeepsNonConsumable(ms, selfItem, selfBright, selfDim);
      }
    }
  }
}
