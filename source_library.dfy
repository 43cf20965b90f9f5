/**
 * `SourceLibrary`: the catalog of one game system after loading, its
 * case-insensitive source lookup, the `ignoreEquipment` short-circuit, and
 * the factory `load` that defaults the user catalog, merges it over the
 * common one and selects the requested system or falls back to "default".
 */
module SourceLibraries {
  import opened Tables
  import opened Entries
  import opened Defaults
  import opened Fallback
  import opened Merging
  import opened Catalogs
  import opened MergeProperties

  /** `toLowerCase` on one character, for the ASCII letters. */
  function LowerChar(c: char): char {
    if 'A' <= c <= 'Z' then (c as int + 32) as char else c
  }

  function Lower(s: string): (r: string)
    ensures |r| == |s|
    ensures forall i :: 0 <= i < |s| ==> r[i] == LowerChar(s[i])
    ensures forall i :: 0 <= i < |r| ==> !('A' <= r[i] <= 'Z')
  {
    seq(|s|, i requires 0 <= i < |s| => LowerChar(s[i]))
  }

  /** The value of the first key equal to `name` ignoring case, or nothing when no key is. */
  function FirstMatch(t: seq<(string, Source)>, name: string): (r: Option<Source>)
    ensures r.Some? ==> exists i :: 0 <= i < |t| && Lower(t[i].0) == Lower(name) && r.value == t[i].1
  {
    if |t| == 0 then None
    else if Lower(t[0].0) == Lower(name) then Some(t[0].1)
    else
      assert forall i :: 0 <= i < |t| - 1 ==> t[1..][i] == t[i + 1];
      FirstMatch(t[1..], name)
  }

  /**
   * `FirstMatch` finds nothing exactly when no key matches ignoring case,
   * and otherwise the value of the first key that does.
   */
  lemma {:induction false} FirstMatchSpec(t: seq<(string, Source)>, name: string)
    ensures var r := FirstMatch(t, name);
      && (r.None? <==> forall i :: 0 <= i < |t| ==> Lower(t[i].0) != Lower(name))
      && (r.Some? ==>
            exists i :: 0 <= i < |t| && Lower(t[i].0) == Lower(name) && r.value == t[i].1 &&
              forall j :: 0 <= j < i ==> Lower(t[j].0) != Lower(name))
  {
    if |t| > 0 && Lower(t[0].0) != Lower(name) {
      var r := FirstMatch(t[1..], name);
      FirstMatchSpec(t[1..], name);
      assert forall i :: 1 <= i < |t| ==> t[i] == t[1..][i - 1];
      if r.Some? {
        var i :| 0 <= i < |t[1..]| && Lower(t[1..][i].0) == Lower(name) && r.value == t[1..][i].1 &&
          forall j :: 0 <= j < i ==> Lower(t[1..][j].0) != Lower(name);
        assert Lower(t[i + 1].0) == Lower(name) && r.value == t[i + 1].1;
        assert forall j :: 0 <= j < i + 1 ==> Lower(t[j].0) != Lower(name);
      }
    }
  }

  /** A key of the table is found, as itself, unless an earlier key differs from it only in case. */
  lemma FirstMatchOfKey(t: Table<Source>, name: string)
    requires name in Keys(t)
    requires forall j :: 0 <= j < KeyIndex(t, name) ==> Lower(t[j].0) != Lower(name)
    ensures FirstMatch(t, name) == Find(t, name)
  {
    var i := KeyIndex(t, name);
    var r := FirstMatch(t, name);
    FirstMatchSpec(t, name);
    assert Lower(t[i].0) == Lower(name);
    var p :| 0 <= p < |t| && Lower(t[p].0) == Lower(name) && r.value == t[p].1 &&
      forall j :: 0 <= j < p ==> Lower(t[j].0) != Lower(name);
    assert p == i;
  }

  /** A name in upper case finds the source keyed in lower case. */
  lemma UpperCaseNameFindsTorch(s: Source)
    ensures FirstMatch([("torch", s)], "TORCH") == Some(s)
  {
    assert Lower("TORCH") == "torch";
    assert Lower("torch") == "torch";
  }

  /** What `load` is given for its `userLibrary` argument. */
  datatype UserInput =
      /** A falsy argument: no user catalog. */
    | NoUserInput
      /** A locator or inline text: the data half of what `validateSourceJSON` returns for it. */
    | Validated(validated: Option<Library>)
      /** A catalog passed as an object: its contents when `load` is called. */
    | Literal(literal: Library)

  /** The user catalog handed to the merge: defaulted against the common catalog when there is one. */
  function UserData(input: UserInput, common: Library): (r: Option<Library>)
    requires SourcesPresent(common)
    ensures r.Some? ==> SourcesPresent(r.value)
  {
    match input
    case NoUserInput => Some([])
    case Validated(data) => if data.Some? then Some(FillDefaults(data.value, Some(common))) else None
    case Literal(data) => Some(FillDefaults(data, Some(common)))
  }

  /** The merged catalog `load` selects from. */
  function Merged(input: UserInput, common: Library, ignoreEquipment: bool): (r: Library)
    requires SourcesPresent(common)
    ensures SourcesPresent(r)
    ensures forall k :: k in Keys(r) <==> k in Keys(common) || (UserData(input, common).Some? && k in Keys(UserData(input, common).value))
  {
    DefaultedMergeSafe(UserData(input, common), common);
    MergeSystemKeys(UserData(input, common), common, ignoreEquipment);
    Merge(UserData(input, common), common, ignoreEquipment)
  }

  /**
   * The system entry `load` picks from a merged catalog: the requested
   * system when the catalog has it, else "default" after the fallback
   * update; nothing when `load` throws (no "default", or nothing to retune).
   */
  function Select(merged: Library, systemId: string, selfBright: real, selfDim: real, selfItem: Option<string>): (r: Option<SystemEntry>)
    ensures systemId in Keys(merged) ==> r == Find(merged, systemId)
    ensures systemId !in Keys(merged) && "default" !in Keys(merged) ==> r.None?
    ensures systemId !in Keys(merged) && "default" in Keys(merged) && r.Some? ==>
      r.value.topology == Find(merged, "default").value.topology
  {
    if systemId in Keys(merged) then Find(merged, systemId)
    else if "default" in Keys(merged) then
      var e := Find(merged, "default").value;
      if e.sources.Some? && FallbackDefined(e.sources.value, selfItem) then
        Some(FallbackEntry(e, selfItem, selfBright, selfDim))
      else None
    else None
  }

  /** The system entry `load` wraps, from its arguments. */
  function LoadEntry(systemId: string, selfBright: real, selfDim: real, selfItem: Option<string>,
                     input: UserInput, common: Library, ignoreEquipment: bool): (r: Option<SystemEntry>)
    requires SourcesPresent(common)
    ensures systemId in Keys(common) ==> r.Some?
  {
    MergeSystemKeys(UserData(input, common), common, ignoreEquipment);
    Select(Merged(input, common, ignoreEquipment), systemId, selfBright, selfDim, selfItem)
  }

  class SourceLibrary {
    var library: SystemEntry
    var ignoreEquipment: bool

    constructor (library: SystemEntry)
      ensures this.library == library && !ignoreEquipment
    {
      this.library := library;
      ignoreEquipment := false;
    }

    /** `getLightSource(name)`: a linear search that returns at the first key matching ignoring case. */
    method GetLightSource(name: Option<string>) returns (r: Option<Source>)
      ensures r == if StrFalsy(name) then None else FirstMatch(SourcesOf(library), name.value)
    {
      if !StrFalsy(name) {
        var sources := SourcesOf(library);
        var i := 0;
        while i < |sources|
          invariant 0 <= i <= |sources|
          invariant FirstMatch(sources[i..], name.value) == FirstMatch(sources, name.value)
        {
          if Lower(sources[i].0) == Lower(name.value) {
            return Some(sources[i].1);
          }
          assert sources[i..][1..] == sources[i + 1..];
          i := i + 1;
        }
      }
      return None;
    }

    /**
     * `actorHasLightSource(actor, name)`: true when equipment is ignored,
     * otherwise what the topology says about the looked-up source.
     */
    method ActorHasLightSource(topologyHas: Option<Source> -> bool, name: Option<string>) returns (r: bool)
      ensures ignoreEquipment ==> r
      ensures !ignoreEquipment ==> r == topologyHas(if StrFalsy(name) then None else FirstMatch(SourcesOf(library), name.value))
    {
      var source := GetLightSource(name);
      r := ignoreEquipment || topologyHas(source);
    }
  }

  /**
   * The first half of `load`: the user catalog as the merge receives it. A
   * catalog passed as an object is `userObject`, the caller's own, and is
   * defaulted in place; a fetched one is a fresh object.
   */
  method DefaultUserData(input: UserInput, userObject: Catalog?, common: Library) returns (userData: Option<Library>)
    requires SourcesPresent(common)
    requires input.Literal? ==> userObject != null && userObject.systems == input.literal
    modifies userObject
    ensures userData == UserData(input, common)
    ensures input.Literal? ==> userObject.systems == FillDefaults(input.literal, Some(common))
    ensures !input.Literal? && userObject != null ==> unchanged(userObject)
  {
    if input.NoUserInput? {
      userData := Some([]);
    } else if input.Validated? {
      userData := input.validated;
      if userData.Some? {
        var catalog := new Catalog(userData.value);
        catalog.ApplyFieldDefaults(Some(common));
        userData := Some(catalog.systems);
      }
    } else {
      userObject.ApplyFieldDefaults(Some(common));
      userData := Some(userObject.systems);
    }
  }

  /** The selection at the end of `load`, on the merged catalog. */
  method SelectSystem(merged: Library, systemId: string, selfBright: real, selfDim: real, selfItem: Option<string>,
                      ignoreEquipment: bool) returns (r: SourceLibrary?)
    ensures r == null <==> Select(merged, systemId, selfBright, selfDim, selfItem).None?
    ensures r != null ==>
      && fresh(r)
      && r.library == Select(merged, systemId, selfBright, selfDim, selfItem).value
      && r.ignoreEquipment == ignoreEquipment
  {
    if systemId in Keys(merged) {
      r := new SourceLibrary(Find(merged, systemId).value);
      r.ignoreEquipment := ignoreEquipment;
    } else if "default" !in Keys(merged) {
      r := null;
    } else {
      var e := Find(merged, "default").value;
      if e.sources.None? || !FallbackDefined(e.sources.value, selfItem) {
        r := null;
      } else {
        var catalog := new Catalog(merged);
        catalog.UpdateFallbackLightSource("default", selfItem, selfBright, selfDim);
        PutFind(merged, "default", FallbackEntry(e, selfItem, selfBright, selfDim), "default");
        r := new SourceLibrary(Find(catalog.systems, "default").value);
        r.ignoreEquipment := ignoreEquipment;
      }
    }
  }

  /**
   * `SourceLibrary.load`; `null` stands for the TypeError thrown when there
   * is nothing to fall back on. A catalog passed as an object, `userObject`,
   * is left defaulted against the common catalog.
   */
  method Load(systemId: string, selfBright: real, selfDim: real, selfItem: Option<string>,
              input: UserInput, userObject: Catalog?, common: Library, ignoreEquipment: bool) returns (r: SourceLibrary?)
    requires SourcesPresent(common)
    requires input.Literal? ==> userObject != null && userObject.systems == input.literal
    modifies userObject
    ensures r == null <==> LoadEntry(systemId, selfBright, selfDim, selfItem, input, common, ignoreEquipment).None?
    ensures r != null ==>
      && fresh(r)
      && r.library == LoadEntry(systemId, selfBright, selfDim, selfItem, input, common, ignoreEquipment).value
      && r.ignoreEquipment == ignoreEquipment
    ensures input.Literal? ==> userObject.systems == FillDefaults(input.literal, Some(common))
    ensures !input.Literal? && userObject != null ==> unchanged(userObject)
  {
    var userData := DefaultUserData(input, userObject, common);
    DefaultedMergeSafe(userData, common);
    var merged := MergeLibraries(userData, common, ignoreEquipment);
    r := SelectSystem(merged, systemId, selfBright, selfDim, selfItem, ignoreEquipment);
  }
}
