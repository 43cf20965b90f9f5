/**
 * `mergeLibraries(userLibrary, commonLibrary, nothingIsConsumable)`: a new
 * catalog whose systems are the common ones followed by those only the user
 * has, whose top-level fields come from the common catalog when it has the
 * system, and whose sources are the user's copies followed by copies of the
 * common sources the user does not override.
 */
module Merging {
  import opened Tables
  import opened Entries

  /**
   * `Object.assign({}, light)`: a shallow copy; a missing light becomes the
   * empty object, modelled as an empty level sequence.
   */
  function CopyLight(l: Light): (r: Light)
    ensures !r.NoLight?
    ensures l.NoLight? ==> r == Levels([])
    ensures !l.NoLight? ==> r == l
  {
    match l
    case NoLight => Levels([])
    case Single(level) => Single(level)
    case Levels(levels) => Levels(levels)
  }

  /** The copy of one source written into the merged catalog. */
  function CopySource(s: Source, nothingIsConsumable: bool): (r: Source)
    ensures r.name == s.name && r.kind == s.kind && r.states == s.states
    ensures nothingIsConsumable ==> r.consumable == Flag(false)
    ensures !nothingIsConsumable ==> r.consumable == s.consumable
    ensures r.light == CopyLight(s.light)
  {
    Source(s.name, s.kind, if nothingIsConsumable then Flag(false) else s.consumable, s.states, CopyLight(s.light))
  }

  function CopyAll(t: Table<Source>, nothingIsConsumable: bool): (r: Table<Source>)
    ensures Keys(r) == Keys(t)
    ensures forall i :: 0 <= i < |t| ==> r[i].1 == CopySource(t[i].1, nothingIsConsumable)
  {
    var r := seq(|t|, i requires 0 <= i < |t| => (t[i].0, CopySource(t[i].1, nothingIsConsumable)));
    assert forall i :: 0 <= i < |t| ==> r[i].0 == t[i].0;
    r
  }

  /** The top-level fields of an entry, with an empty `sources` object. */
  function Top(e: SystemEntry): (r: SystemEntry)
    ensures r.system == e.system && r.topology == e.topology && r.quantity == e.quantity
    ensures r.sources == Some([]) && r.aliases.None?
  {
    SystemEntry(e.system, e.topology, e.quantity, Some([]), None)
  }

  function Tops(lib: Library): (r: Library)
    ensures Keys(r) == Keys(lib)
    ensures forall i :: 0 <= i < |lib| ==> r[i].1 == Top(lib[i].1)
  {
    var r := seq(|lib|, i requires 0 <= i < |lib| => (lib[i].0, Top(lib[i].1)));
    assert forall i :: 0 <= i < |lib| ==> r[i].0 == lib[i].0;
    r
  }

  /** The merged catalog's systems before their sources are filled in. */
  function MergedSystems(user: Option<Library>, common: Library): (r: Library)
    ensures |common| <= |r| && forall i :: 0 <= i < |common| ==> r[i] == (common[i].0, Top(common[i].1))
  {
    if user.None? then Tops(common)
    else Append(Tops(common), Tops(Without(user.value, Keys(common))))
  }

  /** The user's sources for system `k`; nothing when the user lacks the system. */
  function UserSources(user: Option<Library>, k: string): Table<Source> {
    if user.Some? && k in Keys(user.value) then SourcesOf(Find(user.value, k).value) else []
  }

  /** The common catalog's sources for system `k`. */
  function CommonSources(common: Library, k: string): Table<Source> {
    if k in Keys(common) then SourcesOf(Find(common, k).value) else []
  }

  /** The merged sources of system `k`. */
  function MergedSources(user: Option<Library>, common: Library, k: string, nothingIsConsumable: bool): (r: Table<Source>)
    ensures |r| == |UserSources(user, k)| + |Without(CommonSources(common, k), Keys(UserSources(user, k)))|
    ensures forall i :: 0 <= i < |UserSources(user, k)| ==>
      r[i] == (UserSources(user, k)[i].0, CopySource(UserSources(user, k)[i].1, nothingIsConsumable))
  {
    var us := UserSources(user, k);
    Append(CopyAll(us, nothingIsConsumable), CopyAll(Without(CommonSources(common, k), Keys(us)), nothingIsConsumable))
  }

  function Merge(user: Option<Library>, common: Library, nothingIsConsumable: bool): (r: Library)
    ensures Keys(r) == Keys(MergedSystems(user, common))
    ensures SourcesPresent(r)
  {
    var systems := MergedSystems(user, common);
    var r := seq(|systems|, i requires 0 <= i < |systems| =>
      (systems[i].0, systems[i].1.(sources := Some(MergedSources(user, common, systems[i].0, nothingIsConsumable)))));
    assert forall i :: 0 <= i < |systems| ==> r[i].0 == systems[i].0;
    r
  }

  lemma MergeAt(user: Option<Library>, common: Library, nothingIsConsumable: bool, i: int)
    requires 0 <= i < |MergedSystems(user, common)|
    ensures
      var e := MergedSystems(user, common)[i];
      Merge(user, common, nothingIsConsumable)[i] == (e.0, e.1.(sources := Some(MergedSources(user, common, e.0, nothingIsConsumable))))
  {
  }

  /**
   * The merge does not throw: `source in userLibrary[system].sources` is only
   * evaluated on a user system without sources when the common catalog has
   * no sources for that system.
   */
  predicate MergeSafe(user: Option<Library>, common: Library) {
    user.Some? ==>
      forall i :: 0 <= i < |user.value| && user.value[i].1.sources.None? ==>
        CommonSources(common, user.value[i].0) == []
  }

  lemma CopyAllSnoc(t: Table<Source>, e: (string, Source), nothingIsConsumable: bool)
    requires e.0 !in Keys(t)
    ensures DistinctKeys(t + [e])
    ensures CopyAll(t + [e], nothingIsConsumable) == CopyAll(t, nothingIsConsumable) + [(e.0, CopySource(e.1, nothingIsConsumable))]
  {
    AppendOne(t, e, e.0);
  }

  /** One step of the common-source loop: a source the user lacks is appended, any other is skipped. */
  lemma AddCommonStep(acc: Table<Source>, us: Table<Source>, cs: Table<Source>, j: int, nothingIsConsumable: bool)
    requires acc == CopyAll(us, nothingIsConsumable)
    requires 0 <= j < |cs|
    requires DistinctKeys(acc + CopyAll(Without(Take(cs, j), Keys(us)), nothingIsConsumable))
    ensures var s: Table<Source> := acc + CopyAll(Without(Take(cs, j), Keys(us)), nothingIsConsumable);
      acc + CopyAll(Without(Take(cs, j + 1), Keys(us)), nothingIsConsumable) ==
        if cs[j].0 in Keys(us) then s else Put(s, cs[j].0, CopySource(cs[j].1, nothingIsConsumable))
  {
    var rest := Without(Take(cs, j), Keys(us));
    WithoutStep(cs, Keys(us), j);
    if cs[j].0 !in Keys(us) {
      assert Without(Take(cs, j + 1), Keys(us)) == rest + [cs[j]];
      AddCommonNew(acc, rest, cs[j], nothingIsConsumable);
    }
  }

  /** Appending one new source to the common part puts its copy at the end. */
  lemma AddCommonNew(acc: Table<Source>, rest: Table<Source>, e: (string, Source), nothingIsConsumable: bool)
    requires DistinctKeys(acc + CopyAll(rest, nothingIsConsumable))
    requires e.0 !in Keys(rest) && e.0 !in Keys(acc)
    ensures acc + CopyAll(rest + [e], nothingIsConsumable) ==
      Put(acc + CopyAll(rest, nothingIsConsumable), e.0, CopySource(e.1, nothingIsConsumable))
  {
    var copied := CopyAll(rest, nothingIsConsumable);
    var s: Table<Source> := acc + copied;
    var c := (e.0, CopySource(e.1, nothingIsConsumable));
    KeysConcat(acc, copied);
    assert e.0 !in Keys(s);
    CopyAllSnoc(rest, e, nothingIsConsumable);
    assert acc + (copied + [c]) == s + [c];
  }

  lemma TopsSnoc(t: Library, e: (string, SystemEntry))
    requires e.0 !in Keys(t)
    ensures DistinctKeys(t + [e])
    ensures Tops(t + [e]) == Tops(t) + [(e.0, Top(e.1))]
  {
    AppendOne(t, e, e.0);
  }

  /** One step of the user-system loop: a system the common catalog lacks is appended, any other is skipped. */
  lemma AddUserStep(tops: Library, u: Library, common: Library, i: int)
    requires tops == Tops(common)
    requires 0 <= i < |u|
    requires DistinctKeys(tops + Tops(Without(Take(u, i), Keys(common))))
    ensures var s: Library := tops + Tops(Without(Take(u, i), Keys(common)));
      tops + Tops(Without(Take(u, i + 1), Keys(common))) ==
        if u[i].0 in Keys(common) then s else Put(s, u[i].0, Top(u[i].1))
  {
    var rest := Without(Take(u, i), Keys(common));
    WithoutStep(u, Keys(common), i);
    if u[i].0 !in Keys(common) {
      assert Without(Take(u, i + 1), Keys(common)) == rest + [u[i]];
      AddUserNew(tops, rest, u[i]);
    }
  }

  /** Appending one new system to the user part puts its top-level fields at the end. */
  lemma AddUserNew(tops: Library, rest: Library, e: (string, SystemEntry))
    requires DistinctKeys(tops + Tops(rest))
    requires e.0 !in Keys(rest) && e.0 !in Keys(tops)
    ensures tops + Tops(rest + [e]) == Put(tops + Tops(rest), e.0, Top(e.1))
  {
    KeysConcat(tops, Tops(rest));
    TopsSnoc(rest, e);
  }

  /** The first two loops of `mergeLibraries`: the systems and their top-level fields. */
  method MergeSystems(user: Option<Library>, common: Library) returns (merged: Library)
    ensures merged == MergedSystems(user, common)
  {
    merged := CommonSystems(common);
    if user.Some? {
      merged := AddUserSystems(merged, user.value, common);
    }
  }

  /** The loop over the common systems: each one's top-level fields, in order. */
  method CommonSystems(common: Library) returns (merged: Library)
    ensures merged == Tops(common)
  {
    merged := [];
    for i := 0 to |common|
      invariant |merged| == i
      invariant forall j :: 0 <= j < i ==> merged[j] == (common[j].0, Top(common[j].1))
    {
      assert forall j :: 0 <= j < i ==> Keys(merged)[j] != common[i].0;
      merged := Put(merged, common[i].0, Top(common[i].1));
    }
  }

  /** The loop over the user's systems, skipping those the common catalog has. */
  method AddUserSystems(tops: Library, u: Library, common: Library) returns (merged: Library)
    requires tops == Tops(common)
    ensures merged == Append(tops, Tops(Without(u, Keys(common))))
  {
    merged := tops;
    for i := 0 to |u|
      invariant merged == tops + Tops(Without(Take(u, i), Keys(common)))
    {
      AddUserStep(tops, u, common, i);
      if u[i].0 !in Keys(common) {
        merged := Put(merged, u[i].0, Top(u[i].1));
      }
    }
    assert Take(u, |u|) == u;
  }

  /** `mergeLibraries`. */
  method MergeLibraries(user: Option<Library>, common: Library, nothingIsConsumable: bool) returns (merged: Library)
    requires MergeSafe(user, common)
    ensures merged == Merge(user, common, nothingIsConsumable)
  {
    merged := MergeSystems(user, common);
    ghost var systems := merged;
    ghost var target := Merge(user, common, nothingIsConsumable);
    for i := 0 to |merged|
      invariant |merged| == |systems| == |target|
      invariant forall j :: 0 <= j < i ==> merged[j] == target[j]
      invariant forall j :: i <= j < |merged| ==> merged[j] == systems[j]
    {
      MergeAt(user, common, nothingIsConsumable, i);
      var sources := MergeSystemSources(user, common, merged[i].0, nothingIsConsumable);
      merged := SetAt(merged, i, merged[i].1.(sources := Some(sources)));
    }
  }

  /** The body of the source loop of `mergeLibraries`, for one system. */
  method MergeSystemSources(user: Option<Library>, common: Library, system: string, nothingIsConsumable: bool)
    returns (sources: Table<Source>)
    ensures sources == MergedSources(user, common, system, nothingIsConsumable)
  {
    var us := UserSources(user, system);
    sources := CopySources(us, nothingIsConsumable);
    if system in Keys(common) {
      sources := AddCommonSources(sources, us, SourcesOf(Find(common, system).value), nothingIsConsumable);
    } else {
      assert Without(CommonSources(common, system), Keys(us)) == [];
    }
  }

  /** The loop over the user's sources of one system. */
  method CopySources(us: Table<Source>, nothingIsConsumable: bool) returns (sources: Table<Source>)
    ensures sources == CopyAll(us, nothingIsConsumable)
  {
    sources := [];
    for j := 0 to |us|
      invariant |sources| == j
      invariant forall p :: 0 <= p < j ==> sources[p] == (us[p].0, CopySource(us[p].1, nothingIsConsumable))
    {
      assert forall p :: 0 <= p < j ==> Keys(sources)[p] != us[j].0;
      sources := Put(sources, us[j].0, CopySource(us[j].1, nothingIsConsumable));
    }
  }

  /** The loop over the common sources of one system, skipping those the user has. */
  method AddCommonSources(acc: Table<Source>, us: Table<Source>, cs: Table<Source>, nothingIsConsumable: bool)
    returns (sources: Table<Source>)
    requires acc == CopyAll(us, nothingIsConsumable)
    ensures sources == Append(acc, CopyAll(Without(cs, Keys(us)), nothingIsConsumable))
  {
    sources := acc;
    for j := 0 to |cs|
      invariant sources == acc + CopyAll(Without(Take(cs, j), Keys(us)), nothingIsConsumable)
    {
      AddCommonStep(acc, us, cs, j, nothingIsConsumable);
      if cs[j].0 !in Keys(us) {
        sources := Put(sources, cs[j].0, CopySource(cs[j].1, nothingIsConsumable));
      }
    }
    assert Take(cs, |cs|) == cs;
  }
}
