/**
 * What the merged catalog holds: which systems, whose top-level fields,
 * which sources, and that the user's sources override the common ones.
 */
module MergeProperties {
  import opened Tables
  import opened Entries
  import opened Merging

  lemma TopsFind(lib: Library, k: string)
    ensures Find(Tops(lib), k) == if k in Keys(lib) then Some(Top(Find(lib, k).value)) else None
  {
    if k in Keys(lib) {
      var i := KeyIndex(lib, k);
      FindAt(lib, i);
      FindAt(Tops(lib), i);
    }
  }

  lemma CopyAllFind(t: Table<Source>, nothingIsConsumable: bool, k: string)
    ensures Find(CopyAll(t, nothingIsConsumable), k) ==
      if k in Keys(t) then Some(CopySource(Find(t, k).value, nothingIsConsumable)) else None
  {
    if k in Keys(t) {
      var i := KeyIndex(t, k);
      FindAt(t, i);
      FindAt(CopyAll(t, nothingIsConsumable), i);
    }
  }

  lemma MergedSystemsFind(user: Option<Library>, common: Library, k: string)
    ensures Find(MergedSystems(user, common), k) ==
      if k in Keys(common) then Some(Top(Find(common, k).value))
      else if user.Some? && k in Keys(user.value) then Some(Top(Find(user.value, k).value))
      else None
  {
    TopsFind(common, k);
    if user.Some? {
      var rest := Without(user.value, Keys(common));
      AppendFind(Tops(common), Tops(rest), k);
      TopsFind(rest, k);
      if k !in Keys(common) {
        WithoutFind(user.value, Keys(common), k);
      }
    }
  }

  lemma MergeFind(user: Option<Library>, common: Library, nothingIsConsumable: bool, k: string)
    ensures Find(Merge(user, common, nothingIsConsumable), k) ==
      match Find(MergedSystems(user, common), k)
      case None => None
      case Some(e) => Some(e.(sources := Some(MergedSources(user, common, k, nothingIsConsumable))))
  {
    var m := Merge(user, common, nothingIsConsumable);
    var systems := MergedSystems(user, common);
    SameKeysSameIndex(m, systems, k);
    if k in Keys(systems) {
      var i := KeyIndex(systems, k);
      FindAt(systems, i);
      FindAt(m, i);
      MergeAt(user, common, nothingIsConsumable, i);
    }
  }

  /**
   * The merged catalog has exactly the systems of either catalog, the common
   * ones first and in their order.
   */
  lemma MergeSystemKeys(user: Option<Library>, common: Library, nothingIsConsumable: bool)
    ensures var m := Merge(user, common, nothingIsConsumable);
      && (forall k :: k in Keys(m) <==> k in Keys(common) || (user.Some? && k in Keys(user.value)))
      && |common| <= |m|
      && Keys(m)[..|common|] == Keys(common)
  {
    var m := Merge(user, common, nothingIsConsumable);
    forall k ensures k in Keys(m) <==> k in Keys(common) || (user.Some? && k in Keys(user.value)) {
      MergedSystemsFind(user, common, k);
    }
    if user.Some? {
      var ks := Keys(Tops(common));
      assert Keys(m) == ks + Keys(Tops(Without(user.value, Keys(common))));
      assert Keys(m)[..|common|] == ks;
    }
  }

  /**
   * A merged system takes `system`, `topology` and `quantity` from the common
   * catalog when that has it, else from the user's; it carries no aliases
   * and its sources are the merged sources.
   */
  lemma MergeSystemFields(user: Option<Library>, common: Library, nothingIsConsumable: bool, k: string)
    requires k in Keys(common) || (user.Some? && k in Keys(user.value))
    ensures var e := Find(Merge(user, common, nothingIsConsumable), k);
      var from := if k in Keys(common) then Find(common, k).value else Find(user.value, k).value;
      && e.Some?
      && e.value.system == from.system
      && e.value.topology == from.topology
      && e.value.quantity == from.quantity
      && e.value.aliases.None?
      && e.value.sources == Some(MergedSources(user, common, k, nothingIsConsumable))
  {
    MergedSystemsFind(user, common, k);
    MergeFind(user, common, nothingIsConsumable, k);
  }

  /**
   * The merged sources of a system are the user's and the common ones: the
   * user's first, in their order.
   */
  lemma MergedSourceKeys(user: Option<Library>, common: Library, k: string, nothingIsConsumable: bool)
    ensures var ms, us := MergedSources(user, common, k, nothingIsConsumable), UserSources(user, k);
      && (forall s :: s in Keys(ms) <==> s in Keys(us) || s in Keys(CommonSources(common, k)))
      && |us| <= |ms|
      && Keys(ms)[..|us|] == Keys(us)
  {
    var us := UserSources(user, k);
    var ms := MergedSources(user, common, k, nothingIsConsumable);
    assert Keys(ms) == Keys(us) + Keys(Without(CommonSources(common, k), Keys(us)));
    assert Keys(ms)[..|us|] == Keys(us);
  }

  /** A source the user defines is the user's, copied whole: no field comes from the common catalog. */
  lemma UserSourceWins(user: Option<Library>, common: Library, nothingIsConsumable: bool, k: string, s: string)
    requires s in Keys(UserSources(user, k))
    ensures Find(MergedSources(user, common, k, nothingIsConsumable), s) ==
      Some(CopySource(Find(UserSources(user, k), s).value, nothingIsConsumable))
  {
    var us := UserSources(user, k);
    var rest := Without(CommonSources(common, k), Keys(us));
    AppendFind(CopyAll(us, nothingIsConsumable), CopyAll(rest, nothingIsConsumable), s);
    CopyAllFind(us, nothingIsConsumable, s);
  }

  /** A common source the user does not define is the common one, copied. */
  lemma CommonSourceFills(user: Option<Library>, common: Library, nothingIsConsumable: bool, k: string, s: string)
    requires s in Keys(CommonSources(common, k)) && s !in Keys(UserSources(user, k))
    ensures Find(MergedSources(user, common, k, nothingIsConsumable), s) ==
      Some(CopySource(Find(CommonSources(common, k), s).value, nothingIsConsumable))
  {
    var us := UserSources(user, k);
    var cs := CommonSources(common, k);
    var rest := Without(cs, Keys(us));
    AppendFind(CopyAll(us, nothingIsConsumable), CopyAll(rest, nothingIsConsumable), s);
    CopyAllFind(rest, nothingIsConsumable, s);
    WithoutFind(cs, Keys(us), s);
  }

  /** With `nothingIsConsumable` every merged source of every system is non-consumable. */
  lemma NothingConsumable(user: Option<Library>, common: Library, k: string)
    ensures var ms := MergedSources(user, common, k, true);
      forall j :: 0 <= j < |ms| ==> ms[j].1.consumable == Flag(false)
  {
    var us := UserSources(user, k);
    var a: seq<(string, Source)> := CopyAll(us, true);
    var b: seq<(string, Source)> := CopyAll(Without(CommonSources(common, k), Keys(us)), true);
    var ab := a + b;
    forall j | 0 <= j < |ab| ensures ab[j].1.consumable == Flag(false) {
      if j < |a| { assert ab[j] == a[j]; } else { assert ab[j] == b[j - |a|]; }
    }
  }

  /** A defaulted user catalog carries sources everywhere, so the merge does not throw. */
  lemma DefaultedMergeSafe(user: Option<Library>, common: Library)
    requires user.Some? ==> SourcesPresent(user.value)
    ensures MergeSafe(user, common)
  {
  }
}
