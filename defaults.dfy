/**
 * The defaulting pass of `SourceLibrary.applyFieldDefaults`, as pure
 * functions: what a catalog looks like after the pass, given the reference
 * catalog it is defaulted against (none for the common catalog itself).
 * The in-place method that performs the pass is `Catalogs.Catalog.ApplyFieldDefaults`.
 */
module Defaults {
  import opened Tables
  import opened Entries

  /** `ref ? ref.sources[key] : null`. */
  function RefSource(rs: Option<Table<Source>>, key: string): (r: Option<Source>)
    ensures r.Some? <==> rs.Some? && key in Keys(rs.value)
  {
    if rs.Some? then Find(rs.value, key) else None
  }

  /** `reference && hasOwnProperty(reference, key) ? reference[key] : null`. */
  function RefSystem(reference: Option<Library>, key: string): (r: Option<SystemEntry>)
    ensures r.Some? <==> reference.Some? && key in Keys(reference.value)
  {
    if reference.Some? then Find(reference.value, key) else None
  }

  /** The sources of the reference system for `key`, if there is one. */
  function RefSources(reference: Option<Library>, key: string): (rs: Option<Table<Source>>)
    requires reference.Some? ==> SourcesPresent(reference.value)
    ensures rs.Some? <==> RefSystem(reference, key).Some?
  {
    var r := RefSystem(reference, key);
    if r.Some? then r.value.sources else None
  }

  /** The "true"/"false" strings become booleans; anything else is kept. */
  function Coerce(c: Consumable): (r: Consumable)
    ensures !r.FlagString?
    ensures c.FlagString? ==> r == Flag(c.value)
    ensures !c.FlagString? ==> r == c
  {
    if c.FlagString? then Flag(c.value) else c
  }

  /**
   * Defaults of one source under key `key`, with `refsrc` the same-keyed
   * source of the reference system.
   */
  function FillSource(key: string, s: Source, refsrc: Option<Source>): (r: Source)
    // missing fields are filled from the key, the reference source or the literal defaults
    ensures StrFalsy(s.name) ==> r.name == Some(key)
    ensures StrFalsy(s.kind) ==> r.kind == if refsrc.Some? then refsrc.value.kind else Some("equipment")
    ensures s.consumable.Undefined? ==> r.consumable == if refsrc.Some? then Coerce(refsrc.value.consumable) else Flag(false)
    ensures IntFalsy(s.states) && r.light.Levels? ==> r.states == Some(|r.light.levels| + 1)
    ensures r.light.NoLight? ==> r.states == s.states
    // fields already set keep their value (or, for consumable and light, their meaning)
    ensures !StrFalsy(s.name) ==> r.name == s.name
    ensures !StrFalsy(s.kind) ==> r.kind == s.kind
    ensures !s.consumable.Undefined? ==> r.consumable == Flag(s.consumable.value)
    ensures !IntFalsy(s.states) ==> r.states == s.states
    ensures s.light.Single? ==> r.light == Levels([s.light.level])
    ensures !s.light.Single? ==> r.light == s.light
    // states is derived only from a light sequence, counting one extra "off" state
    ensures r.states != s.states ==> r.light.Levels? && r.states == Some(|r.light.levels| + 1)
    // against a complete reference source (or none) the result is complete
    ensures refsrc.None? || Complete(refsrc.value) ==> Complete(r)
  {
    var name := if StrFalsy(s.name) then Some(key) else s.name;
    var kind := if StrFalsy(s.kind) then (if refsrc.Some? then refsrc.value.kind else Some("equipment")) else s.kind;
    var given := if s.consumable.Undefined? then (if refsrc.Some? then refsrc.value.consumable else Flag(false)) else s.consumable;
    var light := if s.light.Single? then Levels([s.light.level]) else s.light;
    var states := if light.Levels? && IntFalsy(s.states) then Some(|light.levels| + 1) else s.states;
    Source(name, kind, Coerce(given), states, light)
  }

  /** The per-source loop over a system's own sources. */
  function FillSources(srcs: Table<Source>, rs: Option<Table<Source>>): (r: Table<Source>)
    ensures Keys(r) == Keys(srcs)
    ensures forall i :: 0 <= i < |srcs| ==> r[i] == (srcs[i].0, FillSource(srcs[i].0, srcs[i].1, RefSource(rs, srcs[i].0)))
  {
    var r := seq(|srcs|, i requires 0 <= i < |srcs| => (srcs[i].0, FillSource(srcs[i].0, srcs[i].1, RefSource(rs, srcs[i].0))));
    assert forall i :: 0 <= i < |srcs| ==> r[i].0 == srcs[i].0;
    r
  }

  /** An alias target: first among the system's current sources, else among the reference's. */
  function AliasTarget(cur: Table<Source>, target: string, rs: Option<Table<Source>>): (r: Option<Source>)
    ensures target in Keys(cur) ==> r == Find(cur, target)
    ensures target !in Keys(cur) ==> r == RefSource(rs, target)
  {
    var own := Find(cur, target);
    if own.Some? then own else RefSource(rs, target)
  }

  /** One alias `alias.0 -> alias.1`: a copy of the target renamed to the alias, if the target resolves. */
  function AliasStep(cur: Table<Source>, alias: (string, string), rs: Option<Table<Source>>): (r: Table<Source>)
    ensures Keys(cur) <= Keys(r)
    ensures AliasTarget(cur, alias.1, rs).None? ==> r == cur
  {
    var found := AliasTarget(cur, alias.1, rs);
    if found.Some? then Put(cur, alias.0, found.value.(name := Some(alias.0))) else cur
  }

  /** The alias loop, taking the aliases in order. */
  function ResolveAliases(srcs: Table<Source>, aliases: seq<(string, string)>, rs: Option<Table<Source>>): (r: Table<Source>)
    ensures Keys(srcs) <= Keys(r)
    decreases |aliases|
  {
    if aliases == [] then srcs
    else AliasStep(ResolveAliases(srcs, aliases[..|aliases| - 1], rs), aliases[|aliases| - 1], rs)
  }

  /** Defaults of one system entry under key `key`, against reference system `ref`. */
  function FillEntry(key: string, e: SystemEntry, ref: Option<SystemEntry>): (r: SystemEntry)
    requires ref.Some? ==> ref.value.sources.Some?
    // fields already set keep their value
    ensures !StrFalsy(e.system) ==> r.system == e.system
    ensures !StrFalsy(e.topology) ==> r.topology == e.topology
    ensures !StrFalsy(e.quantity) ==> r.quantity == e.quantity
    // missing ones come from the key, the reference system or the literal defaults
    ensures StrFalsy(e.system) ==> r.system == Some(key)
    ensures StrFalsy(e.topology) ==> r.topology == if ref.Some? then ref.value.topology else Some("standard")
    ensures StrFalsy(e.quantity) ==> r.quantity == if ref.Some? then ref.value.quantity else Some("quantity")
    // the aliases stay, and there is always a sources table
    ensures r.aliases == e.aliases && r.sources.Some?
  {
    var rs := if ref.Some? then ref.value.sources else None;
    var filled := FillSources(SourcesOf(e), rs);
    var resolved := if e.aliases.Some? then ResolveAliases(filled, e.aliases.value, rs) else filled;
    SystemEntry(
      if StrFalsy(e.system) then Some(key) else e.system,
      if StrFalsy(e.topology) then (if ref.Some? then ref.value.topology else Some("standard")) else e.topology,
      if StrFalsy(e.quantity) then (if ref.Some? then ref.value.quantity else Some("quantity")) else e.quantity,
      Some(resolved),
      e.aliases)
  }

  /** The whole pass over a catalog. */
  function FillDefaults(lib: Library, reference: Option<Library>): (r: Library)
    requires reference.Some? ==> SourcesPresent(reference.value)
    ensures Keys(r) == Keys(lib)
    ensures SourcesPresent(r)
  {
    var r := seq(|lib|, i requires 0 <= i < |lib| => (lib[i].0, FillEntry(lib[i].0, lib[i].1, RefSystem(reference, lib[i].0))));
    assert forall i :: 0 <= i < |lib| ==> r[i].0 == lib[i].0;
    r
  }
}

/** What the defaulting pass guarantees. */
module DefaultsProperties {
  import opened Tables
  import opened Entries
  import opened Defaults

  /** The value an alias ends up with: the renamed target, or whatever was there when the target does not resolve. */
  function Expected(f: Table<Source>, alias: (string, string), rs: Option<Table<Source>>): Option<Source> {
    var found := AliasTarget(f, alias.1, rs);
    if found.Some? then Some(found.value.(name := Some(alias.0))) else Find(f, alias.0)
  }

  /** No alias targets a key that is itself an alias. */
  predicate Unchained(aliases: seq<(string, string)>) {
    forall i, j :: 0 <= i < |aliases| && 0 <= j < |aliases| ==> aliases[i].1 != aliases[j].0
  }

  /** The alias chains of every system are unchained. */
  predicate NoChainedAliases(lib: Library) {
    forall i :: 0 <= i < |lib| && lib[i].1.aliases.Some? ==> Unchained(lib[i].1.aliases.value)
  }

  /** A reference whose systems all carry sources that are complete. */
  predicate CompleteReference(reference: Option<Library>) {
    reference.Some? ==>
      SourcesPresent(reference.value) &&
      forall i :: 0 <= i < |reference.value| ==> AllComplete(reference.value[i].1.sources.value)
  }

  lemma FillSourceIdempotent(key: string, s: Source, refsrc: Option<Source>)
    ensures FillSource(key, FillSource(key, s, refsrc), refsrc) == FillSource(key, s, refsrc)
  {
  }

  /** A complete source already named after its key is left alone. */
  lemma CompleteIsFixed(key: string, s: Source, refsrc: Option<Source>)
    requires Complete(s) && s.name == Some(key)
    ensures FillSource(key, s, refsrc) == s
  {
  }

  /** The filled value of an own source, by key. */
  lemma FilledAt(own: Table<Source>, rs: Option<Table<Source>>, k: string)
    requires k in Keys(own)
    ensures Find(FillSources(own, rs), k) == Some(FillSource(k, Find(own, k).value, RefSource(rs, k)))
  {
    var f := FillSources(own, rs);
    SameKeysSameIndex(own, f, k);
  }

  lemma FilledComplete(own: Table<Source>, rs: Option<Table<Source>>)
    requires rs.None? || AllComplete(rs.value)
    ensures AllComplete(FillSources(own, rs))
  {
    var f := FillSources(own, rs);
    forall i | 0 <= i < |f| ensures Complete(f[i].1) {
      assert f[i].1 == FillSource(own[i].0, own[i].1, RefSource(rs, own[i].0));
    }
  }

  /**
   * Alias resolution only adds keys: the existing sources keep their
   * positions and every new key is the name of an alias.
   */
  lemma {:induction false} ResolveAliasesKeys(f: Table<Source>, aliases: seq<(string, string)>, rs: Option<Table<Source>>)
    ensures Keys(f) <= Keys(ResolveAliases(f, aliases, rs))
    ensures forall k :: k in Keys(ResolveAliases(f, aliases, rs)) ==> k in Keys(f) || k in Keys(aliases)
  {
    if aliases != [] {
      var init := aliases[..|aliases| - 1];
      var last := aliases[|aliases| - 1];
      ResolveAliasesKeys(f, init, rs);
      var prev := ResolveAliases(f, init, rs);
      var r := ResolveAliases(f, aliases, rs);
      assert r == AliasStep(prev, last, rs);
      forall k | k in Keys(r) ensures k in Keys(f) || k in Keys(aliases) {
        if k in Keys(prev) {
          if k in Keys(init) {
            InKeys(init, k);
            InKeys(aliases, k);
          }
        } else {
          assert k == last.0;
          assert Keys(aliases)[|aliases| - 1] == k;
        }
      }
    }
  }

  /** Copies of complete sources are complete. */
  lemma {:induction false} ResolveAliasesComplete(f: Table<Source>, aliases: seq<(string, string)>, rs: Option<Table<Source>>)
    requires AllComplete(f)
    requires rs.None? || AllComplete(rs.value)
    ensures AllComplete(ResolveAliases(f, aliases, rs))
  {
    if aliases != [] {
      var init := aliases[..|aliases| - 1];
      var last := aliases[|aliases| - 1];
      ResolveAliasesComplete(f, init, rs);
      var prev := ResolveAliases(f, init, rs);
      var found := AliasTarget(prev, last.1, rs);
      if found.Some? {
        assert Complete(found.value);
        var r := Put(prev, last.0, found.value.(name := Some(last.0)));
        assert forall p :: 0 <= p < |r| ==> Complete(r[p].1);
      }
    }
  }

  /** A key that is no alias's name keeps its value through alias resolution. */
  lemma {:induction false} ResolveAliasesOthers(f: Table<Source>, aliases: seq<(string, string)>, rs: Option<Table<Source>>, k: string)
    requires k !in Keys(aliases)
    ensures Find(ResolveAliases(f, aliases, rs), k) == Find(f, k)
  {
    if aliases != [] {
      var init := aliases[..|aliases| - 1];
      var last := aliases[|aliases| - 1];
      assert Keys(aliases)[|aliases| - 1] == last.0;
      InKeys(init, k);
      InKeys(aliases, k);
      ResolveAliasesOthers(f, init, rs, k);
      var prev := ResolveAliases(f, init, rs);
      var found := AliasTarget(prev, last.1, rs);
      if found.Some? {
        PutFind(prev, last.0, found.value.(name := Some(last.0)), k);
      }
    }
  }

  /**
   * What each alias ends up with, chained or not: its target as the live
   * table has it when the alias's turn comes (own sources, including copies
   * made for earlier aliases, then the reference's), renamed to the alias;
   * an unresolved alias leaves its key as the earlier steps left it.
   */
  lemma {:induction false} ResolveAliasesAt(f: Table<Source>, aliases: Table<string>, rs: Option<Table<Source>>, j: int)
    requires 0 <= j < |aliases|
    ensures Find(ResolveAliases(f, aliases, rs), aliases[j].0) == Expected(ResolveAliases(f, aliases[..j], rs), aliases[j], rs)
  {
    var n := |aliases|;
    var init := Take(aliases, n - 1);
    var k := aliases[j].0;
    var prev := ResolveAliases(f, init, rs);
    ResolveAliasesLast(f, aliases, rs);
    assert ResolveAliases(f, aliases, rs) == AliasStep(prev, aliases[n - 1], rs);
    AliasStepAt(prev, aliases[n - 1], rs, k);
    if j < n - 1 {
      assert k != aliases[n - 1].0;
      assert Find(ResolveAliases(f, aliases, rs), k) == Find(prev, k);
      ResolveAliasesAt(f, init, rs, j);
      PrefixOfPrefix(aliases, n - 1, j);
      assert init[..j] == aliases[..j] && init[j] == aliases[j];
      assert ResolveAliases(f, init[..j], rs) == ResolveAliases(f, aliases[..j], rs);
      assert Find(prev, k) == Expected(ResolveAliases(f, aliases[..j], rs), aliases[j], rs);
    } else {
      assert aliases[..j] == init;
      assert Find(ResolveAliases(f, aliases, rs), k) == Expected(prev, aliases[j], rs);
    }
  }

  lemma ResolveAliasesLast(f: Table<Source>, aliases: seq<(string, string)>, rs: Option<Table<Source>>)
    requires aliases != []
    ensures ResolveAliases(f, aliases, rs) ==
      AliasStep(ResolveAliases(f, aliases[..|aliases| - 1], rs), aliases[|aliases| - 1], rs)
  {
  }

  lemma PrefixOfPrefix<T>(s: seq<T>, n: int, j: int)
    requires 0 <= j < n <= |s|
    ensures s[..n][..j] == s[..j] && s[..n][j] == s[j]
  {
  }

  /** One alias step changes only the alias's own key, to what `Expected` says. */
  lemma AliasStepAt(cur: Table<Source>, alias: (string, string), rs: Option<Table<Source>>, k: string)
    ensures Find(AliasStep(cur, alias, rs), k) == if k == alias.0 then Expected(cur, alias, rs) else Find(cur, k)
  {
    var found := AliasTarget(cur, alias.1, rs);
    if found.Some? {
      PutFind(cur, alias.0, found.value.(name := Some(alias.0)), k);
    }
  }

  /**
   * What alias resolution does, when no alias targets another alias: keys
   * that are not aliases keep their value, and each alias holds a copy of
   * its target renamed to the alias (own sources first, then the
   * reference's), overwriting what was there; an unresolved alias leaves its
   * key as it was.
   */
  lemma {:induction false} ResolveAliasesSemantics(f: Table<Source>, aliases: seq<(string, string)>, rs: Option<Table<Source>>)
    requires DistinctKeys(aliases) && Unchained(aliases)
    ensures forall k :: k !in Keys(aliases) ==> Find(ResolveAliases(f, aliases, rs), k) == Find(f, k)
    ensures forall j :: 0 <= j < |aliases| ==> Find(ResolveAliases(f, aliases, rs), aliases[j].0) == Expected(f, aliases[j], rs)
  {
    if aliases != [] {
      var n := |aliases|;
      var init := aliases[..n - 1];
      var last := aliases[n - 1];
      ResolveAliasesSemantics(f, init, rs);
      var prev := ResolveAliases(f, init, rs);
      var r := ResolveAliases(f, aliases, rs);
      assert r == AliasStep(prev, last, rs);
      InKeys(init, last.1);
      assert AliasTarget(prev, last.1, rs) == AliasTarget(f, last.1, rs);
      InKeys(init, last.0);
      assert Find(prev, last.0) == Find(f, last.0);
      var found := AliasTarget(f, last.1, rs);
      forall k ensures Find(r, k) == if k == last.0 then Expected(f, last, rs) else Find(prev, k) {
        if found.Some? { PutFind(prev, last.0, found.value.(name := Some(last.0)), k); }
      }
      forall k | k !in Keys(aliases) ensures Find(r, k) == Find(f, k) {
        InKeys(aliases, k);
        InKeys(init, k);
      }
      forall j | 0 <= j < n ensures Find(r, aliases[j].0) == Expected(f, aliases[j], rs) {
        if j < n - 1 {
          assert init[j] == aliases[j];
        }
      }
    }
  }

  /** A second pass over the aliases reproduces the first pass's result. */
  lemma {:induction false} ResolveAliasesFixed(f: Table<Source>, aliases: seq<(string, string)>, rs: Option<Table<Source>>, n: nat)
    requires DistinctKeys(aliases) && Unchained(aliases) && n <= |aliases|
    ensures ResolveAliases(ResolveAliases(f, aliases, rs), aliases[..n], rs) == ResolveAliases(f, aliases, rs)
  {
    var s := ResolveAliases(f, aliases, rs);
    if n > 0 {
      ResolveAliasesFixed(f, aliases, rs, n - 1);
      assert aliases[..n][..n - 1] == aliases[..n - 1];
      var alias := aliases[n - 1];
      ResolveAliasesSemantics(f, aliases, rs);
      InKeys(aliases, alias.1);
      assert AliasTarget(s, alias.1, rs) == AliasTarget(f, alias.1, rs);
      var found := AliasTarget(s, alias.1, rs);
      if found.Some? {
        PutSame(s, alias.0, found.value.(name := Some(alias.0)));
      }
    }
  }

  /**
   * The defaulted entry of every system, by key: set fields are kept, a
   * missing `system` becomes the key, a missing `topology` or `quantity`
   * the reference system's or "standard"/"quantity"; every own source that
   * is not an alias name is its own defaulted self, and every alias holds
   * what alias resolution gives it.
   */
  lemma FillDefaultsFind(lib: Library, reference: Option<Library>, k: string)
    requires reference.Some? ==> SourcesPresent(reference.value)
    requires k in Keys(lib)
    ensures var e, ref, rs := Find(lib, k).value, RefSystem(reference, k), RefSources(reference, k);
      var r := Find(FillDefaults(lib, reference), k);
      && r.Some?
      && r.value.system == (if StrFalsy(e.system) then Some(k) else e.system)
      && r.value.topology == (if !StrFalsy(e.topology) then e.topology else if ref.Some? then ref.value.topology else Some("standard"))
      && r.value.quantity == (if !StrFalsy(e.quantity) then e.quantity else if ref.Some? then ref.value.quantity else Some("quantity"))
      && r.value.aliases == e.aliases
      && r.value.sources.Some?
      && (forall s :: s in Keys(SourcesOf(e)) && (e.aliases.None? || s !in Keys(e.aliases.value)) ==>
            Find(r.value.sources.value, s) == Some(FillSource(s, Find(SourcesOf(e), s).value, RefSource(rs, s))))
      && (e.aliases.Some? ==> forall j :: 0 <= j < |e.aliases.value| ==>
            Find(r.value.sources.value, e.aliases.value[j].0) ==
              Expected(ResolveAliases(FillSources(SourcesOf(e), rs), e.aliases.value[..j], rs), e.aliases.value[j], rs))
  {
    var d := FillDefaults(lib, reference);
    SameKeysSameIndex(lib, d, k);
    var e, ref := Find(lib, k).value, RefSystem(reference, k);
    var rs := RefSources(reference, k);
    var own := SourcesOf(e);
    var filled := FillSources(own, rs);
    assert Find(d, k) == Some(FillEntry(k, e, ref));
    forall s | s in Keys(own) && (e.aliases.None? || s !in Keys(e.aliases.value))
      ensures Find(Find(d, k).value.sources.value, s) == Some(FillSource(s, Find(own, s).value, RefSource(rs, s)))
    {
      FilledAt(own, rs, s);
      if e.aliases.Some? {
        ResolveAliasesOthers(filled, e.aliases.value, rs, s);
      }
    }
    if e.aliases.Some? {
      forall j | 0 <= j < |e.aliases.value|
        ensures Find(Find(d, k).value.sources.value, e.aliases.value[j].0) ==
          Expected(ResolveAliases(filled, e.aliases.value[..j], rs), e.aliases.value[j], rs)
      {
        ResolveAliasesAt(filled, e.aliases.value, rs, j);
      }
    }
  }

  /** A filled own source is a fixed point of the per-source defaults. */
  lemma FilledFixed(own: Table<Source>, rs: Option<Table<Source>>, k: string)
    requires k in Keys(FillSources(own, rs))
    ensures
      var v := Find(FillSources(own, rs), k).value;
      FillSource(k, v, RefSource(rs, k)) == v
  {
    FilledAt(own, rs, k);
    FillSourceIdempotent(k, Find(own, k).value, RefSource(rs, k));
  }

  /** So is every value alias resolution leaves, when no alias targets another alias. */
  lemma ResolvedFixed(own: Table<Source>, a: Table<string>, rs: Option<Table<Source>>, k: string)
    requires rs.None? || AllComplete(rs.value)
    requires Unchained(a)
    requires k in Keys(ResolveAliases(FillSources(own, rs), a, rs))
    ensures
      var v := Find(ResolveAliases(FillSources(own, rs), a, rs), k).value;
      FillSource(k, v, RefSource(rs, k)) == v
  {
    var f := FillSources(own, rs);
    FilledComplete(own, rs);
    ResolveAliasesSemantics(f, a, rs);
    ResolveAliasesKeys(f, a, rs);
    InKeys(a, k);
    if k in Keys(a) {
      var j :| 0 <= j < |a| && a[j].0 == k;
      var found := AliasTarget(f, a[j].1, rs);
      if found.Some? {
        assert Complete(found.value);
        CompleteIsFixed(k, found.value.(name := Some(k)), RefSource(rs, k));
      } else {
        FilledFixed(own, rs, k);
      }
    } else {
      FilledFixed(own, rs, k);
    }
  }

  /** Every source after resolution is a fixed point of the per-source defaults. */
  lemma ResolvedSourcesFixed(own: Table<Source>, aliases: Option<Table<string>>, rs: Option<Table<Source>>)
    requires rs.None? || AllComplete(rs.value)
    requires aliases.Some? ==> Unchained(aliases.value)
    ensures
      var f := FillSources(own, rs);
      var s := if aliases.Some? then ResolveAliases(f, aliases.value, rs) else f;
      FillSources(s, rs) == s
  {
    var f := FillSources(own, rs);
    var s := if aliases.Some? then ResolveAliases(f, aliases.value, rs) else f;
    forall i | 0 <= i < |s| ensures FillSource(s[i].0, s[i].1, RefSource(rs, s[i].0)) == s[i].1 {
      FindAt(s, i);
      if aliases.Some? {
        ResolvedFixed(own, aliases.value, rs, s[i].0);
      } else {
        FilledFixed(own, rs, s[i].0);
      }
    }
  }

  /** One system entry: a second pass changes nothing. */
  lemma FillEntryIdempotent(key: string, e: SystemEntry, ref: Option<SystemEntry>)
    requires ref.Some? ==> ref.value.sources.Some? && AllComplete(ref.value.sources.value)
    requires e.aliases.Some? ==> Unchained(e.aliases.value)
    ensures FillEntry(key, FillEntry(key, e, ref), ref) == FillEntry(key, e, ref)
  {
    var rs := if ref.Some? then ref.value.sources else None;
    ResolvedSourcesFixed(SourcesOf(e), e.aliases, rs);
    if e.aliases.Some? {
      var a := e.aliases.value;
      ResolveAliasesFixed(FillSources(SourcesOf(e), rs), a, rs, |a|);
      assert a[..|a|] == a;
    }
  }

  /**
   * Defaulting against a fixed, complete reference (or none) is idempotent,
   * provided no alias targets another alias.
   */
  lemma FillDefaultsIdempotent(lib: Library, reference: Option<Library>)
    requires CompleteReference(reference)
    requires NoChainedAliases(lib)
    ensures FillDefaults(FillDefaults(lib, reference), reference) == FillDefaults(lib, reference)
  {
    var r1 := FillDefaults(lib, reference);
    var r2 := FillDefaults(r1, reference);
    forall i | 0 <= i < |lib| ensures r2[i] == r1[i] {
      var ref := RefSystem(reference, lib[i].0);
      FillEntryIdempotent(lib[i].0, lib[i].1, ref);
    }
  }

  /** Defaulting establishes the catalog invariants, against a defaulted reference or none. */
  lemma FillDefaultsDefaulted(lib: Library, reference: Option<Library>)
    requires reference.Some? ==> Defaulted(reference.value)
    ensures Defaulted(FillDefaults(lib, reference))
  {
    var r := FillDefaults(lib, reference);
    forall i | 0 <= i < |lib| ensures AllComplete(r[i].1.sources.value) {
      var ref := RefSystem(reference, lib[i].0);
      var rs := if ref.Some? then ref.value.sources else None;
      FilledComplete(SourcesOf(lib[i].1), rs);
      if lib[i].1.aliases.Some? {
        ResolveAliasesComplete(FillSources(SourcesOf(lib[i].1), rs), lib[i].1.aliases.value, rs);
      }
    }
  }

  const Torch := Source(Some("torch"), Some("equipment"), Flag(false), Some(2), Levels([LightLevel(20.0, 40.0, 360.0)]))
  const ChainedAliases: Table<string> := [("flame", "lamp"), ("lamp", "torch")]
  const ChainedEntry := SystemEntry(Some("sys"), Some("standard"), Some("quantity"), Some([("torch", Torch)]), Some(ChainedAliases))

  lemma FirstPassOfChain()
    ensures ResolveAliases(FillSources([("torch", Torch)], None), ChainedAliases, None)
      == [("torch", Torch), ("lamp", Torch.(name := Some("lamp")))]
  {
    var own: Table<Source> := [("torch", Torch)];
    assert FillSources(own, None) == own;
    assert ChainedAliases[..1] == [("flame", "lamp")] && ChainedAliases[..1][..0] == [];
    assert Find(own, "lamp") == None;
    assert ResolveAliases(own, ChainedAliases[..1], None) == own;
    assert Find(own, "torch") == Some(Torch);
    assert Find(own, "lamp") == None;
  }

  lemma SecondPassOfChain()
    ensures
      var once: Table<Source> := [("torch", Torch), ("lamp", Torch.(name := Some("lamp")))];
      |ResolveAliases(FillSources(once, None), ChainedAliases, None)| == 3
  {
    var once: Table<Source> := [("torch", Torch), ("lamp", Torch.(name := Some("lamp")))];
    assert FillSources(once, None) == once;
    assert ChainedAliases[..1] == [("flame", "lamp")] && ChainedAliases[..1][..0] == [];
    FindAt(once, 1);
    var first := ChainedAliases[..1];
    assert first[..|first| - 1] == [];
    assert ResolveAliases(once, first[..|first| - 1], None) == once;
    var twice := ResolveAliases(once, first, None);
    assert twice == AliasStep(once, ("flame", "lamp"), None);
    assert AliasTarget(once, "lamp", None).Some?;
    InKeys(once, "flame");
    assert "flame" !in Keys(once);
    assert |twice| == 3;
    FindAt(twice, 0);
  }

  /** With an alias targeting another alias, a second pass is not a no-op. */
  lemma ChainedAliasesNotIdempotent()
    ensures FillDefaults(FillDefaults([("sys", ChainedEntry)], None), None) != FillDefaults([("sys", ChainedEntry)], None)
  {
    var lib: Library := [("sys", ChainedEntry)];
    var once: Table<Source> := [("torch", Torch), ("lamp", Torch.(name := Some("lamp")))];
    FirstPassOfChain();
    var r1 := FillDefaults(lib, None);
    assert r1[0].1.sources == Some(once);
    SecondPassOfChain();
    var r2 := FillDefaults(r1, None);
    assert |r2[0].1.sources.value| == 3;
  }
}
