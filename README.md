# Light-source catalog engine of `SourceLibrary`

This project models the catalog engine of the Torch module's
`SourceLibrary` (`src/library.mjs`) and proves properties of the model in
Dafny. A catalog maps game-system ids to system entries. Each entry has a
`system` id, a `topology` name, a `quantity` label, a table of light sources
and an optional alias table. A light source has a `name`, a `type`, a
`consumable` flag, a `states` count and a `light`. The `light` is absent, a
bare level descriptor, or a sequence of levels.

The model covers:

- **Defaulting** (`applyFieldDefaults`). Falsy fields are filled from the
  same-keyed reference system or source, or from the literals `"standard"`,
  `"quantity"` and `"equipment"`, from `false`, or from the key. The strings
  "true"/"false" become booleans. A bare light descriptor is wrapped into a
  one-level sequence, and `states` is derived as the number of levels plus
  one. Aliases then become renamed copies of their targets.
  - The pure specification is `Defaults.FillDefaults`.
  - The in-place pass with its nested loops is the method
    `Catalogs.Catalog.ApplyFieldDefaults`, on a `Catalog` object whose
    `systems` field it rewrites.
- **Merging** (`mergeLibraries`). A fresh catalog lists the common systems,
  then the systems only the user has. Top-level fields come from the common
  catalog whenever it has the system. Each system's sources are the user's
  copies, then copies of the common sources the user does not define.
  `nothingIsConsumable` forces every copied `consumable` to `false`.
  - The looped method is `Merging.MergeLibraries`; its specification is
    `Merging.Merge`.
- **System selection in `load`, and the fallback update**
  (`updateFallbackLightSource`). The requested system is returned as
  merged. When the merged catalog lacks it, `"default"` is used instead. If
  a self-light item is configured, the first source of `"default"` is
  replaced by the item's source. Otherwise the radii of that source's first
  light level are retuned.
- **Lookup** (`getLightSource`, `actorHasLightSource`). The lookup returns
  the first source whose key matches the name ignoring case. It finds
  nothing for a falsy name. `ignoreEquipment` short-circuits the topology
  check.
- **Format detection** at the head of `validateSourceJSON`. It decides
  inline text or locator, and YAML or JSON5. An empty argument means "no
  user library".

JavaScript objects used as dictionaries are modelled as `Tables.Table`. A
table is a sequence of key/value pairs with distinct keys, because
iteration order is observable: "first source" and "first match" depend on
it, and so does the order of the merge. Assigning to an existing key keeps
its place, a new key is appended, and `delete` removes the key. Missing
fields are `Option`s. JavaScript's `!x` on a string or a number is
`Entries.StrFalsy` / `Entries.IntFalsy`, which treat `""` and `0` as
missing.

Three behaviours of the code worth knowing:

- **A document that fails schema validation is still used.**
  `validateSourceJSON` returns the parsed data next to the schema errors
  (`src/library.mjs:88-93`, `:106`), and `load` keeps the data half
  (`src/library.mjs:220`), then defaults and merges it.
- **A catalog passed as an object is defaulted in place.** `load` runs
  `applyFieldDefaults` on the caller's own object (`src/library.mjs:225`,
  `:229`). `SourceLibraries.Load` takes that object as a `Catalog` and
  states its new contents.
- **Defaulting is not idempotent in general.**
  - `DefaultsProperties.FillDefaultsIdempotent` proves idempotence only
    against a complete reference (or none), and only when no alias targets
    another alias.
  - `DefaultsProperties.ChainedAliasesNotIdempotent` shows a catalog where a
    second pass adds a source. The alias `flame -> lamp` resolves only once
    `lamp -> torch` has been added.
  - Together with the in-place defaulting above, a second `load` with the
    same object can see a different catalog from the first.

## Model

| member | source | states |
|---|---|---|
| Defaults.Coerce | src/library.mjs:139-144 | the strings "true"/"false" become the booleans; any other value is kept, so no string flag remains |
| Defaults.RefSystem | src/library.mjs:111-114 | there is a reference system exactly when a reference catalog is given and has the system key as its own |
| Defaults.RefSource | src/library.mjs:129 | there is a reference source exactly when there is a reference system and its sources have the source key |
| Defaults.FillSource | src/library.mjs:128-159 | a missing name becomes the key; a missing type becomes the reference source's, else "equipment"; an undefined consumable becomes the reference source's (coerced), else false; missing states with a light sequence become the number of levels plus one; set name, type, consumable and states keep their value (consumable as a boolean); a bare light becomes a one-level sequence, and any other light is kept; states changes only to the number of levels plus one; against a complete reference source, or none, the result is complete |
| Defaults.FillSources | src/library.mjs:128-160 | the per-source pass keeps every source key in place and defaults each source against the same-keyed reference source |
| Defaults.AliasTarget | src/library.mjs:170-174 | an alias target the system's live sources have is taken from them; any other is looked up among the reference system's sources |
| Defaults.AliasStep | src/library.mjs:168-177 | one alias keeps every existing key in place, and changes nothing when its target resolves nowhere |
| Defaults.ResolveAliases | src/library.mjs:161-178 | the alias loop keeps every existing key in place |
| Defaults.FillEntry | src/library.mjs:110-180 | set system, topology and quantity are kept; a missing system becomes the key, a missing topology or quantity the reference system's, else "standard"/"quantity"; the aliases stay and there is always a sources table |
| Defaults.FillDefaults | src/library.mjs:109-181 | the pass keeps the catalog's system keys in order and leaves every system with a sources table |
| DefaultsProperties.FillDefaultsFind | src/library.mjs:109-181 | by key: the defaulted entry's system, topology, quantity and aliases follow the fill rule; every own source that is not an alias name is its own defaulted self; every alias holds what resolution gives it |
| DefaultsProperties.ResolveAliasesOthers | src/library.mjs:166-178 | a key that is no alias's name keeps its value through alias resolution, for any aliases |
| DefaultsProperties.AliasStepAt | src/library.mjs:168-177 | one alias step changes only the alias's key: to the renamed target, own sources first and then the reference's, or not at all when the target resolves nowhere |
| DefaultsProperties.ResolveAliasesAt | src/library.mjs:166-178 | chained or not, every alias ends up with its target as the live table holds it when the alias's turn comes, copies for earlier aliases included, renamed to the alias; an unresolved alias leaves its key as the earlier steps left it |
| DefaultsProperties.FillSourceIdempotent | src/library.mjs:128-159 | defaulting a source twice against the same reference source gives the same source as once |
| DefaultsProperties.CompleteIsFixed | src/library.mjs:128-159 | a complete source already named after its key is left unchanged |
| DefaultsProperties.FilledComplete | src/library.mjs:128-160 | against a complete reference system, or none, every own source comes out complete |
| DefaultsProperties.ResolveAliasesKeys | src/library.mjs:161-178 | alias resolution keeps every existing key in place and adds only alias names |
| DefaultsProperties.ResolveAliasesComplete | src/library.mjs:161-178 | alias copies of complete sources are complete |
| DefaultsProperties.ResolveAliasesSemantics | src/library.mjs:168-178 | with distinct, unchained aliases, a non-alias key keeps its source; each alias maps to its target renamed to the alias, looked up among the system's own sources first and then the reference's; an unresolved alias leaves its key as it was |
| DefaultsProperties.FillDefaultsDefaulted | src/library.mjs:109-181 | against a defaulted reference, or none, the result has a system id, a topology, a quantity and complete sources for every entry |
| DefaultsProperties.FillDefaultsIdempotent | src/library.mjs:109-181 | against a complete reference, or none, and with no chained aliases, a second pass changes nothing |
| DefaultsProperties.ChainedAliasesNotIdempotent | src/library.mjs:168-178 | a concrete catalog with the alias chain flame -> lamp -> torch is changed by a second pass |
| Catalogs.DefaultSource | src/library.mjs:129-159 | the field checks on one source, applied in order, leave exactly the defaulted source of the specification |
| Catalogs.DefaultEntry | src/library.mjs:110-180 | one pass of the system loop leaves exactly the defaulted system entry of the specification |
| Catalogs.DefaultSources | src/library.mjs:128-160 | the per-source loop leaves exactly the defaulted sources of the specification |
| Catalogs.DefaultAliases | src/library.mjs:161-178 | the alias loop, inserting into the live table, leaves exactly the alias resolution of the specification |
| Catalogs.Catalog.ApplyFieldDefaults | src/library.mjs:109-181 | the catalog's new systems are the defaulting of its old systems against the reference |
| Catalogs.Catalog.UpdateFallbackLightSource | src/library.mjs:183-199 | the entry under the key is replaced by its fallback update, and no other system changes |
| Fallback.FallbackSources | src/library.mjs:183-199 | with an item, the item is a key afterwards; without one, the keys are unchanged |
| Fallback.FallbackEntry | src/library.mjs:183-199 | the update changes only the entry's sources, to the updated sources |
| Fallback.FallbackReplacesFirst | src/library.mjs:183-193 | with an item: the item maps to a non-consumable, two-state source of type "none" with one level of the given radii at 360 degrees; the first source is gone unless it is the item; every other source is kept; the item is appended, or keeps its place if it was already a key |
| Fallback.FallbackRetunesFirst | src/library.mjs:194-198 | without an item: the keys and every source but the first are unchanged; of the first source, only the bright and dim radii of its first light level change |
| Fallback.FallbackKeepsNonConsumable | src/library.mjs:183-199 | the update makes no source consumable |
| Fallback.SelfSource | src/library.mjs:188-194 | the self-light source is complete, named after the item, non-consumable, with two states and one level of the given radii at 360 degrees |
| Fallback.Retune | src/library.mjs:196-197 | retuning changes only the bright and dim radii of the first light level; name, type, consumable, states, the angle and every later level are kept |
| Fallback.Retunable | src/library.mjs:196-197 | the retune can run only when there is a first source key and that source's light is a level sequence |
| Fallback.FallbackDefined | src/library.mjs:186-197 | with an item the update always runs; without one it runs exactly when the first source can be retuned |
| Merging.CopyLight | src/library.mjs:381 | the copied light is never missing: a missing light becomes the empty sequence, any other is kept |
| Merging.CopySource | src/library.mjs:376-382 | a merged source has the original's name, type and states and a copy of its light; consumable is false under nothingIsConsumable and the original's otherwise |
| Merging.CopyAll | src/library.mjs:373-383 | a copied table keeps every key in place, and each value is the copy of the original source |
| Merging.Top | src/library.mjs:351-366 | a merged system starts with the system, topology and quantity of the catalog it comes from, an empty sources table and no aliases |
| Merging.Tops | src/library.mjs:350-357 | the table of starting entries keeps every key in place, each value the starting entry of the original system |
| Merging.MergedSystems | src/library.mjs:348-369 | the merged system list starts with the common systems, in their order, each as its starting entry |
| Merging.MergedSources | src/library.mjs:372-405 | one system's merged sources start with the copies of the user's sources, in their order, followed by as many entries as there are common sources the user does not define |
| Merging.Merge | src/library.mjs:342-408 | the merged catalog has the systems of the merged system list, in its order, and every system carries a sources table |
| Merging.MergeSystems | src/library.mjs:348-369 | the first two loops leave exactly the common systems followed by the user-only systems, each with its top-level fields and an empty sources table |
| Merging.CommonSystems | src/library.mjs:350-357 | the common-system loop leaves exactly the common systems in their order, each with its top-level fields and an empty sources table |
| Merging.AddUserSystems | src/library.mjs:358-369 | the user-system loop appends exactly the systems the common catalog lacks, in the user's order |
| Merging.CopySources | src/library.mjs:373-383 | the user-source loop leaves exactly the copies of the user's sources, in their order |
| Merging.AddCommonSources | src/library.mjs:386-404 | the common-source loop appends copies of exactly those common sources the user does not define, in their order |
| Merging.MergeSystemSources | src/library.mjs:372-405 | one system's merged sources are its user copies followed by the non-overridden common copies |
| Merging.MergeLibraries | src/library.mjs:342-408 | the loops build exactly the merged catalog of the specification, without changing either input |
| MergeProperties.MergeSystemKeys | src/library.mjs:348-369 | the merged catalog has a system exactly when either catalog has it, with the common systems first and in their order |
| MergeProperties.MergeSystemFields | src/library.mjs:349-369 | a merged system takes system, topology and quantity from the common catalog when it has the system, otherwise from the user's; it has no aliases; its sources are the merged sources |
| MergeProperties.MergedSourceKeys | src/library.mjs:371-406 | a merged system has a source exactly when the user's or the common catalog's system has it, with the user's sources first and in their order |
| MergeProperties.UserSourceWins | src/library.mjs:373-383 | a source the user defines is the copy of the user's source as a whole: no field comes from the common source |
| MergeProperties.CommonSourceFills | src/library.mjs:386-404 | a common source the user does not define is the copy of the common source |
| MergeProperties.NothingConsumable | src/library.mjs:379 | with nothingIsConsumable, every merged source of the system has consumable false |
| MergeProperties.DefaultedMergeSafe | src/library.mjs:386-392 | a user catalog whose systems all carry sources, as defaulting leaves it, never makes the `in` test throw |
| Format.IndexOf | src/library.mjs:50-51 | the first position where the pattern occurs, or -1 when it occurs nowhere |
| Format.LastIndexOf | src/library.mjs:47 | the last position of the character, or -1 |
| Format.Substring | src/library.mjs:47 | with a negative start, the whole string; otherwise the suffix from the start, or "" past the end |
| Format.YamlFileCheck | src/library.mjs:45-49 | the file check holds exactly when the locator ends in ".yaml" or ".yml" |
| Format.ConfigIsText | src/library.mjs:50-51 | the argument is inline text exactly when it starts with "{" or "---" |
| Format.ConfigIsYaml | src/library.mjs:52-54 | inline text is YAML exactly when it starts with "---"; a locator is YAML exactly when it ends in ".yaml" or ".yml" |
| Format.Detect | src/library.mjs:40-43 | an empty argument, and only an empty one, means no user library |
| Format.IndexOfZero | src/library.mjs:50-51 | `indexOf(p) === 0` holds exactly when the string starts with p |
| Format.YamlFileCheckSuffix | src/library.mjs:45-49 | the extension from the last dot on is ".yaml" or ".yml" exactly when the locator ends in one of them |
| Format.DetectSpec | src/library.mjs:44-55 | a non-empty argument is inline exactly when it starts with "{" or "---"; it is YAML exactly when it is inline and starts with "---", or is a locator ending in ".yaml" or ".yml"; the source name is "inline text" or the quoted locator |
| Format.InlineJsonIsJson5 | src/library.mjs:52-54 | inline JSON text ending in ".yaml" is still JSON5 |
| Format.DotlessLocatorIsJson5 | src/library.mjs:45-49 | a locator without a dot is compared as a whole and is not YAML |
| SourceLibraries.FirstMatch | src/library.mjs:279-288 | a found source is the value of some key equal to the name ignoring case |
| SourceLibraries.FirstMatchSpec | src/library.mjs:279-288 | the lookup finds nothing exactly when no key matches ignoring case, and otherwise returns the source of the first key that does |
| SourceLibraries.FirstMatchOfKey | src/library.mjs:279-288 | an existing key is found as itself unless an earlier key differs from it only in case |
| SourceLibraries.UpperCaseNameFindsTorch | src/library.mjs:282 | "TORCH" finds the source keyed "torch" |
| SourceLibraries.Lower | src/library.mjs:282 | lower-casing keeps the length, maps each character on its own, and leaves no upper-case ASCII letter |
| SourceLibraries.SourceLibrary.constructor | src/library.mjs:15-18 | a new library holds the given entry, with ignoreEquipment off |
| SourceLibraries.SourceLibrary.GetLightSource | src/library.mjs:279-288 | the search loop returns nothing for a falsy name, and otherwise the first case-insensitive match among the entry's sources |
| SourceLibraries.SourceLibrary.ActorHasLightSource | src/library.mjs:306-312 | true whenever equipment is ignored; otherwise the topology's answer for the looked-up source |
| SourceLibraries.UserData | src/library.mjs:216-234 | the user catalog handed to the merge carries a sources table in every system |
| SourceLibraries.Merged | src/library.mjs:236-240 | the merged catalog of load has a sources table in every system, and has a system exactly when the common or the user catalog has it |
| SourceLibraries.DefaultUserData | src/library.mjs:216-234 | no user library gives the empty catalog; a fetched catalog is defaulted against the common catalog; a catalog passed as an object is defaulted in place, the caller's object left holding the defaulted catalog; a failed fetch gives none |
| SourceLibraries.Select | src/library.mjs:245-272 | a system the merged catalog has is returned as merged; without it and without "default" there is nothing; a fallback result keeps the "default" topology |
| SourceLibraries.LoadEntry | src/library.mjs:201-273 | a system the common catalog has always loads |
| SourceLibraries.SelectSystem | src/library.mjs:245-272 | the requested system when merged, else "default" after its fallback update; null exactly when "default" is missing or has nothing to retune; the result carries ignoreEquipment |
| SourceLibraries.Load | src/library.mjs:201-273 | the loaded library holds the specified entry with ignoreEquipment set, or is null exactly on the TypeError paths; a catalog passed as an object is left defaulted against the common catalog, any other object untouched |
| LoadProperties.LoadRequestedSystem | src/library.mjs:245-255 | a system either catalog has always loads; its sources are the merged sources, so the fallback update does not touch them; its topology is the common one when the common catalog has the system |
| LoadProperties.FallbackLoad | src/library.mjs:256-272 | on the fallback path, load yields the merged "default" entry after the fallback update when that update is defined, and nothing otherwise; that entry's sources are the merged sources and its topology is the common one |
| LoadProperties.LoadFallbackWithItem | src/library.mjs:256-272 | on the fallback path with a self-light item, load always succeeds; the item maps to the self-light source; the topology is the common "default" one |
| LoadProperties.LoadFallbackRetune | src/library.mjs:256-272 | on the fallback path without an item, load succeeds exactly when the first merged source has a first light level; it then keeps every key and source but the first, and sets that level's radii |
| LoadProperties.LoadIgnoringEquipment | src/library.mjs:236-240 | with ignoreEquipment, no source of the loaded system is consumable, on either path |

## Left out

- Fetching a locator (`src/library.mjs:57-72`), JSON5 and YAML parsing (`src/library.mjs:74-85`) and schema validation (`src/library.mjs:86-94`) are foreign I/O and libraries. `load` receives their outcome as the data half of `validateSourceJSON`, the `Validated` case of `SourceLibraries.UserInput`. Only documents of the schema's shape are modelled: a parsed document that is not an object, and any other schema-invalid document, is not. Examples the model cannot hold: a `consumable` of `"yes"`, which `src/library.mjs:136-144` keeps as a string; a `light` that is a number such as `5`, which `src/library.mjs:146-151` wraps into `[5]` and `src/library.mjs:158` then counts as two states; a `null` system, on which `src/library.mjs:115` throws; and a number as a system, on which the assignment at `src/library.mjs:116` throws a TypeError in strict mode.
- Console logging and the error dialog (`src/library.mjs:20-34`, `:95-105`) are UI side effects.
- `getTopology` and every call delegated to a topology are external collaborators: `getInventory`, `_presetInventory`, `decrementInventory`, `getImage` and `actorLightSources`. The topology name in the loaded entry is not replaced by a topology object. `ActorHasLightSource` takes the topology's answer as a function parameter.
- The lazy first-call initialisation of the shared common catalog (`src/library.mjs:211-214`) is not modelled. `load` takes the common catalog as an already-defaulted parameter, and `DefaultsProperties.FillDefaultsDefaulted` states what defaulting it with no reference establishes. The contents of `sources.mjs` and `schema.mjs` are not part of this model.
- `protoLight` is accepted by `load` but never used, so it is not a parameter here.
- Shared references are not modelled: light levels are values. The copies in alias resolution and the merge are shallow, so the merged light levels are the common or user catalog's own objects, whichever the merged source came from. The in-place retune at `src/library.mjs:196-197` therefore also changes that catalog (the cached common catalog, or the user's object), which the model cannot express.
- `Object.assign({}, light)` makes the merged `light` an index-keyed object rather than an array. The model keeps it as the same sequence of levels. A missing `light` becomes an empty sequence, standing for the `{}` the copy produces.
- The JavaScript rule that integer-like keys iterate before other keys, and keys found through the prototype chain by `in` and by property reads, are not modelled. Keys are assumed to be ordinary names.
- `SourceLibraries.LowerChar`: `toLowerCase` is modelled for the ASCII letters only; Unicode case mapping is not.
- `Defaults.FillDefaults`: requires every reference system to carry a sources table. The source throws a TypeError on `ref.sources[source]` when it does not, and the model does not represent that exception.
- `Merging.MergeLibraries`: requires `Merging.MergeSafe` instead of modelling the TypeError thrown by `source in undefined`. `MergeProperties.DefaultedMergeSafe` shows that `load` always meets it.
- The TypeErrors on `load`'s fallback path (no `"default"` system, or no first light level to retune) are modelled as a `null` result.
