# RCLoot loot resolution, modelled in Dafny

RCLoot is a Bukkit plugin that hands out loot. A **loot table** holds
**loot objects**: configured rewards, plain configured objects, and
further tables. Each object carries a relative `chance`, an `enabled`
flag, an `always` flag, a `unique` flag and a **rarity**; a rarity gives a
fallback chance, a display format and a per-roll cap `max`. Looting a
table (`rewards(player)` / `loot(player)`) works in six steps:

- it clears its per-roll bookkeeping and fires `onPreResultEvaluation` on
  every entry;
- it adds every enabled "always" entry;
- it runs `count()` weighted draws by roulette selection over the
  eligible candidates;
- each draw passes its winner through `addToResult`, which enforces
  uniqueness, counts the rarity, and either appends a reward (firing
  `onHit`) or re-rolls a nested table and feeds that table's rewards back
  through itself;
- it fires `onPostResultEvaluation` on every reward of the result;
- it caches the result as a `LootResult`.

Around the engine sit the following pieces:

- the `LootManager` registries, which are case-insensitive and keep the
  first registration;
- `createLootObject`, which dispatches on the `type`, `object` and
  `table` keys in that order;
- the two revisions of `ConfiguredLootObject`, and `ConfiguredReward`;
- `Rarity`;
- the `ConfigUtil` helpers: merge, file identifiers and type guessing;
- `RewardTypeResolver`;
- `LootResult` and `AbstractLootTarget`.

Design of the model:

- A Bukkit `ConfigurationSection` is a `map<string, Value>`. A nested
  section is itself a `Value` (`Section`), with a `SectionId` for its
  object identity: distinct section objects carry distinct ids. Every key
  the core reads is a single path segment. A merge (`ConfigUtil.merge`)
  builds a new top-level section, but it copies each value of the parent
  by reference: a nested section keeps its object, and so its id. A
  nested section the child sets replaces the parent's whole. These
  facts are easier to state over nested maps than over flat dotted paths.
- Chances are `real`. The random source is a function `(n, max) -> hit`,
  giving the hit of the `n`-th call of `RandomUtil.getDoubleValue(max)`;
  nested tables draw from the same source.
- Hooks are an event trace (`PreEvaluation`, `Hit`, `PostEvaluation`).
  The default hooks do nothing else.
- Object identity (the random uuid) is an `Id` handed in as `freshId`.
  Equality of loot objects is equality of `Id`s.
- Loot objects are the recursive datatype `Entry`. A nested table is an
  `Entry.Table` holding its contents, so recursion descends on the
  nesting depth.
- The resolution is specified once as functions (`Evaluation`). The
  imperative table class `LootTables.ConfiguredLootTable`, with its
  `uniqueDrops`, `rarityCounts` and `cachedResult` fields, is proved to
  compute exactly those functions, loop by loop.
- `Rarity` equality compares the wrapped section object, and a Bukkit
  section has identity equality. The model gives every rarity section an
  identity (`RarityKey`):
  - an inline `rarity` section is keyed by its `SectionId`;
  - a named rarity is the manager's one section under its lower-cased name;
  - the default rarity is a new empty section on every call.
  `rarityCounts` is keyed by that identity. Two entries with distinct but
  equal-looking inline rarity sections are counted apart. Merged copies of
  one object (two `object: foo` references in a table, say) share foo's
  inline section, and so one counter.
- Java `int` is the subset type `Int32`. `getInt` wraps a whole number
  as `intValue()` does and saturates a double as a cast does.
- Quirks kept as written:
  - A rarity without `max` has cap 0, so an entry with the default rarity
    is never a weighted candidate.
  - Rewards of a nested table get `onHit` twice, and the rarity is
    counted for the table and again for each reward.
  - A unique entry already dropped stays a candidate and uses up its draw.
  - `createLootObject` compares the type name with its exact case,
    although registration lower-cases it.
  - The older `ConfiguredLootObject.merge(section)` is documented as
    letting this object's values win, but the code lets the section's
    keys win. The model follows the code.

## Model

| member | source | states |
|---|---|---|
| ConfigUtil.Merged | src/main/java/de/raidcraft/loot/util/ConfigUtil.java:40-53 | the merge holds every key of either configuration; a key the child sets has the child's value, a key only the parent sets keeps the parent's value |
| ConfigUtil.Merge | src/main/java/de/raidcraft/loot/util/ConfigUtil.java:40-53 | copying every parent key and then every child key into an empty configuration yields exactly the overlay `Merged(parent, child)`; both inputs are values and stay as they were |
| ConfigUtil.MergeWithSelf | src/main/java/de/raidcraft/loot/util/ConfigUtil.java:42-52 | merging a configuration with itself gives it back |
| ConfigUtil.MergeIdempotent | src/main/java/de/raidcraft/loot/util/ConfigUtil.java:42-52 | merging the same child a second time changes nothing |
| ConfigUtil.FileIdentifierIsNormalised | src/main/java/de/raidcraft/loot/util/ConfigUtil.java:21-29 | a file identifier never contains a backslash or an upper-case ASCII letter, because the removals after lower-casing only drop characters |
| ConfigUtil.FileIdentifierExample | src/main/java/de/raidcraft/loot/util/ConfigUtil.java:21-29 | the path `A/B.YML` names the identifier `a/b` |
| ConfigUtil.GuessType | src/main/java/de/raidcraft/loot/util/ConfigUtil.java:64-75 | no configuration guesses nothing; an `item` key guesses `item` even beside `command`; a `command` key alone guesses `command`; anything else guesses nothing |
| Text.ToLower | src/main/java/de/raidcraft/loot/util/ConfigUtil.java:26 | lower-casing keeps the length and lowers each character on its own; no upper-case letter is left |
| Text.ToLowerIdempotent | src/main/java/de/raidcraft/loot/LootManager.java:182-187 | lower-casing an already lower-cased key changes nothing, which makes every lookup case-insensitive |
| Text.RemoveKeepsOnlyInputChars | src/main/java/de/raidcraft/loot/util/ConfigUtil.java:27-28 | removing every occurrence of a pattern leaves only characters of the input |
| Text.ReplaceWithoutOccurrence | src/main/java/de/raidcraft/loot/config/ConfiguredLootObject.java:73 | replacing a pattern that never occurs leaves the string as it is |
| RewardTypeResolver.FirstAnswer | src/main/java/de/raidcraft/loot/RewardTypeResolver.java:41-48 | the answer is non-empty and comes from a resolver all of whose predecessors answered null or empty; there is no answer exactly when every resolver answers null or empty |
| RewardTypeResolver.ExplicitTypeWins | src/main/java/de/raidcraft/loot/RewardTypeResolver.java:37-39 | an explicit `type` string is the resolved type, whatever other keys are set |
| RewardTypeResolver.ItemBeforeCommand | src/main/java/de/raidcraft/loot/RewardTypeResolver.java:20-23 | without `type`, an `item` key resolves to `item` even when `command` is set, because the item resolver is registered first |
| RewardTypeResolver.AgreesWithGuessType | src/main/java/de/raidcraft/loot/RewardTypeResolver.java:34-49 | without a `type` key the resolver list answers exactly what `guessType` answers |
| RewardTypeResolver.NothingToResolve | src/main/java/de/raidcraft/loot/RewardTypeResolver.java:34-49 | a missing configuration, or one with none of `type`, `item` and `command`, resolves to nothing |
| Rarities.Defaults | src/main/java/de/raidcraft/loot/config/Rarity.java:22-61 | an empty rarity has chance 0, max 0, no name and the reward-name placeholder as its format |
| Rarities.ReadsOnlyOwnKeys | src/main/java/de/raidcraft/loot/config/Rarity.java:22-61 | the accessors read only `chance`, `name`, `format` and `max`: configurations that agree on those keys read alike |
| Rarities.MergedProperties | src/main/java/de/raidcraft/loot/config/Rarity.java:77-80 | each property of a merged rarity comes from the overriding section when it sets that key and from the base otherwise |
| Rarities.Rarity.constructor | src/main/java/de/raidcraft/loot/config/Rarity.java:18-20 | a rarity wraps the given section, which has the given identity |
| Rarities.Rarity.SetChance | src/main/java/de/raidcraft/loot/config/Rarity.java:27-32 | writes `chance` in place and returns the same rarity; the chance then reads back as set |
| Rarities.Rarity.SetName | src/main/java/de/raidcraft/loot/config/Rarity.java:39-44 | writes `name` in place and returns the same rarity; the name then reads back as set |
| Rarities.Rarity.SetFormat | src/main/java/de/raidcraft/loot/config/Rarity.java:51-56 | writes `format` in place and returns the same rarity; the format then reads back as set |
| Rarities.Rarity.SetMax | src/main/java/de/raidcraft/loot/config/Rarity.java:63-68 | writes `max` in place and returns the same rarity; the cap then reads back as set |
| Rarities.Rarity.Merge | src/main/java/de/raidcraft/loot/config/Rarity.java:77-80 | returns a new rarity over a new section, the overlay of this configuration by the section; this rarity is not changed |
| Rarities.Rarity.MergeRarity | src/main/java/de/raidcraft/loot/config/Rarity.java:89-92 | merging a rarity is merging its configuration, into a new rarity over a new section |
| Sections.GetInt | src/main/java/de/raidcraft/loot/config/ConfiguredLootTable.java:50-53 | a whole number is wrapped to 32 bits, a double is cast with saturation, and anything else gives the default |
| Sections.WrapToInt32 | src/main/java/de/raidcraft/loot/config/ConfiguredLootTable.java:50-53 | the wrapped value differs from the number by a multiple of 2^32 and equals it when it is in the `int` range |
| Sections.DoubleToInt32 | src/main/java/de/raidcraft/loot/config/ConfiguredLootTable.java:50-53 | a double is truncated toward zero, then clamped to the `int` range |
| Sections.LargeIntWraps | src/main/java/de/raidcraft/loot/config/ConfiguredLootTable.java:50-53 | a `count` of 3000000000 reads as -1294967296 |
| Registry.Lookup | src/main/java/de/raidcraft/loot/LootManager.java:145-187 | a null or empty name finds nothing; otherwise the lookup succeeds exactly when the lower-cased name is a key, and returns that key's value |
| Registry.LookupIgnoresCase | src/main/java/de/raidcraft/loot/LootManager.java:182-187 | a name and its lower-cased spelling find the same value |
| Registry.RarityNamed | src/main/java/de/raidcraft/loot/LootManager.java:252-263 | a null or empty name is a configuration error; an unknown name is an error naming it; otherwise the case-insensitive lookup's rarity |
| LootObjects.MaxHeight | src/main/java/de/raidcraft/loot/LootTable.java:26-33 | bounds the nesting depth of every entry of the contents, the measure the recursion descends on |
| LootObjects.RarityOf | src/main/java/de/raidcraft/loot/config/ConfiguredLootObject.java:221-236 | an inline `rarity` section is the rarity; else a `rarity` string names the manager's rarity, falling back to the empty rarity when the lookup fails; else the empty rarity |
| LootObjects.RarityKeyOf | src/main/java/de/raidcraft/loot/config/ConfiguredLootObject.java:221-236 | the identity of the section `rarity()` returns: an inline section is keyed by its own section identity; a string naming a registered rarity is that rarity's lower-cased name; anything else is a new default section |
| LootObjects.RarityIdentity | src/main/java/de/raidcraft/loot/config/Rarity.java:11 | two inline rarities are equal exactly when they are the same section object, whatever their contents; an inline rarity never equals a named one; two named rarities are equal exactly when the names agree ignoring case |
| LootObjects.FlagDefaults | src/main/java/de/raidcraft/loot/config/ConfiguredLootObject.java:150-187 | unset flags read as enabled, not always and not unique |
| LootObjects.ChanceFallsBackToRarity | src/main/java/de/raidcraft/loot/config/ConfiguredLootObject.java:133-141 | an explicit chance wins; without it the rarity's chance is used; with neither the weight is 0 |
| LootObjects.PlaceholderReplaced | src/main/java/de/raidcraft/loot/config/ConfiguredLootObject.java:67-74 | the reward-name placeholder with the placeholder replaced is the name |
| LootObjects.NameFormatting | src/main/java/de/raidcraft/loot/config/ConfiguredLootObject.java:67-74 | no or an empty name gives no display name; the default format shows the name as it is; a format without the placeholder is shown unchanged |
| LootObjects.TypeTwiceLosesWithSection | src/main/java/de/raidcraft/loot/config/ConfiguredLootObject.java:42-58 | as written, an `item` object's first `type()` loads its `with` section, and the second loads an empty one |
| LootObjects.ObjectTypeStable | src/main/java/de/raidcraft/loot/config/ConfiguredLootObject.java:42-58 | the corrected `type()` loads the registered type from the `with` section (empty when missing) and depends on `type` and `with` only |
| LootObjects.RewardTypeIgnoresTypeKey | src/main/java/de/raidcraft/loot/config/ConfiguredReward.java:33-54 | a reward's type is found through `guessType`, so the `type` key does not matter; with neither `item` nor `command` there is no type |
| LootObjects.ComputedIcon | src/main/java/de/raidcraft/loot/config/ConfiguredReward.java:98-111 | on a cache miss the type's icon wins; else a non-empty `icon` key names the material; else there is no icon |
| LootObjects.MergedEntry | src/main/java/de/raidcraft/loot/config/ConfiguredLootObject.java:189-197 | the merge is a new plain object with a new identity whose configuration is this one overlaid by the section; each value, a nested section included, is the original's own value, not a copy |
| LootObjects.MergedCopiesShareRarity | src/main/java/de/raidcraft/loot/util/ConfigUtil.java:44-46 | a merged copy whose section sets no `rarity` has the original's rarity identity, the same inline section object; one whose section brings a `rarity` section has that section's identity |
| LootObjects.MergedReadsOverlay | src/main/java/de/raidcraft/loot/config/ConfiguredLootObject.java:189-197 | a merged object reads each flag and the chance from the section where it sets the key, and from the original otherwise |
| LootObjects.MergeObject | src/main/java/de/raidcraft/loot/config/ConfiguredLootObject.java:206-213 | a configured object is merged by its configuration; any other object is returned itself |
| LootObjects.ConfiguredLootObject.constructor | src/main/java/de/raidcraft/loot/config/ConfiguredLootObject.java:37-40 | a new object holds the given configuration and has no cached icon |
| LootObjects.ConfiguredLootObject.SetChance | src/main/java/de/raidcraft/loot/config/ConfiguredLootObject.java:143-148 | writes `chance` in place, returns this object, and the chance then reads back as set whatever the rarity |
| LootObjects.ConfiguredLootObject.SetEnabled | src/main/java/de/raidcraft/loot/config/ConfiguredLootObject.java:156-161 | writes `enabled` in place, returns this object, and the flag reads back as set |
| LootObjects.ConfiguredLootObject.SetAlways | src/main/java/de/raidcraft/loot/config/ConfiguredLootObject.java:169-174 | writes `always` in place, returns this object, and the flag reads back as set |
| LootObjects.ConfiguredLootObject.SetUnique | src/main/java/de/raidcraft/loot/config/ConfiguredLootObject.java:182-187 | writes `unique` in place, returns this object, and the flag reads back as set |
| LootObjects.ConfiguredLootObject.SetName | src/main/java/de/raidcraft/loot/config/ConfiguredLootObject.java:76-81 | writes `name` in place, returns this object, and the name reads back as set |
| LootObjects.ConfiguredLootObject.SetType | src/main/java/de/raidcraft/loot/config/ConfiguredReward.java:56-61 | writes `type` in place and returns this object |
| LootObjects.ConfiguredLootObject.SetLoreLines | src/main/java/de/raidcraft/loot/config/ConfiguredLootObject.java:89-95 | as written, the lines are stored as an array, and `lore()` then reads nothing |
| LootObjects.ConfiguredLootObject.SetLore | src/main/java/de/raidcraft/loot/config/ConfiguredLootObject.java:126-131 | the lines are stored as a list, and `lore()` reads them back |
| LootObjects.ConfiguredLootObject.SetIcon | src/main/java/de/raidcraft/loot/config/ConfiguredLootObject.java:118-124 | sets the cached icon and returns this object |
| LootObjects.ConfiguredLootObject.TypeAsWritten | src/main/java/de/raidcraft/loot/config/ConfiguredLootObject.java:42-58 | as written, the loaded type is that of the `with` section read before the call, and the section is then replaced by a new, empty section object (`freshSection`) |
| LootObjects.ConfiguredLootObject.GetIcon | src/main/java/de/raidcraft/loot/config/ConfiguredLootObject.java:97-116 | a cached icon is returned with nothing recomputed or changed; on a miss the icon computed from the type and the `icon` key is returned and cached; for a plain object the miss goes through the as-written `type()` and so leaves the `with` section emptied, as `ConfiguredReward.icon()` (config/ConfiguredReward.java:93-112) does not |
| LootObjects.ConfiguredLootObject.Merge | src/main/java/de/raidcraft/loot/config/ConfiguredLootObject.java:189-192 | returns a fresh plain object over the overlay of this configuration by the section, with no cached icon |
| LootObjects.LoreLinesLost | src/main/java/de/raidcraft/loot/config/ConfiguredReward.java:85-91 | as written, lore lines given one by one do not read back |
| LootObjects.LoreRoundTrip | src/main/java/de/raidcraft/loot/config/ConfiguredReward.java:79-127 | lore given as a list reads back as that list |
| LegacyLootObjects.Create | src/main/java/de/raidcraft/loot/config/ConfiguredReward.java:27-31 | `create` builds a new instance of the same subclass over the given configuration; a new table has loaded nothing |
| LegacyLootObjects.MergeSection | src/main/java/de/raidcraft/loot/ConfiguredLootObject.java:99-110 | a merge keeps the subclass, gets a new identity, and is this configuration overlaid by the section, whose keys win |
| LegacyLootObjects.MergeRef | src/main/java/de/raidcraft/loot/ConfiguredLootObject.java:89-97 | a configured argument is merged by its configuration; for any other argument this object is returned |
| LegacyLootObjects.RevisionsDisagreeOnForeignMerge | src/main/java/de/raidcraft/loot/ConfiguredLootObject.java:89-97 | for an object that is not configured, the older revision returns itself where the newer returns the argument |
| LegacyLootObjects.MergeKeepsKindAndPrefersSection | src/main/java/de/raidcraft/loot/ConfiguredLootObject.java:99-110 | the section's chance wins over this object's own, and a merged reward stays a reward, where the newer revision yields a plain object |
| LootResults.Builder | src/main/java/de/raidcraft/loot/LootResult.java:34-37 | a builder starts from its source, with no player and no rewards |
| LootResults.WithRewards | src/main/java/de/raidcraft/loot/LootResult.java:22-25 | the copy differs from the original in its rewards only |
| LootResults.AsDisplayItems | src/main/java/de/raidcraft/loot/LootResult.java:45-50 | one display item per reward, in result order |
| LootResults.AddTo | src/main/java/de/raidcraft/loot/LootResult.java:61-64 | every reward is delivered to the given player exactly once, in result order |
| LootResults.AddToPlayer | src/main/java/de/raidcraft/loot/LootResult.java:71-76 | without a player nothing is delivered; otherwise every reward goes to the looting player once, in order |
| LootTargets.AbstractLootTarget.constructor | src/main/java/de/raidcraft/loot/targets/AbstractLootTarget.java:17 | a target starts with an empty list |
| LootTargets.AbstractLootTarget.Add | src/main/java/de/raidcraft/loot/targets/AbstractLootTarget.java:19-23 | the given objects are appended in their order, the objects held before stay in place, and adding nothing changes nothing |
| Manager.LoadContents | src/main/java/de/raidcraft/loot/config/ConfiguredLootTable.java:39-47 | loading never yields more entries than list elements, and exactly one per element when no element fails |
| Manager.CreatesNoRewards | src/main/java/de/raidcraft/loot/LootManager.java:207-242 | `createLootObject` builds plain objects and tables, never a reward |
| Manager.CreatePrecedence | src/main/java/de/raidcraft/loot/LootManager.java:207-242 | `type` decides alone: `table` in any case loads a table, an unregistered name fails, a registered one is a plain object. Without `type`, `object` is resolved, and `table` only without both; an unknown reference is an error naming it, a known one is merged; a configuration with none of the keys is a plain object |
| Manager.ObjectReferencesShareRarity | src/main/java/de/raidcraft/loot/LootManager.java:215-224 | two `object:` references to one registered object that set no `rarity` of their own both succeed, and both copies have the referenced object's rarity identity, its inline section object included |
| Manager.TypeCheckIsCaseSensitive | src/main/java/de/raidcraft/loot/LootManager.java:209-214 | a type registered as `item` is unknown when spelled `Item` |
| Manager.LoadContentsInOrder | src/main/java/de/raidcraft/loot/config/ConfiguredLootTable.java:39-47 | when loading succeeds, the entry at each position is the one `createLootObject` makes of the list element at that position |
| Manager.LoadContentsStopsAtFailure | src/main/java/de/raidcraft/loot/config/ConfiguredLootTable.java:39-47 | a failure comes from the first element that cannot be created, after one entry for each element before it |
| Manager.LoadTableStep | src/main/java/de/raidcraft/loot/LootManager.java:373-379 | loading one table appends the entries its `rewards` create before any failure; no failure keeps it, a non-section element aborts the pass, any other error removes it |
| Manager.Share | src/main/java/de/raidcraft/loot/LootManager.java:373-375 | after an in-place load every registration holding that object holds the loaded table, and no other registration changes |
| Manager.Pass | src/main/java/de/raidcraft/loot/LootManager.java:371-380 | the pass only ever removes tables, every table left is a table, the object registrations keep their names, and rarities and types stay |
| Manager.PassKeepsUnvisited | src/main/java/de/raidcraft/loot/LootManager.java:371-380 | a table the pass does not visit stays, even when the pass is aborted |
| Manager.PassKeepsExactlyTheLoadedTables | src/main/java/de/raidcraft/loot/LootManager.java:371-380 | in a pass that is not aborted, a visited table stays exactly when its `load()` succeeded at its turn |
| Manager.PassKeepsOneObjectPerId | src/main/java/de/raidcraft/loot/LootManager.java:102-115 | a table registered as an object and as a table stays one object through the pass: both registrations show the same loaded contents |
| Manager.AbortKeepsPartialLoad | src/main/java/de/raidcraft/loot/LootManager.java:371-380 | a pass aborted by the first table keeps that table, with the entries loaded before the bad element appended |
| Manager.BuiltInTypesResolve | src/main/java/de/raidcraft/loot/LootManager.java:36-42 | with the built-in types, `type: none`, `type: item` and `type: command` each create a plain object |
| Manager.DefaultTypeBuiltIn | src/main/java/de/raidcraft/loot/LootManager.java:36-42 | the default type `none` of an object without `type` is a built-in type, loaded with an empty `with` section |
| Manager.LootManager.constructor | src/main/java/de/raidcraft/loot/LootManager.java:36-42 | rarities, objects and tables start empty, and the types `none`, `item` and `command` are registered |
| Manager.LootManager.Unload | src/main/java/de/raidcraft/loot/LootManager.java:57-62 | rarities, objects and tables are emptied; registered types are kept |
| Manager.LootManager.RegisterType | src/main/java/de/raidcraft/loot/LootManager.java:73-91 | a class without its annotation is refused; a new lower-cased identifier is registered; a taken identifier keeps its first registration |
| Manager.LootManager.RegisterTable | src/main/java/de/raidcraft/loot/LootManager.java:126-135 | the table is stored under the lower-cased name unless that name is taken, in which case nothing changes |
| Manager.LootManager.RegisterObject | src/main/java/de/raidcraft/loot/LootManager.java:102-115 | a table is also registered as a table first; the object is stored under the lower-cased name unless it is taken (the first registration wins) |
| Manager.LootManager.LoadTables | src/main/java/de/raidcraft/loot/LootManager.java:371-380 | the loop over the snapshot of tables leaves exactly the state `Pass` computes, in both maps, and reports whether a non-section element aborted it |
| Manager.RegisteredObjectIsFound | src/main/java/de/raidcraft/loot/LootManager.java:182-187 | an object registered under a new name is found under any spelling of that name |
| Evaluation.Count | src/main/java/de/raidcraft/loot/config/ConfiguredLootTable.java:50-53 | `count()` is 1 when unset, the configured number wrapped to 32 bits for a whole number, and the number itself when it is in the `int` range |
| Evaluation.Bump | src/main/java/de/raidcraft/loot/config/ConfiguredLootTable.java:154 | the count of the rarity's section goes up by one and every other count stays; a default rarity is a new section, so its count is never read again and is not kept |
| Evaluation.Candidates | src/main/java/de/raidcraft/loot/config/ConfiguredLootTable.java:104-110 | an entry is a candidate exactly when it is among the contents, not excluded from random, enabled and the count of its rarity section is under that rarity's cap |
| Evaluation.Weights | src/main/java/de/raidcraft/loot/config/ConfiguredLootTable.java:113 | one weight per candidate, its chance |
| Evaluation.Pick | src/main/java/de/raidcraft/loot/config/ConfiguredLootTable.java:116-127 | the roulette winner, when there is one, is a position of the candidates |
| Evaluation.RouletteIntervals | src/main/java/de/raidcraft/loot/config/ConfiguredLootTable.java:113-127 | with non-negative weights and a hit of at least 0, candidate `k` wins exactly for hits in `[prefix(k), prefix(k+1))`, an interval as long as its chance; there is no winner exactly when the hit is at or beyond the total |
| Evaluation.RouletteBoundary | src/main/java/de/raidcraft/loot/config/ConfiguredLootTable.java:116-127 | the comparison is strict: with weights 3 and 7, a hit of exactly 3 selects the second entry |
| Evaluation.Record | src/main/java/de/raidcraft/loot/config/ConfiguredLootTable.java:148-154 | the first bookkeeping of `addToResult` records a unique entry as dropped and changes neither the result nor the hooks |
| Evaluation.AppendKeepsUniqueOnce | src/main/java/de/raidcraft/loot/config/ConfiguredLootTable.java:148-163 | appending a reward that is not an already dropped unique entry keeps every unique entry of the result recorded and no unique entry twice |
| Evaluation.AddToResult | src/main/java/de/raidcraft/loot/config/ConfiguredLootTable.java:146-166 | `addToResult` never gives back a random value and keeps a result made of rewards |
| Evaluation.FeedBack | src/main/java/de/raidcraft/loot/config/ConfiguredLootTable.java:156-160 | feeding a nested table's rewards back takes no random value and keeps the result made of rewards |
| Evaluation.AlwaysPass | src/main/java/de/raidcraft/loot/config/ConfiguredLootTable.java:88-93 | the "always" pass never gives back a random value and keeps the result made of rewards |
| Evaluation.Draw | src/main/java/de/raidcraft/loot/config/ConfiguredLootTable.java:102-127 | every draw takes at least its own random value and keeps the result made of rewards |
| Evaluation.Draws | src/main/java/de/raidcraft/loot/config/ConfiguredLootTable.java:95-129 | `n` draws take at least `n` random values |
| Evaluation.Evaluate | src/main/java/de/raidcraft/loot/config/ConfiguredLootTable.java:64-144 | a resolution yields rewards only, and takes at least `max(count, 0)` random values |
| Evaluation.PreEvents | src/main/java/de/raidcraft/loot/config/ConfiguredLootTable.java:82 | one pre-evaluation hook per entry, in contents order |
| Evaluation.PostEvents | src/main/java/de/raidcraft/loot/config/ConfiguredLootTable.java:133-135 | one post-evaluation hook per reward of the result, in result order, each seeing the whole result |
| Bookkeeping.AddToResultKeeps | src/main/java/de/raidcraft/loot/config/ConfiguredLootTable.java:146-166 | `addToResult`, nested re-rolls included, only grows the result, the dropped set, the random values used and the hooks, and keeps the uniqueness bookkeeping right |
| Bookkeeping.FeedBackKeeps | src/main/java/de/raidcraft/loot/config/ConfiguredLootTable.java:156-160 | feeding rewards back keeps the same |
| Bookkeeping.AlwaysPassKeeps | src/main/java/de/raidcraft/loot/config/ConfiguredLootTable.java:88-93 | the "always" pass keeps the same |
| Bookkeeping.DrawKeeps | src/main/java/de/raidcraft/loot/config/ConfiguredLootTable.java:102-127 | one draw keeps the same |
| Bookkeeping.DrawsKeeps | src/main/java/de/raidcraft/loot/config/ConfiguredLootTable.java:95-129 | the weighted loop keeps the same |
| Bookkeeping.EvaluateBookkeeping | src/main/java/de/raidcraft/loot/config/ConfiguredLootTable.java:76-135 | in every result each unique entry appears at most once and is recorded as dropped; the pre-evaluation hooks come first, one per entry; the post-evaluation hooks come last, one per reward |
| EvaluationProperties.CandidatesKeepOrder | src/main/java/de/raidcraft/loot/config/ConfiguredLootTable.java:104-110 | the candidates of two concatenated lists are the two lists' candidates concatenated, so the filter keeps contents order |
| EvaluationProperties.CandidatesStep | src/main/java/de/raidcraft/loot/config/ConfiguredLootTable.java:104-110 | the first entry is a candidate exactly when it is droppable, ahead of the candidates of the rest |
| EvaluationProperties.ExcludedNeverCandidate | src/main/java/de/raidcraft/loot/LootObject.java:48-54 | an entry excluded from random is never a candidate, so its chance is not in the total a hit is drawn under |
| EvaluationProperties.ZeroMaxNeverCandidate | src/main/java/de/raidcraft/loot/config/ConfiguredLootTable.java:168-176 | an entry whose rarity has max 0 is never a candidate |
| EvaluationProperties.DefaultRarityNeverCandidate | src/main/java/de/raidcraft/loot/config/Rarity.java:58-61 | an entry without a rarity gets the default cap 0 and is never a weighted candidate |
| EvaluationProperties.DroppedUniqueSkipped | src/main/java/de/raidcraft/loot/config/ConfiguredLootTable.java:146-148 | a unique entry already dropped is skipped: no count, no append, no hook |
| EvaluationProperties.LeafAppended | src/main/java/de/raidcraft/loot/config/ConfiguredLootTable.java:148-164 | any other reward is appended, gets one hit, counts its rarity section once (unless it is a new default section), is recorded when unique, and takes no random value |
| EvaluationProperties.DroppedUniqueWinnerWastesDraw | src/main/java/de/raidcraft/loot/config/ConfiguredLootTable.java:104-127 | a dropped unique entry can still win a draw, which then adds nothing and uses up its random value |
| EvaluationProperties.LeafTableBounds | src/main/java/de/raidcraft/loot/config/ConfiguredLootTable.java:95-129 | for contents without tables the weighted loop takes exactly `max(count, 0)` random values, and the result holds at most the enabled "always" entries plus `max(count, 0)` entries |
| EvaluationProperties.AlwaysIncluded | src/main/java/de/raidcraft/loot/config/ConfiguredLootTable.java:84-93 | an enabled "always" reward that is not unique is in every result, whatever the count, its rarity cap or its random exclusion |
| EvaluationProperties.ResultMayExceedCount | src/main/java/de/raidcraft/loot/LootTable.java:15-24 | two "always" rewards both drop with a count of 1 |
| EvaluationProperties.FeedBackAppendsAll | src/main/java/de/raidcraft/loot/config/ConfiguredLootTable.java:156-160 | without unique entries, all of a nested table's rewards are appended to the parent's result, in order |
| EvaluationProperties.FeedBackHitsAll | src/main/java/de/raidcraft/loot/config/ConfiguredLootTable.java:156-163 | and each of them gets a second hit, in the same order |
| EvaluationProperties.SingleAlwaysLeaf | src/main/java/de/raidcraft/loot/config/ConfiguredLootTable.java:76-135 | a single enabled "always" reward with count 0 yields exactly that reward, the hooks pre, hit and post in that order, and no random value |
| EvaluationProperties.NestedLeafHitTwice | src/main/java/de/raidcraft/loot/config/ConfiguredLootTable.java:154-163 | a reward in a nested table reaches the parent's result once, gets its hit twice, and a named rarity shared by table and reward is counted twice |
| EvaluationProperties.RarityCapHolds | src/main/java/de/raidcraft/loot/config/ConfiguredLootTable.java:168-176 | for contents without nested tables, a rarity section with cap `max >= 0` that no enabled "always" entry has is counted at most `max` times in a resolution, however large the count, and the result holds at most `max` entries with it |
| EvaluationProperties.SharedRarityDropsOnce | src/main/java/de/raidcraft/loot/config/ConfiguredLootTable.java:168-176 | two rewards naming the same registered rarity with `max: 1`, drawn five times, yield at most one reward of it |
| EvaluationProperties.InlineRaritiesCountApart | src/main/java/de/raidcraft/loot/config/ConfiguredLootTable.java:154 | two rewards holding distinct inline rarity section objects of cap 1 are counted apart, however alike the sections read: after one is counted, the other is still a candidate and the first is not |
| EvaluationProperties.MergedCopiesCountTogether | src/main/java/de/raidcraft/loot/config/ConfiguredLootTable.java:154 | two merged copies of one object with an inline rarity of cap 1 share one counter: after either is counted, neither is a candidate |
| LootTables.RandomSource.Next | src/main/java/de/raidcraft/loot/config/ConfiguredLootTable.java:113 | each call hands out the next value of the random source and moves on |
| LootTables.FirePreEvaluation | src/main/java/de/raidcraft/loot/config/ConfiguredLootTable.java:82 | fires one pre-evaluation hook per entry, in contents order |
| LootTables.FirePostEvaluation | src/main/java/de/raidcraft/loot/config/ConfiguredLootTable.java:133-135 | fires one post-evaluation hook per reward, in result order, each seeing the whole result |
| LootTables.CollectDroppable | src/main/java/de/raidcraft/loot/config/ConfiguredLootTable.java:104-110 | the stream filter computes exactly the candidates |
| LootTables.SumOfChances | src/main/java/de/raidcraft/loot/config/ConfiguredLootTable.java:113 | the sum is the total weight of the candidates |
| LootTables.SelectWinner | src/main/java/de/raidcraft/loot/config/ConfiguredLootTable.java:116-127 | the running-sum loop stops at exactly the roulette winner, or finds none |
| LootTables.Prepend | src/main/java/de/raidcraft/loot/config/ConfiguredLootTable.java:43-45 | entries already added stay in front of those loaded after them |
| LootTables.LoadRewardsOverList | src/main/java/de/raidcraft/loot/config/ConfiguredLootTable.java:41 | reading `rewards` with `getList` and a default empty list gives the same load as the list itself |
| LootTables.ConfiguredLootTable.constructor | src/main/java/de/raidcraft/loot/config/ConfiguredLootTable.java:26-29 | a new table has loaded nothing, rolled nothing and cached nothing |
| LootTables.ConfiguredLootTable.Load | src/main/java/de/raidcraft/loot/config/ConfiguredLootTable.java:39-47 | appends one entry per element of `rewards`, in list order, created by the manager; the first element that cannot be created ends the loop with its error, and the entries before it stay |
| LootTables.ConfiguredLootTable.Loot | src/main/java/de/raidcraft/loot/config/ConfiguredLootTable.java:56-61 | drops the cache and so always resolves anew: the result is this table's fresh resolution for the player, and it is cached |
| LootTables.ConfiguredLootTable.LootAnonymous | src/main/java/de/raidcraft/loot/Lootable.java:23-26 | `loot()` is `loot(null)`: a fresh resolution with no player |
| LootTables.ConfiguredLootTable.Rewards | src/main/java/de/raidcraft/loot/config/ConfiguredLootTable.java:63-144 | a cached result is returned unchanged, with no random value used, no hook fired and no bookkeeping touched; otherwise the result has this table as source, the given player and the fresh resolution's rewards, and is cached |
| LootTables.ConfiguredLootTable.Resolve | src/main/java/de/raidcraft/loot/config/ConfiguredLootTable.java:75-135 | clearing the bookkeeping, the hooks, the "always" pass, the weighted loop and the post hooks together compute exactly one `Evaluate`, its bookkeeping left in the fields |
| LootTables.ConfiguredLootTable.AddAlways | src/main/java/de/raidcraft/loot/config/ConfiguredLootTable.java:88-93 | the loop over the contents computes the "always" pass |
| LootTables.ConfiguredLootTable.DrawTimes | src/main/java/de/raidcraft/loot/config/ConfiguredLootTable.java:100-128 | the counted loop computes `n` draws, one after the other |
| LootTables.ConfiguredLootTable.DrawOnce | src/main/java/de/raidcraft/loot/config/ConfiguredLootTable.java:102-127 | collecting candidates, drawing under their total and selecting the winner computes one `Draw` |
| LootTables.ConfiguredLootTable.AddToResult | src/main/java/de/raidcraft/loot/config/ConfiguredLootTable.java:146-166 | the in-place `addToResult` on the fields computes the functional `addToResult` |
| LootTables.ConfiguredLootTable.AddNested | src/main/java/de/raidcraft/loot/config/ConfiguredLootTable.java:156-160 | a nested table is looted anew with no player from the same random source, and its rewards are fed back |
| LootTables.ConfiguredLootTable.AddAll | src/main/java/de/raidcraft/loot/config/ConfiguredLootTable.java:158-160 | the loop over a nested result passes each reward through `addToResult` in order |
| LootTables.ConfiguredLootTable.Of | src/main/java/de/raidcraft/loot/config/ConfiguredLootTable.java:26-29 | the table object of a nested entry holds that entry's identity, configuration and loaded contents, with nothing rolled or cached |

## Left out

- Loading from disk and YAML: `loadRarities`, `loadLootObjects` (with its
  retry of failed loads) and the file walk of `loadLootTables`. The model
  starts from parsed configurations. Only the removal pass over the
  loaded tables is modelled (`Manager.LootManager.LoadTables`).
- `RandomUtil.getDoubleValue`: its values are a parameter (`Random`),
  and no probability is claimed beyond the interval lengths of
  `Evaluation.RouletteIntervals`.
- IEEE double arithmetic: chances, sums and comparisons are exact `real`
  numbers.
- Requirement checks: they are commented out in the source, so the model
  treats them as always met, with or without a player.
- Bukkit items, materials and display items: an icon is a material name,
  `Material.matchMaterial` is a parameter, and `ItemUtil.toDisplayItem`
  is a parameter of `LootResults.AsDisplayItems`.
- Reward-type implementations: `RewardType.load` is an opaque, possibly
  failing function (`TypeLoader`), and `Reward.addTo` is a delivery event.
- Plugin bootstrap, commands, animations, logging and the checked
  exception types beyond their failure values (`LoadError`).
- `excludeFromRandom` has no implementation in the repository. It is a
  field of an entry, and the objects the manager creates have it false.
- `Constants.Placeholder.LOOT_OBJECT_NAME`, the default rarity format, is
  not defined in the repository. It is modelled as the reward-name
  placeholder `{REWARD_NAME}`.
- `getString` of a non-string value: Bukkit turns a number into its
  text, while the model reads only strings.
- `toLowerCase` is modelled for ASCII letters only.
- Cyclic table references: they would recurse without end in the source,
  and the recursive datatype rules them out.
- Nested tables are values, rebuilt as a fresh table object each time
  they are re-rolled. Aliasing of one table object inside several tables
  is not modelled.
- The uuid is a counter handed in as `freshId`, not a random value.
- Hooks are recorded as events, and their default bodies do nothing else.
- Evaluation.AddToResult: its own contract states only how many random values it takes and that the result stays made of rewards; that the state only grows and the uniqueness bookkeeping holds is proved separately, in `Bookkeeping`.
- Evaluation.FeedBack: its own contract states only how many random values it takes and that the result stays made of rewards; that the state only grows and the uniqueness bookkeeping holds is proved separately, in `Bookkeeping`.
- Evaluation.AlwaysPass: its own contract states only how many random values it takes and that the result stays made of rewards; that the state only grows and the uniqueness bookkeeping holds is proved separately, in `Bookkeeping`.
- Evaluation.Draw: its own contract states only how many random values it takes and that the result stays made of rewards; that the state only grows and the uniqueness bookkeeping holds is proved separately, in `Bookkeeping`.
- Evaluation.Draws: its own contract states only how many random values it takes and that the result stays made of rewards; that the state only grows and the uniqueness bookkeeping holds is proved separately, in `Bookkeeping`.
- Evaluation.Evaluate: its own contract states only how many random values it takes and that the result stays made of rewards; that the state only grows and the uniqueness bookkeeping holds is proved separately, in `Bookkeeping`.
- `lootType`, `lootTable`, `lootObject`, `rarity` and `lootTables()` of
  `LootManager` are read-only functions of the class (`LootType`,
  `LootTable`, `LootObject`, `Rarity`, `LootTables`), specified through
  `Registry.Lookup` and `Registry.RarityNamed`.
- Section identity: a section is identified by a `SectionId` or a
  `RarityKey`, not by an object reference. The ids of the sections read
  from files are part of the input. The model assumes, without checking,
  that distinct section objects carry distinct ids. A merge
  (`ConfigUtil.merge`) makes a new top-level section and keeps the nested
  sections of both sides. A merge of two rarities (`Rarity.merge`) makes
  a new section, `freshSection`. The counter entries of the default rarity
  are never read again, so they are not stored.
- Manager.CreatePrecedence: an `object` or `table` reference to a
  registered object that is not a configured one is returned shared and
  unmerged (LootManager.java:225-228 and 237-240). The registries of the
  model hold configured entries only, so this branch is not reached; its
  flags, chance and rarity belong to code outside the model.
- `CommandLoot` is not part of this model. Its identifier `command` is
  taken from the tests, and its loading is the opaque `TypeLoader`.

## Findings

| source | as written | input that shows it | evidently intended | confidence | as-written member | corrected member |
|---|---|---|---|---|---|---|
| src/main/java/de/raidcraft/loot/config/ConfiguredLootObject.java:49-51 | The fallback `with` section for `type()` is built as an argument, so it is created on every call. Creating it replaces any existing `with` section with an empty one. `icon()` calls `type()` on a cache miss, so it empties the section too. | An object with type `item` and a `with` section naming `wooden_sword`, whose `type()` is called twice: the second load gets an empty section. | The empty section is created only when none exists, and `type()` leaves the configuration as it was. | not executed; high | LootObjects.ConfiguredLootObject.TypeAsWritten, LootObjects.TypeTwiceLosesWithSection | LootObjects.ObjectTypeStable |
| src/main/java/de/raidcraft/loot/config/ConfiguredReward.java:85-91 | `lore(String...)` stores the Java array itself, but `lore()` reads with `getStringList`, which only accepts a list. The same code is at config/ConfiguredLootObject.java:89-95. | `lore("a")`, then `lore()`, returns the empty list. | The lines are stored as a list, so they read back. | not executed; medium | LootObjects.ConfiguredLootObject.SetLoreLines, LootObjects.LoreLinesLost | LootObjects.ConfiguredLootObject.SetLore, LootObjects.LoreRoundTrip |
