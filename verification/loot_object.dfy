/** `LootObject`, `LootTable` and the configured loot objects of the
    `config` package: an entry of a loot table is read through its
    configuration, with the defaults below, and is identified by a uuid,
    never by its configuration. */
module LootObjects {
  import opened Wrappers
  import opened Text
  import opened Sections
  import opened Registry
  import ConfigUtil
  import Rarities

  /** The uuid an object is created with; equality and hashing use it only. */
  type Id = nat

  /** A loot object: a plain configured object (not a reward, so the
      engine never appends it), a configured reward, or a table whose
      contents are entries again. `excludeFromRandom` has no implementation
      in the repository, so it is a property given with the entry. */
  datatype Entry =
    | Plain(id: Id, config: Config, excludeFromRandom: bool)
    | Reward(id: Id, config: Config, excludeFromRandom: bool)
    | Table(id: Id, config: Config, excludeFromRandom: bool, contents: seq<Entry>)

  /** Any loot object: a configured one, or an object of some other
      `LootObject` implementation, known only by its identity. */
  datatype LootObjectRef = Configured(entry: Entry) | Foreign(foreignId: Id)

  /** The hooks of `LootObject`, recorded in the order they fire. The
      default hooks change nothing else. */
  datatype Event =
    | PreEvaluation(target: Id)
    | Hit(target: Id)
    | PostEvaluation(target: Id, result: seq<Id>)

  /** Nesting depth of tables, the measure the recursive evaluation
      descends on. */
  function Height(e: Entry): nat {
    if e.Table? then 1 + MaxHeight(e.contents) else 0
  }

  function MaxHeight(es: seq<Entry>): (h: nat)
    ensures forall i :: 0 <= i < |es| ==> Height(es[i]) <= h
  {
    if es == [] then 0
    else
      var rest := MaxHeight(es[1..]);
      assert forall i :: 1 <= i < |es| ==> es[i] == es[1..][i - 1];
      if Height(es[0]) > rest then Height(es[0]) else rest
  }

  // ---------------------------------------------------------------------
  // Reads of the configuration

  function Enabled(config: Config): bool { GetBoolean(config, "enabled", true) }
  function Always(config: Config): bool { GetBoolean(config, "always", false) }
  function Unique(config: Config): bool { GetBoolean(config, "unique", false) }

  /** `rarity()`: an inline `rarity` section, else the manager's rarity of
      that name, else (no rarity, or a failed lookup) an empty rarity. */
  function RarityOf(config: Config, rarities: map<string, Config>): (r: Config)
    ensures IsSection(config, "rarity") ==> r == config["rarity"].entries
    ensures !IsSection(config, "rarity") && IsString(config, "rarity") ==>
      r == match RarityNamed(rarities, GetString(config, "rarity")) {
        case Success(named) => named
        case Failure(_) => Empty
      }
    ensures !IsSection(config, "rarity") && !IsString(config, "rarity") ==> r == Empty
  {
    if IsSection(config, "rarity") then config["rarity"].entries
    else if IsSet(config, "rarity") && IsString(config, "rarity") then
      match RarityNamed(rarities, GetString(config, "rarity")) {
        case Success(named) => named
        case Failure(_) => Empty
      }
    else Empty
  }

  /** Which rarity `rarity()` hands out, as far as equality goes. A
      rarity equals another exactly when both wrap the same section
      object, and sections compare by identity: an inline rarity is the
      section object stored under `rarity` (which a merged copy shares with
      the object it was merged from), a named rarity is the manager's object
      registered under that name, and the default rarity is built anew on
      every call, so no two of its instances are equal. */
  datatype RarityKey = InlineRarity(section: SectionId) | NamedRarity(name: string) | DefaultRarity

  /** The identity of the rarity of `e`, read the way `rarity()` reads it;
      it names exactly the rarity `RarityOf` reads. */
  function RarityKeyOf(e: Entry, rarities: map<string, Config>): (k: RarityKey)
    ensures k.InlineRarity? <==> IsSection(e.config, "rarity")
    ensures k.InlineRarity? ==> k.section == e.config["rarity"].id
    ensures k.NamedRarity? ==>
      && IsString(e.config, "rarity") && k.name == ToLower(GetString(e.config, "rarity").value)
      && k.name in rarities && RarityOf(e.config, rarities) == rarities[k.name]
    ensures k.DefaultRarity? ==> RarityOf(e.config, rarities) == Empty
  {
    if IsSection(e.config, "rarity") then InlineRarity(e.config["rarity"].id)
    else if IsSet(e.config, "rarity") && IsString(e.config, "rarity") then
      match RarityNamed(rarities, GetString(e.config, "rarity")) {
        case Success(_) => NamedRarity(ToLower(GetString(e.config, "rarity").value))
        case Failure(_) => DefaultRarity
      }
    else DefaultRarity
  }

  /** Two entries with inline rarities share a rarity exactly when they
      hold the same section object, however alike two distinct sections
      read; two entries naming one registered rarity, in any spelling,
      share it. */
  lemma RarityIdentity(a: Entry, b: Entry, rarities: map<string, Config>)
    ensures IsSection(a.config, "rarity") && IsSection(b.config, "rarity") ==>
      (RarityKeyOf(a, rarities) == RarityKeyOf(b, rarities) <==> a.config["rarity"].id == b.config["rarity"].id)
    ensures IsSection(a.config, "rarity") && !IsSection(b.config, "rarity") ==>
      RarityKeyOf(a, rarities) != RarityKeyOf(b, rarities)
    ensures RarityKeyOf(a, rarities).NamedRarity? && RarityKeyOf(b, rarities).NamedRarity? ==>
      (RarityKeyOf(a, rarities) == RarityKeyOf(b, rarities) <==>
        ToLower(GetString(a.config, "rarity").value) == ToLower(GetString(b.config, "rarity").value))
  {
  }

  /** `chance()`: the explicit `chance` key when set, else the rarity's. */
  function Chance(config: Config, rarities: map<string, Config>): real {
    if IsSet(config, "chance") then GetDouble(config, "chance", 0.0)
    else Rarities.Chance(RarityOf(config, rarities))
  }

  /** `name()`: nothing for a missing or empty name, otherwise the rarity
      format with every reward-name placeholder replaced by the name. */
  function Name(config: Config, rarities: map<string, Config>): Option<string> {
    var name := GetString(config, "name");
    if IsNullOrEmpty(name) then None
    else Some(ReplaceAll(Rarities.Format(RarityOf(config, rarities)), Rarities.RewardNamePlaceholder, name.value))
  }

  function Lore(config: Config): seq<string> {
    GetStringList(config, "lore")
  }

  /** Unset flags read as enabled, not always, not unique. */
  lemma FlagDefaults(config: Config)
    ensures "enabled" !in config ==> Enabled(config)
    ensures "always" !in config ==> !Always(config)
    ensures "unique" !in config ==> !Unique(config)
  {
  }

  /** An explicit chance wins over the rarity; without one the rarity's
      chance is used, and an entry with neither has weight 0. */
  lemma ChanceFallsBackToRarity(config: Config, rarities: map<string, Config>, chance: real)
    ensures Chance(config["chance" := Real(chance)], rarities) == chance
    ensures "chance" !in config ==> Chance(config, rarities) == Rarities.Chance(RarityOf(config, rarities))
    ensures "chance" !in config && "rarity" !in config ==> Chance(config, rarities) == 0.0
  {
  }

  /** The placeholder replaced in the placeholder itself is the name. */
  lemma {:induction false} PlaceholderReplaced(name: string)
    ensures ReplaceAll(Rarities.RewardNamePlaceholder, Rarities.RewardNamePlaceholder, name) == name
  {
    var p := Rarities.RewardNamePlaceholder;
    assert p[..|p|] == p;
    assert ReplaceAll(p[|p|..], p, name) == [];
  }

  /** `name()` formatting: no name gives nothing; with the default format
      the name is shown as it is; a format without the placeholder is shown
      as it is, whatever the name. */
  lemma NameFormatting(config: Config, rarities: map<string, Config>)
    ensures IsNullOrEmpty(GetString(config, "name")) ==> Name(config, rarities).None?
    ensures !IsNullOrEmpty(GetString(config, "name"))
      && Rarities.Format(RarityOf(config, rarities)) == Rarities.RewardNamePlaceholder
      ==> Name(config, rarities) == GetString(config, "name")
    ensures !IsNullOrEmpty(GetString(config, "name"))
      && (forall i :: 0 <= i <= |Rarities.Format(RarityOf(config, rarities))| ==>
            !OccursAt(Rarities.Format(RarityOf(config, rarities)), Rarities.RewardNamePlaceholder, i))
      ==> Name(config, rarities) == Some(Rarities.Format(RarityOf(config, rarities)))
  {
    var name := GetString(config, "name");
    if !IsNullOrEmpty(name) {
      var format := Rarities.Format(RarityOf(config, rarities));
      if format == Rarities.RewardNamePlaceholder {
        PlaceholderReplaced(name.value);
      }
      if forall i :: 0 <= i <= |format| ==> !OccursAt(format, Rarities.RewardNamePlaceholder, i) {
        ReplaceWithoutOccurrence(format, Rarities.RewardNamePlaceholder, name.value);
      }
    }
  }

  // ---------------------------------------------------------------------
  // Types and icons

  /** The registration and section `type()` of a configured loot object
      hands to `load`: the `type` key (default `none`) looked up in the
      registered types, and the `with` section, empty when missing. */
  function ObjectTypeInput(config: Config, types: map<string, Registration>): Option<(Registration, Config)> {
    match Lookup(types, Some(GetStringOr(config, "type", "none")))
    case None => None
    case Some(registration) => Some((registration, GetSection(config, "with").GetOr(Empty)))
  }

  /** `type()` of a configured loot object, reading its configuration
      only; a failed load gives nothing. */
  function ObjectType(config: Config, types: map<string, Registration>, load: TypeLoader): Option<LoadedType> {
    match ObjectTypeInput(config, types)
    case None => None
    case Some(input) => load(input.0, input.1)
  }

  /** The configuration after the as-written `type()` of a configured loot
      object: the `with` section is replaced by a new, empty section
      `freshSection` whenever the type is registered. */
  function AfterTypeAsWritten(config: Config, types: map<string, Registration>, freshSection: SectionId): Config {
    if ObjectTypeInput(config, types).Some? then config["with" := Section(freshSection, map[])] else config
  }

  /** A second `type()` call sees an empty `with` section: an `item` object
      whose `with` section names the item loses it. */
  lemma TypeTwiceLosesWithSection(types: map<string, Registration>)
    requires "item" in types
    ensures var config := map["type" := Str("item"), "with" := Section(1, map["item" := Str("wooden_sword")])];
      ObjectTypeInput(config, types) == Some((types["item"], map["item" := Str("wooden_sword")]))
      && ObjectTypeInput(AfterTypeAsWritten(config, types, 2), types) == Some((types["item"], Empty))
  {
    var config := map["type" := Str("item"), "with" := Section(1, map["item" := Str("wooden_sword")])];
    assert ToLower("item") == "item";
    assert Lookup(types, Some("item")) == Some(types["item"]);
  }

  /** Reading the type is stable: the configuration `type()` reads is the
      configuration it leaves, so every call loads the same input. */
  lemma ObjectTypeStable(config: Config, types: map<string, Registration>, load: TypeLoader, other: string, v: Value)
    requires other != "type" && other != "with"
    ensures ObjectTypeInput(config, types).Some? ==>
      ObjectTypeInput(config, types).value.1 == GetSection(config, "with").GetOr(Empty)
    ensures ObjectType(config[other := v], types, load) == ObjectType(config, types, load)
  {
  }

  /** The registration `type()` of a configured reward uses: the guessed
      type looked up in the registered types; the `type` key is ignored. */
  function RewardTypeRegistration(config: Config, types: map<string, Registration>): Option<Registration> {
    match ConfigUtil.GuessType(Some(config))
    case None => None
    case Some(guessed) => Lookup(types, Some(guessed))
  }

  /** `type()` of a configured reward: the whole configuration is loaded. */
  function RewardType(config: Config, types: map<string, Registration>, load: TypeLoader): Option<LoadedType> {
    match RewardTypeRegistration(config, types)
    case None => None
    case Some(registration) => load(registration, config)
  }

  /** A reward's type depends on its `item`/`command` keys, not on `type`;
      one with neither key has no type. */
  lemma RewardTypeIgnoresTypeKey(config: Config, types: map<string, Registration>, v: Value)
    ensures RewardTypeRegistration(config["type" := v], types) == RewardTypeRegistration(config, types)
    ensures !IsSet(config, "item") && !IsSet(config, "command") ==> RewardTypeRegistration(config, types).None?
  {
  }

  /** What an `icon()` cache miss computes: the type's icon when it
      provides one, else the material named by the `icon` key, else none. */
  function ComputedIcon(loaded: Option<LoadedType>, config: Config, matchMaterial: string -> Option<Icon>): (r: Option<Icon>)
    ensures loaded.Some? && loaded.value.icon.Some? ==> r == loaded.value.icon
    ensures !(loaded.Some? && loaded.value.icon.Some?) && IsNullOrEmpty(GetString(config, "icon")) ==> r.None?
    ensures !(loaded.Some? && loaded.value.icon.Some?) && !IsNullOrEmpty(GetString(config, "icon")) ==>
      r == matchMaterial(GetString(config, "icon").value)
  {
    if loaded.Some? && loaded.value.icon.Some? then loaded.value.icon
    else
      var name := GetString(config, "icon");
      if IsNullOrEmpty(name) then None else matchMaterial(name.value)
  }

  // ---------------------------------------------------------------------
  // Merging

  /** `merge(section)` of a configured loot object: a new plain object,
      with a new identity, over this configuration overlaid by `section`. */
  function MergedEntry(e: Entry, section: Config, freshId: Id): (m: Entry)
    ensures m.Plain? && m.id == freshId && !m.excludeFromRandom
    ensures m.config.Keys == e.config.Keys + section.Keys
    ensures forall k :: k in section ==> m.config[k] == section[k]
    ensures forall k :: k in e.config && k !in section ==> m.config[k] == e.config[k]
  {
    Plain(freshId, ConfigUtil.Merged(e.config, section), false)
  }

  /** A merged object reads each flag and the chance from `section` where
      `section` sets the key, and from the original otherwise. */
  lemma {:induction false} MergedReadsOverlay(e: Entry, section: Config, freshId: Id, rarities: map<string, Config>)
    ensures var m := MergedEntry(e, section, freshId);
      && ("enabled" in section ==> Enabled(m.config) == Enabled(section))
      && ("enabled" !in section ==> Enabled(m.config) == Enabled(e.config))
      && ("unique" in section ==> Unique(m.config) == Unique(section))
      && ("unique" !in section ==> Unique(m.config) == Unique(e.config))
      && ("always" in section ==> Always(m.config) == Always(section))
      && ("always" !in section ==> Always(m.config) == Always(e.config))
      && ("chance" in section ==> Chance(m.config, rarities) == GetDouble(section, "chance", 0.0))
      && ("chance" !in section && "rarity" !in section ==> Chance(m.config, rarities) == Chance(e.config, rarities))
  {
  }

  /** `merge` stores the original's `rarity` value itself, an inline
      section included: a copy whose `section` does not set `rarity` has
      the original's rarity, and so shares its counter; one whose `section`
      brings a `rarity` section has that section's rarity. */
  lemma MergedCopiesShareRarity(e: Entry, section: Config, freshId: Id, rarities: map<string, Config>)
    ensures "rarity" !in section ==> RarityKeyOf(MergedEntry(e, section, freshId), rarities) == RarityKeyOf(e, rarities)
    ensures IsSection(section, "rarity") ==>
      RarityKeyOf(MergedEntry(e, section, freshId), rarities) == InlineRarity(section["rarity"].id)
  {
  }

  /** `merge(LootObject)`: a configured object is merged by its
      configuration; any other object is returned as it is. */
  function MergeObject(e: Entry, other: LootObjectRef, freshId: Id): (r: LootObjectRef)
    ensures other.Foreign? ==> r == other
    ensures other.Configured? ==> r == Configured(MergedEntry(e, other.entry.config, freshId))
  {
    match other
    case Foreign(_) => other
    case Configured(o) => Configured(MergedEntry(e, o.config, freshId))
  }

  // ---------------------------------------------------------------------
  // The mutable object

  /** Which `type()` a configured object uses. */
  datatype Kind = ObjectKind | RewardKind

  /** A `config.ConfiguredLootObject`, or a `config.ConfiguredReward` when
      `kind` says so: both change their configuration through fluent
      setters and cache their icon. */
  class ConfiguredLootObject {
    const id: Id
    const kind: Kind
    var config: Config
    var icon: Option<Icon>

    constructor (id: Id, kind: Kind, config: Config)
      ensures this.id == id && this.kind == kind && this.config == config && icon.None?
    {
      this.id := id;
      this.kind := kind;
      this.config := config;
      this.icon := None;
    }

    /** The object as an entry of a table. */
    function AsEntry(): (e: Entry)
      reads this
      ensures e.id == id && e.config == config && !e.excludeFromRandom
      ensures e.Reward? <==> kind == RewardKind
      ensures e.Plain? <==> kind == ObjectKind
    {
      match kind
      case RewardKind => Reward(id, config, false)
      case ObjectKind => Plain(id, config, false)
    }

    method SetChance(chance: real) returns (self: ConfiguredLootObject)
      modifies this
      ensures self == this && icon == old(icon)
      ensures config == old(config)["chance" := Real(chance)]
      ensures forall rarities :: Chance(config, rarities) == chance
    {
      config := config["chance" := Real(chance)];
      self := this;
    }

    method SetEnabled(enabled: bool) returns (self: ConfiguredLootObject)
      modifies this
      ensures self == this && icon == old(icon)
      ensures config == old(config)["enabled" := Bool(enabled)]
      ensures Enabled(config) == enabled
    {
      config := config["enabled" := Bool(enabled)];
      self := this;
    }

    method SetAlways(always: bool) returns (self: ConfiguredLootObject)
      modifies this
      ensures self == this && icon == old(icon)
      ensures config == old(config)["always" := Bool(always)]
      ensures Always(config) == always
    {
      config := config["always" := Bool(always)];
      self := this;
    }

    method SetUnique(unique: bool) returns (self: ConfiguredLootObject)
      modifies this
      ensures self == this && icon == old(icon)
      ensures config == old(config)["unique" := Bool(unique)]
      ensures Unique(config) == unique
    {
      config := config["unique" := Bool(unique)];
      self := this;
    }

    method SetName(name: string) returns (self: ConfiguredLootObject)
      modifies this
      ensures self == this && icon == old(icon)
      ensures config == old(config)["name" := Str(name)]
      ensures GetString(config, "name") == Some(name)
    {
      config := config["name" := Str(name)];
      self := this;
    }

    method SetType(typeName: string) returns (self: ConfiguredLootObject)
      modifies this
      ensures self == this && icon == old(icon)
      ensures config == old(config)["type" := Str(typeName)]
    {
      config := config["type" := Str(typeName)];
      self := this;
    }

    /** `lore(String...)` as written: the lines are stored as an array,
        which `getStringList` does not read, so `lore()` is then empty. */
    method SetLoreLines(lines: seq<string>) returns (self: ConfiguredLootObject)
      modifies this
      ensures self == this && icon == old(icon)
      ensures config == old(config)["lore" := StrArray(lines)]
      ensures Lore(config) == []
    {
      config := config["lore" := StrArray(lines)];
      self := this;
    }

    /** `lore(List)`: the lines are stored as a list and read back. */
    method SetLore(lines: seq<string>) returns (self: ConfiguredLootObject)
      modifies this
      ensures self == this && icon == old(icon)
      ensures config == old(config)["lore" := StrList(lines)]
      ensures Lore(config) == lines
    {
      config := config["lore" := StrList(lines)];
      self := this;
    }

    method SetIcon(icon: Icon) returns (self: ConfiguredLootObject)
      modifies this`icon
      ensures self == this && this.icon == Some(icon)
    {
      this.icon := Some(icon);
      self := this;
    }

    /** `type()` with the configuration left as it is. */
    function Type(types: map<string, Registration>, load: TypeLoader): Option<LoadedType>
      reads this
    {
      if kind == RewardKind then RewardType(config, types, load) else ObjectType(config, types, load)
    }

    /** `type()` of a configured loot object as written: the type is loaded
        from the `with` section, but the argument building it also replaces
        that section with a new, empty one, `freshSection`. */
    method TypeAsWritten(types: map<string, Registration>, load: TypeLoader, freshSection: SectionId) returns (t: Option<LoadedType>)
      requires kind == ObjectKind
      modifies this`config
      ensures t == ObjectType(old(config), types, load)
      ensures config == AfterTypeAsWritten(old(config), types, freshSection)
    {
      var typeName := GetStringOr(config, "type", "none");
      var registration := Lookup(types, Some(typeName));
      if registration.None? {
        t := None;
      } else {
        var existing := GetSection(config, "with");
        config := config["with" := Section(freshSection, map[])];
        t := load(registration.value, existing.GetOr(Empty));
      }
    }

    /** `icon()`: a cached icon is returned without recomputing; on a miss
        the computed icon, if any, is cached. A configured reward reads
        its type without changing anything; a plain configured object
        reads it through the as-written `type()`, which replaces its `with`
        section by the new, empty section `freshSection` when the type is
        registered. */
    method GetIcon(types: map<string, Registration>, load: TypeLoader, matchMaterial: string -> Option<Icon>, freshSection: SectionId)
      returns (r: Option<Icon>)
      modifies this`icon, this`config
      ensures old(icon).Some? ==> r == old(icon) && icon == old(icon) && config == old(config)
      ensures old(icon).None? ==> r == ComputedIcon(old(Type(types, load)), old(config), matchMaterial) && icon == r
      ensures old(icon).None? && kind == ObjectKind ==> config == AfterTypeAsWritten(old(config), types, freshSection)
      ensures kind == RewardKind ==> config == old(config)
    {
      if icon.Some? {
        return icon;
      }
      var loaded;
      if kind == ObjectKind {
        loaded := TypeAsWritten(types, load, freshSection);
      } else {
        loaded := Type(types, load);
      }
      if loaded.Some? && loaded.value.icon.Some? {
        icon := loaded.value.icon;
      } else {
        var name := GetString(config, "icon");
        if !IsNullOrEmpty(name) {
          var material := matchMaterial(name.value);
          if material.Some? {
            icon := material;
          }
        }
      }
      r := icon;
    }

    /** `merge(section)`: a new plain object; this one is unchanged. */
    method Merge(section: Config, freshId: Id) returns (merged: ConfiguredLootObject)
      ensures fresh(merged)
      ensures merged.AsEntry() == MergedEntry(AsEntry(), section, freshId)
      ensures merged.icon.None?
    {
      var config' := ConfigUtil.Merge(config, section);
      merged := new ConfiguredLootObject(freshId, ObjectKind, config');
    }
  }

  /** A lore given line by line is lost when read back. */
  lemma LoreLinesLost(config: Config, lines: seq<string>)
    requires lines != []
    ensures Lore(config["lore" := StrArray(lines)]) != lines
  {
  }

  /** A lore given as a list reads back as that list. */
  lemma LoreRoundTrip(config: Config, lines: seq<string>)
    ensures Lore(config["lore" := StrList(lines)]) == lines
  {
  }
}
