/** `config/Rarity`: a rarity is a configuration read through typed
    getters with defaults (chance 0, max 0, no name, the reward-name
    placeholder as format), changed in place by fluent setters, and merged
    into a new rarity. */
module Rarities {
  import opened Wrappers
  import opened Sections
  import ConfigUtil

  /** The placeholder a rarity format carries for the reward name. */
  const RewardNamePlaceholder := "{REWARD_NAME}"

  function Chance(config: Config): real {
    GetDouble(config, "chance", 0.0)
  }

  function Name(config: Config): Option<string> {
    GetString(config, "name")
  }

  function Format(config: Config): string {
    GetStringOr(config, "format", RewardNamePlaceholder)
  }

  function Max(config: Config): Int32 {
    GetInt(config, "max", 0)
  }

  /** An empty rarity configuration yields every default. */
  lemma Defaults()
    ensures Chance(Empty) == 0.0 && Max(Empty) == 0
    ensures Name(Empty).None? && Format(Empty) == RewardNamePlaceholder
  {
  }

  /** Only the `chance`, `name`, `format` and `max` keys matter to the
      getters: configurations agreeing on them read the same. */
  lemma ReadsOnlyOwnKeys(a: Config, b: Config)
    requires forall k :: k in {"chance", "name", "format", "max"} ==> (k in a <==> k in b) && (k in a ==> a[k] == b[k])
    ensures Chance(a) == Chance(b) && Name(a) == Name(b)
    ensures Format(a) == Format(b) && Max(a) == Max(b)
  {
    assert "chance" in {"chance", "name", "format", "max"};
    assert "name" in {"chance", "name", "format", "max"};
    assert "format" in {"chance", "name", "format", "max"};
    assert "max" in {"chance", "name", "format", "max"};
  }

  /** A merged rarity reads every property from the overriding section
      where that section sets the key, and from the base otherwise. */
  lemma MergedProperties(base: Config, section: Config)
    ensures "chance" in section ==> Chance(ConfigUtil.Merged(base, section)) == Chance(section)
    ensures "chance" !in section ==> Chance(ConfigUtil.Merged(base, section)) == Chance(base)
    ensures "max" in section ==> Max(ConfigUtil.Merged(base, section)) == Max(section)
    ensures "max" !in section ==> Max(ConfigUtil.Merged(base, section)) == Max(base)
    ensures "name" in section ==> Name(ConfigUtil.Merged(base, section)) == Name(section)
    ensures "name" !in section ==> Name(ConfigUtil.Merged(base, section)) == Name(base)
    ensures "format" in section ==> Format(ConfigUtil.Merged(base, section)) == Format(section)
    ensures "format" !in section ==> Format(ConfigUtil.Merged(base, section)) == Format(base)
  {
  }

  class Rarity {
    const sectionId: SectionId
    var config: Config

    /** A rarity over the section object `sectionId`, whose contents are
        `config`. */
    constructor (sectionId: SectionId, config: Config)
      ensures this.sectionId == sectionId && this.config == config
    {
      this.sectionId := sectionId;
      this.config := config;
    }

    function GetChance(): real reads this { Chance(config) }
    function GetName(): Option<string> reads this { Name(config) }
    function GetFormat(): string reads this { Format(config) }
    function GetMax(): Int32 reads this { Max(config) }

    method SetChance(chance: real) returns (self: Rarity)
      modifies this
      ensures self == this
      ensures config == old(config)["chance" := Real(chance)]
      ensures GetChance() == chance
    {
      config := config["chance" := Real(chance)];
      self := this;
    }

    method SetName(name: string) returns (self: Rarity)
      modifies this
      ensures self == this
      ensures config == old(config)["name" := Str(name)]
      ensures GetName() == Some(name)
    {
      config := config["name" := Str(name)];
      self := this;
    }

    method SetFormat(format: string) returns (self: Rarity)
      modifies this
      ensures self == this
      ensures config == old(config)["format" := Str(format)]
      ensures GetFormat() == format
    {
      config := config["format" := Str(format)];
      self := this;
    }

    method SetMax(max: Int32) returns (self: Rarity)
      modifies this
      ensures self == this
      ensures config == old(config)["max" := Int(max)]
      ensures GetMax() == max
    {
      config := config["max" := Int(max)];
      self := this;
    }

    /** `merge(section)`: a new rarity over a new section `freshSection`
        holding the merged configuration; this rarity is left as it was. */
    method Merge(section: Config, freshSection: SectionId) returns (merged: Rarity)
      ensures fresh(merged)
      ensures merged.sectionId == freshSection && merged.config == ConfigUtil.Merged(config, section)
    {
      var config' := ConfigUtil.Merge(config, section);
      merged := new Rarity(freshSection, config');
    }

    /** `merge(rarity)` merges the other rarity's configuration. */
    method MergeRarity(other: Rarity, freshSection: SectionId) returns (merged: Rarity)
      ensures fresh(merged)
      ensures merged.sectionId == freshSection && merged.config == ConfigUtil.Merged(config, other.config)
    {
      merged := Merge(other.config, freshSection);
    }

    /** The generated equality over `config`: two rarities are equal
        exactly when they wrap the same section object, whatever that
        section holds. */
    predicate Equals(other: Rarity)
      reads this, other
    {
      sectionId == other.sectionId
    }
  }
}
