/** The root-package `ConfiguredLootObject`, the older revision: its reads
    and setters are those of `LootObjects`, but `merge` builds the new
    object through the subclass's `create`, so a reward stays a reward and
    a table stays a table, and `merge(LootObject)` of an object that is not
    configured returns this object. */
module LegacyLootObjects {
  import opened Sections
  import ConfigUtil
  import opened LootObjects

  /** The concrete subclasses of the old revision: `ConfiguredReward` and
      `ConfiguredLootTable`, the latter with the contents it has loaded. */
  datatype LegacyObject =
    | LegacyReward(id: Id, config: Config)
    | LegacyTable(id: Id, config: Config, contents: seq<LegacyObject>)

  datatype LegacyRef = LegacyConfigured(obj: LegacyObject) | LegacyForeign(foreignId: Id)

  /** `create(lootManager, config)`: a new instance of the same subclass;
      a new table has not loaded anything yet. */
  function Create(o: LegacyObject, config: Config, freshId: Id): (r: LegacyObject)
    ensures r.id == freshId && r.config == config
    ensures r.LegacyReward? <==> o.LegacyReward?
    ensures r.LegacyTable? ==> r.contents == []
  {
    match o
    case LegacyReward(_, _) => LegacyReward(freshId, config)
    case LegacyTable(_, _, _) => LegacyTable(freshId, config, [])
  }

  /** `merge(section)`: this configuration overlaid by `section`, in a new
      object of the same kind. The keys of `section` win, although the
      method's comment says this object's values take precedence. */
  function MergeSection(o: LegacyObject, section: Config, freshId: Id): (m: LegacyObject)
    ensures m.id == freshId && (m.LegacyReward? <==> o.LegacyReward?)
    ensures m.LegacyTable? ==> m.contents == []
    ensures m.config.Keys == o.config.Keys + section.Keys
    ensures forall k :: k in section ==> m.config[k] == section[k]
    ensures forall k :: k in o.config && k !in section ==> m.config[k] == o.config[k]
  {
    Create(o, ConfigUtil.Merged(o.config, section), freshId)
  }

  /** `merge(LootObject)`: a configured object is merged by its
      configuration; for any other object this object is returned. */
  function MergeRef(o: LegacyObject, other: LegacyRef, freshId: Id): (r: LegacyObject)
    ensures other.LegacyForeign? ==> r == o
    ensures other.LegacyConfigured? ==> r == MergeSection(o, other.obj.config, freshId)
  {
    match other
    case LegacyForeign(_) => o
    case LegacyConfigured(p) => MergeSection(o, p.config, freshId)
  }

  /** The two revisions disagree on merging with an object that is not
      configured: the newer returns the argument, the older itself. */
  lemma RevisionsDisagreeOnForeignMerge(e: Entry, o: LegacyObject, foreignId: Id, freshId: Id)
    ensures MergeObject(e, Foreign(foreignId), freshId) == Foreign(foreignId)
    ensures MergeRef(o, LegacyForeign(foreignId), freshId) == o
  {
  }

  /** The section's explicit chance beats the merged object's own, and
      merging keeps a reward a reward where the newer revision does not. */
  lemma MergeKeepsKindAndPrefersSection(o: LegacyObject, section: Config, freshId: Id, rarities: map<string, Config>, chance: real)
    requires section == map["chance" := Real(chance)]
    ensures Chance(MergeSection(o, section, freshId).config, rarities) == chance
    ensures o.LegacyReward? ==> MergeSection(o, section, freshId).LegacyReward?
    ensures MergedEntry(Reward(o.id, o.config, false), section, freshId).Plain?
  {
  }
}
