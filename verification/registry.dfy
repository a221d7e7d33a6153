/** The lookups `LootManager` offers over its name-keyed maps, and the
    values those maps hold. Every key is stored lower-cased; a lookup
    lower-cases the name it is given, and a `null` or empty name finds
    nothing. */
module Registry {
  import opened Wrappers
  import opened Text
  import opened Sections

  /** Why loading a configuration failed: the `ConfigurationException`s of
      the manager, plus the cast failure of a `rewards` list element that is
      not a section. */
  datatype LoadError =
    | RarityNullOrEmpty
    | UnknownRarity(rarity: string)
    | UnknownType(typeName: Option<string>)
    | UnknownObject(objectName: Option<string>)
    | UnknownTable(tableName: Option<string>)
    | NotASection

  /** A loot type implementation; `info` is its `@LootInfo` identifier,
      `None` when the annotation is missing. */
  datatype TypeClass = TypeClass(className: string, info: Option<string>)

  /** `LootType.Registration`: the lower-cased identifier and the class. */
  datatype Registration = Registration(identifier: string, typeClass: TypeClass)

  /** An item icon, named by its material. */
  datatype Icon = Icon(material: string)

  /** A loot type instance after `load(section)`; `icon` is what it
      provides as an `IconProvider`, `None` when it provides nothing. */
  datatype LoadedType = LoadedType(registration: Registration, icon: Option<Icon>)

  /** `RewardType.load`: opaque to this model and allowed to fail. */
  type TypeLoader = (Registration, Config) -> Option<LoadedType>

  /** The case-insensitive lookup shared by `lootType`, `lootObject`,
      `lootTable` (after the null-or-empty guard) and `rarity`. */
  function Lookup<T>(m: map<string, T>, name: Option<string>): (r: Option<T>)
    ensures IsNullOrEmpty(name) ==> r.None?
    ensures !IsNullOrEmpty(name) ==> (r.Some? <==> ToLower(name.value) in m)
    ensures r.Some? ==> r.value == m[ToLower(name.value)]
  {
    if IsNullOrEmpty(name) then None
    else if ToLower(name.value) in m then Some(m[ToLower(name.value)])
    else None
  }

  /** Names that differ only in case find the same value. */
  lemma LookupIgnoresCase<T>(m: map<string, T>, name: string)
    ensures Lookup(m, Some(name)) == Lookup(m, Some(ToLower(name)))
  {
    ToLowerIdempotent(name);
  }

  /** `rarity(name)`: a `null` or empty name and an unknown name are
      configuration errors; otherwise the case-insensitive lookup. */
  function RarityNamed(rarities: map<string, Config>, name: Option<string>): (r: Result<Config, LoadError>)
    ensures IsNullOrEmpty(name) ==> r == Failure(RarityNullOrEmpty)
    ensures r.Success? <==> Lookup(rarities, name).Some?
    ensures r.Success? ==> r.value == Lookup(rarities, name).value
    ensures !IsNullOrEmpty(name) && r.Failure? ==> r.error == UnknownRarity(name.value)
  {
    if IsNullOrEmpty(name) then Failure(RarityNullOrEmpty)
    else if ToLower(name.value) !in rarities then Failure(UnknownRarity(name.value))
    else Success(rarities[ToLower(name.value)])
  }
}
