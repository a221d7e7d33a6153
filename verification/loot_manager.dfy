/** `LootManager`: the registries of rarities, loot types, loot objects
    and loot tables, the creation of loot objects from configuration, and
    the pass that drops every table that fails to load. */
module Manager {
  import opened Wrappers
  import opened Text
  import opened Sections
  import opened Registry
  import opened LootObjects

  /** What the four maps hold at one moment. */
  datatype State = State(
    rarities: map<string, Config>,
    lootTypes: map<string, Registration>,
    lootObjects: map<string, Entry>,
    lootTables: map<string, Entry>)

  /** A created entry and the next unused uuid. */
  datatype Created = Created(entry: Entry, nextId: Id)

  /** The entries created for a `rewards` list before the first failure,
      the next unused uuid, and the failure, if there was one. */
  datatype Loaded = Loaded(entries: seq<Entry>, nextId: Id, failure: Option<LoadError>)

  /** `createLootObject(config)`, with `freshId` the uuid of the first
      object it creates. `type` is looked at first, then `object`, then
      `table`; a configuration with none of them is a plain object. */
  function CreateLootObject(s: State, config: Config, freshId: Id): Result<Created, LoadError>
    decreases 1 + ConfigDepth(config), 1
  {
    if IsSet(config, "type") then
      var typeName := GetString(config, "type");
      if typeName.Some? && ToLower(typeName.value) == "table" then
        var loaded := LoadRewards(s, config, freshId + 1);
        if loaded.failure.Some? then Failure(loaded.failure.value)
        else Success(Created(Table(freshId, config, false, loaded.entries), loaded.nextId))
      else if typeName.None? || typeName.value !in s.lootTypes then
        Failure(UnknownType(typeName))
      else
        Success(Created(Plain(freshId, config, false), freshId + 1))
    else if IsSet(config, "object") then
      match Lookup(s.lootObjects, GetString(config, "object"))
      case None => Failure(UnknownObject(GetString(config, "object")))
      case Some(referenced) => Success(Created(MergedEntry(referenced, config, freshId), freshId + 1))
    else if IsSet(config, "table") then
      match Lookup(s.lootTables, GetString(config, "table"))
      case None => Failure(UnknownTable(GetString(config, "table")))
      case Some(referenced) => Success(Created(MergedEntry(referenced, config, freshId), freshId + 1))
    else
      Success(Created(Plain(freshId, config, false), freshId + 1))
  }

  /** `load()` of a table over its configuration: one entry per element
      of the `rewards` list, in list order; a missing or non-list `rewards`
      is the empty list, and a list of strings fails on its first element. */
  function LoadRewards(s: State, config: Config, freshId: Id): (r: Loaded)
    decreases 1 + ConfigDepth(config), 0
  {
    if "rewards" in config && config["rewards"].List? then
      LoadContents(s, config["rewards"].elems, 0, freshId)
    else if "rewards" in config && config["rewards"].StrList? && config["rewards"].lines != [] then
      Loaded([], freshId, Some(NotASection))
    else
      Loaded([], freshId, None)
  }

  /** The loop of `load()` from element `i` on. */
  function LoadContents(s: State, items: seq<Value>, i: nat, freshId: Id): (r: Loaded)
    requires i <= |items|
    ensures |r.entries| <= |items| - i
    ensures r.failure.None? ==> |r.entries| == |items| - i
    decreases Depth(List(items)), |items| - i
  {
    if i == |items| then Loaded([], freshId, None)
    else if !items[i].Section? then Loaded([], freshId, Some(NotASection))
    else
      SectionDepth(items[i]);
      match CreateLootObject(s, items[i].entries, freshId)
      case Failure(e) => Loaded([], freshId, Some(e))
      case Success(created) =>
        var rest := LoadContents(s, items, i + 1, created.nextId);
        Loaded([created.entry] + rest.entries, rest.nextId, rest.failure)
  }

  /** `createLootObject` never builds a reward: it builds a plain object,
      or a table when the type is `table`. */
  lemma CreatesNoRewards(s: State, config: Config, freshId: Id)
    ensures CreateLootObject(s, config, freshId).Success? ==>
      !CreateLootObject(s, config, freshId).value.entry.Reward?
  {
  }

  /** The dispatch order: a `type` key decides alone (a type named
      `table` in any case loads a table; an unregistered type, compared
      with its exact case, fails; a registered one is a plain object);
      `object` is only looked at without `type`, and `table` only without
      both. */
  lemma CreatePrecedence(s: State, config: Config, freshId: Id)
    ensures IsSet(config, "type") && GetString(config, "type").Some?
      && ToLower(GetString(config, "type").value) == "table"
      && CreateLootObject(s, config, freshId).Success?
      ==> CreateLootObject(s, config, freshId).value.entry.Table?
    ensures IsSet(config, "type") && GetString(config, "type").Some?
      && ToLower(GetString(config, "type").value) != "table"
      && GetString(config, "type").value !in s.lootTypes
      ==> CreateLootObject(s, config, freshId) == Failure(UnknownType(GetString(config, "type")))
    ensures IsSet(config, "type") && GetString(config, "type").Some?
      && ToLower(GetString(config, "type").value) != "table"
      && GetString(config, "type").value in s.lootTypes
      ==> CreateLootObject(s, config, freshId) == Success(Created(Plain(freshId, config, false), freshId + 1))
    ensures !IsSet(config, "type") && IsSet(config, "object") ==>
      CreateLootObject(s, config, freshId) ==
        if Lookup(s.lootObjects, GetString(config, "object")).None? then Failure(UnknownObject(GetString(config, "object")))
        else Success(Created(MergedEntry(Lookup(s.lootObjects, GetString(config, "object")).value, config, freshId), freshId + 1))
    ensures !IsSet(config, "type") && !IsSet(config, "object") && IsSet(config, "table") ==>
      CreateLootObject(s, config, freshId) ==
        if Lookup(s.lootTables, GetString(config, "table")).None? then Failure(UnknownTable(GetString(config, "table")))
        else Success(Created(MergedEntry(Lookup(s.lootTables, GetString(config, "table")).value, config, freshId), freshId + 1))
    ensures !IsSet(config, "type") && !IsSet(config, "object") && !IsSet(config, "table") ==>
      CreateLootObject(s, config, freshId) == Success(Created(Plain(freshId, config, false), freshId + 1))
  {
  }

  /** Two `object:` references to one registered object, neither setting
      its own `rarity`, create two copies with the referenced object's
      rarity: an inline `rarity` section is shared by the copies, so they
      count against one cap. */
  lemma ObjectReferencesShareRarity(s: State, c1: Config, c2: Config, id1: Id, id2: Id, rarities: map<string, Config>)
    requires !IsSet(c1, "type") && !IsSet(c2, "type")
    requires IsSet(c1, "object") && IsSet(c2, "object") && GetString(c1, "object") == GetString(c2, "object")
    requires Lookup(s.lootObjects, GetString(c1, "object")).Some?
    requires "rarity" !in c1 && "rarity" !in c2
    ensures CreateLootObject(s, c1, id1).Success? && CreateLootObject(s, c2, id2).Success?
    ensures var referenced := Lookup(s.lootObjects, GetString(c1, "object")).value;
      && RarityKeyOf(CreateLootObject(s, c1, id1).value.entry, rarities) == RarityKeyOf(referenced, rarities)
      && RarityKeyOf(CreateLootObject(s, c2, id2).value.entry, rarities) == RarityKeyOf(referenced, rarities)
  {
    var referenced := Lookup(s.lootObjects, GetString(c1, "object")).value;
    MergedCopiesShareRarity(referenced, c1, id1, rarities);
    MergedCopiesShareRarity(referenced, c2, id2, rarities);
  }

  /** A type registered under its lower-cased identifier is still unknown
      to `createLootObject` when the configuration spells it in another
      case. */
  lemma TypeCheckIsCaseSensitive(s: State)
    requires "item" in s.lootTypes && "Item" !in s.lootTypes
    ensures CreateLootObject(s, map["type" := Str("Item")], 0) == Failure(UnknownType(Some("Item")))
  {
    assert ToLower("Item") == "item";
  }

  /** A table whose `rewards` are all plain sections loads one entry per
      element, in order: the entry of element `j` is the one
      `createLootObject` makes of it. */
  lemma {:induction false} LoadContentsInOrder(s: State, items: seq<Value>, i: nat, freshId: Id, j: nat)
    requires i <= j < |items|
    requires LoadContents(s, items, i, freshId).failure.None?
    ensures items[j].Section?
    ensures exists id: Id ::
              && CreateLootObject(s, items[j].entries, id).Success?
              && LoadContents(s, items, i, freshId).entries[j - i] == CreateLootObject(s, items[j].entries, id).value.entry
    decreases |items| - i
  {
    var r := LoadContents(s, items, i, freshId);
    assert items[i].Section?;
    var created := CreateLootObject(s, items[i].entries, freshId);
    assert created.Success?;
    if j > i {
      LoadContentsInOrder(s, items, i + 1, created.value.nextId, j);
      var rest := LoadContents(s, items, i + 1, created.value.nextId);
      assert r.entries[j - i] == rest.entries[j - (i + 1)];
    } else {
      assert r.entries[0] == created.value.entry;
    }
  }

  /** A list element `createLootObject` cannot turn into an entry. */
  ghost predicate FailsToLoad(s: State, item: Value) {
    !item.Section? || exists id: Id :: CreateLootObject(s, item.entries, id).Failure?
  }

  /** A failure stops the loop: it comes from an element that does not
      load, after the entries of all elements before it. */
  lemma {:induction false} LoadContentsStopsAtFailure(s: State, items: seq<Value>, i: nat, freshId: Id)
    requires i <= |items|
    requires LoadContents(s, items, i, freshId).failure.Some?
    ensures i + |LoadContents(s, items, i, freshId).entries| < |items|
    ensures FailsToLoad(s, items[i + |LoadContents(s, items, i, freshId).entries|])
    decreases |items| - i
  {
    var r := LoadContents(s, items, i, freshId);
    if items[i].Section? {
      var created := CreateLootObject(s, items[i].entries, freshId);
      if created.Success? {
        LoadContentsStopsAtFailure(s, items, i + 1, created.value.nextId);
        var rest := LoadContents(s, items, i + 1, created.value.nextId);
        assert |r.entries| == 1 + |rest.entries|;
      } else {
        assert |r.entries| == 0;
      }
    }
  }

  /** What a `TypeClass` registration did. */
  datatype TypeRegistration = MissingAnnotation | AlreadyRegistered(identifier: string) | Registered(identifier: string)

  /** How loading one table in the pass over all tables ended. */
  datatype StepOutcome = Kept | Removed(error: LoadError) | Aborted

  /** One table loaded in the pass: the table with the entries appended
      before any failure, the next unused uuid, and how the load ended. */
  datatype PassStep = PassStep(table: Entry, nextId: Id, outcome: StepOutcome)

  /** Loading the table registered as `key` against the manager's state:
      its contents grow by the entries its `rewards` load before any
      failure; a configuration error removes it; a non-section element
      ends the whole pass. */
  function LoadTableStep(s: State, key: string, freshId: Id): (r: PassStep)
    requires key in s.lootTables && s.lootTables[key].Table?
    ensures var loaded := LoadRewards(s, s.lootTables[key].config, freshId);
      && r.table == s.lootTables[key].(contents := s.lootTables[key].contents + loaded.entries)
      && r.nextId == loaded.nextId
      && (r.outcome == Kept <==> loaded.failure.None?)
      && (r.outcome == Aborted <==> loaded.failure == Some(NotASection))
      && (r.outcome.Removed? ==> loaded.failure == Some(r.outcome.error))
  {
    var table := s.lootTables[key];
    var loaded := LoadRewards(s, table.config, freshId);
    var outcome := match loaded.failure
      case None => Kept
      case Some(NotASection) => Aborted
      case Some(e) => Removed(e);
    PassStep(table.(contents := table.contents + loaded.entries), loaded.nextId, outcome)
  }

  predicate AllTables(m: map<string, Entry>) {
    forall k :: k in m ==> m[k].Table?
  }

  /** The registrations after the object `table` was loaded in place:
      every registration of that object shows the loaded contents. */
  function Share(m: map<string, Entry>, table: Entry): (r: map<string, Entry>)
    ensures r.Keys == m.Keys
    ensures forall k :: k in m ==> r[k] == if m[k].id == table.id then table else m[k]
  {
    map k | k in m :: if m[k].id == table.id then table else m[k]
  }

  /** The manager's state after the table `table` was loaded in place:
      it may be registered in both maps, under several names. */
  function AfterLoad(s: State, table: Entry): (r: State)
    ensures r.rarities == s.rarities && r.lootTypes == s.lootTypes
    ensures r.lootTables == Share(s.lootTables, table) && r.lootObjects == Share(s.lootObjects, table)
  {
    s.(lootTables := Share(s.lootTables, table), lootObjects := Share(s.lootObjects, table))
  }

  /** The state a pass leaves, whether it was cut short, and the next
      unused uuid. */
  datatype PassOutcome = PassOutcome(state: State, aborted: bool, nextId: Id)

  /** The pass over `order[i..]`: each table still registered is loaded;
      one failing with a configuration error is removed; a non-section
      element ends the pass, leaving the loads done so far, the entries
      the aborting table added before it included. */
  function Pass(s: State, order: seq<string>, i: nat, freshId: Id): (r: PassOutcome)
    requires i <= |order| && AllTables(s.lootTables)
    ensures r.state.lootTables.Keys <= s.lootTables.Keys && AllTables(r.state.lootTables)
    ensures r.state.lootObjects.Keys == s.lootObjects.Keys
    ensures r.state.rarities == s.rarities && r.state.lootTypes == s.lootTypes
    decreases |order| - i
  {
    if i == |order| then PassOutcome(s, false, freshId)
    else if order[i] !in s.lootTables then Pass(s, order, i + 1, freshId)
    else
      var step := LoadTableStep(s, order[i], freshId);
      var s' := AfterLoad(s, step.table);
      match step.outcome
      case Aborted => PassOutcome(s', true, step.nextId)
      case Kept => Pass(s', order, i + 1, step.nextId)
      case Removed(_) => Pass(s'.(lootTables := s'.lootTables - {order[i]}), order, i + 1, step.nextId)
  }

  /** The state after the step at `order[i]`, which is registered. */
  function AfterStep(s: State, order: seq<string>, i: nat, freshId: Id): (r: State)
    requires i < |order| && AllTables(s.lootTables) && order[i] in s.lootTables
    ensures AllTables(r.lootTables)
  {
    var step := LoadTableStep(s, order[i], freshId);
    var s' := AfterLoad(s, step.table);
    if step.outcome.Removed? then s'.(lootTables := s'.lootTables - {order[i]}) else s'
  }

  /** The step taken at position `j` of the pass started at `i`; nothing
      when the table there is no longer registered or the pass ended
      before it. */
  function StepAt(s: State, order: seq<string>, i: nat, freshId: Id, j: nat): Option<PassStep>
    requires i <= j < |order| && AllTables(s.lootTables)
    decreases |order| - i
  {
    if order[i] !in s.lootTables then
      if i == j then None else StepAt(s, order, i + 1, freshId, j)
    else
      var step := LoadTableStep(s, order[i], freshId);
      if i == j then Some(step)
      else if step.outcome == Aborted then None
      else StepAt(AfterStep(s, order, i, freshId), order, i + 1, step.nextId, j)
  }

  /** A table the pass does not visit keeps its place, whether or not
      the pass runs to its end. */
  lemma {:induction false} PassKeepsUnvisited(s: State, order: seq<string>, i: nat, freshId: Id, key: string)
    requires i <= |order| && AllTables(s.lootTables) && key !in order[i..]
    ensures key in Pass(s, order, i, freshId).state.lootTables <==> key in s.lootTables
    decreases |order| - i
  {
    if i < |order| {
      assert order[i] != key && key !in order[i + 1..];
      if order[i] !in s.lootTables {
        PassKeepsUnvisited(s, order, i + 1, freshId, key);
      } else {
        var step := LoadTableStep(s, order[i], freshId);
        var s' := AfterStep(s, order, i, freshId);
        assert key in s'.lootTables <==> key in s.lootTables;
        if step.outcome != Aborted {
          PassKeepsUnvisited(s', order, i + 1, step.nextId, key);
        }
      }
    }
  }

  /** In a pass that runs to its end over distinct names, a visited table
      stays exactly when it loaded without error at its turn. */
  lemma {:induction false} PassKeepsExactlyTheLoadedTables(s: State, order: seq<string>, i: nat, freshId: Id, j: nat)
    requires i <= j < |order| && AllTables(s.lootTables) && order[j] in s.lootTables
    requires forall a, b :: i <= a < b < |order| ==> order[a] != order[b]
    requires !Pass(s, order, i, freshId).aborted
    ensures order[j] in Pass(s, order, i, freshId).state.lootTables <==>
      StepAt(s, order, i, freshId, j).Some? && StepAt(s, order, i, freshId, j).value.outcome == Kept
    decreases |order| - i
  {
    var key := order[j];
    if order[i] !in s.lootTables {
      assert j != i;
      PassKeepsExactlyTheLoadedTables(s, order, i + 1, freshId, j);
    } else {
      var step := LoadTableStep(s, order[i], freshId);
      var s' := AfterStep(s, order, i, freshId);
      assert s'.lootTables.Keys == if step.outcome.Removed? then s.lootTables.Keys - {order[i]} else s.lootTables.Keys;
      if j == i {
        assert key !in order[i + 1..];
        PassKeepsUnvisited(s', order, i + 1, step.nextId, key);
      } else {
        assert key != order[i] && key in s'.lootTables;
        PassKeepsExactlyTheLoadedTables(s', order, i + 1, step.nextId, j);
      }
    }
  }

  /** One object per uuid: registrations in either map that hold the
      same object (the same uuid) hold the same table. */
  predicate OneObjectPerId(s: State) {
    && (forall a, b :: a in s.lootTables && b in s.lootTables && s.lootTables[a].id == s.lootTables[b].id ==> s.lootTables[a] == s.lootTables[b])
    && (forall a, b :: a in s.lootObjects && b in s.lootTables && s.lootObjects[a].id == s.lootTables[b].id ==> s.lootObjects[a] == s.lootTables[b])
  }

  lemma AfterLoadKeepsOneObjectPerId(s: State, table: Entry)
    requires OneObjectPerId(s)
    ensures OneObjectPerId(AfterLoad(s, table))
  {
  }

  /** A table registered both as a loot object and as a loot table is
      one object: whatever the pass loads into it, or leaves of it when it
      is cut short, shows under both registrations. */
  lemma {:induction false} PassKeepsOneObjectPerId(s: State, order: seq<string>, i: nat, freshId: Id)
    requires i <= |order| && AllTables(s.lootTables) && OneObjectPerId(s)
    ensures OneObjectPerId(Pass(s, order, i, freshId).state)
    decreases |order| - i
  {
    if i < |order| {
      if order[i] !in s.lootTables {
        PassKeepsOneObjectPerId(s, order, i + 1, freshId);
      } else {
        var step := LoadTableStep(s, order[i], freshId);
        AfterLoadKeepsOneObjectPerId(s, step.table);
        var s' := AfterStep(s, order, i, freshId);
        assert OneObjectPerId(s');
        if step.outcome != Aborted {
          PassKeepsOneObjectPerId(s', order, i + 1, step.nextId);
        }
      }
    }
  }

  /** A pass cut short by a non-section element in the table at `key`
      leaves that table registered, with the entries loaded before the bad
      element appended. */
  lemma AbortKeepsPartialLoad(s: State, order: seq<string>, freshId: Id)
    requires |order| > 0 && AllTables(s.lootTables) && order[0] in s.lootTables
    requires LoadTableStep(s, order[0], freshId).outcome == Aborted
    ensures var step := LoadTableStep(s, order[0], freshId);
      && Pass(s, order, 0, freshId).aborted
      && Pass(s, order, 0, freshId).state.lootTables[order[0]] == step.table
      && |step.table.contents| >= |s.lootTables[order[0]].contents|
  {
  }

  /** The loot types every manager registers when it is built: the empty
      loot under the default type `none`, items and commands. */
  const EmptyLootClass := TypeClass("EmptyLoot", Some("none"))
  const ItemLootClass := TypeClass("ItemLoot", Some("item"))
  const CommandLootClass := TypeClass("CommandLoot", Some("command"))

  const BuiltInTypes: map<string, Registration> := map[
    "none" := Registration("none", EmptyLootClass),
    "item" := Registration("item", ItemLootClass),
    "command" := Registration("command", CommandLootClass)]

  /** With the built-in types, `type: item`, `type: command` and
      `type: none` each create a plain object. */
  lemma BuiltInTypesResolve(s: State, freshId: Id, typeName: string)
    requires s.lootTypes == BuiltInTypes && typeName in {"none", "item", "command"}
    ensures CreateLootObject(s, map["type" := Str(typeName)], freshId)
      == Success(Created(Plain(freshId, map["type" := Str(typeName)], false), freshId + 1))
  {
    var config := map["type" := Str(typeName)];
    assert IsSet(config, "type") && GetString(config, "type") == Some(typeName);
    TypeNameNotTable(typeName);
  }

  /** The built-in identifiers are already in lower case. */
  lemma BuiltInNamesLower()
    ensures ToLower("none") == "none" && ToLower("item") == "item" && ToLower("command") == "command"
  {
    ToLowerOfLower("none");
    ToLowerOfLower("item");
    ToLowerOfLower("command");
  }

  lemma TypeNameNotTable(typeName: string)
    requires typeName in {"none", "item", "command"}
    ensures ToLower(typeName) != "table"
  {
    BuiltInNamesLower();
  }

  /** The default type `none` of an object without a `type` key is one
      of the built-in types, loaded with an empty `with` section. */
  lemma DefaultTypeBuiltIn()
    ensures ObjectTypeInput(map[], BuiltInTypes) == Some((BuiltInTypes["none"], Empty))
  {
    BuiltInNamesLower();
  }

  class LootManager {
    var rarities: map<string, Config>
    var lootTypes: map<string, Registration>
    var lootObjects: map<string, Entry>
    var lootTables: map<string, Entry>

    /** A new manager holds no rarities, objects or tables, and has the
        three built-in loot types registered, in the order `none`, `item`,
        `command`. */
    constructor ()
      ensures rarities == map[] && lootObjects == map[] && lootTables == map[]
      ensures lootTypes == BuiltInTypes
    {
      rarities := map[];
      lootTypes := map[];
      lootObjects := map[];
      lootTables := map[];
      new;
      BuiltInNamesLower();
      var _ := RegisterType(EmptyLootClass);
      var _ := RegisterType(ItemLootClass);
      var _ := RegisterType(CommandLootClass);
    }

    function Snapshot(): State
      reads this
    {
      State(rarities, lootTypes, lootObjects, lootTables)
    }

    predicate Valid()
      reads this
    {
      AllTables(lootTables)
    }

    /** `unload()`: rarities, objects and tables are dropped; the
        registered types stay. */
    method Unload()
      modifies this
      ensures rarities == map[] && lootObjects == map[] && lootTables == map[]
      ensures lootTypes == old(lootTypes)
      ensures Valid()
    {
      rarities := map[];
      lootObjects := map[];
      lootTables := map[];
    }

    /** `register(typeClass, supplier)`: a class without its annotation is
        refused; otherwise the lower-cased identifier is registered unless
        it already is, in which case the first registration stays. */
    method RegisterType(typeClass: TypeClass) returns (outcome: TypeRegistration)
      modifies this`lootTypes
      ensures typeClass.info.None? ==> outcome == MissingAnnotation && lootTypes == old(lootTypes)
      ensures typeClass.info.Some? && ToLower(typeClass.info.value) in old(lootTypes) ==>
        outcome == AlreadyRegistered(ToLower(typeClass.info.value)) && lootTypes == old(lootTypes)
      ensures typeClass.info.Some? && ToLower(typeClass.info.value) !in old(lootTypes) ==>
        outcome == Registered(ToLower(typeClass.info.value))
        && lootTypes == old(lootTypes)[ToLower(typeClass.info.value) := Registration(ToLower(typeClass.info.value), typeClass)]
    {
      if typeClass.info.None? {
        return MissingAnnotation;
      }
      var identifier := ToLower(typeClass.info.value);
      if identifier in lootTypes {
        outcome := AlreadyRegistered(identifier);
      } else {
        lootTypes := lootTypes[identifier := Registration(identifier, typeClass)];
        outcome := Registered(identifier);
      }
    }

    /** `register(identifier, table)`: under the lower-cased identifier;
        the first table registered under a name stays. */
    method RegisterTable(identifier: string, table: Entry)
      requires table.Table? && Valid()
      modifies this`lootTables
      ensures Valid()
      ensures ToLower(identifier) in old(lootTables) ==> lootTables == old(lootTables)
      ensures ToLower(identifier) !in old(lootTables) ==> lootTables == old(lootTables)[ToLower(identifier) := table]
    {
      var key := ToLower(identifier);
      if key !in lootTables {
        lootTables := lootTables[key := table];
      }
    }

    /** `register(identifier, object)`: a table is first registered as a
        table too; then the object goes under the lower-cased identifier
        unless a first object already holds it. */
    method RegisterObject(identifier: string, lootObject: Entry)
      requires Valid()
      modifies this`lootObjects, this`lootTables
      ensures Valid()
      ensures ToLower(identifier) in old(lootObjects) ==> lootObjects == old(lootObjects)
      ensures ToLower(identifier) !in old(lootObjects) ==> lootObjects == old(lootObjects)[ToLower(identifier) := lootObject]
      ensures !lootObject.Table? || ToLower(identifier) in old(lootTables) ==> lootTables == old(lootTables)
      ensures lootObject.Table? && ToLower(identifier) !in old(lootTables) ==> lootTables == old(lootTables)[ToLower(identifier) := lootObject]
    {
      if lootObject.Table? {
        RegisterTable(identifier, lootObject);
      }
      var key := ToLower(identifier);
      if key in lootObjects {
        return;
      }
      lootObjects := lootObjects[key := lootObject];
    }

    function LootType(typeName: Option<string>): Option<Registration>
      reads this
    {
      Lookup(lootTypes, typeName)
    }

    function LootTable(identifier: Option<string>): Option<Entry>
      reads this
    {
      Lookup(lootTables, identifier)
    }

    function LootObject(identifier: Option<string>): Option<Entry>
      reads this
    {
      Lookup(lootObjects, identifier)
    }

    function Rarity(name: Option<string>): Result<Config, LoadError>
      reads this
    {
      RarityNamed(rarities, name)
    }

    /** `lootTables()`: a copy, which later registrations do not change. */
    function LootTables(): map<string, Entry>
      reads this
    {
      lootTables
    }

    /** The pass of `loadLootTables` over its snapshot, in the snapshot's
        iteration order `order`: each table loads its contents in place,
        which every registration of that object shows; one that fails
        with a configuration error is removed, the others stay; a
        non-section element ends the pass, leaving the loads done so far. */
    method LoadTables(order: seq<string>, freshId: Id) returns (aborted: bool, nextId: Id)
      requires Valid()
      modifies this`lootTables, this`lootObjects
      ensures Valid()
      ensures var pass := Pass(old(Snapshot()), order, 0, freshId);
        Snapshot() == pass.state && aborted == pass.aborted && nextId == pass.nextId
    {
      ghost var s0 := Snapshot();
      var i := 0;
      nextId := freshId;
      aborted := false;
      while i < |order|
        invariant 0 <= i <= |order|
        invariant Valid()
        invariant Pass(Snapshot(), order, i, nextId) == Pass(s0, order, 0, freshId)
        decreases |order| - i
      {
        var key := order[i];
        if key in lootTables {
          ghost var before, beforeId := Snapshot(), nextId;
          var step := LoadTableStep(Snapshot(), key, nextId);
          lootTables := Share(lootTables, step.table);
          lootObjects := Share(lootObjects, step.table);
          nextId := step.nextId;
          if step.outcome == Aborted {
            assert Snapshot() == AfterLoad(before, step.table);
            aborted := true;
            return;
          } else if step.outcome.Removed? {
            lootTables := lootTables - {key};
          }
          assert Snapshot() == AfterStep(before, order, i, beforeId);
        }
        i := i + 1;
      }
    }
  }

  /** A lookup after registering an object under a new name finds it
      under any spelling of that name. */
  lemma RegisteredObjectIsFound(objects: map<string, Entry>, identifier: string, spelling: string, lootObject: Entry)
    requires identifier != "" && ToLower(spelling) == ToLower(identifier)
    ensures Lookup(objects[ToLower(identifier) := lootObject], Some(spelling)) == Some(lootObject)
  {
  }
}
