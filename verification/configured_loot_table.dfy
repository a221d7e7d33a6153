/** `ConfiguredLootTable`: a loot table read from configuration. `load`
    fills its contents through the manager; `rewards` resolves them into a
    result with the per-roll bookkeeping held in the table's own fields and
    caches it; `loot` drops the cache first. Each method is proved against
    the functions of `Evaluation` and `Manager`. */
module LootTables {
  import opened Wrappers
  import opened Sections
  import opened Registry
  import opened LootObjects
  import opened LootResults
  import opened Evaluation
  import Manager
  import EvaluationProperties

  /** `RandomUtil.getDoubleValue(max)`: the `drawn`-th value handed out,
      as fixed by `random`; every call moves on to the next one. */
  class RandomSource {
    const random: Random
    var drawn: nat

    constructor (random: Random)
      ensures this.random == random && drawn == 0
    {
      this.random := random;
      drawn := 0;
    }

    method Next(max: real) returns (hit: real)
      modifies this`drawn
      ensures hit == random(old(drawn), max)
      ensures drawn == old(drawn) + 1
    {
      hit := random(drawn, max);
      drawn := drawn + 1;
    }
  }

  /** `onPreResultEvaluation` on every entry of the table, in order. */
  method FirePreEvaluation(contents: seq<Entry>) returns (events: seq<Event>)
    ensures |events| == |contents|
    ensures forall i :: 0 <= i < |contents| ==> events[i] == PreEvaluation(contents[i].id)
  {
    events := [];
    for i := 0 to |contents|
      invariant |events| == i
      invariant forall j :: 0 <= j < i ==> events[j] == PreEvaluation(contents[j].id)
    {
      events := events + [PreEvaluation(contents[i].id)];
    }
  }

  /** `onPostResultEvaluation(result)` on every reward of the result, in
      result order, each seeing the whole result. */
  method FirePostEvaluation(result: seq<Entry>) returns (events: seq<Event>)
    ensures |events| == |result|
    ensures forall i :: 0 <= i < |result| ==> events[i] == PostEvaluation(result[i].id, Ids(result))
  {
    events := [];
    for i := 0 to |result|
      invariant |events| == i
      invariant forall j :: 0 <= j < i ==> events[j] == PostEvaluation(result[j].id, Ids(result))
    {
      events := events + [PostEvaluation(result[i].id, Ids(result))];
    }
  }

  /** The candidate filter of one draw: the contents, in order, that are
      not excluded from random, are enabled and are under their rarity's
      cap. */
  method CollectDroppable(contents: seq<Entry>, rarities: map<string, Config>, counts: map<RarityKey, nat>) returns (droppable: seq<Entry>)
    ensures droppable == Candidates(contents, rarities, counts)
  {
    droppable := [];
    var i := 0;
    while i < |contents|
      invariant i <= |contents|
      invariant droppable + Candidates(contents[i..], rarities, counts) == Candidates(contents, rarities, counts)
    {
      EvaluationProperties.SliceStep(contents, i);
      EvaluationProperties.CandidatesStep(contents[i..], rarities, counts);
      var head := if Droppable(contents[i], rarities, counts) then [contents[i]] else [];
      EvaluationProperties.AppendAssoc(droppable, head, Candidates(contents[i + 1..], rarities, counts));
      if Droppable(contents[i], rarities, counts) {
        droppable := droppable + [contents[i]];
      } else {
        EvaluationProperties.AppendEmpty(droppable);
      }
      i := i + 1;
    }
    EvaluationProperties.SliceStep(contents, i);
    EvaluationProperties.AppendEmpty(droppable);
  }

  /** The sum of the candidates' chances, the bound of the random value. */
  method SumOfChances(droppable: seq<Entry>, rarities: map<string, Config>) returns (total: real)
    ensures total == Total(Weights(droppable, rarities))
  {
    ghost var ws := Weights(droppable, rarities);
    total := 0.0;
    for i := 0 to |droppable|
      invariant total == PrefixSum(ws, i)
    {
      total := total + Chance(droppable[i].config, rarities);
    }
  }

  /** The roulette loop: the running sum of chances grows until the hit
      value is strictly below it; that candidate wins. */
  method SelectWinner(droppable: seq<Entry>, rarities: map<string, Config>, hitValue: real) returns (winner: Option<nat>)
    ensures winner == Pick(Weights(droppable, rarities), hitValue)
  {
    ghost var ws := Weights(droppable, rarities);
    var runningValue := 0.0;
    var i := 0;
    while i < |droppable|
      invariant i <= |droppable|
      invariant PickFrom(ws, hitValue, i, runningValue) == Pick(ws, hitValue)
    {
      runningValue := runningValue + Chance(droppable[i].config, rarities);
      if hitValue < runningValue {
        return Some(i);
      }
      i := i + 1;
    }
    return None;
  }

  /** The result of `load` extended in front by entries already added. */
  function Prepend(entries: seq<Entry>, loaded: Manager.Loaded): (r: Manager.Loaded)
    ensures r.entries == entries + loaded.entries
    ensures r.nextId == loaded.nextId && r.failure == loaded.failure
  {
    loaded.(entries := entries + loaded.entries)
  }

  /** The `rewards` list read with `getList`: a list of strings fails on
      its first element, as a non-list does not load anything. */
  lemma LoadRewardsOverList(s: Manager.State, config: Config, freshId: Id)
    ensures Manager.LoadRewards(s, config, freshId) == Manager.LoadContents(s, GetList(config, "rewards"), 0, freshId)
  {
  }

  /** One element of the `rewards` loop. */
  lemma LoadContentsStep(s: Manager.State, items: seq<Value>, i: nat, freshId: Id)
    requires i < |items|
    ensures !items[i].Section? ==> Manager.LoadContents(s, items, i, freshId) == Manager.Loaded([], freshId, Some(NotASection))
    ensures items[i].Section? ==>
      var created := Manager.CreateLootObject(s, items[i].entries, freshId);
      && (created.Failure? ==> Manager.LoadContents(s, items, i, freshId) == Manager.Loaded([], freshId, Some(created.error)))
      && (created.Success? ==>
            var rest := Manager.LoadContents(s, items, i + 1, created.value.nextId);
            Manager.LoadContents(s, items, i, freshId) == Manager.Loaded([created.value.entry] + rest.entries, rest.nextId, rest.failure))
  {
  }

  class ConfiguredLootTable {
    const id: Id
    const manager: Manager.LootManager
    var config: Config
    var contents: seq<Entry>
    var uniqueDrops: set<Id>
    var rarityCounts: map<RarityKey, nat>
    var cachedResult: Option<LootResult>

    /** `new ConfiguredLootTable(manager, config)`: nothing loaded, nothing
        rolled, nothing cached. */
    constructor (id: Id, manager: Manager.LootManager, config: Config)
      ensures this.id == id && this.manager == manager && this.config == config
      ensures contents == [] && uniqueDrops == {} && rarityCounts == map[] && cachedResult.None?
    {
      this.id := id;
      this.manager := manager;
      this.config := config;
      contents := [];
      uniqueDrops := {};
      rarityCounts := map[];
      cachedResult := None;
    }

    /** The table object behind a nested, already loaded table entry. */
    constructor Of(manager: Manager.LootManager, e: Entry)
      requires e.Table?
      ensures id == e.id && this.manager == manager && config == e.config && contents == e.contents
      ensures uniqueDrops == {} && rarityCounts == map[] && cachedResult.None?
    {
      id := e.id;
      this.manager := manager;
      config := e.config;
      contents := e.contents;
      uniqueDrops := {};
      rarityCounts := map[];
      cachedResult := None;
    }

    /** `count()`: the `count` key, 1 when unset. */
    function Count(): int
      reads this
    {
      Evaluation.Count(config)
    }

    /** `load()`: one entry per element of `rewards`, created by the
        manager and appended in list order. The first element that cannot
        be created stops the loop with its error; the entries added before
        it stay. */
    method Load(freshId: Id) returns (nextId: Id, failure: Option<LoadError>)
      modifies this`contents
      ensures var loaded := Manager.LoadRewards(manager.Snapshot(), config, freshId);
        contents == old(contents) + loaded.entries && nextId == loaded.nextId && failure == loaded.failure
    {
      var s := manager.Snapshot();
      var rewards := GetList(config, "rewards");
      LoadRewardsOverList(s, config, freshId);
      ghost var added: seq<Entry> := [];
      nextId, failure := freshId, None;
      var i := 0;
      while i < |rewards| && failure.None?
        invariant i <= |rewards|
        invariant contents == old(contents) + added
        invariant failure.None? ==> Manager.LoadContents(s, rewards, 0, freshId) == Prepend(added, Manager.LoadContents(s, rewards, i, nextId))
        invariant failure.Some? ==> Manager.LoadContents(s, rewards, 0, freshId) == Manager.Loaded(added, nextId, failure)
        decreases |rewards| - i, if failure.None? then 1 else 0
      {
        LoadContentsStep(s, rewards, i, nextId);
        if !rewards[i].Section? {
          failure := Some(NotASection);
        } else {
          var created := Manager.CreateLootObject(s, rewards[i].entries, nextId);
          if created.Failure? {
            failure := Some(created.error);
          } else {
            ghost var rest := Manager.LoadContents(s, rewards, i + 1, created.value.nextId);
            assert added + ([created.value.entry] + rest.entries) == (added + [created.value.entry]) + rest.entries;
            contents := contents + [created.value.entry];
            added := added + [created.value.entry];
            nextId := created.value.nextId;
            i := i + 1;
          }
        }
      }
      if failure.None? {
        assert added + [] == added;
      }
    }

    /** What a fresh resolution from random position `drawn0` leaves: the
        result of the table itself with the given player, the hooks fired,
        the random values used, the bookkeeping of the roll, and the
        result cached. */
    predicate Resolved(drawn0: nat, player: Option<Player>, r: LootResult, hooks: seq<Event>, rng: RandomSource)
      reads this, manager, rng
    {
      var ev := Evaluate(manager.rarities, rng.random, contents, Evaluation.Count(config), drawn0);
      && r == LootResult(id, player, ev.result)
      && hooks == ev.trace
      && rng.drawn == ev.drawn
      && uniqueDrops == ev.uniqueDrops
      && rarityCounts == ev.rarityCounts
      && cachedResult == Some(r)
    }

    /** `loot(player)`: the cache is dropped, so the table always rolls
        anew. */
    method Loot(player: Option<Player>, rng: RandomSource) returns (r: LootResult, hooks: seq<Event>)
      modifies this`uniqueDrops, this`rarityCounts, this`cachedResult, rng
      ensures Resolved(old(rng.drawn), player, r, hooks, rng)
      decreases MaxHeight(contents), 6
    {
      cachedResult := None;
      r, hooks := Rewards(player, rng);
    }

    /** `loot()`, which is `loot(null)`. */
    method LootAnonymous(rng: RandomSource) returns (r: LootResult, hooks: seq<Event>)
      modifies this`uniqueDrops, this`rarityCounts, this`cachedResult, rng
      ensures Resolved(old(rng.drawn), None, r, hooks, rng)
      ensures r.player.None?
      decreases MaxHeight(contents), 7
    {
      r, hooks := Loot(None, rng);
    }

    /** `rewards(player)`: a cached result is handed back as it is, with
        no random value used, no hook fired and nothing changed;
        otherwise the bookkeeping is cleared, the pre-evaluation hooks
        fire on every entry, the "always" entries are added, `count()`
        weighted draws follow, the post-evaluation hooks fire on every
        reward of the result, and the result is cached. */
    method Rewards(player: Option<Player>, rng: RandomSource) returns (r: LootResult, hooks: seq<Event>)
      modifies this`uniqueDrops, this`rarityCounts, this`cachedResult, rng
      ensures old(cachedResult).Some? ==>
        && r == old(cachedResult).value && hooks == []
        && cachedResult == old(cachedResult) && rng.drawn == old(rng.drawn)
        && uniqueDrops == old(uniqueDrops) && rarityCounts == old(rarityCounts)
      ensures old(cachedResult).None? ==> Resolved(old(rng.drawn), player, r, hooks, rng)
      decreases MaxHeight(contents), 5
    {
      if cachedResult.Some? {
        return cachedResult.value, [];
      }
      var result;
      result, hooks := Resolve(rng);
      r := LootResult(id, player, result);
      cachedResult := Some(r);
    }

    /** The uncached part of `rewards`: one evaluation of the contents,
        leaving the bookkeeping of that evaluation behind. */
    method Resolve(rng: RandomSource) returns (result: seq<Entry>, trace: seq<Event>)
      modifies this`uniqueDrops, this`rarityCounts, rng
      ensures Roll(result, uniqueDrops, rarityCounts, rng.drawn, trace)
        == Evaluate(manager.rarities, rng.random, contents, Count(), old(rng.drawn))
      decreases MaxHeight(contents), 4
    {
      ghost var drawn0 := rng.drawn;
      ghost var rarities := manager.rarities;
      ghost var random := rng.random;
      result := [];
      rarityCounts := map[];
      uniqueDrops := {};

      trace := FirePreEvaluation(contents);
      assert trace == PreEvents(contents);
      ghost var s0 := Roll(result, uniqueDrops, rarityCounts, rng.drawn, trace);
      result, trace := AddAlways(rng, result, trace);

      var realDropCount := Count();
      if realDropCount > 0 {
        result, trace := DrawTimes(rng, result, trace, realDropCount);
      }
      ghost var s2 := Roll(result, uniqueDrops, rarityCounts, rng.drawn, trace);
      assert s2 == Draws(rarities, random, contents, AlwaysPass(rarities, random, contents, 0, s0), if realDropCount > 0 then realDropCount else 0);

      var post := FirePostEvaluation(result);
      assert post == PostEvents(result);
      trace := trace + post;
      EvaluateSteps(rarities, random, contents, realDropCount, drawn0);
    }

    /** The "always" pass of `rewards`: every enabled "always" entry goes
        through `addToResult`, in contents order. */
    method AddAlways(rng: RandomSource, result: seq<Entry>, trace: seq<Event>) returns (result': seq<Entry>, trace': seq<Event>)
      modifies this`uniqueDrops, this`rarityCounts, rng
      ensures Roll(result', uniqueDrops, rarityCounts, rng.drawn, trace')
        == AlwaysPass(manager.rarities, rng.random, contents, 0, Roll(result, old(uniqueDrops), old(rarityCounts), old(rng.drawn), trace))
      decreases MaxHeight(contents), 3
    {
      ghost var s0 := Roll(result, uniqueDrops, rarityCounts, rng.drawn, trace);
      ghost var rarities, random := manager.rarities, rng.random;
      result', trace' := result, trace;
      for i := 0 to |contents|
        invariant rarities == manager.rarities && random == rng.random
        invariant AlwaysPass(rarities, random, contents, i, Roll(result', uniqueDrops, rarityCounts, rng.drawn, trace'))
          == AlwaysPass(rarities, random, contents, 0, s0)
      {
        AlwaysPassStep(rarities, random, contents, i, Roll(result', uniqueDrops, rarityCounts, rng.drawn, trace'));
        var e := contents[i];
        if Enabled(e.config) && Always(e.config) {
          result', trace' := AddToResult(rng, result', trace', e);
        }
      }
    }

    /** The weighted loop of `rewards`: `n` draws, one after the other. */
    method DrawTimes(rng: RandomSource, result: seq<Entry>, trace: seq<Event>, n: nat) returns (result': seq<Entry>, trace': seq<Event>)
      modifies this`uniqueDrops, this`rarityCounts, rng
      ensures Roll(result', uniqueDrops, rarityCounts, rng.drawn, trace')
        == Draws(manager.rarities, rng.random, contents, Roll(result, old(uniqueDrops), old(rarityCounts), old(rng.drawn), trace), n)
      decreases MaxHeight(contents), 3
    {
      ghost var s1 := Roll(result, uniqueDrops, rarityCounts, rng.drawn, trace);
      ghost var rarities, random, cs := manager.rarities, rng.random, contents;
      ghost var target := Draws(rarities, random, cs, s1, n);
      result', trace' := result, trace;
      ghost var cur, left := s1, n;
      for dropCount := 0 to n
        invariant left == n - dropCount
        invariant rarities == manager.rarities && random == rng.random && cs == contents
        invariant cur == Roll(result', uniqueDrops, rarityCounts, rng.drawn, trace')
        invariant Draws(rarities, random, cs, cur, left) == target
      {
        result', trace' := DrawOnce(rng, result', trace', rarities, cur);
        ghost var next := Roll(result', uniqueDrops, rarityCounts, rng.drawn, trace');
        DrawsAdvance(rarities, random, cs, cur, left, next, target);
        cur, left := next, left - 1;
      }
      DrawsDone(rarities, random, cs, cur);
    }

    /** One weighted draw: the candidates are collected, a random value
        below the sum of their chances is taken, and the roulette winner,
        if any, goes through `addToResult`. */
    method DrawOnce(rng: RandomSource, result: seq<Entry>, trace: seq<Event>, ghost rarities: map<string, Config>, ghost s: Roll)
      returns (result': seq<Entry>, trace': seq<Event>)
      requires rarities == manager.rarities && s == Roll(result, uniqueDrops, rarityCounts, rng.drawn, trace)
      modifies this`uniqueDrops, this`rarityCounts, rng
      ensures Roll(result', uniqueDrops, rarityCounts, rng.drawn, trace') == Draw(rarities, rng.random, contents, s)
      ensures contents == old(contents) && manager.rarities == old(manager.rarities)
      decreases MaxHeight(contents), 2
    {
      var droppable := CollectDroppable(contents, manager.rarities, rarityCounts);
      var total := SumOfChances(droppable, manager.rarities);
      var hitValue := rng.Next(total);
      var winner := SelectWinner(droppable, manager.rarities, hitValue);
      ghost var ws := Weights(droppable, rarities);
      assert hitValue == rng.random(s.drawn, Total(ws));
      ghost var s1 := s.(drawn := s.drawn + 1);
      assert Roll(result, uniqueDrops, rarityCounts, rng.drawn, trace) == s1;
      if winner.Some? {
        DrawWinner(rarities, rng.random, contents, s, winner.value);
        assert droppable[winner.value] in contents;
        result', trace' := AddToResult(rng, result, trace, droppable[winner.value]);
      } else {
        DrawNoWinner(rarities, rng.random, contents, s);
        result', trace' := result, trace;
      }
    }

    /** `addToResult(result, object)`: a unique entry already dropped is
        skipped; otherwise a unique entry is recorded and the rarity
        counted, then a table is re-rolled and its rewards fed back, and a
        reward is appended and hit. */
    method AddToResult(rng: RandomSource, result: seq<Entry>, trace: seq<Event>, e: Entry) returns (result': seq<Entry>, trace': seq<Event>)
      modifies this`uniqueDrops, this`rarityCounts, rng
      ensures Roll(result', uniqueDrops, rarityCounts, rng.drawn, trace')
        == Evaluation.AddToResult(manager.rarities, rng.random, Roll(result, old(uniqueDrops), old(rarityCounts), old(rng.drawn), trace), e)
      decreases Height(e), 1
    {
      ghost var s := Roll(result, uniqueDrops, rarityCounts, rng.drawn, trace);
      ghost var rarities, random := manager.rarities, rng.random;
      if Unique(e.config) && e.id in uniqueDrops {
        EvaluationProperties.DroppedUniqueSkipped(rarities, random, s, e);
        return result, trace;
      }
      if Unique(e.config) {
        uniqueDrops := uniqueDrops + {e.id};
      }
      rarityCounts := Bump(rarityCounts, RarityKeyOf(e, manager.rarities));
      assert Roll(result, uniqueDrops, rarityCounts, rng.drawn, trace) == Record(rarities, s, e);
      if e.Table? {
        TableOutcome(rarities, random, s, e);
        result', trace' := AddNested(rng, result, trace, e);
      } else if e.Reward? {
        RewardOutcome(rarities, random, s, e);
        result', trace' := result + [e], trace + [Hit(e.id)];
      } else {
        PlainOutcome(rarities, random, s, e);
        result', trace' := result, trace;
      }
    }

    /** The table branch of `addToResult`: the nested table is looted
        anew, with no player, and each of its rewards goes through
        `addToResult` of this table. */
    method AddNested(rng: RandomSource, result: seq<Entry>, trace: seq<Event>, e: Entry) returns (result': seq<Entry>, trace': seq<Event>)
      requires e.Table?
      modifies this`uniqueDrops, this`rarityCounts, rng
      ensures var s1 := Roll(result, old(uniqueDrops), old(rarityCounts), old(rng.drawn), trace);
        var sub := Evaluate(manager.rarities, rng.random, e.contents, Evaluation.Count(e.config), old(rng.drawn));
        Roll(result', uniqueDrops, rarityCounts, rng.drawn, trace')
          == FeedBack(manager.rarities, rng.random, s1.(drawn := sub.drawn, trace := s1.trace + sub.trace), sub.result)
      decreases Height(e), 0
    {
      var nested := new ConfiguredLootTable.Of(manager, e);
      var loot, hooks := nested.LootAnonymous(rng);
      result', trace' := AddAll(rng, result, trace + hooks, loot.rewards);
    }

    /** The loop of `addToResult` over the rewards of a re-rolled nested
        table: each goes through `addToResult` of this table, in order. */
    method AddAll(rng: RandomSource, result: seq<Entry>, trace: seq<Event>, rewards: seq<Entry>) returns (result': seq<Entry>, trace': seq<Event>)
      requires AllRewards(rewards)
      modifies this`uniqueDrops, this`rarityCounts, rng
      ensures Roll(result', uniqueDrops, rarityCounts, rng.drawn, trace')
        == FeedBack(manager.rarities, rng.random, Roll(result, old(uniqueDrops), old(rarityCounts), old(rng.drawn), trace), rewards)
      decreases 0, 2
    {
      ghost var s0 := Roll(result, uniqueDrops, rarityCounts, rng.drawn, trace);
      ghost var rarities, random := manager.rarities, rng.random;
      result', trace' := result, trace;
      for i := 0 to |rewards|
        invariant rarities == manager.rarities && random == rng.random
        invariant FeedBack(rarities, random, Roll(result', uniqueDrops, rarityCounts, rng.drawn, trace'), rewards[i..])
          == FeedBack(rarities, random, s0, rewards)
      {
        assert rewards[i..][0] == rewards[i] && rewards[i..][1..] == rewards[i + 1..];
        FeedBackStep(rarities, random, Roll(result', uniqueDrops, rarityCounts, rng.drawn, trace'), rewards[i..]);
        result', trace' := AddToResult(rng, result', trace', rewards[i]);
      }
      assert rewards[|rewards|..] == [];
    }
  }
}
