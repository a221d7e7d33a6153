/** What the documentation of `LootObject`, `LootTable` and
    `ConfiguredLootTable` promises about a resolution, proved of the
    functions of `Evaluation`. */
module EvaluationProperties {
  import opened Wrappers
  import opened Sections
  import opened LootObjects
  import opened Evaluation
  import Rarities
  import Bookkeeping
  import Text

  /** Candidates keep the order of the contents: the candidates of two
      concatenated lists are the concatenated candidates. */
  lemma {:induction false} CandidatesKeepOrder(a: seq<Entry>, b: seq<Entry>, rarities: map<string, Config>, counts: map<RarityKey, nat>)
    ensures Candidates(a + b, rarities, counts) == Candidates(a, rarities, counts) + Candidates(b, rarities, counts)
  {
    if a == [] {
      assert a + b == b;
    } else {
      HeadOfAppend(a, b);
      CandidatesStep(a + b, rarities, counts);
      CandidatesStep(a, rarities, counts);
      CandidatesKeepOrder(a[1..], b, rarities, counts);
      var head := if Droppable(a[0], rarities, counts) then [a[0]] else [];
      AppendAssoc(head, Candidates(a[1..], rarities, counts), Candidates(b, rarities, counts));
    }
  }

  lemma CandidatesStep(contents: seq<Entry>, rarities: map<string, Config>, counts: map<RarityKey, nat>)
    requires contents != []
    ensures Candidates(contents, rarities, counts)
      == (if Droppable(contents[0], rarities, counts) then [contents[0]] else []) + Candidates(contents[1..], rarities, counts)
  {
    if !Droppable(contents[0], rarities, counts) {
      assert [] + Candidates(contents[1..], rarities, counts) == Candidates(contents[1..], rarities, counts);
    }
  }

  /** An entry excluded from random is never a candidate, so it drops only
      through the "always" pass and its chance is not part of the total the
      random value is drawn under. */
  lemma ExcludedNeverCandidate(contents: seq<Entry>, rarities: map<string, Config>, counts: map<RarityKey, nat>, e: Entry)
    requires e.excludeFromRandom
    ensures e !in Candidates(contents, rarities, counts)
    ensures forall c :: c in Candidates(contents, rarities, counts) ==> !c.excludeFromRandom
  {
  }

  /** An entry whose rarity has max 0, as the empty default rarity has,
      is never a weighted candidate. */
  lemma ZeroMaxNeverCandidate(contents: seq<Entry>, rarities: map<string, Config>, counts: map<RarityKey, nat>, e: Entry)
    requires Rarities.Max(RarityOf(e.config, rarities)) == 0
    ensures e !in Candidates(contents, rarities, counts)
    ensures "rarity" !in e.config ==> RarityOf(e.config, rarities) == Empty
  {
  }

  /** An entry without a rarity gets the default one and so can drop only
      through the "always" pass. */
  lemma DefaultRarityNeverCandidate(contents: seq<Entry>, rarities: map<string, Config>, counts: map<RarityKey, nat>, e: Entry)
    requires "rarity" !in e.config
    ensures e !in Candidates(contents, rarities, counts)
  {
    Rarities.Defaults();
    ZeroMaxNeverCandidate(contents, rarities, counts, e);
  }

  /** A unique entry already dropped is skipped: no count, no append, no
      hook. */
  lemma DroppedUniqueSkipped(rarities: map<string, Config>, random: Random, s: Roll, e: Entry)
    requires Unique(e.config) && e.id in s.uniqueDrops
    ensures AddToResult(rarities, random, s, e) == s
  {
  }


  /** A leaf reward that is not a dropped unique entry is appended, gets
      its hit, counts its rarity once and, when unique, is recorded. */
  lemma LeafAppended(rarities: map<string, Config>, random: Random, s: Roll, e: Entry)
    requires e.Reward? && !(Unique(e.config) && e.id in s.uniqueDrops)
    ensures var r := AddToResult(rarities, random, s, e);
      && r.result == s.result + [e]
      && r.trace == s.trace + [Hit(e.id)]
      && r.drawn == s.drawn
      && (!RarityKeyOf(e, rarities).DefaultRarity? ==>
            RarityCount(r.rarityCounts, RarityKeyOf(e, rarities)) == RarityCount(s.rarityCounts, RarityKeyOf(e, rarities)) + 1)
      && (Unique(e.config) ==> e.id in r.uniqueDrops)
  {
    RewardOutcome(rarities, random, s, e);
  }

  /** The part of LeafAppended that concerns the result alone. */
  lemma LeafResult(rarities: map<string, Config>, random: Random, s: Roll, e: Entry)
    requires e.Reward? && !(Unique(e.config) && e.id in s.uniqueDrops)
    ensures AddToResult(rarities, random, s, e).result == s.result + [e]
  {
    LeafAppended(rarities, random, s, e);
  }

  /** The part of LeafAppended that concerns the hooks alone. */
  lemma LeafTrace(rarities: map<string, Config>, random: Random, s: Roll, e: Entry)
    requires e.Reward? && !(Unique(e.config) && e.id in s.uniqueDrops)
    ensures AddToResult(rarities, random, s, e).trace == s.trace + [Hit(e.id)]
  {
    LeafAppended(rarities, random, s, e);
  }

  /** The uniqueness check does not narrow the candidates: a unique entry
      already dropped can still win a draw, which then adds nothing but
      uses up its random value. */
  lemma DroppedUniqueWinnerWastesDraw(rarities: map<string, Config>, random: Random, contents: seq<Entry>, s: Roll)
    requires var cs := Candidates(contents, rarities, s.rarityCounts);
      var hit := random(s.drawn, Total(Weights(cs, rarities)));
      var k := Pick(Weights(cs, rarities), hit);
      k.Some? && Unique(cs[k.value].config) && cs[k.value].id in s.uniqueDrops
    ensures Draw(rarities, random, contents, s) == s.(drawn := s.drawn + 1)
  {
  }

  predicate NoTables(contents: seq<Entry>) {
    forall i :: 0 <= i < |contents| ==> !contents[i].Table?
  }

  /** Adding a leaf takes no random value and adds at most one entry. */
  lemma LeafStep(rarities: map<string, Config>, random: Random, s: Roll, e: Entry)
    requires !e.Table?
    ensures AddToResult(rarities, random, s, e).drawn == s.drawn
    ensures |AddToResult(rarities, random, s, e).result| <= |s.result| + 1
  {
  }

  /** The number of enabled "always" entries from position `i` on. */
  function AlwaysEntries(contents: seq<Entry>, i: nat): nat
    requires i <= |contents|
    decreases |contents| - i
  {
    if i == |contents| then 0
    else (if Enabled(contents[i].config) && Always(contents[i].config) then 1 else 0) + AlwaysEntries(contents, i + 1)
  }

  lemma {:induction false} AlwaysPassOverLeaves(rarities: map<string, Config>, random: Random, contents: seq<Entry>, i: nat, s: Roll)
    requires i <= |contents| && NoTables(contents)
    ensures AlwaysPass(rarities, random, contents, i, s).drawn == s.drawn
    ensures |AlwaysPass(rarities, random, contents, i, s).result| <= |s.result| + AlwaysEntries(contents, i)
    decreases |contents| - i
  {
    if i < |contents| {
      var e := contents[i];
      if Enabled(e.config) && Always(e.config) {
        LeafStep(rarities, random, s, e);
        AlwaysPassOverLeaves(rarities, random, contents, i + 1, AddToResult(rarities, random, s, e));
      } else {
        AlwaysPassOverLeaves(rarities, random, contents, i + 1, s);
      }
    }
  }

  lemma DrawOverLeaves(rarities: map<string, Config>, random: Random, contents: seq<Entry>, s: Roll)
    requires NoTables(contents)
    ensures Draw(rarities, random, contents, s).drawn == s.drawn + 1
    ensures |Draw(rarities, random, contents, s).result| <= |s.result| + 1
  {
    var cs := Candidates(contents, rarities, s.rarityCounts);
    var ws := Weights(cs, rarities);
    var k := Pick(ws, random(s.drawn, Total(ws)));
    if k.Some? {
      assert cs[k.value] in contents;
      LeafStep(rarities, random, s.(drawn := s.drawn + 1), cs[k.value]);
    }
  }

  lemma {:induction false} DrawsOverLeaves(rarities: map<string, Config>, random: Random, contents: seq<Entry>, s: Roll, n: nat)
    requires NoTables(contents)
    ensures Draws(rarities, random, contents, s, n).drawn == s.drawn + n
    ensures |Draws(rarities, random, contents, s, n).result| <= |s.result| + n
    decreases n
  {
    if n > 0 {
      DrawOverLeaves(rarities, random, contents, s);
      DrawsOverLeaves(rarities, random, contents, Draw(rarities, random, contents, s), n - 1);
    }
  }

  /** For contents without tables, the weighted loop takes exactly
      `max(count, 0)` random values, and the result holds at most the
      enabled "always" entries plus `max(count, 0)` entries. */
  lemma LeafTableBounds(rarities: map<string, Config>, random: Random, contents: seq<Entry>, count: int, drawn: nat)
    requires NoTables(contents)
    ensures var n := if count > 0 then count else 0;
      && Evaluate(rarities, random, contents, count, drawn).drawn == drawn + n
      && |Evaluate(rarities, random, contents, count, drawn).result| <= AlwaysEntries(contents, 0) + n
  {
    var s0 := Roll([], {}, map[], drawn, PreEvents(contents));
    AlwaysPassOverLeaves(rarities, random, contents, 0, s0);
    var s1 := AlwaysPass(rarities, random, contents, 0, s0);
    DrawsOverLeaves(rarities, random, contents, s1, if count > 0 then count else 0);
  }

  // ---------------------------------------------------------------------
  // The rarity cap

  /** How many entries of `es` have the rarity `k`. */
  function CountOfRarity(es: seq<Entry>, rarities: map<string, Config>, k: RarityKey): (n: nat)
    ensures n <= |es|
  {
    if es == [] then 0
    else CountOfRarity(es[..|es| - 1], rarities, k) + (if RarityKeyOf(es[|es| - 1], rarities) == k then 1 else 0)
  }

  lemma CountOfRarityAppend(es: seq<Entry>, e: Entry, rarities: map<string, Config>, k: RarityKey)
    ensures CountOfRarity(es + [e], rarities, k) == CountOfRarity(es, rarities, k) + (if RarityKeyOf(e, rarities) == k then 1 else 0)
  {
    assert (es + [e])[..|es|] == es;
  }

  /** The state keeps within the cap `max` of rarity `k`: the result
      holds no more entries of that rarity than were counted, and the
      count is at most `max`. */
  predicate WithinCap(s: Roll, rarities: map<string, Config>, k: RarityKey, max: int) {
    CountOfRarity(s.result, rarities, k) <= RarityCount(s.rarityCounts, k) <= max
  }

  /** Every entry of the contents with rarity `k` reads `max` as its cap. */
  predicate CapIs(contents: seq<Entry>, rarities: map<string, Config>, k: RarityKey, max: int) {
    forall i :: 0 <= i < |contents| && RarityKeyOf(contents[i], rarities) == k ==> Rarities.Max(RarityOf(contents[i].config, rarities)) == max
  }

  /** Adding a leaf keeps the cap when a leaf of rarity `k` comes only
      while that rarity is under its cap. */
  lemma LeafKeepsCap(rarities: map<string, Config>, random: Random, s: Roll, e: Entry, k: RarityKey, max: int)
    requires !e.Table? && !k.DefaultRarity? && WithinCap(s, rarities, k, max)
    requires RarityKeyOf(e, rarities) == k ==> RarityCount(s.rarityCounts, k) < max
    ensures WithinCap(AddToResult(rarities, random, s, e), rarities, k, max)
  {
    if !(Unique(e.config) && e.id in s.uniqueDrops) {
      var s1 := Record(rarities, s, e);
      assert RarityCount(s1.rarityCounts, k) == RarityCount(s.rarityCounts, k) + (if RarityKeyOf(e, rarities) == k then 1 else 0);
      if e.Reward? {
        RewardOutcome(rarities, random, s, e);
        CountOfRarityAppend(s.result, e, rarities, k);
      } else {
        PlainOutcome(rarities, random, s, e);
      }
    }
  }

  /** The "always" pass leaves rarity `k` alone when no enabled "always"
      entry has it. */
  lemma {:induction false} AlwaysPassKeepsCap(rarities: map<string, Config>, random: Random, contents: seq<Entry>, i: nat, s: Roll, k: RarityKey, max: int)
    requires i <= |contents| && NoTables(contents) && !k.DefaultRarity? && WithinCap(s, rarities, k, max)
    requires forall e :: e in contents && Enabled(e.config) && Always(e.config) ==> RarityKeyOf(e, rarities) != k
    ensures WithinCap(AlwaysPass(rarities, random, contents, i, s), rarities, k, max)
    decreases |contents| - i
  {
    if i == |contents| {
      AlwaysPassDone(rarities, random, contents, s);
    } else {
      var e := contents[i];
      AlwaysPassStep(rarities, random, contents, i, s);
      var next := if Enabled(e.config) && Always(e.config) then AddToResult(rarities, random, s, e) else s;
      if Enabled(e.config) && Always(e.config) {
        LeafKeepsCap(rarities, random, s, e, k, max);
      }
      AlwaysPassKeepsCap(rarities, random, contents, i + 1, next, k, max);
    }
  }

  /** A draw keeps the cap: an entry of rarity `k` is a candidate only
      while the count of `k` is under `max`. */
  lemma DrawKeepsCap(rarities: map<string, Config>, random: Random, contents: seq<Entry>, s: Roll, k: RarityKey, max: int)
    requires NoTables(contents) && !k.DefaultRarity? && 0 <= max && CapIs(contents, rarities, k, max)
    requires WithinCap(s, rarities, k, max)
    ensures WithinCap(Draw(rarities, random, contents, s), rarities, k, max)
  {
    var cs := Candidates(contents, rarities, s.rarityCounts);
    var ws := Weights(cs, rarities);
    match Pick(ws, random(s.drawn, Total(ws)))
    case None =>
      DrawNoWinner(rarities, random, contents, s);
    case Some(w) =>
      DrawWinner(rarities, random, contents, s, w);
      var e := cs[w];
      assert e in cs;
      assert e in contents && Droppable(e, rarities, s.rarityCounts);
      var i :| 0 <= i < |contents| && contents[i] == e;
      LeafKeepsCap(rarities, random, s.(drawn := s.drawn + 1), e, k, max);
  }

  /** Every draw of a run keeps the cap. */
  lemma {:induction false} DrawsKeepCap(rarities: map<string, Config>, random: Random, contents: seq<Entry>, s: Roll, n: nat, k: RarityKey, max: int)
    requires NoTables(contents) && !k.DefaultRarity? && 0 <= max && CapIs(contents, rarities, k, max)
    requires WithinCap(s, rarities, k, max)
    ensures WithinCap(Draws(rarities, random, contents, s, n), rarities, k, max)
    decreases n
  {
    if n == 0 {
      DrawsDone(rarities, random, contents, s);
    } else {
      var next := Draw(rarities, random, contents, s);
      DrawKeepsCap(rarities, random, contents, s, k, max);
      DrawsKeepCap(rarities, random, contents, next, n - 1, k, max);
      DrawsStep(rarities, random, contents, s, n);
    }
  }

  /** The rarity cap of `hasNotReachedRarityCount`: for contents without
      nested tables, a rarity with a cap `max >= 0` that no enabled
      "always" entry carries is counted at most `max` times in a
      resolution, however large the count, and the result holds at most
      `max` entries of it. */
  lemma RarityCapHolds(rarities: map<string, Config>, random: Random, contents: seq<Entry>, count: int, drawn: nat, k: RarityKey, max: int)
    requires NoTables(contents) && !k.DefaultRarity? && 0 <= max && CapIs(contents, rarities, k, max)
    requires forall e :: e in contents && Enabled(e.config) && Always(e.config) ==> RarityKeyOf(e, rarities) != k
    ensures var r := Evaluate(rarities, random, contents, count, drawn);
      CountOfRarity(r.result, rarities, k) <= RarityCount(r.rarityCounts, k) <= max
  {
    var s0 := Roll([], {}, map[], drawn, PreEvents(contents));
    EvaluateSteps(rarities, random, contents, count, drawn);
    AlwaysPassKeepsCap(rarities, random, contents, 0, s0, k, max);
    DrawsKeepCap(rarities, random, contents, AlwaysPass(rarities, random, contents, 0, s0), if count > 0 then count else 0, k, max);
  }

  /** Two rewards sharing a registered rarity with cap 1, drawn five
      times: at most one reward of that rarity drops. */
  lemma SharedRarityDropsOnce(rarities: map<string, Config>, random: Random, drawn: nat)
    requires "rare" in rarities && Rarities.Max(rarities["rare"]) == 1
    ensures var config := map["rarity" := Str("rare")];
      var r := Evaluate(rarities, random, [Reward(1, config, false), Reward(2, config, false)], 5, drawn);
      CountOfRarity(r.result, rarities, NamedRarity("rare")) <= 1
  {
    var config := map["rarity" := Str("rare")];
    var contents := [Reward(1, config, false), Reward(2, config, false)];
    assert Text.ToLower("rare") == "rare";
    assert forall e :: e in contents ==> e.config == config;
    RarityCapHolds(rarities, random, contents, 5, drawn, NamedRarity("rare"), 1);
  }

  /** Rarities count apart by identity: two rewards holding distinct inline
      rarity sections, however alike they read (cap 1), each have their
      own counter, so once the first has dropped the second is still a
      candidate, and the first is not. */
  lemma InlineRaritiesCountApart(rarities: map<string, Config>, a: Entry, b: Entry)
    requires !a.excludeFromRandom && !b.excludeFromRandom
    requires Enabled(a.config) && Enabled(b.config)
    requires IsSection(a.config, "rarity") && IsSection(b.config, "rarity")
    requires a.config["rarity"].id != b.config["rarity"].id
    requires Rarities.Max(RarityOf(a.config, rarities)) == 1 && Rarities.Max(RarityOf(b.config, rarities)) == 1
    ensures Candidates([a, b], rarities, Bump(map[], RarityKeyOf(a, rarities))) == [b]
  {
    var counts := Bump(map[], RarityKeyOf(a, rarities));
    assert RarityCount(counts, RarityKeyOf(b, rarities)) == 0;
    CandidatesStep([a, b], rarities, counts);
    CandidatesStep([b], rarities, counts);
    assert [a, b][1..] == [b] && [b][1..] == [];
  }

  /** Two merged copies of one object with an inline rarity of cap 1, as
      two `object:` references to it in a table's rewards give, share that
      rarity section and so its counter: once either has dropped, neither
      is a candidate any more. */
  lemma MergedCopiesCountTogether(rarities: map<string, Config>, e: Entry, s1: Config, s2: Config, id1: Id, id2: Id)
    requires IsSection(e.config, "rarity") && Rarities.Max(RarityOf(e.config, rarities)) == 1
    requires "rarity" !in s1 && "rarity" !in s2
    ensures var a, b := MergedEntry(e, s1, id1), MergedEntry(e, s2, id2);
      RarityKeyOf(a, rarities) == RarityKeyOf(b, rarities)
      && Candidates([a, b], rarities, Bump(map[], RarityKeyOf(a, rarities))) == []
  {
    var a, b := MergedEntry(e, s1, id1), MergedEntry(e, s2, id2);
    MergedCopiesShareRarity(e, s1, id1, rarities);
    MergedCopiesShareRarity(e, s2, id2, rarities);
    var counts := Bump(map[], RarityKeyOf(a, rarities));
    assert RarityOf(a.config, rarities) == RarityOf(e.config, rarities) == RarityOf(b.config, rarities);
    assert !Droppable(a, rarities, counts) && !Droppable(b, rarities, counts);
    CandidatesStep([a, b], rarities, counts);
    CandidatesStep([b], rarities, counts);
    assert [a, b][1..] == [b] && [b][1..] == [];
  }

  lemma {:induction false} AlwaysPassIncludes(rarities: map<string, Config>, random: Random, contents: seq<Entry>, i: nat, s: Roll, j: nat)
    requires i <= j < |contents|
    requires contents[j].Reward? && Enabled(contents[j].config) && Always(contents[j].config) && !Unique(contents[j].config)
    ensures contents[j] in AlwaysPass(rarities, random, contents, i, s).result
    decreases |contents| - i
  {
    var e := contents[i];
    var s' := if Enabled(e.config) && Always(e.config) then AddToResult(rarities, random, s, e) else s;
    if i == j {
      LeafAppended(rarities, random, s, e);
      var r := AlwaysPass(rarities, random, contents, i + 1, s');
      Bookkeeping.AlwaysPassKeeps(rarities, random, contents, i + 1, s');
      assert s'.result <= r.result;
      assert s'.result[|s'.result| - 1] == e;
      assert r.result[|s'.result| - 1] == e;
    } else {
      AlwaysPassIncludes(rarities, random, contents, i + 1, s', j);
    }
  }

  /** An enabled "always" reward that is not unique is in every result,
      whatever the count and whatever its rarity cap or random exclusion. */
  lemma AlwaysIncluded(rarities: map<string, Config>, random: Random, contents: seq<Entry>, count: int, drawn: nat, e: Entry)
    requires e in contents && e.Reward? && Enabled(e.config) && Always(e.config) && !Unique(e.config)
    ensures e in Evaluate(rarities, random, contents, count, drawn).result
  {
    var j :| 0 <= j < |contents| && contents[j] == e;
    var s0 := Roll([], {}, map[], drawn, PreEvents(contents));
    AlwaysPassIncludes(rarities, random, contents, 0, s0, j);
    var s1 := AlwaysPass(rarities, random, contents, 0, s0);
    var s2 := Draws(rarities, random, contents, s1, if count > 0 then count else 0);
    Bookkeeping.DrawsKeeps(rarities, random, contents, s1, if count > 0 then count else 0);
    EvaluateSteps(rarities, random, contents, count, drawn);
    assert s1.result <= s2.result;
  }

  lemma TwoDistinctMembers<T>(s: seq<T>, x: T, y: T)
    requires x in s && y in s && x != y
    ensures |s| >= 2
  {
    var a :| 0 <= a < |s| && s[a] == x;
    var b :| 0 <= b < |s| && s[b] == y;
    assert a != b;
  }

  /** The count is not a bound: two "always" rewards drop even with a
      count of 1. */
  lemma ResultMayExceedCount(rarities: map<string, Config>, random: Random, drawn: nat)
    ensures var always := map["always" := Bool(true)];
      |Evaluate(rarities, random, [Reward(1, always, false), Reward(2, always, false)], 1, drawn).result| > 1
  {
    var always := map["always" := Bool(true)];
    var first := Reward(1, always, false);
    var second := Reward(2, always, false);
    var contents := [first, second];
    AlwaysIncluded(rarities, random, contents, 1, drawn, first);
    AlwaysIncluded(rarities, random, contents, 1, drawn, second);
    TwoDistinctMembers(Evaluate(rarities, random, contents, 1, drawn).result, first, second);
  }

  predicate NoneUnique(rewards: seq<Entry>) {
    forall i :: 0 <= i < |rewards| ==> !Unique(rewards[i].config)
  }

  function HitEvents(rewards: seq<Entry>): (events: seq<Event>)
    ensures |events| == |rewards|
    ensures forall i :: 0 <= i < |rewards| ==> events[i] == Hit(rewards[i].id)
  {
    seq(|rewards|, i requires 0 <= i < |rewards| => Hit(rewards[i].id))
  }

  /** The rewards of a nested table pass through the parent's
      `addToResult` again: without unique entries all of them are appended
      in order... */
  lemma {:induction false} FeedBackAppendsAll(rarities: map<string, Config>, random: Random, s: Roll, rewards: seq<Entry>)
    requires AllRewards(rewards) && NoneUnique(rewards)
    ensures FeedBack(rarities, random, s, rewards).result == s.result + rewards
    decreases |rewards|
  {
    if rewards != [] {
      var s' := AddToResult(rarities, random, s, rewards[0]);
      assert AllRewards(rewards[1..]) && NoneUnique(rewards[1..]);
      FeedBackAppendsAll(rarities, random, s', rewards[1..]);
      LeafResult(rarities, random, s, rewards[0]);
      FeedBackStep(rarities, random, s, rewards);
      ConsSplit(rewards);
      AppendInTwo(s.result, s'.result, FeedBack(rarities, random, s', rewards[1..]).result, [rewards[0]], rewards[1..], rewards);
    }
  }

  /** ... and each of them gets a second hit, in the same order. */
  lemma {:induction false} FeedBackHitsAll(rarities: map<string, Config>, random: Random, s: Roll, rewards: seq<Entry>)
    requires AllRewards(rewards) && NoneUnique(rewards)
    ensures FeedBack(rarities, random, s, rewards).trace == s.trace + HitEvents(rewards)
    decreases |rewards|
  {
    if rewards != [] {
      var s' := AddToResult(rarities, random, s, rewards[0]);
      assert AllRewards(rewards[1..]) && NoneUnique(rewards[1..]);
      FeedBackHitsAll(rarities, random, s', rewards[1..]);
      LeafTrace(rarities, random, s, rewards[0]);
      FeedBackStep(rarities, random, s, rewards);
      HitEventsCons(rewards);
      AppendInTwo(s.trace, s'.trace, FeedBack(rarities, random, s', rewards[1..]).trace,
        [Hit(rewards[0].id)], HitEvents(rewards[1..]), HitEvents(rewards));
    }
  }

  lemma HitEventsCons(rewards: seq<Entry>)
    requires rewards != []
    ensures HitEvents(rewards) == [Hit(rewards[0].id)] + HitEvents(rewards[1..])
  {
  }

  /** Sequence facts kept out of the contexts above, where they are costly. */
  lemma ConsSplit<T>(xs: seq<T>)
    requires xs != []
    ensures xs == [xs[0]] + xs[1..]
  {
  }

  lemma HeadOfAppend<T>(a: seq<T>, b: seq<T>)
    requires a != []
    ensures (a + b) != [] && (a + b)[0] == a[0] && (a + b)[1..] == a[1..] + b
  {
  }

  lemma SliceStep<T>(s: seq<T>, i: nat)
    requires i <= |s|
    ensures i < |s| ==> s[i..] != [] && s[i..][0] == s[i] && s[i..][1..] == s[i + 1..]
    ensures i == |s| ==> s[i..] == []
  {
  }

  lemma AppendEmpty<T>(s: seq<T>)
    ensures s + [] == s && [] + s == s
  {
  }

  lemma ThreeSingletons<T>(x: T, y: T, z: T)
    ensures [x] + [y] + [z] == [x, y, z]
  {
  }

  lemma AppendAssoc<T>(x: seq<T>, y: seq<T>, z: seq<T>)
    ensures (x + y) + z == x + (y + z)
  {
  }

  lemma AppendInTwo<T>(before: seq<T>, mid: seq<T>, after: seq<T>, x: seq<T>, y: seq<T>, whole: seq<T>)
    requires mid == before + x && after == mid + y && whole == x + y
    ensures after == before + whole
  {
  }

  /** Evaluating a single enabled "always" reward with count 0. */
  lemma SingleAlwaysLeaf(rarities: map<string, Config>, random: Random, leaf: Entry, drawn: nat)
    requires leaf.Reward? && Enabled(leaf.config) && Always(leaf.config) && !Unique(leaf.config)
    ensures var sub := Evaluate(rarities, random, [leaf], 0, drawn);
      && sub.result == [leaf]
      && sub.trace == [PreEvaluation(leaf.id), Hit(leaf.id), PostEvaluation(leaf.id, [leaf.id])]
      && sub.drawn == drawn
  {
    var s0 := Roll([], {}, map[], drawn, PreEvents([leaf]));
    EvaluateSteps(rarities, random, [leaf], 0, drawn);
    AlwaysPassStep(rarities, random, [leaf], 0, s0);
    var a := AddToResult(rarities, random, s0, leaf);
    AlwaysPassDone(rarities, random, [leaf], a);
    DrawsDone(rarities, random, [leaf], a);
    LeafAppended(rarities, random, s0, leaf);
    SingleLeafEvents(leaf);
    AppendEmpty([leaf]);
    ThreeSingletons(PreEvaluation(leaf.id), Hit(leaf.id), PostEvaluation(leaf.id, [leaf.id]));
  }

  lemma SingleLeafEvents(leaf: Entry)
    ensures PreEvents([leaf]) == [PreEvaluation(leaf.id)]
    ensures PostEvents([leaf]) == [PostEvaluation(leaf.id, [leaf.id])]
  {
    assert Ids([leaf]) == [leaf.id];
  }

  /** A table whose only entry is an enabled "always" reward, looted with
      count 0: the reward's hit fires once in the nested evaluation and once
      more in the parent's, and when table and reward share a rarity, that
      rarity is counted twice. */
  lemma {:induction false} NestedLeafHitTwice(rarities: map<string, Config>, random: Random, s: Roll, table: Entry)
    requires table.Table? && !Unique(table.config) && Count(table.config) == 0 && |table.contents| == 1
    requires var leaf := table.contents[0];
      leaf.Reward? && Enabled(leaf.config) && Always(leaf.config) && !Unique(leaf.config)
    ensures var leaf := table.contents[0];
      var r := AddToResult(rarities, random, s, table);
      && r.result == s.result + [leaf]
      && r.trace == s.trace + [PreEvaluation(leaf.id), Hit(leaf.id), PostEvaluation(leaf.id, [leaf.id]), Hit(leaf.id)]
      && r.drawn == s.drawn
      && (RarityKeyOf(table, rarities) == RarityKeyOf(leaf, rarities) && !RarityKeyOf(leaf, rarities).DefaultRarity? ==>
            RarityCount(r.rarityCounts, RarityKeyOf(leaf, rarities)) == RarityCount(s.rarityCounts, RarityKeyOf(leaf, rarities)) + 2)
  {
    var leaf := table.contents[0];
    assert table.contents == [leaf];
    var s1 := Record(rarities, s, table);
    TableOutcome(rarities, random, s, table);
    SingleAlwaysLeaf(rarities, random, leaf, s1.drawn);
    var sub := Evaluate(rarities, random, [leaf], 0, s1.drawn);
    var mid := s1.(drawn := sub.drawn, trace := s1.trace + sub.trace);
    assert AddToResult(rarities, random, s, table) == FeedBack(rarities, random, mid, [leaf]);
    FeedBackStep(rarities, random, mid, [leaf]);
    assert [leaf][1..] == [];
    LeafAppended(rarities, random, mid, leaf);
  }
}
