/** How `ConfiguredLootTable` resolves its contents into a result, as
    functions: the pre-evaluation hooks, the pass over the "always"
    entries, `count()` weighted draws by roulette selection, `addToResult`
    with its uniqueness and rarity bookkeeping and the re-roll of nested
    tables, and the post-evaluation hooks. */
module Evaluation {
  import opened Wrappers
  import opened Sections
  import opened LootObjects
  import Rarities

  /** `RandomUtil.getDoubleValue(max)` on its `n`-th call. */
  type Random = (nat, real) -> real

  /** The state of one evaluation: the result so far, the unique entries
      dropped, how often each rarity was added, how many random values were
      taken, and the hooks fired. */
  datatype Roll = Roll(
    result: seq<Entry>,
    uniqueDrops: set<Id>,
    rarityCounts: map<RarityKey, nat>,
    drawn: nat,
    trace: seq<Event>)

  /** `count()`: the `count` key, 1 when it is not a number; a whole
      number beyond the range of `int` wraps around. */
  function Count(config: Config): (n: Int32)
    ensures "count" !in config ==> n == 1
    ensures "count" in config && config["count"].Int? ==> n == WrapToInt32(config["count"].i)
    ensures "count" in config && config["count"].Int? && -0x8000_0000 <= config["count"].i < 0x8000_0000 ==> n == config["count"].i
  {
    GetInt(config, "count", 1)
  }

  /** `rarityCounts.getOrDefault(rarity, 0)`. */
  function RarityCount(counts: map<RarityKey, nat>, rarity: RarityKey): nat {
    if rarity in counts then counts[rarity] else 0
  }

  /** `rarityCounts.merge(rarity, 1, Integer::sum)`: the rarity's count
      goes up by one. A default rarity is a new key that no later lookup
      finds, so its count stays 0. */
  function Bump(counts: map<RarityKey, nat>, rarity: RarityKey): (r: map<RarityKey, nat>)
    ensures !rarity.DefaultRarity? ==> RarityCount(r, rarity) == RarityCount(counts, rarity) + 1
    ensures forall other :: other != rarity || other.DefaultRarity? ==> RarityCount(r, other) == RarityCount(counts, other)
  {
    if rarity.DefaultRarity? then counts else counts[rarity := RarityCount(counts, rarity) + 1]
  }

  /** `hasNotReachedRarityCount`: a negative max means no cap; otherwise
      the count of this very rarity object must be under its max. */
  predicate HasNotReachedRarityCount(e: Entry, rarities: map<string, Config>, counts: map<RarityKey, nat>) {
    var rarity := RarityOf(e.config, rarities);
    Rarities.Max(rarity) < 0 || RarityCount(counts, RarityKeyOf(e, rarities)) < Rarities.Max(rarity)
  }

  predicate Droppable(e: Entry, rarities: map<string, Config>, counts: map<RarityKey, nat>) {
    !e.excludeFromRandom && Enabled(e.config) && HasNotReachedRarityCount(e, rarities, counts)
  }

  /** The entries a draw can hit: the droppable contents, in order. */
  function Candidates(contents: seq<Entry>, rarities: map<string, Config>, counts: map<RarityKey, nat>): (cs: seq<Entry>)
    ensures |cs| <= |contents|
    ensures forall e :: e in cs <==> e in contents && Droppable(e, rarities, counts)
  {
    if contents == [] then []
    else
      var rest := Candidates(contents[1..], rarities, counts);
      assert forall e :: e in contents <==> e == contents[0] || e in contents[1..];
      if Droppable(contents[0], rarities, counts) then [contents[0]] + rest else rest
  }

  function Weights(cs: seq<Entry>, rarities: map<string, Config>): (ws: seq<real>)
    ensures |ws| == |cs|
    ensures forall i :: 0 <= i < |cs| ==> ws[i] == Chance(cs[i].config, rarities)
  {
    seq(|cs|, i requires 0 <= i < |cs| => Chance(cs[i].config, rarities))
  }

  /** The sum of the first `i` weights. */
  function PrefixSum(ws: seq<real>, i: nat): real
    requires i <= |ws|
  {
    if i == 0 then 0.0 else PrefixSum(ws, i - 1) + ws[i - 1]
  }

  function Total(ws: seq<real>): real {
    PrefixSum(ws, |ws|)
  }

  /** The roulette loop from position `i` with running sum `running`: the
      first position whose running sum exceeds the hit wins. */
  function PickFrom(ws: seq<real>, hit: real, i: nat, running: real): (r: Option<nat>)
    requires i <= |ws|
    ensures r.Some? ==> i <= r.value < |ws|
    decreases |ws| - i
  {
    if i == |ws| then None
    else if hit < running + ws[i] then Some(i)
    else PickFrom(ws, hit, i + 1, running + ws[i])
  }

  function Pick(ws: seq<real>, hit: real): (r: Option<nat>)
    ensures r.Some? ==> r.value < |ws|
  {
    PickFrom(ws, hit, 0, 0.0)
  }

  predicate NonNegative(ws: seq<real>) {
    forall i :: 0 <= i < |ws| ==> ws[i] >= 0.0
  }

  lemma {:induction false} PrefixSumMonotone(ws: seq<real>, i: nat, j: nat)
    requires NonNegative(ws) && i <= j <= |ws|
    ensures PrefixSum(ws, i) <= PrefixSum(ws, j)
    decreases j - i
  {
    if i < j {
      PrefixSumMonotone(ws, i, j - 1);
    }
  }

  lemma {:induction false} PickFromInterval(ws: seq<real>, hit: real, i: nat, k: nat)
    requires NonNegative(ws) && i <= k < |ws| && PrefixSum(ws, i) <= hit
    ensures PickFrom(ws, hit, i, PrefixSum(ws, i)) == Some(k) <==> PrefixSum(ws, k) <= hit < PrefixSum(ws, k + 1)
    decreases |ws| - i
  {
    if hit < PrefixSum(ws, i + 1) {
      if k > i {
        PrefixSumMonotone(ws, i + 1, k);
      }
    } else if k > i {
      PickFromInterval(ws, hit, i + 1, k);
    }
  }

  lemma {:induction false} PickFromNone(ws: seq<real>, hit: real, i: nat)
    requires NonNegative(ws) && i <= |ws| && PrefixSum(ws, i) <= hit
    ensures PickFrom(ws, hit, i, PrefixSum(ws, i)).None? <==> Total(ws) <= hit
    decreases |ws| - i
  {
    if i < |ws| {
      if hit < PrefixSum(ws, i + 1) {
        PrefixSumMonotone(ws, i + 1, |ws|);
      } else {
        PickFromNone(ws, hit, i + 1);
      }
    }
  }

  /** Roulette selection over non-negative weights: the hits that select
      position `k` are exactly those in `[PrefixSum(k), PrefixSum(k+1))`,
      an interval as long as the weight of `k`; a hit at or beyond the
      total selects nothing. */
  lemma RouletteIntervals(ws: seq<real>, hit: real)
    requires NonNegative(ws) && 0.0 <= hit
    ensures forall k :: 0 <= k < |ws| ==>
      (Pick(ws, hit) == Some(k) <==> PrefixSum(ws, k) <= hit < PrefixSum(ws, k + 1))
    ensures forall k :: 0 <= k < |ws| ==> PrefixSum(ws, k + 1) - PrefixSum(ws, k) == ws[k]
    ensures Pick(ws, hit).None? <==> Total(ws) <= hit
  {
    forall k | 0 <= k < |ws|
      ensures Pick(ws, hit) == Some(k) <==> PrefixSum(ws, k) <= hit < PrefixSum(ws, k + 1)
    {
      PickFromInterval(ws, hit, 0, k);
    }
    PickFromNone(ws, hit, 0);
  }

  /** The boundary is strict: with weights 3 and 7 a hit of exactly 3
      selects the second entry and a hit just below it the first. */
  lemma RouletteBoundary()
    ensures Pick([3.0, 7.0], 3.0) == Some(1)
    ensures Pick([3.0, 7.0], 2.999) == Some(0)
    ensures Pick([3.0, 7.0], 10.0).None?
  {
  }

  predicate AllRewards(es: seq<Entry>) {
    forall i :: 0 <= i < |es| ==> es[i].Reward?
  }

  /** The uniqueness bookkeeping: every unique entry of the result is
      recorded as dropped, and no two unique entries of the result are the
      same object. */
  predicate UniqueOnce(s: Roll) {
    && (forall i :: 0 <= i < |s.result| && Unique(s.result[i].config) ==> s.result[i].id in s.uniqueDrops)
    && (forall i, j :: 0 <= i < j < |s.result| && Unique(s.result[i].config) && Unique(s.result[j].config) ==>
          s.result[i].id != s.result[j].id)
  }

  /** What every step does to the state: the result, the dropped set, the
      random draws and the hooks only grow. */
  predicate Grows(s: Roll, r: Roll) {
    && s.result <= r.result
    && s.uniqueDrops <= r.uniqueDrops
    && s.drawn <= r.drawn
    && s.trace <= r.trace
  }

  function Ids(es: seq<Entry>): (ids: seq<Id>)
    ensures |ids| == |es| && forall i :: 0 <= i < |es| ==> ids[i] == es[i].id
  {
    seq(|es|, i requires 0 <= i < |es| => es[i].id)
  }

  function PreEvents(contents: seq<Entry>): (events: seq<Event>)
    ensures |events| == |contents|
    ensures forall i :: 0 <= i < |contents| ==> events[i] == PreEvaluation(contents[i].id)
  {
    seq(|contents|, i requires 0 <= i < |contents| => PreEvaluation(contents[i].id))
  }

  function PostEvents(result: seq<Entry>): (events: seq<Event>)
    ensures |events| == |result|
    ensures forall i :: 0 <= i < |result| ==> events[i] == PostEvaluation(result[i].id, Ids(result))
  {
    seq(|result|, i requires 0 <= i < |result| => PostEvaluation(result[i].id, Ids(result)))
  }

  /** The bookkeeping `addToResult` does before it looks at the kind of
      the entry: a unique entry is recorded, the rarity is counted. */
  function Record(rarities: map<string, Config>, s: Roll, e: Entry): (r: Roll)
    ensures r.result == s.result && r.drawn == s.drawn && r.trace == s.trace
    ensures r.uniqueDrops == if Unique(e.config) then s.uniqueDrops + {e.id} else s.uniqueDrops
  {
    s.(uniqueDrops := if Unique(e.config) then s.uniqueDrops + {e.id} else s.uniqueDrops,
       rarityCounts := Bump(s.rarityCounts, RarityKeyOf(e, rarities)))
  }

  /** Appending a reward that is not a unique entry already dropped keeps
      the uniqueness bookkeeping. */
  lemma AppendKeepsUniqueOnce(rarities: map<string, Config>, s: Roll, e: Entry)
    requires !(Unique(e.config) && e.id in s.uniqueDrops)
    ensures var s1 := Record(rarities, s, e); UniqueOnce(s) ==> UniqueOnce(s1.(result := s1.result + [e]))
  {
    if !UniqueOnce(s) { return; }
    var s1 := Record(rarities, s, e);
    var r := s1.(result := s1.result + [e]);
    forall i, j | 0 <= i < j < |r.result| && Unique(r.result[i].config) && Unique(r.result[j].config)
      ensures r.result[i].id != r.result[j].id
    {
      if j == |s.result| {
        assert r.result[i] == s.result[i];
        assert s.result[i].id in s.uniqueDrops;
      }
    }
  }

  /** `addToResult(result, entry)`. */
  function AddToResult(rarities: map<string, Config>, random: Random, s: Roll, e: Entry): (r: Roll)
    ensures r.drawn >= s.drawn
    ensures AllRewards(s.result) ==> AllRewards(r.result)
    decreases Height(e), 0, 0
  {
    if Unique(e.config) && e.id in s.uniqueDrops then s
    else
      var s1 := Record(rarities, s, e);
      match e
      case Table(_, config, _, contents) =>
        var sub := Evaluate(rarities, random, contents, Count(config), s1.drawn);
        FeedBack(rarities, random, s1.(drawn := sub.drawn, trace := s1.trace + sub.trace), sub.result)
      case Reward(_, _, _) =>
        s1.(result := s1.result + [e], trace := s1.trace + [Hit(e.id)])
      case Plain(_, _, _) => s1
  }

  /** The rewards of a nested table's fresh result, each passed through
      `addToResult` in turn. */
  function FeedBack(rarities: map<string, Config>, random: Random, s: Roll, rewards: seq<Entry>): (r: Roll)
    requires AllRewards(rewards)
    ensures r.drawn == s.drawn
    ensures AllRewards(s.result) ==> AllRewards(r.result)
    decreases 0, 1, |rewards|
  {
    if rewards == [] then s
    else FeedBack(rarities, random, AddToResult(rarities, random, s, rewards[0]), rewards[1..])
  }

  /** The pass over the enabled "always" entries, from position `i`. */
  function AlwaysPass(rarities: map<string, Config>, random: Random, contents: seq<Entry>, i: nat, s: Roll): (r: Roll)
    requires i <= |contents|
    ensures r.drawn >= s.drawn
    ensures AllRewards(s.result) ==> AllRewards(r.result)
    decreases MaxHeight(contents), 1, |contents| - i
  {
    if i == |contents| then s
    else
      var e := contents[i];
      var s' := if Enabled(e.config) && Always(e.config) then AddToResult(rarities, random, s, e) else s;
      AlwaysPass(rarities, random, contents, i + 1, s')
  }

  /** One weighted draw: the candidates are taken, a random value up to
      their total weight is drawn, and the winner, if any, is added. */
  function Draw(rarities: map<string, Config>, random: Random, contents: seq<Entry>, s: Roll): (r: Roll)
    ensures r.drawn >= s.drawn + 1
    ensures AllRewards(s.result) ==> AllRewards(r.result)
    decreases MaxHeight(contents), 1, 0
  {
    var cs := Candidates(contents, rarities, s.rarityCounts);
    var ws := Weights(cs, rarities);
    var hit := random(s.drawn, Total(ws));
    var s1 := s.(drawn := s.drawn + 1);
    match Pick(ws, hit)
    case None => s1
    case Some(k) =>
      assert cs[k] in contents;
      AddToResult(rarities, random, s1, cs[k])
  }

  /** `n` weighted draws. */
  function Draws(rarities: map<string, Config>, random: Random, contents: seq<Entry>, s: Roll, n: nat): (r: Roll)
    ensures r.drawn >= s.drawn + n
    ensures AllRewards(s.result) ==> AllRewards(r.result)
    decreases MaxHeight(contents), 2, n
  {
    if n == 0 then s
    else Draws(rarities, random, contents, Draw(rarities, random, contents, s), n - 1)
  }

  /** `rewards(player)` without a cached result: a fresh evaluation of
      `contents` with count `count`, the first random value being the
      `drawn`-th. */
  function Evaluate(rarities: map<string, Config>, random: Random, contents: seq<Entry>, count: int, drawn: nat): (r: Roll)
    ensures AllRewards(r.result)
    ensures r.drawn >= drawn + (if count > 0 then count else 0)
    decreases MaxHeight(contents), 3, 0
  {
    var s0 := Roll([], {}, map[], drawn, PreEvents(contents));
    var s1 := AlwaysPass(rarities, random, contents, 0, s0);
    var s2 := Draws(rarities, random, contents, s1, if count > 0 then count else 0);
    s2.(trace := s2.trace + PostEvents(s2.result))
  }

  // Single unfoldings, for the proofs of the loops that compute them.

  /** A draw whose roulette finds no winner only uses up its random value. */
  lemma DrawNoWinner(rarities: map<string, Config>, random: Random, contents: seq<Entry>, s: Roll)
    requires var ws := Weights(Candidates(contents, rarities, s.rarityCounts), rarities);
      Pick(ws, random(s.drawn, Total(ws))).None?
    ensures Draw(rarities, random, contents, s) == s.(drawn := s.drawn + 1)
  {
  }

  /** A draw whose roulette picks candidate `k` adds that candidate. */
  lemma {:induction false} DrawWinner(rarities: map<string, Config>, random: Random, contents: seq<Entry>, s: Roll, k: nat)
    requires var ws := Weights(Candidates(contents, rarities, s.rarityCounts), rarities);
      Pick(ws, random(s.drawn, Total(ws))) == Some(k)
    ensures k < |Candidates(contents, rarities, s.rarityCounts)|
    ensures Draw(rarities, random, contents, s)
      == AddToResult(rarities, random, s.(drawn := s.drawn + 1), Candidates(contents, rarities, s.rarityCounts)[k])
  {
    var cs := Candidates(contents, rarities, s.rarityCounts);
    var ws := Weights(cs, rarities);
    assert Pick(ws, random(s.drawn, Total(ws))) == Some(k);
    assert Draw(rarities, random, contents, s) == AddToResult(rarities, random, s.(drawn := s.drawn + 1), cs[k]);
  }

  lemma AlwaysPassStep(rarities: map<string, Config>, random: Random, contents: seq<Entry>, i: nat, s: Roll)
    requires i < |contents|
    ensures var e := contents[i];
      AlwaysPass(rarities, random, contents, i, s)
        == AlwaysPass(rarities, random, contents, i + 1, if Enabled(e.config) && Always(e.config) then AddToResult(rarities, random, s, e) else s)
  {
  }

  /** One draw further along a run of draws that ends in `target`. */
  lemma DrawsAdvance(rarities: map<string, Config>, random: Random, contents: seq<Entry>, s: Roll, n: nat, next: Roll, target: Roll)
    requires n > 0 && Draws(rarities, random, contents, s, n) == target
    requires next == Draw(rarities, random, contents, s)
    ensures Draws(rarities, random, contents, next, n - 1) == target
  {
  }

  lemma DrawsStep(rarities: map<string, Config>, random: Random, contents: seq<Entry>, s: Roll, n: nat)
    requires n > 0
    ensures Draws(rarities, random, contents, s, n) == Draws(rarities, random, contents, Draw(rarities, random, contents, s), n - 1)
  {
  }

  lemma AlwaysPassDone(rarities: map<string, Config>, random: Random, contents: seq<Entry>, s: Roll)
    ensures AlwaysPass(rarities, random, contents, |contents|, s) == s
  {
  }

  lemma DrawsDone(rarities: map<string, Config>, random: Random, contents: seq<Entry>, s: Roll)
    ensures Draws(rarities, random, contents, s, 0) == s
  {
  }

  lemma EvaluateSteps(rarities: map<string, Config>, random: Random, contents: seq<Entry>, count: int, drawn: nat)
    ensures var s2 := Draws(rarities, random, contents,
        AlwaysPass(rarities, random, contents, 0, Roll([], {}, map[], drawn, PreEvents(contents))),
        if count > 0 then count else 0);
      Evaluate(rarities, random, contents, count, drawn) == s2.(trace := s2.trace + PostEvents(s2.result))
  {
  }

  lemma FeedBackStep(rarities: map<string, Config>, random: Random, s: Roll, rewards: seq<Entry>)
    requires AllRewards(rewards) && rewards != []
    ensures FeedBack(rarities, random, s, rewards) == FeedBack(rarities, random, AddToResult(rarities, random, s, rewards[0]), rewards[1..])
  {
  }

  lemma TableOutcome(rarities: map<string, Config>, random: Random, s: Roll, e: Entry)
    requires e.Table? && !(Unique(e.config) && e.id in s.uniqueDrops)
    ensures var s1 := Record(rarities, s, e);
      var sub := Evaluate(rarities, random, e.contents, Count(e.config), s1.drawn);
      AddToResult(rarities, random, s, e) == FeedBack(rarities, random, s1.(drawn := sub.drawn, trace := s1.trace + sub.trace), sub.result)
  {
  }

  lemma RewardOutcome(rarities: map<string, Config>, random: Random, s: Roll, e: Entry)
    requires e.Reward? && !(Unique(e.config) && e.id in s.uniqueDrops)
    ensures var s1 := Record(rarities, s, e);
      AddToResult(rarities, random, s, e) == s1.(result := s1.result + [e], trace := s1.trace + [Hit(e.id)])
  {
  }

  lemma PlainOutcome(rarities: map<string, Config>, random: Random, s: Roll, e: Entry)
    requires e.Plain? && !(Unique(e.config) && e.id in s.uniqueDrops)
    ensures AddToResult(rarities, random, s, e) == Record(rarities, s, e)
  {
  }
}
