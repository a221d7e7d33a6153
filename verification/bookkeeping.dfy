/** What every step of an evaluation keeps: the result, the dropped
    unique entries, the random values taken and the hooks fired only grow,
    and the uniqueness bookkeeping stays right (a unique entry is in the
    result at most once, and is recorded as dropped). */
module Bookkeeping {
  import opened Sections
  import opened LootObjects
  import opened Evaluation

  predicate Keeps(s: Roll, r: Roll) {
    Grows(s, r) && (UniqueOnce(s) ==> UniqueOnce(r))
  }

  lemma KeepsTrans(a: Roll, b: Roll, c: Roll)
    requires Keeps(a, b) && Keeps(b, c)
    ensures Keeps(a, c)
  {
  }

  /** The bookkeeping of `addToResult` before it looks at the kind. */
  lemma RecordKeeps(rarities: map<string, Config>, s: Roll, e: Entry)
    ensures Keeps(s, Record(rarities, s, e))
  {
  }

  /** Taking random values and firing hooks changes no result. */
  lemma ExtendKeeps(s: Roll, drawn: nat, trace: seq<Event>)
    requires s.drawn <= drawn
    ensures Keeps(s, s.(drawn := drawn, trace := s.trace + trace))
  {
  }

  lemma SkipKeeps(s: Roll)
    ensures Keeps(s, s.(drawn := s.drawn + 1))
  {
  }

  /** `addToResult` keeps the bookkeeping, nested tables included. */
  lemma {:induction false} AddToResultKeeps(rarities: map<string, Config>, random: Random, s: Roll, e: Entry)
    ensures Keeps(s, AddToResult(rarities, random, s, e))
    decreases Height(e), 0, 0
  {
    if Unique(e.config) && e.id in s.uniqueDrops {
      assert AddToResult(rarities, random, s, e) == s;
    } else {
      var s1 := Record(rarities, s, e);
      RecordKeeps(rarities, s, e);
      match e
      case Table(_, config, _, contents) =>
        var sub := Evaluate(rarities, random, contents, Count(config), s1.drawn);
        var s2 := s1.(drawn := sub.drawn, trace := s1.trace + sub.trace);
        TableOutcome(rarities, random, s, e);
        ExtendKeeps(s1, sub.drawn, sub.trace);
        KeepsTrans(s, s1, s2);
        FeedBackKeeps(rarities, random, s2, sub.result);
        KeepsTrans(s, s2, FeedBack(rarities, random, s2, sub.result));
      case Reward(_, _, _) =>
        RewardOutcome(rarities, random, s, e);
        AppendKeepsUniqueOnce(rarities, s, e);
      case Plain(_, _, _) =>
        PlainOutcome(rarities, random, s, e);
    }
  }

  /** Feeding a nested result back reward by reward keeps it too. */
  lemma {:induction false} FeedBackKeeps(rarities: map<string, Config>, random: Random, s: Roll, rewards: seq<Entry>)
    requires AllRewards(rewards)
    ensures Keeps(s, FeedBack(rarities, random, s, rewards))
    decreases 0, 1, |rewards|
  {
    if rewards != [] {
      assert rewards[0].Reward?;
      var next := AddToResult(rarities, random, s, rewards[0]);
      FeedBackStep(rarities, random, s, rewards);
      AddToResultKeeps(rarities, random, s, rewards[0]);
      assert AllRewards(rewards[1..]);
      FeedBackKeeps(rarities, random, next, rewards[1..]);
      KeepsTrans(s, next, FeedBack(rarities, random, next, rewards[1..]));
    }
  }

  lemma {:induction false} AlwaysPassKeeps(rarities: map<string, Config>, random: Random, contents: seq<Entry>, i: nat, s: Roll)
    requires i <= |contents|
    ensures Keeps(s, AlwaysPass(rarities, random, contents, i, s))
    decreases |contents| - i
  {
    if i == |contents| {
      AlwaysPassDone(rarities, random, contents, s);
    } else {
      var e := contents[i];
      AlwaysPassStep(rarities, random, contents, i, s);
      var next := if Enabled(e.config) && Always(e.config) then AddToResult(rarities, random, s, e) else s;
      if Enabled(e.config) && Always(e.config) {
        AddToResultKeeps(rarities, random, s, e);
      }
      AlwaysPassKeeps(rarities, random, contents, i + 1, next);
      KeepsTrans(s, next, AlwaysPass(rarities, random, contents, i + 1, next));
    }
  }

  lemma {:induction false} DrawKeeps(rarities: map<string, Config>, random: Random, contents: seq<Entry>, s: Roll)
    ensures Keeps(s, Draw(rarities, random, contents, s))
  {
    var cs := Candidates(contents, rarities, s.rarityCounts);
    var ws := Weights(cs, rarities);
    var s1 := s.(drawn := s.drawn + 1);
    SkipKeeps(s);
    match Pick(ws, random(s.drawn, Total(ws)))
    case None =>
      DrawNoWinner(rarities, random, contents, s);
    case Some(k) =>
      DrawWinner(rarities, random, contents, s, k);
      AddToResultKeeps(rarities, random, s1, cs[k]);
      KeepsTrans(s, s1, AddToResult(rarities, random, s1, cs[k]));
  }

  lemma {:induction false} DrawsKeeps(rarities: map<string, Config>, random: Random, contents: seq<Entry>, s: Roll, n: nat)
    ensures Keeps(s, Draws(rarities, random, contents, s, n))
    decreases n
  {
    if n == 0 {
      DrawsDone(rarities, random, contents, s);
    } else {
      var next := Draw(rarities, random, contents, s);
      var last := Draws(rarities, random, contents, next, n - 1);
      assert Keeps(s, last) by {
        DrawKeeps(rarities, random, contents, s);
        DrawsKeeps(rarities, random, contents, next, n - 1);
        KeepsTrans(s, next, last);
      }
      DrawsStep(rarities, random, contents, s, n);
    }
  }

  /** One evaluation of a table: no unique entry is in the result twice,
      every unique entry of the result is recorded as dropped, the
      pre-evaluation hooks come first, one per entry, and the
      post-evaluation hooks come last, one per reward of the result. */
  lemma {:induction false} EvaluateBookkeeping(rarities: map<string, Config>, random: Random, contents: seq<Entry>, count: int, drawn: nat)
    ensures var r := Evaluate(rarities, random, contents, count, drawn);
      && UniqueOnce(r)
      && PreEvents(contents) <= r.trace
      && |r.result| <= |r.trace|
      && r.trace[|r.trace| - |r.result|..] == PostEvents(r.result)
  {
    var s0 := Roll([], {}, map[], drawn, PreEvents(contents));
    var s1 := AlwaysPass(rarities, random, contents, 0, s0);
    var s2 := Draws(rarities, random, contents, s1, if count > 0 then count else 0);
    EvaluateSteps(rarities, random, contents, count, drawn);
    AlwaysPassKeeps(rarities, random, contents, 0, s0);
    DrawsKeeps(rarities, random, contents, s1, if count > 0 then count else 0);
    KeepsTrans(s0, s1, s2);
    SuffixOfAppend(s2.trace, PostEvents(s2.result));
  }

  lemma SuffixOfAppend<T>(a: seq<T>, b: seq<T>)
    ensures a <= a + b && (a + b)[|a + b| - |b|..] == b
  {
  }
}
