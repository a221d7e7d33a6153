/** `LootResult`: the immutable record a loot produces, its builder, and
    the delivery of its rewards to a player. */
module LootResults {
  import opened Wrappers
  import opened Registry
  import opened LootObjects

  datatype Player = Player(name: string)

  /** `source` is the table that was looted, `player` the looting player
      (`None` for Java's `null`), `rewards` the rewards in result order. */
  datatype LootResult = LootResult(source: Id, player: Option<Player>, rewards: seq<Entry>)

  /** `reward.addTo(player)`, as an event. */
  datatype Delivery = Delivery(reward: Id, player: Player)

  /** `builder(source)`: that source, no player, no rewards yet. */
  function Builder(source: Id): (r: LootResult)
    ensures r.source == source && r.player.None? && r.rewards == []
  {
    LootResult(source, None, [])
  }

  /** `withRewards`: a copy that differs in the rewards only. */
  function WithRewards(r: LootResult, rewards: seq<Entry>): (s: LootResult)
    ensures s.source == r.source && s.player == r.player && s.rewards == rewards
    ensures rewards == r.rewards ==> s == r
  {
    r.(rewards := rewards)
  }

  /** `asDisplayItems()`: one display item per reward, in result order. */
  function AsDisplayItems(r: LootResult, toDisplayItem: Entry -> Icon): (items: seq<Icon>)
    ensures |items| == |r.rewards|
    ensures forall i :: 0 <= i < |items| ==> items[i] == toDisplayItem(r.rewards[i])
  {
    seq(|r.rewards|, i requires 0 <= i < |r.rewards| => toDisplayItem(r.rewards[i]))
  }

  /** `addTo(player)`: every reward is delivered to `player` exactly once,
      in result order. */
  method AddTo(r: LootResult, player: Player) returns (deliveries: seq<Delivery>)
    ensures |deliveries| == |r.rewards|
    ensures forall i :: 0 <= i < |deliveries| ==> deliveries[i] == Delivery(r.rewards[i].id, player)
  {
    deliveries := [];
    for i := 0 to |r.rewards|
      invariant |deliveries| == i
      invariant forall j :: 0 <= j < i ==> deliveries[j] == Delivery(r.rewards[j].id, player)
    {
      deliveries := deliveries + [Delivery(r.rewards[i].id, player)];
    }
  }

  /** `addToPlayer()`: nothing without a player, otherwise `addTo` of
      the looting player. */
  method AddToPlayer(r: LootResult) returns (deliveries: seq<Delivery>)
    ensures r.player.None? ==> deliveries == []
    ensures r.player.Some? ==> |deliveries| == |r.rewards|
    ensures r.player.Some? ==> forall i :: 0 <= i < |deliveries| ==> deliveries[i] == Delivery(r.rewards[i].id, r.player.value)
  {
    deliveries := [];
    if r.player.Some? {
      deliveries := AddTo(r, r.player.value);
    }
  }
}
