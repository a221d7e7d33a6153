/** `RewardTypeResolver`: an explicit `type` key names the reward type;
    otherwise the registered resolvers are asked in order and the first
    non-empty answer wins. */
module RewardTypeResolver {
  import opened Wrappers
  import opened Text
  import opened Sections
  import ConfigUtil

  /** A resolver answers a type name, or `None` for Java's `null`. */
  type Resolver = Config -> Option<string>

  function ItemResolver(config: Config): Option<string> {
    if IsSet(config, "item") then Some(ConfigUtil.ItemType) else None
  }

  function CommandResolver(config: Config): Option<string> {
    if IsSet(config, "command") then Some(ConfigUtil.CommandType) else None
  }

  /** The built-in resolvers, in registration order. */
  const BuiltInResolvers: seq<Resolver> := [ItemResolver, CommandResolver]

  /** Resolver `i` answers `answer`, and every resolver before it answers
      nothing. */
  predicate FirstAnswerAt(resolvers: seq<Resolver>, config: Config, i: int, answer: Option<string>) {
    && 0 <= i < |resolvers|
    && resolvers[i](config) == answer
    && forall j :: 0 <= j < i ==> IsNullOrEmpty(resolvers[j](config))
  }

  /** The first non-empty answer of `resolvers` for `config`. */
  function FirstAnswer(resolvers: seq<Resolver>, config: Config): (r: Option<string>)
    ensures r.Some? ==> r.value != "" && exists i :: FirstAnswerAt(resolvers, config, i, r)
    ensures r.None? <==> forall i :: 0 <= i < |resolvers| ==> IsNullOrEmpty(resolvers[i](config))
  {
    if resolvers == [] then None
    else
      var answer := resolvers[0](config);
      if !IsNullOrEmpty(answer) then
        assert FirstAnswerAt(resolvers, config, 0, answer);
        answer
      else
        var rest := FirstAnswer(resolvers[1..], config);
        assert forall i :: 1 <= i < |resolvers| ==> resolvers[i] == resolvers[1..][i - 1];
        assert rest.Some? ==> exists i :: FirstAnswerAt(resolvers, config, i, rest)
          by {
            if rest.Some? {
              var i :| FirstAnswerAt(resolvers[1..], config, i, rest);
              assert resolvers[i + 1] == resolvers[1..][i];
              assert FirstAnswerAt(resolvers, config, i + 1, rest);
            }
          }
        rest
  }

  /** `resolveType(config)` with the built-in resolvers. */
  function ResolveType(config: Option<Config>): Option<string> {
    match config
    case None => None
    case Some(c) =>
      if IsSet(c, "type") then GetString(c, "type")
      else FirstAnswer(BuiltInResolvers, c)
  }

  /** An explicit `type` is returned as it is, even beside `item`. */
  lemma ExplicitTypeWins(c: Config, t: string)
    requires "type" in c && c["type"] == Str(t)
    ensures ResolveType(Some(c)) == Some(t)
  {
  }

  /** An `item` key is recognised before a `command` key. */
  lemma ItemBeforeCommand(c: Config)
    requires !IsSet(c, "type") && IsSet(c, "item")
    ensures ResolveType(Some(c)) == Some(ConfigUtil.ItemType)
  {
  }

  /** Without an explicit `type`, the resolver list says exactly what
      `guessType` says. */
  lemma {:induction false} AgreesWithGuessType(c: Config)
    requires !IsSet(c, "type")
    ensures ResolveType(Some(c)) == ConfigUtil.GuessType(Some(c))
  {
    var rs := BuiltInResolvers;
    assert rs[1..] == [CommandResolver];
    assert rs[1..][1..] == [];
    assert FirstAnswer(rs[1..], c) == CommandResolver(c);
    assert FirstAnswer(rs, c) == if IsSet(c, "item") then Some(ConfigUtil.ItemType) else CommandResolver(c);
  }

  /** No configuration, or one with none of the keys, resolves to nothing. */
  lemma NothingToResolve(c: Config)
    requires !IsSet(c, "type") && !IsSet(c, "item") && !IsSet(c, "command")
    ensures ResolveType(Some(c)).None?
    ensures ResolveType(None).None?
  {
    AgreesWithGuessType(c);
  }
}
