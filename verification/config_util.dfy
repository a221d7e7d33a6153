/** `util/ConfigUtil`: merging two configurations, deriving a registry
    identifier from a file path, and guessing a reward type from the keys
    a configuration sets. */
module ConfigUtil {
  import opened Wrappers
  import opened Text
  import opened Sections

  const ItemType := "item"
  const CommandType := "command"

  /** What `merge(parent, child)` produces: every key of either config,
      holding the child's value where the child sets it. A nested section
      is taken whole from the child, because the deep key walk re-sets the
      section object itself before its own keys. */
  function Merged(parent: Config, child: Config): (m: Config)
    ensures m.Keys == parent.Keys + child.Keys
    ensures forall k :: k in child ==> m[k] == child[k]
    ensures forall k :: k in parent && k !in child ==> m[k] == parent[k]
  {
    parent + child
  }

  /** `merge(parent, child)`: copies every parent key, then every child
      key, into a fresh configuration; neither input is changed. */
  method Merge(parent: Config, child: Config) returns (config: Config)
    ensures config == Merged(parent, child)
  {
    config := Empty;
    var pending := parent.Keys;
    while pending != {}
      invariant pending <= parent.Keys
      invariant config.Keys == parent.Keys - pending
      invariant forall k :: k in config ==> config[k] == parent[k]
      decreases pending
    {
      var key :| key in pending;
      config := config[key := parent[key]];
      pending := pending - {key};
    }
    pending := child.Keys;
    while pending != {}
      invariant pending <= child.Keys
      invariant config.Keys == parent.Keys + (child.Keys - pending)
      invariant forall k :: k in child && k !in pending ==> config[k] == child[k]
      invariant forall k :: k in parent && (k !in child || k in pending) ==> config[k] == parent[k]
      decreases pending
    {
      var key :| key in pending;
      config := config[key := child[key]];
      pending := pending - {key};
    }
  }

  /** Merging a configuration with itself gives it back. */
  lemma MergeWithSelf(c: Config)
    ensures Merged(c, c) == c
  {
  }

  /** Merging the same child twice changes nothing the second time. */
  lemma MergeIdempotent(parent: Config, child: Config)
    ensures Merged(Merged(parent, child), child) == Merged(parent, child)
  {
  }

  /** `getFileIdentifier` applied to the already relativised path:
      backslashes become slashes, the text is lower-cased, then every
      `.yml` and every `.yaml` is removed. */
  function FileIdentifier(relativePath: string): string
  {
    ReplaceAll(ReplaceAll(ToLower(ReplaceAll(relativePath, "\\", "/")), ".yml", ""), ".yaml", "")
  }

  /** The identifier holds no backslash and no upper-case letter: both
      removals run after lower-casing and only drop characters. */
  lemma FileIdentifierIsNormalised(relativePath: string)
    ensures '\\' !in FileIdentifier(relativePath)
    ensures forall c :: c in FileIdentifier(relativePath) ==> !IsUpper(c)
  {
    var slashed := ReplaceAll(relativePath, "\\", "/");
    NoBackslashAfterReplace(relativePath);
    var lowered := ToLower(slashed);
    assert '\\' !in lowered by {
      forall i | 0 <= i < |lowered| ensures lowered[i] != '\\' {
        assert slashed[i] in slashed;
      }
    }
    assert forall c :: c in lowered ==> !IsUpper(c);
    var noYml := ReplaceAll(lowered, ".yml", "");
    RemoveKeepsOnlyInputChars(lowered, ".yml");
    RemoveKeepsOnlyInputChars(noYml, ".yaml");
  }

  lemma {:induction false} NoBackslashAfterReplace(s: string)
    ensures '\\' !in ReplaceAll(s, "\\", "/")
    decreases |s|
  {
    if |s| >= 1 {
      NoBackslashAfterReplace(s[1..]);
      if s[..1] != "\\" {
        assert s[0] != '\\';
      }
    }
  }

  /** `A/B.YML` names the table `a/b`. */
  lemma FileIdentifierExample()
    ensures FileIdentifier("A/B.YML") == "a/b"
  {
    SlashesKept();
    var lowered := ToLower("A/B.YML");
    assert |lowered| == 7;
    assert lowered[0] == 'a' && lowered[1] == '/' && lowered[2] == 'b' && lowered[3] == '.';
    assert lowered[4] == 'y' && lowered[5] == 'm' && lowered[6] == 'l';
    assert lowered == "a/b.yml";
    YmlRemoved();
    YamlAbsent();
    assert FileIdentifier("A/B.YML") == ReplaceAll(ReplaceAll(lowered, ".yml", ""), ".yaml", "");
  }

  lemma SlashesKept()
    ensures ReplaceAll("A/B.YML", "\\", "/") == "A/B.YML"
  {
    forall i | 0 <= i <= |"A/B.YML"| ensures !OccursAt("A/B.YML", "\\", i) {
      if i < |"A/B.YML"| {
        assert "A/B.YML"[i] != '\\';
      }
    }
    ReplaceWithoutOccurrence("A/B.YML", "\\", "/");
  }

  lemma YmlRemoved()
    ensures ReplaceAll("a/b.yml", ".yml", "") == "a/b"
  {
    var s := "a/b.yml";
    assert s[..4][0] != ".yml"[0];
    assert s[1..][..4][0] != ".yml"[0];
    assert s[2..][..4][0] != ".yml"[0];
    assert s[3..][..4] == ".yml";
    assert ReplaceAll(s[7..], ".yml", "") == "";
  }

  lemma YamlAbsent()
    ensures ReplaceAll("a/b", ".yaml", "") == "a/b"
  {
  }

  /** `guessType`: no configuration gives nothing; an `item` key gives
      the item type, before a `command` key gives the command type. */
  function GuessType(config: Option<Config>): (r: Option<string>)
    ensures config.None? ==> r.None?
    ensures config.Some? && IsSet(config.value, "item") ==> r == Some(ItemType)
    ensures config.Some? && !IsSet(config.value, "item") && IsSet(config.value, "command") ==> r == Some(CommandType)
    ensures config.Some? && !IsSet(config.value, "item") && !IsSet(config.value, "command") ==> r.None?
  {
    match config
    case None => None
    case Some(c) =>
      if IsSet(c, "item") then Some(ItemType)
      else if IsSet(c, "command") then Some(CommandType)
      else None
  }
}
