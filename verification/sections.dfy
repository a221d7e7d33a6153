/** The part of Bukkit's `ConfigurationSection` the core uses.
    A section is a map from keys to values; a nested section is itself a
    value, so `config.getConfigurationSection("with")` is a lookup.
    The getters follow `MemorySection`: a typed getter returns its default
    when the key is missing or holds a value of another kind. */
module Sections {
  import opened Wrappers

  datatype Value =
    | Str(s: string)
    | Real(r: real)
    | Int(i: int)
    | Bool(b: bool)
    | StrList(lines: seq<string>)     // a java.util.List of strings
    | StrArray(items: seq<string>)    // a String[] stored by a varargs setter
    | List(elems: seq<Value>)         // a list of arbitrary values (e.g. of sections)
    | Section(id: SectionId, entries: map<string, Value>)

  /** The identity of a section object. Sections do not define their own
      equality, so two are the same only when they are the same object;
      distinct section objects carry distinct ids. A value copied from one
      configuration into another keeps its section, and so its id. */
  type SectionId = nat

  type Config = map<string, Value>

  /** The largest number of a finite set, 0 for the empty set. */
  ghost function MaxOf(xs: set<nat>): (r: nat)
    ensures forall x :: x in xs ==> x <= r
    decreases xs
  {
    if xs == {} then 0
    else
      var x :| x in xs;
      var m := MaxOf(xs - {x});
      assert forall y :: y in xs ==> y == x || y in xs - {x};
      if x < m then m else x
  }

  /** How deeply sections and lists nest in a value; a measure for the
      loaders that walk nested sections. */
  ghost function Depth(v: Value): (r: nat)
    ensures v.Section? ==> forall k :: k in v.entries ==> Depth(v.entries[k]) < r
    ensures v.List? ==> forall i :: 0 <= i < |v.elems| ==> Depth(v.elems[i]) < r
  {
    match v
    case Section(_, entries) =>
      var ds := set k | k in entries :: Depth(entries[k]);
      assert forall k :: k in entries ==> Depth(entries[k]) in ds;
      1 + MaxOf(ds)
    case List(elems) =>
      var ds := set i | 0 <= i < |elems| :: Depth(elems[i]);
      assert forall i :: 0 <= i < |elems| ==> Depth(elems[i]) in ds;
      1 + MaxOf(ds)
    case _ => 0
  }

  /** How deeply sections and lists nest in the values of a configuration. */
  ghost function ConfigDepth(c: Config): (r: nat)
    ensures forall k :: k in c ==> Depth(c[k]) <= r
  {
    var ds := set k | k in c :: Depth(c[k]);
    assert forall k :: k in c ==> Depth(c[k]) in ds;
    MaxOf(ds)
  }

  /** A section is one level deeper than its contents. */
  lemma SectionDepth(v: Value)
    requires v.Section?
    ensures Depth(v) == 1 + ConfigDepth(v.entries)
  {
  }

  /** The empty `MemoryConfiguration`. */
  const Empty: Config := map[]

  /** `isSet(path)` on a configuration without defaults. */
  predicate IsSet(c: Config, key: string) {
    key in c
  }

  predicate IsString(c: Config, key: string) {
    key in c && c[key].Str?
  }

  predicate IsSection(c: Config, key: string) {
    key in c && c[key].Section?
  }

  /** `getString(path)`: `None` plays Java's `null`. */
  function GetString(c: Config, key: string): (r: Option<string>)
    ensures r.Some? <==> IsString(c, key)
    ensures r.Some? ==> c[key] == Str(r.value)
  {
    if IsString(c, key) then Some(c[key].s) else None
  }

  /** `getString(path, def)`. */
  function GetStringOr(c: Config, key: string, def: string): (r: string)
    ensures IsString(c, key) ==> c[key] == Str(r)
    ensures !IsString(c, key) ==> r == def
  {
    GetString(c, key).GetOr(def)
  }

  /** `getBoolean(path, def)`. */
  function GetBoolean(c: Config, key: string, def: bool): (r: bool)
    ensures key in c && c[key].Bool? ==> r == c[key].b
    ensures !(key in c && c[key].Bool?) ==> r == def
  {
    if key in c && c[key].Bool? then c[key].b else def
  }

  /** `getDouble(path, def)`: any number is widened to a double. */
  function GetDouble(c: Config, key: string, def: real): (r: real)
    ensures key in c && c[key].Real? ==> r == c[key].r
    ensures key in c && c[key].Int? ==> r == c[key].i as real
    ensures !(key in c && (c[key].Real? || c[key].Int?)) ==> r == def
  {
    if key in c && c[key].Real? then c[key].r
    else if key in c && c[key].Int? then c[key].i as real
    else def
  }

  /** The values of a Java `int`. */
  type Int32 = x: int | -0x8000_0000 <= x < 0x8000_0000

  /** `intValue()` of a whole number: YAML reads a number beyond 32 bits
      as a `Long` or a `BigInteger`, and `intValue()` keeps its low 32
      bits, as a two's-complement `int`. */
  function WrapToInt32(i: int): (r: Int32)
    ensures (r - i) % 0x1_0000_0000 == 0
    ensures -0x8000_0000 <= i < 0x8000_0000 ==> r == i
  {
    (i + 0x8000_0000) % 0x1_0000_0000 - 0x8000_0000
  }

  /** Java's `(int) d` for a double: rounds toward zero. */
  function TruncateTowardZero(d: real): (r: int)
    ensures 0.0 <= d ==> r as real <= d < r as real + 1.0
    ensures d < 0.0 ==> r as real - 1.0 < d <= r as real
  {
    if d >= 0.0 then d.Floor else -((-d).Floor)
  }

  /** `intValue()` of a double, Java's `(int) d`: rounds toward zero and
      saturates at the bounds of `int`. */
  function DoubleToInt32(d: real): (r: Int32)
    ensures -0x8000_0000 <= TruncateTowardZero(d) < 0x8000_0000 ==> r == TruncateTowardZero(d)
    ensures TruncateTowardZero(d) >= 0x8000_0000 ==> r == 0x7fff_ffff
    ensures TruncateTowardZero(d) < -0x8000_0000 ==> r == -0x8000_0000
  {
    var t := TruncateTowardZero(d);
    if t >= 0x8000_0000 then 0x7fff_ffff
    else if t < -0x8000_0000 then -0x8000_0000
    else t
  }

  /** `getInt(path, def)`: any number is converted by `intValue()`. */
  function GetInt(c: Config, key: string, def: Int32): (r: Int32)
    ensures key in c && c[key].Int? ==> r == WrapToInt32(c[key].i)
    ensures key in c && c[key].Real? ==> r == DoubleToInt32(c[key].r)
    ensures !(key in c && (c[key].Real? || c[key].Int?)) ==> r == def
  {
    if key in c && c[key].Int? then WrapToInt32(c[key].i)
    else if key in c && c[key].Real? then DoubleToInt32(c[key].r)
    else def
  }

  /** A count beyond the range of `int` reads as a negative number: three
      billion reads as -1294967296. */
  lemma LargeIntWraps()
    ensures GetInt(map["count" := Int(3_000_000_000)], "count", 1) == -1_294_967_296
  {
  }

  /** `getConfigurationSection(path)`. */
  function GetSection(c: Config, key: string): (r: Option<Config>)
    ensures r.Some? <==> IsSection(c, key)
    ensures r.Some? ==> c[key].entries == r.value
  {
    if IsSection(c, key) then Some(c[key].entries) else None
  }

  /** `getStringList(path)`: only a `java.util.List` is read; anything
      else, a `String[]` included, gives the empty list. */
  function GetStringList(c: Config, key: string): (r: seq<string>)
    ensures key in c && c[key].StrList? ==> r == c[key].lines
    ensures !(key in c && c[key].StrList?) ==> r == []
  {
    if key in c && c[key].StrList? then c[key].lines else []
  }

  /** `getList(path, def)` with an empty default list: a list of strings
      is a list too, its elements read back as strings. */
  function GetList(c: Config, key: string): (r: seq<Value>)
    ensures key in c && c[key].List? ==> r == c[key].elems
    ensures key in c && c[key].StrList? ==> |r| == |c[key].lines| && forall i :: 0 <= i < |r| ==> r[i] == Str(c[key].lines[i])
    ensures !(key in c && (c[key].List? || c[key].StrList?)) ==> r == []
  {
    if key in c && c[key].List? then c[key].elems
    else if key in c && c[key].StrList? then seq(|c[key].lines|, i requires 0 <= i < |c[key].lines| => Str(c[key].lines[i]))
    else []
  }
}
