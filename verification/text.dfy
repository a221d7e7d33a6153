/** The few `java.lang.String` operations the core relies on:
    `toLowerCase`, `replace(CharSequence, CharSequence)` and
    Guava's `Strings.isNullOrEmpty`. */
module Text {
  import opened Wrappers

  /** ASCII upper-case letters. */
  predicate IsUpper(c: char) {
    'A' <= c <= 'Z'
  }

  function LowerChar(c: char): (r: char)
    ensures !IsUpper(r)
    ensures !IsUpper(c) ==> r == c
  {
    if IsUpper(c) then (c as int + 32) as char else c
  }

  /** `String.toLowerCase`, restricted to ASCII letters. */
  function ToLower(s: string): (r: string)
    ensures |r| == |s|
    ensures forall i :: 0 <= i < |s| ==> r[i] == LowerChar(s[i])
  {
    seq(|s|, i requires 0 <= i < |s| => LowerChar(s[i]))
  }

  /** A string without upper-case letters is its own lower case. */
  lemma ToLowerOfLower(s: string)
    requires forall i :: 0 <= i < |s| ==> !IsUpper(s[i])
    ensures ToLower(s) == s
  {
    assert forall i :: 0 <= i < |s| ==> ToLower(s)[i] == s[i];
  }

  /** Lower-casing twice is lower-casing once. */
  lemma ToLowerIdempotent(s: string)
    ensures ToLower(ToLower(s)) == ToLower(s)
  {
    var once := ToLower(s);
    assert forall i :: 0 <= i < |once| ==> LowerChar(once[i]) == once[i];
  }

  /** `Strings.isNullOrEmpty`; a Java `null` string is `None`. */
  predicate IsNullOrEmpty(s: Option<string>) {
    s.None? || s.value == ""
  }

  /** Does `target` occur in `s` at position `i`? */
  predicate OccursAt(s: string, target: string, i: nat) {
    i + |target| <= |s| && s[i..i + |target|] == target
  }

  /** `s.replace(target, repl)`: every occurrence of `target`, scanning
      from the left and never overlapping, is replaced by `repl`. */
  function ReplaceAll(s: string, target: string, repl: string): string
    requires target != []
    decreases |s|
  {
    if |s| < |target| then s
    else if s[..|target|] == target then repl + ReplaceAll(s[|target|..], target, repl)
    else [s[0]] + ReplaceAll(s[1..], target, repl)
  }

  /** Removing a pattern only drops characters: every character of the
      result was a character of the input. */
  lemma {:induction false} RemoveKeepsOnlyInputChars(s: string, target: string)
    requires target != []
    ensures forall c :: c in ReplaceAll(s, target, "") ==> c in s
    decreases |s|
  {
    if |s| < |target| {
    } else if s[..|target|] == target {
      RemoveKeepsOnlyInputChars(s[|target|..], target);
      forall c | c in ReplaceAll(s, target, "") ensures c in s {
        assert c in ReplaceAll(s[|target|..], target, "");
        assert c in s[|target|..];
      }
    } else {
      RemoveKeepsOnlyInputChars(s[1..], target);
      forall c | c in ReplaceAll(s, target, "") ensures c in s {
        if c != s[0] {
          assert c in ReplaceAll(s[1..], target, "");
        }
      }
    }
  }

  /** A string without any occurrence of `target` is left as it is. */
  lemma {:induction false} ReplaceWithoutOccurrence(s: string, target: string, repl: string)
    requires target != []
    requires forall i :: 0 <= i <= |s| ==> !OccursAt(s, target, i)
    ensures ReplaceAll(s, target, repl) == s
    decreases |s|
  {
    if |s| >= |target| {
      assert !OccursAt(s, target, 0);
      forall i | 0 <= i <= |s[1..]| ensures !OccursAt(s[1..], target, i) {
        assert !OccursAt(s, target, i + 1);
        if i + |target| <= |s[1..]| {
          assert s[1..][i..i + |target|] == s[i + 1..i + 1 + |target|];
        }
      }
      ReplaceWithoutOccurrence(s[1..], target, repl);
    }
  }
}
