/**
 * The `debug` request parameter: `value.lower() in ("1", "true", "yes")`.
 * When the parameter is missing the endpoint tests the empty string.
 */
module DebugFlag {

  /** The strings that switch debug output on, after lower-casing. */
  const OnWords: set<string> := {"1", "true", "yes"}

  function LowerChar(c: char): char
  {
    if 'A' <= c <= 'Z' then ((c as int) + 32) as char else c
  }

  function UpperChar(c: char): char
  {
    if 'a' <= c <= 'z' then ((c as int) - 32) as char else c
  }

  /** `s.lower()`, on the ASCII letters: character by character, and no upper-case letter is left. */
  function Lower(s: string): (r: string)
    ensures |r| == |s|
    ensures forall i :: 0 <= i < |s| ==> r[i] == LowerChar(s[i])
    ensures forall i :: 0 <= i < |r| ==> !('A' <= r[i] <= 'Z')
  {
    if s == [] then [] else [LowerChar(s[0])] + Lower(s[1..])
  }

  /** `s` spells `word` with any of its letters in upper case. */
  predicate SpellsIgnoringCase(s: string, word: string)
  {
    |s| == |word| && forall i :: 0 <= i < |s| ==> s[i] == word[i] || s[i] == UpperChar(word[i])
  }

  /** Lower-casing `s` gives the lower-case `word` exactly when `s` spells it in any case. */
  lemma LowerIsWord(s: string, word: string)
    requires forall i :: 0 <= i < |word| ==> !('A' <= word[i] <= 'Z')
    ensures Lower(s) == word <==> SpellsIgnoringCase(s, word)
  {
    if SpellsIgnoringCase(s, word) {
      assert forall i :: 0 <= i < |s| ==> Lower(s)[i] == word[i];
    }
    if Lower(s) == word {
      forall i | 0 <= i < |s| ensures s[i] == word[i] || s[i] == UpperChar(word[i]) {
        assert LowerChar(s[i]) == word[i];
      }
    }
  }

  /** Only "1" itself spells "1". */
  lemma SpellsOne(raw: string)
    ensures SpellsIgnoringCase(raw, "1") <==> raw == "1"
  {
    if SpellsIgnoringCase(raw, "1") {
      assert raw[0] == '1';
    }
  }

  /**
   * The debug flag the endpoint derives from the raw parameter: on exactly
   * for "1" and for "true" or "yes" in any mix of cases; nothing is trimmed.
   */
  predicate IsDebugOn(raw: string): (on: bool)
    ensures on <==> raw == "1" || SpellsIgnoringCase(raw, "true") || SpellsIgnoringCase(raw, "yes")
  {
    LowerIsWord(raw, "1");
    LowerIsWord(raw, "true");
    LowerIsWord(raw, "yes");
    SpellsOne(raw);
    Lower(raw) in OnWords
  }

  lemma {:induction false} LowerIdempotent(s: string)
    ensures Lower(Lower(s)) == Lower(s)
  {
    if s != [] {
      LowerIdempotent(s[1..]);
      assert Lower(s)[1..] == Lower(s[1..]);
    }
  }

  /** Case never matters to the flag. */
  lemma DebugOnIgnoresCase(raw: string)
    ensures IsDebugOn(Lower(raw)) == IsDebugOn(raw)
  {
    LowerIdempotent(raw);
  }

  /** Any mix of cases switches the flag on. */
  lemma ExamplesOn()
    ensures IsDebugOn("TRUE") && IsDebugOn("Yes") && IsDebugOn("1")
  {
    assert SpellsIgnoringCase("TRUE", "true");
    assert SpellsIgnoringCase("Yes", "yes");
  }

  /** A missing parameter, other words and padded words leave it off. */
  lemma ExamplesOff()
    ensures !IsDebugOn("") && !IsDebugOn("0") && !IsDebugOn("on") && !IsDebugOn(" true")
  {
    assert !SpellsIgnoringCase(" true", "yes");
    assert !SpellsIgnoringCase(" true", "true") by { assert " true"[0] == ' '; }
  }
}
