/**
 * The `selected_ids` parameter: a comma-separated list of record ids.
 * `[int(x) for x in raw.split(",") if x.strip().isdigit()]`, and the
 * request is refused when nothing survives.
 */
module SelectedIds {
  import opened Wrappers

  /** Why the id list was refused. */
  datatype IdsError =
    | InvalidIds   // int() raised inside the comprehension: 400 {"error": "Invalid selected_ids"}
    | NoValidIds   // nothing survived the filter: 400 {"error": "No valid IDs provided"}

  // ---------------------------------------------------------------
  // Characters
  // ---------------------------------------------------------------

  /** The characters for which Python's `str.isspace()` holds. */
  predicate IsSpace(c: char)
  {
    c == ' ' || ('\t' <= c <= '\r') || ('\U{1C}' <= c <= '\U{1F}')
    || c == '\U{85}' || c == '\U{A0}' || c == '\U{1680}'
    || ('\U{2000}' <= c <= '\U{200A}') || c == '\U{2028}' || c == '\U{2029}'
    || c == '\U{202F}' || c == '\U{205F}' || c == '\U{3000}'
  }

  /** An ASCII decimal digit. */
  predicate IsDigit(c: char)
  {
    '0' <= c <= '9'
  }

  predicate AllDigits(s: string)
  {
    forall i :: 0 <= i < |s| ==> IsDigit(s[i])
  }

  /** `s.isdigit()`: non-empty and made of digits only. */
  predicate IsDigits(s: string)
  {
    s != [] && AllDigits(s)
  }

  predicate AllSpace(s: string)
  {
    forall i :: 0 <= i < |s| ==> IsSpace(s[i])
  }

  // ---------------------------------------------------------------
  // strip()
  // ---------------------------------------------------------------

  /** The first index at or after `i` that does not hold whitespace. */
  function SpaceEnd(s: string, i: nat): (k: nat)
    requires i <= |s|
    ensures i <= k <= |s|
    decreases |s| - i
  {
    if i < |s| && IsSpace(s[i]) then SpaceEnd(s, i + 1) else i
  }

  /** The last index at or before `j`, and not before `lo`, that follows no whitespace. */
  function SpaceStart(s: string, lo: nat, j: nat): (k: nat)
    requires lo <= j <= |s|
    ensures lo <= k <= j
  {
    if j > lo && IsSpace(s[j - 1]) then SpaceStart(s, lo, j - 1) else j
  }

  /** `SpaceEnd` skips whitespace only, and stops at the first non-space. */
  lemma {:induction false} SpaceEndSkips(s: string, i: nat)
    requires i <= |s|
    ensures forall m :: i <= m < SpaceEnd(s, i) ==> IsSpace(s[m])
    ensures SpaceEnd(s, i) < |s| ==> !IsSpace(s[SpaceEnd(s, i)])
    decreases |s| - i
  {
    if i < |s| && IsSpace(s[i]) {
      SpaceEndSkips(s, i + 1);
    }
  }

  /** `SpaceStart` skips whitespace only, and stops after the last non-space. */
  lemma {:induction false} SpaceStartSkips(s: string, lo: nat, j: nat)
    requires lo <= j <= |s|
    ensures forall m :: SpaceStart(s, lo, j) <= m < j ==> IsSpace(s[m])
    ensures SpaceStart(s, lo, j) > lo ==> !IsSpace(s[SpaceStart(s, lo, j) - 1])
  {
    if j > lo && IsSpace(s[j - 1]) {
      SpaceStartSkips(s, lo, j - 1);
    }
  }

  /** `s.strip()`: drop leading and trailing whitespace; none is left at either end. */
  function Strip(s: string): (r: string)
    ensures |r| <= |s|
    ensures r != [] ==> !IsSpace(r[0]) && !IsSpace(r[|r| - 1])
  {
    var i := SpaceEnd(s, 0);
    var j := SpaceStart(s, i, |s|);
    SpaceEndSkips(s, 0);
    SpaceStartSkips(s, i, |s|);
    s[i..j]
  }

  // ---------------------------------------------------------------
  // int() on a digit string, and its inverse
  // ---------------------------------------------------------------

  function DigitValue(c: char): (d: nat)
    requires IsDigit(c)
    ensures d < 10
  {
    (c as int) - ('0' as int)
  }

  function DigitChar(d: nat): (c: char)
    requires d < 10
    ensures IsDigit(c) && DigitValue(c) == d
  {
    (('0' as int) + d) as char
  }

  function Pow10(k: nat): (p: nat)
    ensures p >= 1
  {
    if k == 0 then 1 else 10 * Pow10(k - 1)
  }

  /**
   * The decimal value of a digit string, most significant digit first:
   * below 10^|s|, and at least 10^(|s|-1) without a leading zero.
   */
  function DigitsValue(s: string): (n: nat)
    requires AllDigits(s)
    ensures n < Pow10(|s|)
    ensures s != [] && s[0] != '0' ==> Pow10(|s| - 1) <= n
  {
    if s == [] then 0 else DigitsValue(s[..|s| - 1]) * 10 + DigitValue(s[|s| - 1])
  }

  /** The shortest decimal rendering of `n` (Python's `str(n)`). */
  function ShowNat(n: nat): (s: string)
    ensures IsDigits(s)
    ensures |s| == 1 || s[0] != '0'
  {
    if n < 10 then [DigitChar(n)] else ShowNat(n / 10) + [DigitChar(n % 10)]
  }

  // ---------------------------------------------------------------
  // split(",")
  // ---------------------------------------------------------------

  /** `s.split(",")`: the pieces between commas; always at least one. */
  function Split(s: string): (pieces: seq<string>)
    ensures |pieces| >= 1
    ensures forall i :: 0 <= i < |pieces| ==> ',' !in pieces[i]
  {
    if s == [] then [""]
    else
      var rest := Split(s[1..]);
      if s[0] == ',' then [""] + rest else [[s[0]] + rest[0]] + rest[1..]
  }

  /** `",".join(pieces)`. */
  function Join(pieces: seq<string>): string
    requires |pieces| >= 1
  {
    if |pieces| == 1 then pieces[0] else pieces[0] + "," + Join(pieces[1..])
  }

  // ---------------------------------------------------------------
  // The list comprehension and the emptiness check
  // ---------------------------------------------------------------

  /**
   * The comprehension's filter: `x.strip().isdigit()`. A token passes it
   * exactly when it is ASCII digits with only whitespace on either side.
   */
  predicate IsIdToken(t: string): (ok: bool)
    ensures ok <==> PaddedDigits(t)
  {
    StripDigitsShape(t);
    IsDigits(Strip(t))
  }

  /**
   * `int(x)` on a token that passed the filter and on which it does not
   * raise: the value of its digits. Rendering it again gives the token's
   * digits back when they have no leading zero.
   */
  function TokenValue(t: string): (v: nat)
    requires IsIdToken(t)
    ensures v < Pow10(|Strip(t)|)
    ensures |Strip(t)| == 1 || Strip(t)[0] != '0' ==> ShowNat(v) == Strip(t)
  {
    DigitsShow(Strip(t));
    DigitsValue(Strip(t))
  }

  /**
   * U+001C..U+001F: whitespace to `strip()`, but not to `int()`, which skips
   * only ' ' and '\t'..'\r' among the ASCII characters (non-ASCII whitespace
   * it first turns into ' ').
   */
  predicate IsInfoSeparator(c: char)
  {
    '\U{1C}' <= c <= '\U{1F}'
  }

  /** The most digits `int()` converts: CPython's default `int_max_str_digits`. */
  const MaxStrDigits: nat := 4300

  /** `int(x)` raises ValueError on a token that passed the filter. */
  predicate IntRaises(t: string)
  {
    IsIdToken(t) && ((exists k :: 0 <= k < |t| && IsInfoSeparator(t[k])) || |Strip(t)| > MaxStrDigits)
  }

  /** The comprehension: one id per accepted token, in token order. */
  function ValidIds(tokens: seq<string>): (ids: seq<nat>)
    ensures |ids| <= |tokens|
  {
    if tokens == [] then []
    else (if IsIdToken(tokens[0]) then [TokenValue(tokens[0])] else []) + ValidIds(tokens[1..])
  }

  /**
   * The ids of `selected_ids`: the 400 "Invalid selected_ids" when `int()`
   * raises on an accepted token, the 400 "No valid IDs provided" when none
   * is accepted.
   */
  function ParseSelectedIds(raw: string): (r: Result<seq<nat>, IdsError>)
    ensures r.Ok? ==> r.value != [] && |r.value| <= |Split(raw)| && r.value == ValidIds(Split(raw))
    ensures r.Ok? ==> forall t :: t in Split(raw) ==> !IntRaises(t)
  {
    var tokens := Split(raw);
    if exists t :: t in tokens && IntRaises(t) then Err(InvalidIds)
    else
      var ids := ValidIds(tokens);
      if ids == [] then Err(NoValidIds) else Ok(ids)
  }

  // ---------------------------------------------------------------
  // split and join are inverse
  // ---------------------------------------------------------------

  /** A comma-free prefix joins the first piece of what follows it. */
  lemma {:induction false} SplitCommaFreePrefix(a: string, rest: string)
    requires ',' !in a
    ensures Split(a + rest) == [a + Split(rest)[0]] + Split(rest)[1..]
  {
    if a != [] {
      assert (a + rest)[0] == a[0] && a[0] != ',' by {
        assert a[0] in a;
      }
      assert (a + rest)[1..] == a[1..] + rest;
      assert ',' !in a[1..] by {
        forall k | 0 <= k < |a[1..]| ensures a[1..][k] != ',' {
          assert a[1..][k] == a[k + 1];
          assert a[k + 1] in a;
        }
      }
      SplitCommaFreePrefix(a[1..], rest);
      assert [a[0]] + (a[1..] + Split(rest)[0]) == a + Split(rest)[0];
    } else {
      assert a + rest == rest;
      assert a + Split(rest)[0] == Split(rest)[0];
      assert Split(rest) == [Split(rest)[0]] + Split(rest)[1..];
    }
  }

  lemma {:induction false} SplitJoin(pieces: seq<string>)
    requires |pieces| >= 1
    requires forall i :: 0 <= i < |pieces| ==> ',' !in pieces[i]
    ensures Split(Join(pieces)) == pieces
  {
    if |pieces| == 1 {
      SplitCommaFreePrefix(pieces[0], "");
      assert pieces[0] + "" == pieces[0];
    } else {
      var tail := Join(pieces[1..]);
      SplitJoin(pieces[1..]);
      assert pieces[0] + "," + tail == pieces[0] + ("," + tail);
      SplitCommaFreePrefix(pieces[0], "," + tail);
      assert ("," + tail)[1..] == tail;
      assert Split("," + tail) == [""] + pieces[1..];
      assert pieces[0] + "" == pieces[0];
      assert pieces == [pieces[0]] + pieces[1..];
    }
  }

  lemma {:induction false} JoinSplit(s: string)
    ensures Join(Split(s)) == s
  {
    if s != [] {
      var rest := Split(s[1..]);
      JoinSplit(s[1..]);
      if s[0] == ',' {
        assert ([""] + rest)[1..] == rest;
      } else {
        var pieces := [[s[0]] + rest[0]] + rest[1..];
        if |rest| == 1 {
        } else {
          assert pieces[1..] == rest[1..];
          assert Join(rest) == rest[0] + "," + Join(rest[1..]);
        }
        assert s == [s[0]] + s[1..];
      }
    }
  }

  // ---------------------------------------------------------------
  // strip() removes exactly the whitespace padding
  // ---------------------------------------------------------------

  lemma {:induction false} SpaceEndAt(s: string, i: nat, k: nat)
    requires i <= k < |s|
    requires forall m :: i <= m < k ==> IsSpace(s[m])
    requires !IsSpace(s[k])
    ensures SpaceEnd(s, i) == k
    decreases k - i
  {
    if i < k {
      SpaceEndAt(s, i + 1, k);
    }
  }

  lemma {:induction false} SpaceStartAt(s: string, lo: nat, k: nat, j: nat)
    requires lo < k <= j <= |s|
    requires forall m :: k <= m < j ==> IsSpace(s[m])
    requires !IsSpace(s[k - 1])
    ensures SpaceStart(s, lo, j) == k
    decreases j
  {
    if k < j {
      SpaceStartAt(s, lo, k, j - 1);
    }
  }

  /** Whitespace around a word that neither starts nor ends with whitespace is removed, and nothing else. */
  lemma StripPadded(before: string, word: string, after: string)
    requires AllSpace(before) && AllSpace(after)
    requires word != [] && !IsSpace(word[0]) && !IsSpace(word[|word| - 1])
    ensures Strip(before + word + after) == word
  {
    var t := before + word + after;
    var i, j := |before|, |before| + |word|;
    assert t[i] == word[0] && t[j - 1] == word[|word| - 1];
    SpaceEndAt(t, 0, i);
    SpaceStartAt(t, i, j, |t|);
    assert t[i..j] == word;
  }

  /** Every string is its stripped form with whitespace on either side. */
  lemma StripSplits(s: string)
    ensures exists i, j :: 0 <= i <= j <= |s| && s[i..j] == Strip(s) && AllSpace(s[..i]) && AllSpace(s[j..])
  {
    var i := SpaceEnd(s, 0);
    var j := SpaceStart(s, i, |s|);
    SpaceEndSkips(s, 0);
    SpaceStartSkips(s, i, |s|);
    assert AllSpace(s[..i]) && AllSpace(s[j..]);
  }

  /** `t` is digits with only whitespace on either side. */
  predicate PaddedDigits(t: string)
  {
    exists i, j :: 0 <= i < j <= |t| && AllSpace(t[..i]) && IsDigits(t[i..j]) && AllSpace(t[j..])
  }

  lemma PaddedDigitsAccepted(t: string, i: nat, j: nat)
    requires 0 <= i < j <= |t| && AllSpace(t[..i]) && IsDigits(t[i..j]) && AllSpace(t[j..])
    ensures IsDigits(Strip(t))
  {
    assert t == t[..i] + t[i..j] + t[j..];
    StripPadded(t[..i], t[i..j], t[j..]);
  }

  /** Stripped digits are digits with optional whitespace on either side, and conversely. */
  lemma StripDigitsShape(t: string)
    ensures IsDigits(Strip(t)) <==> PaddedDigits(t)
  {
    if IsDigits(Strip(t)) {
      var i := SpaceEnd(t, 0);
      var j := SpaceStart(t, i, |t|);
      SpaceEndSkips(t, 0);
      SpaceStartSkips(t, i, |t|);
      assert t[i..j] == Strip(t);
      assert AllSpace(t[..i]) && AllSpace(t[j..]);
    }
    if PaddedDigits(t) {
      var i, j :| 0 <= i < j <= |t| && AllSpace(t[..i]) && IsDigits(t[i..j]) && AllSpace(t[j..]);
      PaddedDigitsAccepted(t, i, j);
    }
  }

  /** No sign, no inner space, no other character survives the filter. */
  lemma IdTokenCharacters(t: string, k: nat)
    requires IsIdToken(t) && k < |t|
    ensures IsDigit(t[k]) || IsSpace(t[k])
  {
    StripSplits(t);
    var i, j :| 0 <= i <= j <= |t| && t[i..j] == Strip(t) && AllSpace(t[..i]) && AllSpace(t[j..]);
    if k < i {
      assert t[..i][k] == t[k];
    } else if k < j {
      assert t[i..j][k - i] == t[k];
    } else {
      assert t[j..][k - j] == t[k];
    }
  }

  // ---------------------------------------------------------------
  // Decimal rendering and int() are inverse
  // ---------------------------------------------------------------

  /** A digit string without a leading zero is the rendering of its value. */
  lemma {:induction false} DigitsShow(s: string)
    requires IsDigits(s)
    ensures |s| == 1 || s[0] != '0' ==> ShowNat(DigitsValue(s)) == s
  {
    if |s| == 1 || s[0] != '0' {
      var p := s[..|s| - 1];
      var d := DigitValue(s[|s| - 1]);
      assert DigitChar(d) == s[|s| - 1];
      if |s| > 1 {
        assert p[0] == s[0];
        DigitsShow(p);
        var n := DigitsValue(s);
        assert n / 10 == DigitsValue(p) && n % 10 == d;
        assert s == p + [s[|s| - 1]];
      }
    }
  }

  lemma {:induction false} ShowNatValue(n: nat)
    ensures DigitsValue(ShowNat(n)) == n
  {
    if n >= 10 {
      var s := ShowNat(n / 10);
      ShowNatValue(n / 10);
      var t := s + [DigitChar(n % 10)];
      assert t[..|t| - 1] == s;
    }
  }

  /**
   * A rendered id is accepted by the filter and converts back to itself;
   * `int()` raises on it only when it has more than `MaxStrDigits` digits.
   */
  lemma ShowNatToken(n: nat)
    ensures IsIdToken(ShowNat(n)) && TokenValue(ShowNat(n)) == n
    ensures ',' !in ShowNat(n)
    ensures IntRaises(ShowNat(n)) <==> |ShowNat(n)| > MaxStrDigits
  {
    var s := ShowNat(n);
    StripPadded("", s, "");
    assert "" + s + "" == s;
    ShowNatValue(n);
    assert forall k :: 0 <= k < |s| ==> !IsInfoSeparator(s[k]);
  }

  // ---------------------------------------------------------------
  // The comprehension keeps exactly the accepted tokens, in order
  // ---------------------------------------------------------------

  lemma {:induction false} ValidIdsAppend(a: seq<string>, b: seq<string>)
    ensures ValidIds(a + b) == ValidIds(a) + ValidIds(b)
  {
    if a != [] {
      assert (a + b)[1..] == a[1..] + b;
      ValidIdsAppend(a[1..], b);
    } else {
      assert a + b == b;
    }
  }

  /** The comprehension yields nothing exactly when no token is accepted. */
  lemma ValidIdsEmpty(tokens: seq<string>)
    ensures ValidIds(tokens) == [] <==> forall i :: 0 <= i < |tokens| ==> !IsIdToken(tokens[i])
  {
    ValidIdsAt(tokens);
    var ps := PositionsFrom(IsIdToken, tokens, 0);
    if i :| 0 <= i < |tokens| && IsIdToken(tokens[i]) {
      assert i in ps;
    }
    if ps != [] {
      assert IsIdToken(tokens[ps[0]]);
    }
  }

  /** The indices, from `i` on, of the tokens that pass `accept` (the filter, or any other test). */
  function PositionsFrom(accept: string -> bool, tokens: seq<string>, i: nat): (ps: seq<nat>)
    requires i <= |tokens|
    ensures forall k :: 0 <= k < |ps| ==> i <= ps[k] < |tokens|
    decreases |tokens| - i
  {
    if i == |tokens| then []
    else (if accept(tokens[i]) then [i] else []) + PositionsFrom(accept, tokens, i + 1)
  }

  /** Every position holds an accepted token. */
  lemma {:induction false} PositionsFromAccepted(accept: string -> bool, tokens: seq<string>, i: nat)
    requires i <= |tokens|
    ensures forall k :: 0 <= k < |PositionsFrom(accept, tokens, i)| ==> accept(tokens[PositionsFrom(accept, tokens, i)[k]])
    decreases |tokens| - i
  {
    if i < |tokens| {
      PositionsFromAccepted(accept, tokens, i + 1);
      var rest := PositionsFrom(accept, tokens, i + 1);
      if accept(tokens[i]) {
        var ps := [i] + rest;
        assert PositionsFrom(accept, tokens, i) == ps;
        assert forall k :: 1 <= k < |ps| ==> ps[k] == rest[k - 1];
      }
    }
  }

  /** The positions increase strictly. */
  lemma {:induction false} PositionsFromIncreasing(accept: string -> bool, tokens: seq<string>, i: nat)
    requires i <= |tokens|
    ensures forall k, l :: 0 <= k < l < |PositionsFrom(accept, tokens, i)| ==>
      PositionsFrom(accept, tokens, i)[k] < PositionsFrom(accept, tokens, i)[l]
    decreases |tokens| - i
  {
    if i < |tokens| {
      PositionsFromIncreasing(accept, tokens, i + 1);
      var rest := PositionsFrom(accept, tokens, i + 1);
      if accept(tokens[i]) {
        var ps := [i] + rest;
        assert PositionsFrom(accept, tokens, i) == ps;
        assert forall k :: 1 <= k < |ps| ==> ps[k] == rest[k - 1];
      }
    }
  }

  /** Every accepted token from `i` on has its position listed. */
  lemma {:induction false} PositionsFromComplete(accept: string -> bool, tokens: seq<string>, i: nat)
    requires i <= |tokens|
    ensures forall m :: i <= m < |tokens| && accept(tokens[m]) ==> m in PositionsFrom(accept, tokens, i)
    decreases |tokens| - i
  {
    if i < |tokens| {
      PositionsFromComplete(accept, tokens, i + 1);
      var rest := PositionsFrom(accept, tokens, i + 1);
      if accept(tokens[i]) {
        assert PositionsFrom(accept, tokens, i) == [i] + rest;
      }
    }
  }

  lemma {:induction false} ValidIdsFrom(tokens: seq<string>, i: nat)
    requires i <= |tokens|
    ensures |ValidIds(tokens[i..])| == |PositionsFrom(IsIdToken, tokens, i)|
    ensures forall k :: 0 <= k < |ValidIds(tokens[i..])| ==>
      IsIdToken(tokens[PositionsFrom(IsIdToken, tokens, i)[k]]) &&
      ValidIds(tokens[i..])[k] == TokenValue(tokens[PositionsFrom(IsIdToken, tokens, i)[k]])
    decreases |tokens| - i
  {
    if i < |tokens| {
      ValidIdsFrom(tokens, i + 1);
      assert tokens[i..][1..] == tokens[i + 1..];
      assert tokens[i..][0] == tokens[i];
    }
  }

  /**
   * The ids are the values of the accepted tokens, in token order and with
   * duplicates kept: the k-th id comes from the k-th accepted token.
   */
  lemma ValidIdsAt(tokens: seq<string>)
    ensures |ValidIds(tokens)| == |PositionsFrom(IsIdToken, tokens, 0)|
    ensures forall k :: 0 <= k < |ValidIds(tokens)| ==>
      IsIdToken(tokens[PositionsFrom(IsIdToken, tokens, 0)[k]]) &&
      ValidIds(tokens)[k] == TokenValue(tokens[PositionsFrom(IsIdToken, tokens, 0)[k]])
    ensures forall k, l :: 0 <= k < l < |PositionsFrom(IsIdToken, tokens, 0)| ==>
      PositionsFrom(IsIdToken, tokens, 0)[k] < PositionsFrom(IsIdToken, tokens, 0)[l]
    ensures forall m :: 0 <= m < |tokens| && IsIdToken(tokens[m]) ==> m in PositionsFrom(IsIdToken, tokens, 0)
  {
    ValidIdsFrom(tokens, 0);
    PositionsFromIncreasing(IsIdToken, tokens, 0);
    PositionsFromComplete(IsIdToken, tokens, 0);
    assert tokens[0..] == tokens;
  }

  /** "No valid IDs provided" comes exactly when no token passes the filter. */
  lemma ParseSelectedIdsRefused(raw: string)
    ensures ParseSelectedIds(raw) == Err(NoValidIds) <==> forall t :: t in Split(raw) ==> !IsIdToken(t)
  {
    var tokens := Split(raw);
    ValidIdsEmpty(tokens);
    assert (forall t :: t in tokens ==> !IsIdToken(t)) ==> forall t :: t in tokens ==> !IntRaises(t);
  }

  /** "Invalid selected_ids" comes exactly when `int()` raises on some accepted token. */
  lemma ParseSelectedIdsInvalid(raw: string)
    ensures ParseSelectedIds(raw) == Err(InvalidIds) <==> exists t :: t in Split(raw) && IntRaises(t)
  {
  }

  /** The ids rendered as Python would (`",".join(map(str, ids))`). */
  function ShowIds(ids: seq<nat>): (pieces: seq<string>)
    ensures |pieces| == |ids|
    ensures forall k :: 0 <= k < |ids| ==> pieces[k] == ShowNat(ids[k])
  {
    if ids == [] then [] else [ShowNat(ids[0])] + ShowIds(ids[1..])
  }

  /** Parsing a rendered non-empty id list gives that list back, when no id is too long for `int()`. */
  lemma ParseShowIds(ids: seq<nat>)
    requires ids != []
    requires forall k :: 0 <= k < |ids| ==> |ShowNat(ids[k])| <= MaxStrDigits
    ensures ParseSelectedIds(Join(ShowIds(ids))) == Ok(ids)
  {
    var pieces := ShowIds(ids);
    forall k | 0 <= k < |pieces|
      ensures ',' !in pieces[k] && IsIdToken(pieces[k]) && TokenValue(pieces[k]) == ids[k] && !IntRaises(pieces[k])
    {
      ShowNatToken(ids[k]);
    }
    SplitJoin(pieces);
    ValidIdsOfShown(ids);
  }

  /** A rendered id list with an id of more than `MaxStrDigits` digits is refused as invalid. */
  lemma ParseShowIdsTooLong(ids: seq<nat>, k: nat)
    requires k < |ids| && |ShowNat(ids[k])| > MaxStrDigits
    ensures ParseSelectedIds(Join(ShowIds(ids))) == Err(InvalidIds)
  {
    var pieces := ShowIds(ids);
    forall m | 0 <= m < |pieces| ensures ',' !in pieces[m] {
      ShowNatToken(ids[m]);
    }
    SplitJoin(pieces);
    ShowNatToken(ids[k]);
    assert pieces[k] in Split(Join(pieces)) && IntRaises(pieces[k]);
  }

  lemma {:induction false} ValidIdsOfShown(ids: seq<nat>)
    ensures ValidIds(ShowIds(ids)) == ids
  {
    if ids != [] {
      ShowNatToken(ids[0]);
      ValidIdsOfShown(ids[1..]);
      assert ShowIds(ids)[1..] == ShowIds(ids[1..]);
      assert ids == [ids[0]] + ids[1..];
    }
  }

  /** A token without whitespace at its ends is kept as it is by strip(). */
  lemma StripUnpadded(t: string)
    requires t != [] && !IsSpace(t[0]) && !IsSpace(t[|t| - 1])
    ensures Strip(t) == t
  {
    StripPadded("", t, "");
    assert "" + t + "" == t;
  }

  /** Parsing comma-free tokens joined by commas, when nothing raises and something is accepted. */
  lemma ParseJoinedAccepted(tokens: seq<string>, ids: seq<nat>)
    requires |tokens| >= 1 && forall k :: 0 <= k < |tokens| ==> ',' !in tokens[k]
    requires forall k :: 0 <= k < |tokens| ==> !IntRaises(tokens[k])
    requires ValidIds(tokens) == ids && ids != []
    ensures ParseSelectedIds(Join(tokens)) == Ok(ids)
  {
    SplitJoin(tokens);
  }

  /** Parsing comma-free tokens joined by commas, when none is accepted. */
  lemma ParseJoinedRefused(tokens: seq<string>)
    requires |tokens| >= 1 && forall k :: 0 <= k < |tokens| ==> ',' !in tokens[k]
    requires forall k :: 0 <= k < |tokens| ==> !IsIdToken(tokens[k])
    ensures ParseSelectedIds(Join(tokens)) == Err(NoValidIds)
  {
    SplitJoin(tokens);
    ParseSelectedIdsRefused(Join(tokens));
  }

  /** Parsing comma-free tokens joined by commas, when `int()` raises on one of them. */
  lemma ParseJoinedInvalid(tokens: seq<string>, k: nat)
    requires |tokens| >= 1 && forall m :: 0 <= m < |tokens| ==> ',' !in tokens[m]
    requires k < |tokens| && IntRaises(tokens[k])
    ensures ParseSelectedIds(Join(tokens)) == Err(InvalidIds)
  {
    SplitJoin(tokens);
    assert tokens[k] in Split(Join(tokens));
  }

  /** Letters do not pass the filter. */
  lemma ExampleLettersRefused()
    ensures !IsIdToken("abc")
  {
    StripUnpadded("abc");
    assert !IsDigit("abc"[0]);
  }

  lemma ExampleNonNumericDropped()
    ensures ParseSelectedIds("7,abc,9") == Ok([7, 9])
  {
    var tokens := ["7", "abc", "9"];
    assert Join(tokens) == "7,abc,9" by {
      assert Join(tokens[1..]) == "abc,9" by {
        assert tokens[1..][1..] == ["9"];
      }
    }
    ShowNatToken(7);
    ShowNatToken(9);
    ExampleLettersRefused();
    assert !IntRaises(tokens[0]) && !IntRaises(tokens[1]) && !IntRaises(tokens[2]);
    assert ValidIds(tokens) == [7, 9] by {
      assert ValidIds(["9"]) == [9];
      assert ["abc", "9"][1..] == ["9"];
      assert tokens[1..] == ["abc", "9"];
    }
    ParseJoinedAccepted(tokens, [7, 9]);
  }

  /** Spaces around the digits are stripped by the filter and ignored by `int()`. */
  lemma ExamplePaddedToken()
    ensures IsIdToken(" 7 ") && TokenValue(" 7 ") == 7 && !IntRaises(" 7 ")
  {
    StripPadded(" ", "7", " ");
    assert " " + "7" + " " == " 7 ";
    ShowNatToken(7);
    assert forall k :: 0 <= k < 3 ==> !IsInfoSeparator(" 7 "[k]);
  }

  lemma ExamplePaddingAndEmptyTokens()
    ensures ParseSelectedIds(" 7 ,,8") == Ok([7, 8])
  {
    var tokens := [" 7 ", "", "8"];
    assert Join(tokens) == " 7 ,,8" by {
      assert Join(tokens[1..]) == ",8" by {
        assert tokens[1..][1..] == ["8"];
      }
    }
    ShowNatToken(8);
    assert !IsIdToken("");
    ExamplePaddedToken();
    assert ValidIds(tokens) == [7, 8] by {
      assert ValidIds(["8"]) == [8];
      assert ["", "8"][1..] == ["8"];
      assert tokens[1..] == ["", "8"];
    }
    ParseJoinedAccepted(tokens, [7, 8]);
  }

  /** A no-break space is padding to both `strip()` and `int()`. */
  lemma ExampleNonAsciiPaddingKept()
    ensures ParseSelectedIds("\U{A0}7") == Ok([7])
  {
    var tokens := ["\U{A0}7"];
    assert IsIdToken(tokens[0]) && TokenValue(tokens[0]) == 7 && !IntRaises(tokens[0]) by {
      StripPadded("\U{A0}", "7", "");
      assert "\U{A0}" + "7" + "" == tokens[0];
      ShowNatToken(7);
      assert forall k :: 0 <= k < 2 ==> !IsInfoSeparator(tokens[0][k]);
    }
    assert ValidIds(tokens) == [7];
    ParseJoinedAccepted(tokens, [7]);
  }

  /** U+001C is padding to `strip()` but not to `int()`: the whole list is refused. */
  lemma ExampleSeparatorPaddingInvalid()
    ensures ParseSelectedIds("7,\U{1C}8") == Err(InvalidIds)
    ensures ParseSelectedIds("7") == Ok([7])
  {
    ShowNatToken(7);
    assert ValidIds(["7"]) == [7];
    ParseJoinedAccepted(["7"], [7]);
    var tokens := ["7", "\U{1C}8"];
    assert Join(tokens) == "7,\U{1C}8";
    assert IntRaises(tokens[1]) by {
      StripPadded("\U{1C}", "8", "");
      assert "\U{1C}" + "8" + "" == tokens[1];
      ShowNatToken(8);
      assert IsInfoSeparator(tokens[1][0]);
    }
    ParseJoinedInvalid(tokens, 1);
  }

  lemma ExampleSignsRefused()
    ensures ParseSelectedIds("-3,+4") == Err(NoValidIds)
  {
    var tokens := ["-3", "+4"];
    assert Join(tokens) == "-3,+4";
    StripUnpadded("-3");
    StripUnpadded("+4");
    assert !IsIdToken("-3") by { assert !IsDigit("-3"[0]); }
    assert !IsIdToken("+4") by { assert !IsDigit("+4"[0]); }
    ParseJoinedRefused(tokens);
  }

  lemma ExampleEmptyRefused()
    ensures ParseSelectedIds("") == Err(NoValidIds)
  {
    assert Split("") == [""];
    assert !IsIdToken("");
  }

  lemma ExampleZeroAndDuplicatesKept()
    ensures ParseSelectedIds("0,0") == Ok([0, 0])
  {
    ParseShowIds([0, 0]);
    assert ShowIds([0, 0]) == ["0", "0"];
    assert Join(["0", "0"]) == "0,0";
  }
}
