/** The parts of Go's `strings` package the discovery parsers, the file-name
    helper and the flag parser rely on: `Index`, `Contains`, `LastIndex`,
    `Split` and `Join`, on strings seen as sequences of bytes (`char`). */
module Text {

  /** `t` occurs in `s` starting at offset `i`. */
  predicate OccursAt(s: string, t: string, i: int)
  {
    0 <= i && i + |t| <= |s| && s[i..i + |t|] == t
  }

  lemma OccursShift(s: string, t: string, i: nat)
    requires |s| > 0
    ensures OccursAt(s[1..], t, i) == OccursAt(s, t, i + 1)
  {
    if 0 <= i && i + |t| <= |s[1..]| {
      assert s[1..][i..i + |t|] == s[i + 1..i + 1 + |t|];
    }
  }

  /** `strings.Index`: the first offset at which `t` occurs in `s`, or -1
      when it occurs nowhere. */
  function Index(s: string, t: string): (r: int)
    ensures r == -1 || OccursAt(s, t, r)
    ensures r == -1 ==> forall i :: !OccursAt(s, t, i)
    ensures forall i | 0 <= i < r :: !OccursAt(s, t, i)
    decreases |s|
  {
    if |t| <= |s| && s[..|t|] == t then
      0
    else if |s| <= |t| then
      -1
    else
      var r := Index(s[1..], t);
      IndexStep(s, t, r);
      if r == -1 then -1 else r + 1
  }

  /** One step of `Index`: what the search of `s[1..]` found, shifted by
      one, is what the search of `s` finds when `t` is not a prefix of `s`. */
  lemma IndexStep(s: string, t: string, r: int)
    requires |t| < |s| && s[..|t|] != t
    requires r == -1 || OccursAt(s[1..], t, r)
    requires r == -1 ==> forall i :: !OccursAt(s[1..], t, i)
    requires forall i | 0 <= i < r :: !OccursAt(s[1..], t, i)
    ensures r == -1 || OccursAt(s, t, r + 1)
    ensures r == -1 ==> forall i :: !OccursAt(s, t, i)
    ensures forall i | 0 <= i < r + 1 :: !OccursAt(s, t, i)
  {
    assert !OccursAt(s, t, 0) by {
      assert s[0..0 + |t|] == s[..|t|];
    }
    forall i | 0 < i ensures OccursAt(s, t, i) == OccursAt(s[1..], t, i - 1) {
      OccursShift(s, t, i - 1);
    }
  }

  /** `strings.Contains`: `t` occurs somewhere in `s`. */
  function Contains(s: string, t: string): (b: bool)
    ensures b <==> exists i :: OccursAt(s, t, i)
  {
    Index(s, t) >= 0
  }

  /** A one-character needle occurs exactly where that character does. */
  lemma ContainsChar(s: string, c: char)
    ensures Contains(s, [c]) <==> c in s
  {
    if c in s {
      var i :| 0 <= i < |s| && s[i] == c;
      assert s[i..i + 1] == [c];
      assert OccursAt(s, [c], i);
    }
    if Contains(s, [c]) {
      var i :| OccursAt(s, [c], i);
      assert s[i] == s[i..i + 1][0];
    }
  }

  /** `strings.Index` with a one-character needle finds the first position
      of that character. */
  lemma IndexOneChar(s: string, c: char)
    ensures Index(s, [c]) == IndexOf(s, c)
  {
    forall i ensures OccursAt(s, [c], i) <==> 0 <= i < |s| && s[i] == c {
      if 0 <= i < |s| {
        assert s[i..i + 1] == [s[i]];
      }
    }
    var q := IndexOf(s, c);
    if q >= 0 {
      assert forall i | 0 <= i < q :: s[i] == s[..q][i];
    }
  }

  /** A string that contains `t` contains every character of `t`. */
  lemma ContainsPart(s: string, t: string, k: nat)
    requires Contains(s, t) && k < |t|
    ensures t[k] in s
  {
    var i :| OccursAt(s, t, i);
    assert s[i + k] == s[i..i + |t|][k];
  }

  /** The first position of `c` in `s`, or -1 (`strings.Index` with a
      one-character needle, `strings.IndexByte`). */
  function IndexOf(s: string, c: char): (r: int)
    ensures -1 <= r < |s|
    ensures r == -1 <==> c !in s
    ensures r >= 0 ==> s[r] == c && c !in s[..r]
    decreases |s|
  {
    if |s| == 0 then -1
    else if s[0] == c then 0
    else
      var r := IndexOf(s[1..], c);
      if r == -1 then -1
      else
        assert s[..r + 1] == [s[0]] + s[1..][..r];
        r + 1
  }

  /** `strings.LastIndex` with a one-character needle: the last position
      of `c` in `s`, or -1. */
  function LastIndexOf(s: string, c: char): (r: int)
    ensures -1 <= r < |s|
    ensures r == -1 <==> c !in s
    ensures r >= 0 ==> s[r] == c && c !in s[r + 1..]
    decreases |s|
  {
    if |s| == 0 then -1
    else if s[|s| - 1] == c then |s| - 1
    else
      var r := LastIndexOf(s[..|s| - 1], c);
      LastStep(s, c, r);
      r
  }

  /** One step of `LastIndexOf`: when the last character is not `c`, the
      search of `s` finds what the search of all but that character finds. */
  lemma LastStep(s: string, c: char, r: int)
    requires |s| > 0 && s[|s| - 1] != c
    requires -1 <= r < |s| - 1
    requires r == -1 <==> c !in s[..|s| - 1]
    requires r >= 0 ==> s[..|s| - 1][r] == c && c !in s[..|s| - 1][r + 1..]
    ensures r == -1 <==> c !in s
    ensures r >= 0 ==> s[r] == c && c !in s[r + 1..]
  {
    var init := s[..|s| - 1];
    assert s == init + [s[|s| - 1]];
    assert c in s <==> c in init;
    if r >= 0 {
      assert s[r] == init[r];
      assert s[r + 1..] == init[r + 1..] + [s[|s| - 1]];
    }
  }

  /** `strings.Join` with a one-character separator, on a non-empty list. */
  function Join(parts: seq<string>, sep: char): string
    requires |parts| >= 1
  {
    if |parts| == 1 then parts[0] else parts[0] + [sep] + Join(parts[1..], sep)
  }

  /** `strings.Split` with a one-character separator: the pieces between
      the separators, which joined back give the input. */
  function Split(s: string, sep: char): (parts: seq<string>)
    ensures |parts| >= 1
    ensures forall k | 0 <= k < |parts| :: sep !in parts[k]
    ensures Join(parts, sep) == s
    decreases |s|
  {
    var i := IndexOf(s, sep);
    if i == -1 then
      [s]
    else
      var rest := Split(s[i + 1..], sep);
      SplitStep(s, sep, i, rest);
      [s[..i]] + rest
  }

  /** One step of `Split`: the text before the first separator, followed
      by the pieces of the text after it. */
  lemma SplitStep(s: string, sep: char, i: int, rest: seq<string>)
    requires 0 <= i < |s| && s[i] == sep && sep !in s[..i]
    requires |rest| >= 1 && forall k | 0 <= k < |rest| :: sep !in rest[k]
    requires Join(rest, sep) == s[i + 1..]
    ensures forall k | 0 <= k < 1 + |rest| :: sep !in ([s[..i]] + rest)[k]
    ensures Join([s[..i]] + rest, sep) == s
  {
    var parts := [s[..i]] + rest;
    assert parts[1..] == rest;
    assert s == s[..i] + [sep] + s[i + 1..];
  }

  /** The first piece of a split is the text before the first separator,
      and there is a second piece exactly when the separator occurs. */
  lemma {:induction false} SplitFirst(s: string, sep: char)
    ensures var parts := Split(s, sep);
            && (sep !in s ==> parts == [s])
            && (sep in s ==> |parts| >= 2 && s == parts[0] + [sep] + Join(parts[1..], sep))
  {
    var parts := Split(s, sep);
    if sep !in s {
      assert parts == [s];
    }
  }
}
