/** The name canonicaliser `to_standard_param_name`: CamelCase type names become the
    snake_case keys under which a registered type can also be looked up by name.

    The transform is the usual two-pass regular-expression rewrite:
    1. `(.)([A-Z][a-z]+)` -> `\1_\2`: an underscore before a capital that starts a
       lower-case word, and
    2. `([a-z0-9])([A-Z])` -> `\1_\2`: an underscore between a lower-case letter or digit
       and a following capital,
    then lower-casing, and finally a leading `i_` (the conventional interface prefix `I`)
    collapses to `i`. Each pass scans left to right and resumes after the text it matched,
    as Python's `re.sub` does. */
module Names {

  predicate IsUpper(c: char) { 'A' <= c <= 'Z' }

  predicate IsLower(c: char) { 'a' <= c <= 'z' }

  predicate IsLowerOrDigit(c: char) { IsLower(c) || '0' <= c <= '9' }

  /** Index just past the run of lower-case letters that starts at `i`. */
  function LowerRunEnd(s: string, i: nat): (k: nat)
    requires i <= |s|
    ensures i <= k <= |s|
    ensures forall j :: i <= j < k ==> IsLower(s[j])
    ensures k < |s| ==> !IsLower(s[k])
    decreases |s| - i
  {
    if i < |s| && IsLower(s[i]) then LowerRunEnd(s, i + 1) else i
  }

  /** `(.)([A-Z][a-z]+)` matches at `k` (the `.` does not match a newline). */
  predicate FirstCapMatchAt(s: string, k: nat) {
    k + 3 <= |s| && s[k] != '\n' && IsUpper(s[k + 1]) && IsLower(s[k + 2])
  }

  /** `([a-z0-9])([A-Z])` matches at `k`. */
  predicate AllCapMatchAt(s: string, k: nat) {
    k + 2 <= |s| && IsLowerOrDigit(s[k]) && IsUpper(s[k + 1])
  }

  /** First pass, scanning from position `i`: `(.)([A-Z][a-z]+)` replaced by `\1_\2`. */
  function FirstCapFrom(s: string, i: nat): string
    requires i <= |s|
    decreases |s| - i
  {
    if FirstCapMatchAt(s, i) then
      var k := LowerRunEnd(s, i + 3);
      [s[i], '_'] + s[i + 1..k] + FirstCapFrom(s, k)
    else if i == |s| then []
    else [s[i]] + FirstCapFrom(s, i + 1)
  }

  /** Second pass, scanning from position `i`: `([a-z0-9])([A-Z])` replaced by `\1_\2`. */
  function AllCapFrom(s: string, i: nat): string
    requires i <= |s|
    decreases |s| - i
  {
    if AllCapMatchAt(s, i) then
      [s[i], '_', s[i + 1]] + AllCapFrom(s, i + 2)
    else if i == |s| then []
    else [s[i]] + AllCapFrom(s, i + 1)
  }

  function LowerChar(c: char): char
  {
    if IsUpper(c) then (c as int - 'A' as int + 'a' as int) as char else c
  }

  /** `str.lower()` on the ASCII letters. */
  function Lower(s: string): string
  {
    seq(|s|, i requires 0 <= i < |s| => LowerChar(s[i]))
  }

  /** The lower-cased name starts with `i_`, the interface prefix that is collapsed. */
  predicate HasInterfacePrefix(v: string) {
    |v| >= 2 && v[0] == 'i' && v[1] == '_'
  }

  /** `to_standard_param_name`. The canonical name is all lower case: it has no upper-case
      letter. */
  function ToStandardParamName(name: string): (r: string)
    ensures forall i :: 0 <= i < |r| ==> !IsUpper(r[i])
  {
    var v := Lower(AllCapFrom(FirstCapFrom(name, 0), 0));
    if HasInterfacePrefix(v) then
      var r := "i" + v[2..];
      assert forall i :: 1 <= i < |r| ==> r[i] == v[i + 1];
      r
    else v
  }

  /** The characters of `s` other than underscores. */
  function Letters(s: string): string
  {
    if s == [] then [] else (if s[0] == '_' then [] else [s[0]]) + Letters(s[1..])
  }

  lemma LettersAppend(a: string, b: string)
    ensures Letters(a + b) == Letters(a) + Letters(b)
  {
    if a != [] {
      assert (a + b)[1..] == a[1..] + b;
      LettersAppend(a[1..], b);
    } else {
      assert a + b == b;
    }
  }

  lemma {:induction false} FirstCapKeepsLetters(s: string, i: nat)
    requires i <= |s|
    ensures Letters(FirstCapFrom(s, i)) == Letters(s[i..])
    decreases |s| - i
  {
    if FirstCapMatchAt(s, i) {
      var k := LowerRunEnd(s, i + 3);
      FirstCapKeepsLetters(s, k);
      LettersAppend([s[i], '_'] + s[i + 1..k], FirstCapFrom(s, k));
      LettersAppend([s[i], '_'], s[i + 1..k]);
      LettersAppend([s[i]], ['_']);
      LettersAppend([s[i]], s[i + 1..k]);
      LettersAppend(s[i..k], s[k..]);
      assert s[i..k] == [s[i]] + s[i + 1..k];
      assert s[i..] == s[i..k] + s[k..];
    } else if i < |s| {
      FirstCapKeepsLetters(s, i + 1);
      LettersAppend([s[i]], FirstCapFrom(s, i + 1));
      LettersAppend([s[i]], s[i + 1..]);
      assert s[i..] == [s[i]] + s[i + 1..];
    }
  }

  lemma {:induction false} AllCapKeepsLetters(s: string, i: nat)
    requires i <= |s|
    ensures Letters(AllCapFrom(s, i)) == Letters(s[i..])
    decreases |s| - i
  {
    if AllCapMatchAt(s, i) {
      AllCapKeepsLetters(s, i + 2);
      LettersAppend([s[i], '_', s[i + 1]], AllCapFrom(s, i + 2));
      LettersAppend([s[i], s[i + 1]], s[i + 2..]);
      assert s[i..] == [s[i], s[i + 1]] + s[i + 2..];
    } else if i < |s| {
      AllCapKeepsLetters(s, i + 1);
      LettersAppend([s[i]], AllCapFrom(s, i + 1));
      LettersAppend([s[i]], s[i + 1..]);
      assert s[i..] == [s[i]] + s[i + 1..];
    }
  }

  lemma {:induction false} LowerCommutesWithLetters(s: string)
    ensures Letters(Lower(s)) == Lower(Letters(s))
  {
    if s != [] {
      LowerCommutesWithLetters(s[1..]);
      var l := Lower(s);
      assert l[1..] == Lower(s[1..]);
      assert (LowerChar(s[0]) == '_') == (s[0] == '_');
      if s[0] != '_' {
        var rest := Letters(s[1..]);
        assert Letters(s) == [s[0]] + rest;
        assert Lower([s[0]] + rest) == [LowerChar(s[0])] + Lower(rest);
        assert Letters(l) == [LowerChar(s[0])] + Letters(l[1..]);
      } else {
        assert Letters(l) == Letters(l[1..]);
        assert Letters(s) == Letters(s[1..]);
      }
    }
  }

  /** The canonical name only inserts or drops underscores: with the underscores taken out
      it is the lower-cased original. */
  lemma StandardNameKeepsLetters(name: string)
    ensures Letters(ToStandardParamName(name)) == Lower(Letters(name))
  {
    var v := Lower(AllCapFrom(FirstCapFrom(name, 0), 0));
    FirstCapKeepsLetters(name, 0);
    AllCapKeepsLetters(FirstCapFrom(name, 0), 0);
    assert name[0..] == name;
    assert FirstCapFrom(name, 0)[0..] == FirstCapFrom(name, 0);
    LowerCommutesWithLetters(AllCapFrom(FirstCapFrom(name, 0), 0));
    if HasInterfacePrefix(v) {
      assert v == "i_" + v[2..];
      LettersAppend("i_", v[2..]);
      LettersAppend("i", v[2..]);
    }
  }

  /** The first pass copies unchanged a stretch where `(.)([A-Z][a-z]+)` does not match. */
  lemma {:induction false} FirstCapCopies(s: string, i: nat, j: nat)
    requires i <= j <= |s|
    requires forall k :: i <= k < j ==> !FirstCapMatchAt(s, k)
    ensures FirstCapFrom(s, i) == s[i..j] + FirstCapFrom(s, j)
    decreases j - i
  {
    if i < j {
      FirstCapCopies(s, i + 1, j);
      assert s[i..j] == [s[i]] + s[i + 1..j];
    }
  }

  /** The second pass copies unchanged a stretch where `([a-z0-9])([A-Z])` does not match. */
  lemma {:induction false} AllCapCopies(s: string, i: nat, j: nat)
    requires i <= j <= |s|
    requires forall k :: i <= k < j ==> !AllCapMatchAt(s, k)
    ensures AllCapFrom(s, i) == s[i..j] + AllCapFrom(s, j)
    decreases j - i
  {
    if i < j {
      AllCapCopies(s, i + 1, j);
      assert s[i..j] == [s[i]] + s[i + 1..j];
    }
  }

  /** The first pass copies the rest of a name from `i` on when nothing there matches. */
  lemma FirstCapCopiesRest(s: string, i: nat)
    requires i <= |s|
    requires forall k :: i <= k < |s| ==> !FirstCapMatchAt(s, k)
    ensures FirstCapFrom(s, i) == s[i..]
  {
    FirstCapCopies(s, i, |s|);
    assert s[i..|s|] == s[i..];
  }

  /** The second pass copies the rest of a name from `i` on when nothing there matches. */
  lemma AllCapCopiesRest(s: string, i: nat)
    requires i <= |s|
    requires forall k :: i <= k < |s| ==> !AllCapMatchAt(s, k)
    ensures AllCapFrom(s, i) == s[i..]
  {
    AllCapCopies(s, i, |s|);
    assert s[i..|s|] == s[i..];
  }

  /** Where `(.)([A-Z][a-z]+)` never matches, the first pass changes nothing. */
  lemma FirstCapUnchanged(s: string)
    requires forall k :: 0 <= k < |s| ==> !FirstCapMatchAt(s, k)
    ensures FirstCapFrom(s, 0) == s
  {
    FirstCapCopiesRest(s, 0);
    assert s[0..] == s;
  }

  /** Where `([a-z0-9])([A-Z])` never matches, the second pass changes nothing. */
  lemma AllCapUnchanged(s: string)
    requires forall k :: 0 <= k < |s| ==> !AllCapMatchAt(s, k)
    ensures AllCapFrom(s, 0) == s
  {
    AllCapCopiesRest(s, 0);
    assert s[0..] == s;
  }

  /** What the first pass emits at a match: the character, an underscore, the capitalised
      word, then the pass resumes after the word. */
  lemma FirstCapAt(s: string, i: nat)
    requires FirstCapMatchAt(s, i)
    ensures var e := LowerRunEnd(s, i + 3);
      FirstCapFrom(s, i) == [s[i], '_'] + s[i + 1..e] + FirstCapFrom(s, e)
  {
  }

  /** What the second pass emits at a match: the two characters with an underscore between
      them, then the pass resumes after the second. */
  lemma AllCapAt(s: string, i: nat)
    requires AllCapMatchAt(s, i)
    ensures AllCapFrom(s, i) == [s[i], '_'] + s[i + 1..i + 2] + AllCapFrom(s, i + 2)
  {
    assert [s[i], '_', s[i + 1]] == [s[i], '_'] + s[i + 1..i + 2];
  }

  /** Splicing one underscore after `s[i]`, written the way the passes build it. */
  lemma SpliceAfter(s: string, i: nat, inserted: string, e: nat, before: string, after: string)
    requires i < e <= |s| && inserted == [s[i], '_'] + s[i + 1..e]
    requires s == before + after && |before| == i + 1
    ensures s[0..i] + (inserted + s[e..]) == before + "_" + after
  {
    assert before == s[0..i] + [s[i]];
    assert after == s[i + 1..e] + s[e..];
  }

  /** A single match of `(.)([A-Z][a-z]+)`, at `i`, with none before it and none from the end
      of the capitalised word on: the first pass puts one underscore after `s[i]`, between
      `before` (the name up to and including `s[i]`) and `after` (the rest). */
  lemma FirstCapOneMatch(s: string, i: nat, before: string, after: string)
    requires s == before + after && |before| == i + 1
    requires FirstCapMatchAt(s, i)
    requires forall k :: 0 <= k < i ==> !FirstCapMatchAt(s, k)
    requires forall k :: LowerRunEnd(s, i + 3) <= k < |s| ==> !FirstCapMatchAt(s, k)
    ensures FirstCapFrom(s, 0) == before + "_" + after
  {
    var e := LowerRunEnd(s, i + 3);
    FirstCapCopies(s, 0, i);
    FirstCapAt(s, i);
    FirstCapCopiesRest(s, e);
    SpliceAfter(s, i, [s[i], '_'] + s[i + 1..e], e, before, after);
  }

  /** A single match of `([a-z0-9])([A-Z])`, at `i`, with none before it or after it: the
      second pass puts one underscore after `s[i]`, between `before` and `after`. */
  lemma AllCapOneMatch(s: string, i: nat, before: string, after: string)
    requires s == before + after && |before| == i + 1
    requires AllCapMatchAt(s, i)
    requires forall k :: 0 <= k < i ==> !AllCapMatchAt(s, k)
    requires forall k :: i + 2 <= k < |s| ==> !AllCapMatchAt(s, k)
    ensures AllCapFrom(s, 0) == before + "_" + after
  {
    AllCapCopies(s, 0, i);
    AllCapAt(s, i);
    AllCapCopiesRest(s, i + 2);
    SpliceAfter(s, i, [s[i], '_'] + s[i + 1..i + 2], i + 2, before, after);
  }

  /** A name that is already snake case (no capitals, no leading `i_`) is its own
      canonical name, so parameter names such as `cats_controller` match directly. */
  lemma SnakeNameIsFixed(name: string)
    requires forall i :: 0 <= i < |name| ==> !IsUpper(name[i])
    requires !HasInterfacePrefix(name)
    ensures ToStandardParamName(name) == name
  {
    FirstCapUnchanged(name);
    AllCapUnchanged(name);
  }

  /** The name a conversion gives, from the outcome of each of its passes. */
  lemma ByPasses(name: string, first: string, second: string, lowered: string)
    requires FirstCapFrom(name, 0) == first && AllCapFrom(first, 0) == second && Lower(second) == lowered
    ensures ToStandardParamName(name) == if HasInterfacePrefix(lowered) then "i" + lowered[2..] else lowered
  {
  }
}
