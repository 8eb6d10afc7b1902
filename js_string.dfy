/**
 * The JavaScript string and array built-ins the task routes and the voice
 * recorder rely on: `trim`, `toLowerCase`, `includes`, `split`, `join`,
 * `Array.prototype.find`, and `replace` with a global regular expression
 * made of literal alternatives.
 */
module JsString {
  import opened Wrappers

  /** ECMAScript LineTerminator: what `.` in a regular expression does not match. */
  predicate IsLineTerminator(c: char) {
    c == '\n' || c == '\r' || c == '\U{2028}' || c == '\U{2029}'
  }

  /** ECMAScript WhiteSpace and LineTerminator: what `trim` removes and `\s` matches. */
  predicate IsWhite(c: char) {
    || IsLineTerminator(c)
    || c == '\t' || c == '\U{B}' || c == '\U{C}' || c == ' ' || c == '\U{A0}' || c == '\U{FEFF}'
    || c == '\U{1680}' || ('\U{2000}' <= c <= '\U{200A}') || c == '\U{202F}' || c == '\U{205F}'
    || c == '\U{3000}'
  }

  /** Lower-casing of one character; only the ASCII letters change. */
  function LowerChar(c: char): char {
    if 'A' <= c <= 'Z' then (c as int + 32) as char else c
  }

  /** `toLowerCase`, restricted to ASCII letters. */
  function Lower(s: string): (r: string)
    ensures |r| == |s|
    ensures forall i :: 0 <= i < |s| ==> r[i] == LowerChar(s[i])
  {
    seq(|s|, i requires 0 <= i < |s| => LowerChar(s[i]))
  }

  /** Lowering a slice is slicing the lowered text. */
  lemma LowerSlice(s: string, i: nat, j: nat)
    requires i <= j <= |s|
    ensures Lower(s)[i..j] == Lower(s[i..j])
  {
    assert forall k | 0 <= k < j - i :: Lower(s)[i..j][k] == LowerChar(s[i + k]) == Lower(s[i..j])[k];
  }

  /** Lowered text is lowered already. */
  lemma LowerTwice(s: string)
    ensures Lower(Lower(s)) == Lower(s)
  {
    assert forall k | 0 <= k < |s| :: Lower(Lower(s))[k] == LowerChar(LowerChar(s[k])) == LowerChar(s[k]);
  }

  function TrimStart(s: string): (r: string)
    ensures |r| <= |s| && r == s[|s| - |r|..]
    ensures forall i :: 0 <= i < |s| - |r| ==> IsWhite(s[i])
    ensures r == [] || !IsWhite(r[0])
  {
    if |s| > 0 && IsWhite(s[0]) then TrimStart(s[1..]) else s
  }

  function TrimEnd(s: string): (r: string)
    ensures |r| <= |s| && r == s[..|r|]
    ensures forall i :: |r| <= i < |s| ==> IsWhite(s[i])
    ensures r == [] || !IsWhite(r[|r| - 1])
  {
    if |s| > 0 && IsWhite(s[|s| - 1]) then TrimEnd(s[..|s| - 1]) else s
  }

  /** `trim`: the result neither starts nor ends with white space, and it is empty exactly when `s` is all white space. */
  function Trim(s: string): (r: string)
    ensures |r| <= |s|
    ensures r == [] || (!IsWhite(r[0]) && !IsWhite(r[|r| - 1]))
    ensures r == [] <==> forall i :: 0 <= i < |s| ==> IsWhite(s[i])
  {
    var t := TrimStart(s);
    assert t == [] ==> forall i :: 0 <= i < |s| ==> IsWhite(s[i]);
    TrimEnd(t)
  }

  /** `t` occurs in `s` at index `i`. */
  predicate OccursAt(s: string, t: string, i: int) {
    0 <= i && i + |t| <= |s| && s[i..i + |t|] == t
  }

  /** `includes`. */
  predicate Contains(s: string, t: string) {
    exists i | 0 <= i <= |s| - |t| :: OccursAt(s, t, i)
  }

  lemma ContainsEmpty(s: string)
    ensures Contains(s, "")
  {
    assert OccursAt(s, "", 0);
  }

  /** An occurrence stays an occurrence when text is added on either side. */
  lemma ContainsWithin(a: string, s: string, b: string, t: string)
    requires Contains(s, t)
    ensures Contains(a + s + b, t)
  {
    var i :| 0 <= i <= |s| - |t| && OccursAt(s, t, i);
    var u := a + s + b;
    forall k | 0 <= k < |t|
      ensures u[|a| + i + k] == t[k]
    {
      assert t[k] == s[i..i + |t|][k] == s[i + k];
    }
    assert u[|a| + i..|a| + i + |t|] == t;
    assert OccursAt(u, t, |a| + i);
  }

  lemma ContainsTransitive(s: string, t: string, u: string)
    requires Contains(s, t) && Contains(t, u)
    ensures Contains(s, u)
  {
    var i :| 0 <= i <= |s| - |t| && OccursAt(s, t, i);
    var j :| 0 <= j <= |t| - |u| && OccursAt(t, u, j);
    forall k | 0 <= k < |u|
      ensures s[i + j + k] == u[k]
    {
      assert u[k] == t[j..j + |u|][k] == t[j + k] == s[i..i + |t|][j + k];
    }
    assert s[i + j..i + j + |u|] == u;
    assert OccursAt(s, u, i + j);
  }

  /** An occurrence of `t` in `a + [c] + b` lies in `a` or in `b` when `c` is not a character of `t`. */
  lemma ContainsAcross(a: string, c: char, b: string, t: string)
    requires c !in t && Contains(a + [c] + b, t)
    ensures Contains(a, t) || Contains(b, t)
  {
    var s := a + [c] + b;
    var i :| 0 <= i <= |s| - |t| && OccursAt(s, t, i);
    if i + |t| <= |a| {
      assert a[i..i + |t|] == s[i..i + |t|];
      assert OccursAt(a, t, i);
    } else if i > |a| {
      assert b[i - |a| - 1..i - |a| - 1 + |t|] == s[i..i + |t|];
      assert OccursAt(b, t, i - |a| - 1);
    } else {
      CharOfOccurrence(s, t, i, |a| - i);
      assert false;
    }
  }

  lemma CharOfOccurrence(s: string, t: string, i: int, k: int)
    requires OccursAt(s, t, i) && 0 <= k < |t|
    ensures s[i + k] in t
  {
    assert s[i + k] == s[i..i + |t|][k] == t[k];
  }

  /** The trimmed string is a piece of the original. */
  lemma TrimIsSubstring(s: string)
    ensures Contains(s, Trim(s))
  {
    var i, j := TrimIsSlice(s);
    var r := Trim(s);
    assert |r| == j - i;
    assert s[i..i + |r|] == r;
    assert OccursAt(s, r, i);
  }

  /** Text that neither starts nor ends with white space is its own trim. */
  lemma TrimUnpadded(s: string)
    requires |s| > 0 && !IsWhite(s[0]) && !IsWhite(s[|s| - 1])
    ensures Trim(s) == s
  {
    assert TrimStart(s) == s;
  }

  /** `!s.trim()`: every character is white space. */
  predicate Blank(s: string) {
    |s| == 0 || (IsWhite(s[0]) && Blank(s[1..]))
  }

  /** A string is blank exactly when it trims to nothing. */
  lemma {:induction false} BlankIffTrimEmpty(s: string)
    ensures Blank(s) <==> Trim(s) == ""
  {
    if |s| > 0 {
      BlankIffTrimEmpty(s[1..]);
      assert forall i | 0 <= i < |s[1..]| :: s[1..][i] == s[i + 1];
    }
  }

  /** Trimming twice trims nothing more. */
  lemma TrimIdempotent(s: string)
    ensures Trim(Trim(s)) == Trim(s)
  {
    var r := Trim(s);
    assert TrimStart(r) == r;
    assert TrimEnd(r) == r;
  }

  /** White space added at the ends of a string does not survive `trim`. */
  lemma {:induction false} TrimPadded(c: char, x: string, d: char)
    requires IsWhite(c) && IsWhite(d)
    ensures Trim([c] + x + [d]) == Trim(x)
    ensures Trim([c] + x) == Trim(x)
  {
    assert ([c] + x + [d])[1..] == x + [d];
    assert ([c] + x)[1..] == x;
    TrimEndWhiteTail(x, d);
  }

  lemma {:induction false} TrimEndWhiteTail(y: string, d: char)
    requires IsWhite(d)
    ensures TrimEnd(TrimStart(y + [d])) == TrimEnd(TrimStart(y))
    decreases |y|
  {
    if |y| == 0 {
      assert TrimStart([d]) == TrimStart([d][1..]);
    } else if IsWhite(y[0]) {
      assert (y + [d])[1..] == y[1..] + [d];
      TrimEndWhiteTail(y[1..], d);
    } else {
      assert TrimStart(y + [d]) == y + [d];
      assert (y + [d])[..|y|] == y;
    }
  }

  /** Lowering commutes with trimming, since it never touches white space. */
  lemma LowerTrimmed(s: string)
    ensures Lower(Trim(Lower(s))) == Trim(Lower(s))
  {
    var i, j := TrimIsSlice(Lower(s));
    LowerFixesLowered(Trim(Lower(s)), s, i, j);
  }

  /** The trim of `s` is the slice `s[i..j]`. */
  lemma TrimIsSlice(s: string) returns (i: nat, j: nat)
    ensures i <= j <= |s| && Trim(s) == s[i..j]
  {
    var t := TrimStart(s);
    var r := TrimEnd(t);
    assert Trim(s) == r;
    i := |s| - |t|;
    j := i + |r|;
    assert t == s[i..];
    assert r == t[..|r|];
    assert s[i..j] == s[i..][..|r|];
  }

  /** A slice of lowered text is lowered already. */
  lemma LowerFixesLowered(t: string, s: string, i: nat, j: nat)
    requires i <= j <= |s| && t == Lower(s)[i..j]
    ensures Lower(t) == t
  {
    LowerSlice(s, i, j);
    LowerTwice(s[i..j]);
  }

  /** `split` with a one-character separator, as JavaScript does it: `"".split(" ")` is `[""]` and two adjacent separators give an empty piece. */
  function Split(s: string, sep: char): (r: seq<string>)
    ensures |r| >= 1
    ensures forall k :: 0 <= k < |r| ==> sep !in r[k]
  {
    if |s| == 0 then [""]
    else
      var rest := Split(s[1..], sep);
      if s[0] == sep then [""] + rest
      else [[s[0]] + rest[0]] + rest[1..]
  }

  /** `Array.prototype.join`. */
  function Join(parts: seq<string>, sep: string): string {
    if |parts| == 0 then ""
    else if |parts| == 1 then parts[0]
    else parts[0] + sep + Join(parts[1..], sep)
  }

  /** Joining the pieces of a split with the separator gives back the original string. */
  lemma {:induction false} JoinSplit(s: string, sep: char)
    ensures Join(Split(s, sep), [sep]) == s
  {
    if |s| > 0 {
      var rest := Split(s[1..], sep);
      JoinSplit(s[1..], sep);
      if s[0] == sep {
        assert Split(s, sep) == [""] + rest;
        assert ([""] + rest)[1..] == rest;
      } else {
        var parts := Split(s, sep);
        assert parts[1..] == rest[1..];
        if |rest| > 1 {
          assert Join(rest, [sep]) == rest[0] + [sep] + Join(rest[1..], [sep]);
        }
      }
    }
  }

  /** Every element of a list is a piece of its join. */
  lemma {:induction false} JoinContainsEach(parts: seq<string>, sep: string, k: nat)
    requires k < |parts|
    ensures Contains(Join(parts, sep), parts[k])
  {
    if |parts| == 1 {
      ContainsWithin("", parts[0], "", parts[0]) by { assert OccursAt(parts[0], parts[0], 0); }
      assert "" + parts[0] + "" == parts[0];
    } else if k == 0 {
      assert OccursAt(parts[0], parts[0], 0);
      ContainsWithin("", parts[0], sep + Join(parts[1..], sep), parts[0]);
      assert "" + parts[0] + (sep + Join(parts[1..], sep)) == Join(parts, sep);
    } else {
      JoinContainsEach(parts[1..], sep, k - 1);
      ContainsWithin(parts[0] + sep, Join(parts[1..], sep), "", parts[k]);
      assert parts[0] + sep + Join(parts[1..], sep) + "" == Join(parts, sep);
    }
  }

  /** Every piece of a split is a piece of the split string. */
  lemma SplitPieceContained(s: string, sep: char, k: nat)
    requires k < |Split(s, sep)|
    ensures Contains(s, Split(s, sep)[k])
  {
    JoinSplit(s, sep);
    JoinContainsEach(Split(s, sep), [sep], k);
  }

  /** A separator-free prefix of `s` is a prefix of the first piece of its split. */
  lemma {:induction false} PrefixInFirstPiece(s: string, sep: char, w: string)
    requires sep !in w && OccursAt(s, w, 0)
    ensures OccursAt(Split(s, sep)[0], w, 0)
    decreases |s|
  {
    if |w| > 0 {
      assert w[0] == s[0];
      var rest := Split(s[1..], sep);
      assert s[1..][0..|w| - 1] == w[1..];
      PrefixInFirstPiece(s[1..], sep, w[1..]);
      assert Split(s, sep)[0] == [s[0]] + rest[0];
      assert w == [w[0]] + w[1..];
    }
  }

  /** A separator-free piece of `s` lies inside one piece of `s`'s split. */
  lemma {:induction false} SplitCovers(s: string, sep: char, w: string)
    requires sep !in w && Contains(s, w)
    ensures exists k :: 0 <= k < |Split(s, sep)| && Contains(Split(s, sep)[k], w)
    decreases |s|
  {
    var parts := Split(s, sep);
    var i :| 0 <= i <= |s| - |w| && OccursAt(s, w, i);
    if |w| == 0 {
      ContainsEmpty(parts[0]);
    } else if i == 0 {
      PrefixInFirstPiece(s, sep, w);
      assert 0 <= 0 <= |parts[0]| - |w|;
      assert Contains(parts[0], w);
    } else {
      assert s[1..][i - 1..i - 1 + |w|] == s[i..i + |w|];
      assert OccursAt(s[1..], w, i - 1);
      SplitCovers(s[1..], sep, w);
      var rest := Split(s[1..], sep);
      var k :| 0 <= k < |rest| && Contains(rest[k], w);
      if s[0] == sep {
        assert parts[k + 1] == rest[k];
      } else if k == 0 {
        ContainsWithin([s[0]], rest[0], "", w);
        assert [s[0]] + rest[0] + "" == parts[0];
      } else {
        assert parts[k] == rest[k];
      }
    }
  }

  /** `Array.prototype.find`, as the index of the first element satisfying `p`. */
  function Find<T>(xs: seq<T>, p: T -> bool): (r: Option<nat>)
    ensures r.Some? ==> r.value < |xs| && p(xs[r.value])
    ensures r.Some? ==> forall j :: 0 <= j < r.value ==> !p(xs[j])
    ensures r.None? ==> forall j :: 0 <= j < |xs| ==> !p(xs[j])
  {
    if |xs| == 0 then None
    else if p(xs[0]) then Some(0)
    else match Find(xs[1..], p)
      case Some(k) => Some(k + 1)
      case None => None
  }

  /** One character as a regular expression compares it, with or without the `i` flag. */
  function FoldChar(c: char, ignoreCase: bool): char {
    if ignoreCase then LowerChar(c) else c
  }

  /** The literal `w` (written in lower case) matches `s` at index `i`. */
  predicate MatchesAt(s: string, i: nat, w: string, ignoreCase: bool) {
    i + |w| <= |s| && forall k :: 0 <= k < |w| ==> FoldChar(s[i + k], ignoreCase) == w[k]
  }

  /** The length of the first alternative, in order, that matches at the start of `s`. */
  function WordAtStart(s: string, words: seq<string>, ignoreCase: bool): (r: Option<nat>)
    requires forall w <- words :: |w| > 0
    ensures r.Some? ==> 0 < r.value <= |s|
  {
    if |words| == 0 then None
    else if MatchesAt(s, 0, words[0], ignoreCase) then Some(|words[0]|)
    else WordAtStart(s, words[1..], ignoreCase)
  }

  /**
   * Alternation: `WordAtStart` finds nothing exactly when no alternative
   * matches, and otherwise the length of the first alternative that does.
   */
  lemma {:induction false} WordAtStartFirst(s: string, words: seq<string>, ignoreCase: bool)
    requires forall w <- words :: |w| > 0
    ensures WordAtStart(s, words, ignoreCase).None? <==> forall j | 0 <= j < |words| :: !MatchesAt(s, 0, words[j], ignoreCase)
    ensures WordAtStart(s, words, ignoreCase).Some? ==>
      exists j | 0 <= j < |words| ::
        && MatchesAt(s, 0, words[j], ignoreCase) && |words[j]| == WordAtStart(s, words, ignoreCase).value
        && forall i | 0 <= i < j :: !MatchesAt(s, 0, words[i], ignoreCase)
  {
    if |words| > 0 && !MatchesAt(s, 0, words[0], ignoreCase) {
      var rest := words[1..];
      WordAtStartFirst(s, rest, ignoreCase);
      assert forall j | 0 <= j < |rest| :: rest[j] == words[j + 1];
      if WordAtStart(s, rest, ignoreCase).Some? {
        var j :| 0 <= j < |rest| && MatchesAt(s, 0, rest[j], ignoreCase) && |rest[j]| == WordAtStart(s, rest, ignoreCase).value
          && forall i | 0 <= i < j :: !MatchesAt(s, 0, rest[i], ignoreCase);
        assert forall i | 0 <= i < j + 1 :: !MatchesAt(s, 0, words[i], ignoreCase) by {
          forall i | 0 <= i < j + 1 ensures !MatchesAt(s, 0, words[i], ignoreCase) {
            if i > 0 { assert words[i] == rest[i - 1]; }
          }
        }
      }
    }
  }

  /** `s.replace(/w1|w2|.../g, "")` for literal alternatives (with the `i` flag when `ignoreCase`). */
  function RemoveAll(s: string, words: seq<string>, ignoreCase: bool): (r: string)
    requires forall w <- words :: |w| > 0
    ensures |r| <= |s|
    decreases |s|
  {
    if |s| == 0 then ""
    else match WordAtStart(s, words, ignoreCase)
      case Some(n) => RemoveAll(s[n..], words, ignoreCase)
      case None => [s[0]] + RemoveAll(s[1..], words, ignoreCase)
  }

  /** Text in which no alternative matches anywhere is left as it is. */
  lemma {:induction false} RemoveAllUntouched(s: string, words: seq<string>, ignoreCase: bool)
    requires forall w <- words :: |w| > 0
    requires forall i: nat, w | w in words :: !MatchesAt(s, i, w, ignoreCase)
    ensures RemoveAll(s, words, ignoreCase) == s
    decreases |s|
  {
    if |s| > 0 {
      WordAtStartFirst(s, words, ignoreCase);
      forall i: nat, w | w in words
        ensures !MatchesAt(s[1..], i, w, ignoreCase)
      {
        if MatchesAt(s[1..], i, w, ignoreCase) {
          assert MatchesAt(s, i + 1, w, ignoreCase);
        }
      }
      RemoveAllUntouched(s[1..], words, ignoreCase);
      assert s == [s[0]] + s[1..];
    }
  }

  /** No alternative starts with the character `x`. */
  predicate StartsNoWord(x: char, words: seq<string>, ignoreCase: bool) {
    forall w <- words :: |w| > 0 && FoldChar(x, ignoreCase) != w[0]
  }

  /** Characters that start no alternative are copied through. */
  lemma {:induction false} RemoveAllKeepsPrefix(a: string, b: string, words: seq<string>, ignoreCase: bool)
    requires forall w <- words :: |w| > 0
    requires forall x <- a :: StartsNoWord(x, words, ignoreCase)
    ensures RemoveAll(a + b, words, ignoreCase) == a + RemoveAll(b, words, ignoreCase)
    decreases |a|
  {
    if |a| > 0 {
      assert a[0] in a;
      assert forall x <- a[1..] :: x in a;
      RemoveAllKeepsPrefix(a[1..], b, words, ignoreCase);
      KeepsPrefixStep(a, b, words, ignoreCase);
    } else {
      KeepsEmptyPrefix(a, b, words, ignoreCase);
    }
  }

  lemma KeepsPrefixStep(a: string, b: string, words: seq<string>, ignoreCase: bool)
    requires forall w <- words :: |w| > 0
    requires |a| > 0 && StartsNoWord(a[0], words, ignoreCase)
    requires RemoveAll(a[1..] + b, words, ignoreCase) == a[1..] + RemoveAll(b, words, ignoreCase)
    ensures RemoveAll(a + b, words, ignoreCase) == a + RemoveAll(b, words, ignoreCase)
  {
    HeadTail(a, b);
    KeepFirst(a + b, words, ignoreCase);
    ConsAppend(a[0], a[1..], RemoveAll(b, words, ignoreCase));
  }

  lemma HeadTail(a: string, b: string)
    requires |a| > 0
    ensures (a + b)[0] == a[0] && (a + b)[1..] == a[1..] + b && [a[0]] + a[1..] == a
  {
  }

  lemma ConsAppend(x: char, y: string, z: string)
    ensures [x] + (y + z) == ([x] + y) + z
  {
  }

  lemma KeepsEmptyPrefix(a: string, b: string, words: seq<string>, ignoreCase: bool)
    requires forall w <- words :: |w| > 0
    requires |a| == 0
    ensures RemoveAll(a + b, words, ignoreCase) == a + RemoveAll(b, words, ignoreCase)
  {
    assert a + b == b;
    assert a + RemoveAll(b, words, ignoreCase) == RemoveAll(b, words, ignoreCase);
  }

  /** A first character that starts no alternative is copied. */
  lemma KeepFirst(s: string, words: seq<string>, ignoreCase: bool)
    requires forall w <- words :: |w| > 0
    requires |s| > 0 && StartsNoWord(s[0], words, ignoreCase)
    ensures RemoveAll(s, words, ignoreCase) == [s[0]] + RemoveAll(s[1..], words, ignoreCase)
  {
    NoWordAtStart(s, words, ignoreCase);
    RemoveAllStep(s, words, ignoreCase);
  }

  /**
   * Text that starts with alternative `j`, in any case, loses it, provided no
   * earlier alternative starts with the same letter.
   */
  lemma LeadingWordSkipped(lead: string, words: seq<string>, j: nat, b: string)
    requires forall w <- words :: |w| > 0
    requires j < |words| && |lead| == |words[j]| && MatchesAt(lead, 0, words[j], true)
    requires forall i | 0 <= i < j :: words[i][0] != words[j][0]
    ensures RemoveAll(lead + b, words, true) == RemoveAll(b, words, true)
  {
    var s := lead + b;
    assert MatchesAt(s, 0, words[j], true) by {
      forall k | 0 <= k < |lead| ensures FoldChar(s[0 + k], true) == words[j][k] {
        assert s[0 + k] == lead[0 + k];
      }
    }
    forall i | 0 <= i < j
      ensures !MatchesAt(s, 0, words[i], true)
    {
      assert s[0 + 0] == lead[0 + 0];
    }
    WordAtStartFirst(s, words, true);
    var j' :| 0 <= j' < |words| && MatchesAt(s, 0, words[j'], true)
      && |words[j']| == WordAtStart(s, words, true).value
      && forall i | 0 <= i < j' :: !MatchesAt(s, 0, words[i], true);
    assert j' == j;
    RemoveAllStep(s, words, true);
    assert s[|lead|..] == b;
  }

  /** One step of the global replacement. */
  lemma RemoveAllStep(s: string, words: seq<string>, ignoreCase: bool)
    requires forall w <- words :: |w| > 0
    requires |s| > 0
    ensures WordAtStart(s, words, ignoreCase).None?
        ==> RemoveAll(s, words, ignoreCase) == [s[0]] + RemoveAll(s[1..], words, ignoreCase)
    ensures WordAtStart(s, words, ignoreCase).Some?
        ==> RemoveAll(s, words, ignoreCase) == RemoveAll(s[WordAtStart(s, words, ignoreCase).value..], words, ignoreCase)
  {
  }

  lemma NoWordAtStart(s: string, words: seq<string>, ignoreCase: bool)
    requires forall w <- words :: |w| > 0
    requires |s| > 0 && forall w <- words :: FoldChar(s[0], ignoreCase) != w[0]
    ensures WordAtStart(s, words, ignoreCase).None?
  {
    forall j | 0 <= j < |words|
      ensures !MatchesAt(s, 0, words[j], ignoreCase)
    {
      assert words[j] in words;
      assert FoldChar(s[0 + 0], ignoreCase) != words[j][0];
    }
    WordAtStartFirst(s, words, ignoreCase);
  }

  /** A character that occurs in no alternative splits the removal into two independent halves. */
  lemma {:induction false} RemoveAllSeparated(a: string, c: char, b: string, words: seq<string>, ignoreCase: bool)
    requires forall w <- words :: |w| > 0
    requires forall w <- words :: FoldChar(c, ignoreCase) !in w
    ensures RemoveAll(a + [c] + b, words, ignoreCase)
         == RemoveAll(a, words, ignoreCase) + [c] + RemoveAll(b, words, ignoreCase)
    decreases |a|
  {
    if |a| == 0 {
      SeparatedEmpty(a, c, b, words, ignoreCase);
    } else {
      match WordAtStart(a, words, ignoreCase)
      case Some(n) =>
        RemoveAllSeparated(a[n..], c, b, words, ignoreCase);
        SeparatedSkip(a, c, b, words, ignoreCase);
      case None =>
        RemoveAllSeparated(a[1..], c, b, words, ignoreCase);
        SeparatedKeep(a, c, b, words, ignoreCase);
    }
  }

  lemma SeparatedEmpty(a: string, c: char, b: string, words: seq<string>, ignoreCase: bool)
    requires forall w <- words :: |w| > 0
    requires forall w <- words :: FoldChar(c, ignoreCase) !in w
    requires |a| == 0
    ensures RemoveAll(a + [c] + b, words, ignoreCase)
         == RemoveAll(a, words, ignoreCase) + [c] + RemoveAll(b, words, ignoreCase)
  {
    assert a + [c] + b == [c] + b;
    assert RemoveAll(a, words, ignoreCase) == [];
    RemoveAllAfterSeparator(c, b, words, ignoreCase);
    assert [] + [c] + RemoveAll(b, words, ignoreCase) == [c] + RemoveAll(b, words, ignoreCase);
  }

  lemma SeparatedSkip(a: string, c: char, b: string, words: seq<string>, ignoreCase: bool)
    requires forall w <- words :: |w| > 0
    requires forall w <- words :: FoldChar(c, ignoreCase) !in w
    requires WordAtStart(a, words, ignoreCase).Some?
    requires var n := WordAtStart(a, words, ignoreCase).value;
      RemoveAll(a[n..] + [c] + b, words, ignoreCase)
        == RemoveAll(a[n..], words, ignoreCase) + [c] + RemoveAll(b, words, ignoreCase)
    ensures RemoveAll(a + [c] + b, words, ignoreCase)
         == RemoveAll(a, words, ignoreCase) + [c] + RemoveAll(b, words, ignoreCase)
  {
    var n := WordAtStart(a, words, ignoreCase).value;
    SameWordAtStart(a, c, b, words, ignoreCase);
    SeparatedSlices(a, c, b, n);
    RemoveAllStep(a + [c] + b, words, ignoreCase);
    RemoveAllStep(a, words, ignoreCase);
  }

  lemma SeparatedKeep(a: string, c: char, b: string, words: seq<string>, ignoreCase: bool)
    requires forall w <- words :: |w| > 0
    requires forall w <- words :: FoldChar(c, ignoreCase) !in w
    requires |a| > 0 && WordAtStart(a, words, ignoreCase).None?
    requires RemoveAll(a[1..] + [c] + b, words, ignoreCase)
        == RemoveAll(a[1..], words, ignoreCase) + [c] + RemoveAll(b, words, ignoreCase)
    ensures RemoveAll(a + [c] + b, words, ignoreCase)
         == RemoveAll(a, words, ignoreCase) + [c] + RemoveAll(b, words, ignoreCase)
  {
    SameWordAtStart(a, c, b, words, ignoreCase);
    SeparatedSlices(a, c, b, 1);
    RemoveAllStep(a + [c] + b, words, ignoreCase);
    RemoveAllStep(a, words, ignoreCase);
    ConsAssoc(a[0], RemoveAll(a[1..], words, ignoreCase), c, RemoveAll(b, words, ignoreCase));
  }

  lemma ConsAssoc(x: char, t: string, c: char, u: string)
    ensures [x] + (t + [c] + u) == [x] + t + [c] + u
  {
  }

  lemma SeparatedSlices(a: string, c: char, b: string, n: nat)
    requires 0 < n <= |a|
    ensures (a + [c] + b)[0] == a[0]
    ensures (a + [c] + b)[n..] == a[n..] + [c] + b
  {
  }

  lemma RemoveAllAfterSeparator(c: char, b: string, words: seq<string>, ignoreCase: bool)
    requires forall w <- words :: |w| > 0
    requires forall w <- words :: FoldChar(c, ignoreCase) !in w
    ensures RemoveAll([c] + b, words, ignoreCase) == [c] + RemoveAll(b, words, ignoreCase)
  {
    var s := [c] + b;
    forall w <- words
      ensures FoldChar(s[0], ignoreCase) != w[0]
    {
      assert w[0] in w;
    }
    NoWordAtStart(s, words, ignoreCase);
    RemoveAllStep(s, words, ignoreCase);
    assert s[1..] == b;
  }

  lemma {:induction false} SameWordAtStart(a: string, c: char, b: string, words: seq<string>, ignoreCase: bool)
    requires forall w <- words :: |w| > 0
    requires forall w <- words :: FoldChar(c, ignoreCase) !in w
    ensures WordAtStart(a + [c] + b, words, ignoreCase) == WordAtStart(a, words, ignoreCase)
  {
    var s := a + [c] + b;
    if |words| > 0 {
      var w := words[0];
      assert w in words;
      if MatchesAt(s, 0, w, ignoreCase) && |w| > |a| {
        MatchedChar(s, 0, w, ignoreCase, |a|);
        assert false;
      }
      if |w| <= |a| {
        assert forall k :: 0 <= k < |w| ==> s[k] == a[k];
      }
      assert MatchesAt(s, 0, w, ignoreCase) == MatchesAt(a, 0, w, ignoreCase);
      SameWordAtStart(a, c, b, words[1..], ignoreCase);
    }
  }

  lemma MatchedChar(s: string, i: nat, w: string, ignoreCase: bool, k: nat)
    requires MatchesAt(s, i, w, ignoreCase) && k < |w|
    ensures FoldChar(s[i + k], ignoreCase) in w
  {
    assert FoldChar(s[i + k], ignoreCase) == w[k];
  }
}
