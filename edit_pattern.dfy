/**
 * The client's edit command pattern `(?:edit|change)\s+task\s+(.+?)\s+to\s+(.+)`
 * with the `i` flag, as `String.prototype.match` applies it: the first match
 * in the order a backtracking matcher tries them.
 *
 * `\s` is ECMAScript white space (line terminators included), `.` is any
 * character but a line terminator, and the `i` flag folds ASCII letters only
 * (a non-ASCII character never folds onto an ASCII one without the `u` flag).
 */
module EditPattern {
  import opened Wrappers
  import opened JsString

  /** `s[i..j]` is white space throughout: the white run from `i` reaches `j` (see `AllWhiteMeans`). */
  predicate AllWhite(s: string, i: nat, j: nat) {
    i <= j <= |s| && j <= WhiteEnd(s, i)
  }

  /** `s[i..j]` holds no line terminator, so `.` matches each of its characters (see `NoBreakMeans`). */
  predicate NoBreak(s: string, i: nat, j: nat) {
    i <= j <= |s| && j <= LineEnd(s, i)
  }

  /**
   * The positions of one match: the keyword at `start`, "task" at `taskAt`,
   * the old name in `s[oldFrom..oldTo]`, "to" at `toAt` and the new name in
   * `s[newFrom..newTo]`.
   */
  datatype Match = Match(
    start: nat, keywordEnd: nat, taskAt: nat,
    oldFrom: nat, oldTo: nat, toAt: nat,
    newFrom: nat, newTo: nat)

  predicate Keyword(s: string, start: nat, keywordEnd: nat) {
    || (MatchesAt(s, start, "edit", true) && keywordEnd == start + 4)
    || (MatchesAt(s, start, "change", true) && keywordEnd == start + 6)
  }

  /** `m` is a way for the whole pattern to match `s`. */
  predicate IsMatch(s: string, m: Match) {
    && Keyword(s, m.start, m.keywordEnd)
    && m.keywordEnd < m.taskAt && AllWhite(s, m.keywordEnd, m.taskAt)
    && MatchesAt(s, m.taskAt, "task", true)
    && RestOk(s, m.taskAt + 4, m.oldFrom, m.oldTo, m.toAt, m.newFrom, m.newTo)
  }

  /** `\s+(.+?)\s+to\s+(.+)` matches from `taskEnd` with these positions. */
  predicate RestOk(s: string, taskEnd: nat, oldFrom: nat, oldTo: nat, toAt: nat, newFrom: nat, newTo: nat) {
    && taskEnd < oldFrom && AllWhite(s, taskEnd, oldFrom)
    && oldFrom < oldTo && NoBreak(s, oldFrom, oldTo)
    && AfterOk(s, oldTo, toAt, newFrom, newTo)
  }

  /**
   * A backtracking matcher tries `m` before `n`: an earlier start, then a
   * longer `\s+` before the old name, then a shorter old name (lazy), then a
   * longer `\s+` before the new name, then a longer new name (greedy).
   */
  predicate Before(m: Match, n: Match) {
    || m.start < n.start
    || (m.start == n.start && m.oldFrom > n.oldFrom)
    || (m.start == n.start && m.oldFrom == n.oldFrom && m.oldTo < n.oldTo)
    || (m.start == n.start && m.oldFrom == n.oldFrom && m.oldTo == n.oldTo && m.newFrom > n.newFrom)
    || (m.start == n.start && m.oldFrom == n.oldFrom && m.oldTo == n.oldTo && m.newFrom == n.newFrom
        && m.newTo > n.newTo)
  }

  /* ---------------- Runs of white space and of line text ---------------- */

  /** The end of the white-space run starting at `i`. */
  function WhiteEnd(s: string, i: nat): (r: nat)
    requires i <= |s|
    ensures i <= r <= |s|
    decreases |s| - i
  {
    if i < |s| && IsWhite(s[i]) then WhiteEnd(s, i + 1) else i
  }

  /** The end of the line starting at `i`. */
  function LineEnd(s: string, i: nat): (r: nat)
    requires i <= |s|
    ensures i <= r <= |s|
    decreases |s| - i
  {
    if i < |s| && !IsLineTerminator(s[i]) then LineEnd(s, i + 1) else i
  }

  /** `AllWhite` says what its name says: every character of `s[i..j]` is white space. */
  lemma {:induction false} AllWhiteMeans(s: string, i: nat, j: nat)
    requires i <= j <= |s|
    ensures AllWhite(s, i, j) <==> forall k | i <= k < j :: IsWhite(s[k])
    decreases j - i
  {
    if i < j {
      AllWhiteMeans(s, i + 1, j);
    }
  }

  /** `NoBreak` says what its name says: no character of `s[i..j]` is a line terminator. */
  lemma {:induction false} NoBreakMeans(s: string, i: nat, j: nat)
    requires i <= j <= |s|
    ensures NoBreak(s, i, j) <==> forall k | i <= k < j :: !IsLineTerminator(s[k])
    decreases j - i
  {
    if i < j {
      NoBreakMeans(s, i + 1, j);
    }
  }

  /** A white run followed by a letter of a keyword ends where the run from its start ends. */
  lemma WhiteRunEnds(s: string, i: nat, j: nat, w: string)
    requires AllWhite(s, i, j) && MatchesAt(s, j, w, true) && |w| > 0 && 'a' <= w[0] <= 'z'
    ensures j == WhiteEnd(s, i)
  {
    FirstLetter(s, j, w);
    if j < WhiteEnd(s, i) {
      AllWhiteMeans(s, i, WhiteEnd(s, i));
    }
  }

  /* ---------------- Greedy and lazy choice ---------------- */

  /** The largest `q` in `(lo, hi]` with `ok(q)`: how a greedy quantifier backs off. */
  function LastWhere(lo: nat, hi: nat, ok: nat -> bool): (r: Option<nat>)
    ensures r.Some? ==> lo < r.value <= hi && ok(r.value)
    decreases hi
  {
    if hi <= lo then None
    else if ok(hi) then Some(hi)
    else LastWhere(lo, hi - 1, ok)
  }

  lemma {:induction false} LastWhereLatest(lo: nat, hi: nat, ok: nat -> bool, q: nat)
    requires lo < q <= hi && ok(q)
    ensures LastWhere(lo, hi, ok).Some? && q <= LastWhere(lo, hi, ok).value
    decreases hi
  {
    if !ok(hi) {
      LastWhereLatest(lo, hi - 1, ok, q);
    }
  }

  /** The smallest `q` in `[lo, hi]` with `ok(q)`: how a lazy quantifier grows. */
  function FirstWhere(lo: nat, hi: nat, ok: nat -> bool): (r: Option<nat>)
    ensures r.Some? ==> lo <= r.value <= hi && ok(r.value)
    decreases if lo <= hi then hi - lo + 1 else 0
  {
    if hi < lo then None
    else if ok(lo) then Some(lo)
    else FirstWhere(lo + 1, hi, ok)
  }

  lemma {:induction false} FirstWhereEarliest(lo: nat, hi: nat, ok: nat -> bool, q: nat)
    requires lo <= q <= hi && ok(q)
    ensures FirstWhere(lo, hi, ok).Some? && FirstWhere(lo, hi, ok).value <= q
    decreases hi - lo
  {
    if !ok(lo) {
      FirstWhereEarliest(lo + 1, hi, ok, q);
    }
  }

  /* ---------------- `\s+(.+)` after "to" ---------------- */

  predicate TailOk(s: string, toEnd: nat, newFrom: nat, newTo: nat) {
    toEnd < newFrom && AllWhite(s, toEnd, newFrom) && newFrom < newTo && NoBreak(s, newFrom, newTo)
  }

  /**
   * `\s+(.+)` after `toEnd`: the latest start within the white run that
   * leaves a character for `.`, and the group taken to the line end.
   */
  function Tail(s: string, toEnd: nat): (r: Option<(nat, nat)>)
    requires toEnd <= |s|
    ensures r.Some? ==> TailOk(s, toEnd, r.value.0, r.value.1)
  {
    match LastWhere(toEnd, WhiteEnd(s, toEnd), (q: nat) => q < |s| && !IsLineTerminator(s[q]))
    case None => None
    case Some(q) =>
      Some((q, LineEnd(s, q)))
  }

  /** Any way `\s+(.+)` can match after `toEnd` comes no earlier than `Tail`'s. */
  lemma TailFirst(s: string, toEnd: nat, nf: nat, nt: nat)
    requires toEnd <= |s| && TailOk(s, toEnd, nf, nt)
    ensures Tail(s, toEnd).Some?
    ensures var r := Tail(s, toEnd).value;
      nf < r.0 || (nf == r.0 && nt <= r.1)
  {
    var ok := (q: nat) => q < |s| && !IsLineTerminator(s[q]);
    assert ok(nf);
    LastWhereLatest(toEnd, WhiteEnd(s, toEnd), ok, nf);
  }

  /* ---------------- `\s+to` after the old name ---------------- */

  predicate AfterOk(s: string, oldTo: nat, toAt: nat, newFrom: nat, newTo: nat) {
    && oldTo < toAt && AllWhite(s, oldTo, toAt) && MatchesAt(s, toAt, "to", true)
    && TailOk(s, toAt + 2, newFrom, newTo)
  }

  /** The rest of the pattern after an old name ending at `oldTo`: "to" and the new name. */
  function AfterOld(s: string, oldTo: nat): (r: Option<(nat, nat, nat)>)
    requires oldTo <= |s|
    ensures r.Some? ==> AfterOk(s, oldTo, r.value.0, r.value.1, r.value.2)
  {
    var t := WhiteEnd(s, oldTo);
    if t > oldTo && MatchesAt(s, t, "to", true) then
      match Tail(s, t + 2)
      case Some(p) => Some((t, p.0, p.1))
      case None => None
    else None
  }

  /** Whenever the rest of the pattern can match after `oldTo`, `AfterOld` finds the way a backtracking matcher tries first. */
  lemma AfterOldFirst(s: string, oldTo: nat, toAt: nat, nf: nat, nt: nat)
    requires oldTo <= |s| && AfterOk(s, oldTo, toAt, nf, nt)
    ensures AfterOld(s, oldTo).Some?
    ensures var r := AfterOld(s, oldTo).value;
      toAt == r.0 && (nf < r.1 || (nf == r.1 && nt <= r.2))
  {
    WhiteRunEnds(s, oldTo, toAt, "to");
    TailFirst(s, toAt + 2, nf, nt);
  }

  /* ---------------- `(.+?)`: the old name, as short as possible ---------------- */

  predicate OldOk(s: string, oldFrom: nat, oldTo: nat) {
    oldFrom < oldTo && NoBreak(s, oldFrom, oldTo) && AfterOld(s, oldTo).Some?
  }

  /** `(.+?)` from `oldFrom`: the shortest old name on its line after which the rest of the pattern matches. */
  function OldName(s: string, oldFrom: nat): (r: Option<nat>)
    requires oldFrom <= |s|
    ensures r.Some? ==> OldOk(s, oldFrom, r.value)
  {
    match FirstWhere(oldFrom + 1, LineEnd(s, oldFrom), (e: nat) => e <= |s| && AfterOld(s, e).Some?)
    case None => None
    case Some(e) =>
      Some(e)
  }

  /** No shorter old name than `OldName`'s works, and some old name works whenever any does. */
  lemma OldNameFirst(s: string, oldFrom: nat, oldTo: nat)
    requires oldFrom <= |s| && OldOk(s, oldFrom, oldTo)
    ensures OldName(s, oldFrom).Some? && OldName(s, oldFrom).value <= oldTo
  {
    var ok := (e: nat) => e <= |s| && AfterOld(s, e).Some?;
    assert ok(oldTo);
    FirstWhereEarliest(oldFrom + 1, LineEnd(s, oldFrom), ok, oldTo);
  }

  /* ---------------- `\s+` before the old name, as long as possible ---------------- */

  predicate StartOk(s: string, taskEnd: nat, oldFrom: nat) {
    taskEnd < oldFrom && AllWhite(s, taskEnd, oldFrom) && OldName(s, oldFrom).Some?
  }

  /** `\s+` after "task": the latest old-name start within the white run from which the rest matches. */
  function GreedyStart(s: string, taskEnd: nat): (r: Option<nat>)
    requires taskEnd <= |s|
    ensures r.Some? ==> StartOk(s, taskEnd, r.value)
  {
    match LastWhere(taskEnd, WhiteEnd(s, taskEnd), (g: nat) => g <= |s| && OldName(s, g).Some?)
    case None => None
    case Some(g) =>
      Some(g)
  }

  /** No old-name start from which the rest matches lies beyond `GreedyStart`'s. */
  lemma GreedyStartFirst(s: string, taskEnd: nat, g: nat)
    requires taskEnd <= |s| && StartOk(s, taskEnd, g)
    ensures GreedyStart(s, taskEnd).Some? && g <= GreedyStart(s, taskEnd).value
  {
    var ok := (g: nat) => g <= |s| && OldName(s, g).Some?;
    assert ok(g);
    LastWhereLatest(taskEnd, WhiteEnd(s, taskEnd), ok, g);
  }

  /* ---------------- The whole pattern ---------------- */

  function KeywordEnd(s: string, p: nat): (r: Option<nat>)
    ensures r.Some? ==> Keyword(s, p, r.value)
  {
    if MatchesAt(s, p, "edit", true) then
      Some(p + 4)
    else if MatchesAt(s, p, "change", true) then Some(p + 6)
    else None
  }

  /** The keyword at `p`, when there is one, ends where `KeywordEnd` says. */
  lemma KeywordEndUnique(s: string, p: nat, k: nat)
    requires Keyword(s, p, k)
    ensures KeywordEnd(s, p) == Some(k)
  {
    if MatchesAt(s, p, "edit", true) {
      NotBothKeywords(s, p);
    }
  }

  lemma FirstLetter(s: string, p: nat, w: string)
    requires MatchesAt(s, p, w, true) && |w| > 0
    ensures FoldChar(s[p], true) == w[0]
  {
    assert FoldChar(s[p + 0], true) == w[0];
  }

  /** "edit" and "change" begin with different letters, so at most one matches at `p`. */
  lemma NotBothKeywords(s: string, p: nat)
    requires MatchesAt(s, p, "edit", true)
    ensures !MatchesAt(s, p, "change", true)
  {
    FirstLetter(s, p, "edit");
    if MatchesAt(s, p, "change", true) {
      FirstLetter(s, p, "change");
    }
  }

  /**
   * `\s+(.+?)\s+to\s+(.+)` after "task" ends at `taskEnd`: the old-name start,
   * the old-name end, "to" and the new name, in backtracking order.
   */
  function AfterTask(s: string, taskEnd: nat): (r: Option<(nat, nat, nat, nat, nat)>)
    requires taskEnd <= |s|
    ensures r.Some? ==> RestOk(s, taskEnd, r.value.0, r.value.1, r.value.2, r.value.3, r.value.4)
  {
    match GreedyStart(s, taskEnd)
    case None => None
    case Some(g) =>
      var e := OldName(s, g).value;
      var rest := AfterOld(s, e).value;
      Some((g, e, rest.0, rest.1, rest.2))
  }

  /** Every way the pattern can go on after "task" is `AfterTask`'s or is tried after it. */
  lemma AfterTaskFirst(s: string, taskEnd: nat, g: nat, e: nat, toAt: nat, nf: nat, nt: nat)
    requires taskEnd <= |s| && RestOk(s, taskEnd, g, e, toAt, nf, nt)
    ensures AfterTask(s, taskEnd).Some?
    ensures var (g', e', toAt', nf', nt') := AfterTask(s, taskEnd).value;
      && g <= g'
      && (g == g' ==> e' <= e)
      && (g == g' && e == e' ==> toAt == toAt' && (nf < nf' || (nf == nf' && nt <= nt')))
  {
    FromStartFirst(s, g, e, toAt, nf, nt);
    GreedyStartFirst(s, taskEnd, g);
  }

  /** The first match, in backtracking order, that starts at `p`. */
  function MatchAt(s: string, p: nat): (r: Option<Match>)
    ensures r.Some? ==> IsMatch(s, r.value) && r.value.start == p
  {
    match KeywordEnd(s, p)
    case None => None
    case Some(k) =>
      var taskAt := WhiteEnd(s, k);
      if taskAt > k && MatchesAt(s, taskAt, "task", true) then
        match AfterTask(s, taskAt + 4)
        case None => None
        case Some(t) => Some(Match(p, k, taskAt, t.0, t.1, t.2, t.3, t.4))
      else None
  }

  /**
   * From a fixed old-name start, the lazy old name and the rest of the
   * pattern after it come no later than any other way of matching from there.
   */
  lemma FromStartFirst(s: string, g: nat, oldTo: nat, toAt: nat, nf: nat, nt: nat)
    requires g < oldTo <= |s| && NoBreak(s, g, oldTo) && AfterOk(s, oldTo, toAt, nf, nt)
    ensures OldName(s, g).Some?
    ensures var e := OldName(s, g).value;
      e < oldTo || (e == oldTo && AfterOld(s, e).value.0 == toAt
        && (nf < AfterOld(s, e).value.1 || (nf == AfterOld(s, e).value.1 && nt <= AfterOld(s, e).value.2)))
  {
    AfterOldFirst(s, oldTo, toAt, nf, nt);
    OldNameFirst(s, g, oldTo);
  }

  /** Two matches that agree up to a choice point, where `m` takes the earlier alternative, are ordered. */
  lemma TriedBefore(m: Match, n: Match)
    requires m.start == n.start && m.keywordEnd == n.keywordEnd && m.taskAt == n.taskAt
    requires m.oldFrom >= n.oldFrom
    requires m.oldFrom == n.oldFrom ==> m.oldTo <= n.oldTo
    requires m.oldFrom == n.oldFrom && m.oldTo == n.oldTo ==>
      m.toAt == n.toAt && (n.newFrom < m.newFrom || (n.newFrom == m.newFrom && n.newTo <= m.newTo))
    ensures m == n || Before(m, n)
  {
  }

  /** The keyword, the white run and "task" of a match are where `MatchAt` looks for them. */
  lemma KeywordAndTask(s: string, n: Match)
    requires IsMatch(s, n)
    ensures KeywordEnd(s, n.start) == Some(n.keywordEnd)
    ensures n.taskAt == WhiteEnd(s, n.keywordEnd) > n.keywordEnd
    ensures MatchesAt(s, n.taskAt, "task", true)
  {
    KeywordEndUnique(s, n.start, n.keywordEnd);
    WhiteRunEnds(s, n.keywordEnd, n.taskAt, "task");
  }

  /** Every match starting at `p` is `MatchAt(s, p)` or is tried after it. */
  lemma MatchAtFirst(s: string, p: nat, n: Match)
    requires IsMatch(s, n) && n.start == p
    ensures MatchAt(s, p).Some?
    ensures MatchAt(s, p).value == n || Before(MatchAt(s, p).value, n)
  {
    KeywordAndTask(s, n);
    AfterTaskFirst(s, n.taskAt + 4, n.oldFrom, n.oldTo, n.toAt, n.newFrom, n.newTo);
    var t := AfterTask(s, n.taskAt + 4).value;
    var m := Match(p, n.keywordEnd, n.taskAt, t.0, t.1, t.2, t.3, t.4);
    assert MatchAt(s, p) == Some(m);
    TriedBefore(m, n);
  }

  /** No match starts beyond the end of the text. */
  lemma MatchStartsInside(s: string, n: Match)
    requires IsMatch(s, n)
    ensures n.start < |s|
  {
  }

  /** `text.match(pattern)`: the match found from the leftmost start at which the pattern matches. */
  function FirstMatch(s: string): (r: Option<Match>)
    ensures r.Some? ==> IsMatch(s, r.value)
  {
    match FirstWhere(0, |s|, (p: nat) => MatchAt(s, p).Some?)
    case None => None
    case Some(p) => MatchAt(s, p)
  }

  /** `FirstMatch` is the first of all matches in backtracking order, and it exists whenever any match does. */
  lemma FirstMatchFirst(s: string, n: Match)
    requires IsMatch(s, n)
    ensures FirstMatch(s).Some?
    ensures FirstMatch(s).value == n || Before(FirstMatch(s).value, n)
  {
    var ok := (p: nat) => MatchAt(s, p).Some?;
    MatchAtFirst(s, n.start, n);
    MatchStartsInside(s, n);
    assert ok(n.start);
    FirstWhereEarliest(0, |s|, ok, n.start);
    var q := FirstWhere(0, |s|, ok).value;
    assert FirstMatch(s) == MatchAt(s, q);
  }

  /** The trimmed old and new names of an edit command, or none when the command does not match. */
  function EditCommand(s: string): (r: Option<(string, string)>)
    ensures r.Some? <==> exists n :: IsMatch(s, n)
    ensures r.Some? ==>
      exists n :: (IsMatch(s, n) && r.value == (Trim(s[n.oldFrom..n.oldTo]), Trim(s[n.newFrom..n.newTo])))
  {
    forall n | IsMatch(s, n)
      ensures FirstMatch(s).Some?
    {
      FirstMatchFirst(s, n);
    }
    match FirstMatch(s)
    case None => None
    case Some(m) => Some((Trim(s[m.oldFrom..m.oldTo]), Trim(s[m.newFrom..m.newTo])))
  }
}
