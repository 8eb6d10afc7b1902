/**
 * The server's task-name resolver (`findTaskByName`): a four-rule cascade
 * over the caller's task titles, where the first rule that matches any task
 * wins and, within a rule, the first task in list order wins.
 */
module TaskMatch {
  import opened Wrappers
  import opened JsString

  /** `searchName.toLowerCase().trim()`. */
  function SearchKey(name: string): string {
    Trim(Lower(name))
  }

  /** The search key is its own key: it is lowercase already and has no white space at either end. */
  lemma SearchKeyIdempotent(name: string)
    ensures var key := SearchKey(name);
      Lower(key) == key && Trim(key) == key && SearchKey(key) == key
  {
    LowerTrimmed(name);
    TrimIdempotent(Lower(name));
  }

  /** `Math.ceil(n / 2)` for a word count `n`. */
  function CeilHalf(n: nat): (r: nat)
    ensures n <= 2 * r <= n + 1
  {
    (n + 1) / 2
  }

  /** A search word and a title word are related when either contains the other. */
  predicate Related(word: string, titleWord: string) {
    Contains(titleWord, word) || Contains(word, titleWord)
  }

  /** Some title word is related to `word`. */
  predicate AnyRelated(word: string, titleWords: seq<string>) {
    exists k | 0 <= k < |titleWords| :: Related(word, titleWords[k])
  }

  /** The number of search words that have a related title word (the length of the `filter`). */
  function MatchCount(words: seq<string>, titleWords: seq<string>): (r: nat)
    ensures r <= |words|
  {
    if |words| == 0 then 0
    else (if AnyRelated(words[0], titleWords) then 1 else 0) + MatchCount(words[1..], titleWords)
  }

  /**
   * Rule `level` of the cascade for one title against the normalised search
   * string: 0 exact, 1 contains, 2 every word, 3 at least half the words related.
   */
  predicate Rule(level: nat, title: string, search: string) {
    var titleLower := Lower(title);
    var words := Split(search, ' ');
    if level == 0 then Trim(titleLower) == search
    else if level == 1 then Contains(titleLower, search)
    else if level == 2 then forall w <- words :: Contains(titleLower, w)
    else MatchCount(words, Split(titleLower, ' ')) >= CeilHalf(|words|)
  }

  /** The first title passing rule `level`. */
  function FirstByRule(titles: seq<string>, level: nat, search: string): (r: Option<nat>)
    ensures r.Some? ==> r.value < |titles| && Rule(level, titles[r.value], search)
    ensures r.Some? ==> forall j :: 0 <= j < r.value ==> !Rule(level, titles[j], search)
    ensures r.None? ==> forall j :: 0 <= j < |titles| ==> !Rule(level, titles[j], search)
  {
    Find(titles, t => Rule(level, t, search))
  }

  /** Title `i` passes rule `level` and every earlier (rule, position) pair fails. */
  predicate Earliest(titles: seq<string>, search: string, level: nat, i: nat) {
    && level < 4 && i < |titles|
    && Rule(level, titles[i], search)
    && (forall l: nat, j | l < level && 0 <= j < |titles| :: !Rule(l, titles[j], search))
    && (forall j | 0 <= j < i :: !Rule(level, titles[j], search))
  }

  /** The cascade itself, over an already normalised search string. */
  function Cascade(titles: seq<string>, search: string): (r: Option<nat>)
    ensures r.Some? ==> exists level :: Earliest(titles, search, level, r.value)
    ensures r.None? ==> forall l: nat, j | l < 4 && 0 <= j < |titles| :: !Rule(l, titles[j], search)
  {
    var exact := FirstByRule(titles, 0, search);
    if exact.Some? then
      assert Earliest(titles, search, 0, exact.value);
      exact
    else
      var within := FirstByRule(titles, 1, search);
      if within.Some? then
        assert Earliest(titles, search, 1, within.value);
        within
      else
        var allWords := FirstByRule(titles, 2, search);
        if allWords.Some? then
          assert Earliest(titles, search, 2, allWords.value);
          allWords
        else
          var fuzzy := FirstByRule(titles, 3, search);
          if fuzzy.Some? then
            assert Earliest(titles, search, 3, fuzzy.value);
            fuzzy
          else
            fuzzy
  }

  /**
   * `findTaskByName(tasks, searchName)`, answering with the position of the
   * task found in `titles` (the titles of the caller's tasks, in snapshot order).
   */
  function FindTaskByName(titles: seq<string>, searchName: string): (r: Option<nat>)
    ensures r.Some? ==> exists level :: Earliest(titles, SearchKey(searchName), level, r.value)
    ensures r.None? ==>
      forall l: nat, j | l < 4 && 0 <= j < |titles| :: !Rule(l, titles[j], SearchKey(searchName))
  {
    Cascade(titles, SearchKey(searchName))
  }

  /** An exact match is a substring match. */
  lemma ExactImpliesContains(title: string, search: string)
    requires Rule(0, title, search)
    ensures Rule(1, title, search)
  {
    TrimIsSubstring(Lower(title));
  }

  /** A substring match contains every word of the search string. */
  lemma ContainsImpliesWords(title: string, search: string)
    requires Rule(1, title, search)
    ensures Rule(2, title, search)
  {
    var words := Split(search, ' ');
    forall w <- words
      ensures Contains(Lower(title), w)
    {
      var k :| 0 <= k < |words| && words[k] == w;
      SplitPieceContained(search, ' ', k);
      ContainsTransitive(Lower(title), search, w);
    }
  }

  /** When every search word has a related title word, all of them count. */
  lemma {:induction false} MatchCountAll(words: seq<string>, titleWords: seq<string>)
    requires forall w <- words :: AnyRelated(w, titleWords)
    ensures MatchCount(words, titleWords) == |words|
  {
    if |words| > 0 {
      assert words[0] in words;
      MatchCountAll(words[1..], titleWords);
    }
  }

  /** Every word present means every word is related to the title word it falls in. */
  lemma WordsImpliesFuzzy(title: string, search: string)
    requires Rule(2, title, search)
    ensures Rule(3, title, search)
  {
    var titleLower := Lower(title);
    var words := Split(search, ' ');
    var titleWords := Split(titleLower, ' ');
    forall w <- words
      ensures AnyRelated(w, titleWords)
    {
      var i :| 0 <= i < |words| && words[i] == w;
      assert ' ' !in words[i];
      SplitCovers(titleLower, ' ', w);
      var k :| 0 <= k < |titleWords| && Contains(titleWords[k], w);
      assert Related(w, titleWords[k]);
    }
    MatchCountAll(words, titleWords);
  }

  /** Each rule of the cascade implies every later one. */
  lemma RuleWeakens(l: nat, m: nat, title: string, search: string)
    requires l <= m < 4 && Rule(l, title, search)
    ensures Rule(m, title, search)
    decreases m - l
  {
    if l < m {
      if l == 0 {
        ExactImpliesContains(title, search);
      } else if l == 1 {
        ContainsImpliesWords(title, search);
      } else {
        WordsImpliesFuzzy(title, search);
      }
      RuleWeakens(l + 1, m, title, search);
    }
  }

  /** The resolver finds nothing exactly when no title passes the fuzzy word test. */
  lemma NoneIffNoFuzzy(titles: seq<string>, searchName: string)
    ensures FindTaskByName(titles, searchName).None?
        <==> forall j | 0 <= j < |titles| :: !Rule(3, titles[j], SearchKey(searchName))
  {
    var search := SearchKey(searchName);
    var r := FindTaskByName(titles, searchName);
    if r.Some? {
      var level :| Earliest(titles, search, level, r.value);
      RuleWeakens(level, 3, titles[r.value], search);
    }
  }

  /** An empty list gives no task. */
  lemma EmptyListFindsNothing(searchName: string)
    ensures FindTaskByName([], searchName).None?
  {
  }

  /** The search name matters only through its lowercased, trimmed form. */
  lemma SearchKeyNormalises(titles: seq<string>, searchName: string)
    ensures FindTaskByName(titles, SearchKey(searchName)) == FindTaskByName(titles, searchName)
  {
    LowerTrimmed(searchName);
    TrimIdempotent(Lower(searchName));
    assert SearchKey(SearchKey(searchName)) == SearchKey(searchName);
  }

  /** A blank search name matches the first task by substring, unless an earlier-ranked blank title matches exactly. */
  lemma BlankSearchFindsATask(titles: seq<string>, searchName: string)
    requires |titles| > 0 && SearchKey(searchName) == ""
    ensures FindTaskByName(titles, searchName).Some?
    ensures var i := FindTaskByName(titles, searchName).value;
      i == 0 || Trim(Lower(titles[i])) == ""
  {
    var search := SearchKey(searchName);
    ContainsEmpty(Lower(titles[0]));
    assert Rule(1, titles[0], search);
    var i := FindTaskByName(titles, searchName).value;
    var level :| Earliest(titles, search, level, i);
    if level != 0 {
      assert level >= 1;
      assert !Rule(1, titles[0], search) || i == 0;
    }
  }

  /**
   * A title with an empty word (two spaces in a row, or a leading or trailing
   * space) passes the fuzzy rule for every search, since every word contains "".
   */
  lemma EmptyTitleWordRelatesToAll(title: string, search: string, k: nat)
    requires k < |Split(Lower(title), ' ')| && Split(Lower(title), ' ')[k] == ""
    ensures Rule(3, title, search)
  {
    var words := Split(search, ' ');
    var titleWords := Split(Lower(title), ' ');
    forall w <- words
      ensures AnyRelated(w, titleWords)
    {
      ContainsEmpty(w);
      assert Related(w, titleWords[k]);
    }
    MatchCountAll(words, titleWords);
  }

  /** Searching "buy milk" among "Buy bread" and "Buy milk" gives the exact match, never "Buy bread". */
  lemma ExactWinsExample()
    ensures FindTaskByName(["Buy bread", "Buy milk"], "buy milk") == Some(1)
  {
    var titles := ["Buy bread", "Buy milk"];
    BuyKeys();
    assert Rule(0, titles[1], "buy milk");
    assert !Rule(0, titles[0], "buy milk");
    var r := FindTaskByName(titles, "buy milk");
    var level :| Earliest(titles, "buy milk", level, r.value);
    assert level == 0;
  }

  lemma BuyKeys()
    ensures SearchKey("buy milk") == "buy milk"
    ensures Trim(Lower("Buy milk")) == "buy milk"
    ensures Trim(Lower("Buy bread")) == "buy bread"
  {
    LowerExamples();
    assert Lower("buy milk") == "buy milk";
    assert "buy milk"[0] == 'b' && "buy milk"[7] == 'k';
    assert !IsWhite('b') && !IsWhite('k') && !IsWhite('d');
    KeyOfLowered("buy milk", "buy milk");
    KeyOfLowered("Buy milk", "buy milk");
    KeyOfLowered("Buy bread", "buy bread");
  }

  /** Text whose lowercase form has no white space at either end keys to that form. */
  lemma KeyOfLowered(t: string, k: string)
    requires Lower(t) == k && |k| > 0 && !IsWhite(k[0]) && !IsWhite(k[|k| - 1])
    ensures Trim(Lower(t)) == k
  {
    TrimUnpadded(k);
  }

  lemma LowerExamples()
    ensures Lower("buy milk") == "buy milk"
    ensures Lower("Buy milk") == "buy milk"
    ensures Lower("Buy bread") == "buy bread"
  {
  }
}
