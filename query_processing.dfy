/**
 * Query processing of the search service (app/api.py): normalising a query
 * into words, widening it with synonyms, and reading salary bounds out of it.
 */
module QueryProcessing {
  import opened Optional
  import opened Text

  /** The argument of `preprocess_text`, which may be any Python value. */
  datatype Value = Str(s: string) | NotStr

  /** `s.translate(str.maketrans('', '', string.punctuation))`. */
  function RemovePunctuation(s: string): (r: string)
    ensures forall i :: 0 <= i < |r| ==> !IsPunctuation(r[i]) && r[i] in s
  {
    if s == [] then []
    else
      var rest := RemovePunctuation(s[1..]);
      var r := (if IsPunctuation(s[0]) then [] else [s[0]]) + rest;
      assert forall i :: 0 <= i < |rest| ==> rest[i] in s by {
        forall i | 0 <= i < |rest| ensures rest[i] in s {
          var j :| 0 <= j < |s[1..]| && s[1..][j] == rest[i];
          assert s[j + 1] == rest[i];
        }
      }
      r
  }

  lemma {:induction false} RemovePunctuationKeepsClean(s: string)
    requires forall i :: 0 <= i < |s| ==> !IsPunctuation(s[i])
    ensures RemovePunctuation(s) == s
  {
    if s != [] {
      RemovePunctuationKeepsClean(s[1..]);
      assert [s[0]] + s[1..] == s;
    }
  }

  /**
   * Removing punctuation works character by character, as `str.translate`
   * does: it distributes over concatenation, and a single character is
   * dropped exactly when it is punctuation.
   */
  lemma {:induction false} RemovePunctuationAppend(a: string, b: string, c: char)
    ensures RemovePunctuation(a + b) == RemovePunctuation(a) + RemovePunctuation(b)
    ensures RemovePunctuation([c]) == if IsPunctuation(c) then [] else [c]
  {
    if a == [] {
      assert a + b == b;
    } else {
      assert (a + b)[1..] == a[1..] + b;
      RemovePunctuationAppend(a[1..], b, c);
    }
  }

  /** The words of a query after lower-casing and removing punctuation. */
  function Tokens(s: string): seq<string> {
    Split(RemovePunctuation(Lower(s)))
  }

  /** `[word for word in tokens if word not in stop_words]`. */
  function RemoveStopWords(ts: seq<string>, stop: set<string>): (r: seq<string>)
    ensures forall k :: 0 <= k < |r| ==> r[k] !in stop && r[k] in ts
    ensures (forall k :: 0 <= k < |ts| ==> ts[k] !in stop) ==> r == ts
  {
    if ts == [] then []
    else
      var rest := RemoveStopWords(ts[1..], stop);
      assert forall k :: 0 <= k < |rest| ==> rest[k] in ts by {
        forall k | 0 <= k < |rest| ensures rest[k] in ts {
          var j :| 0 <= j < |ts[1..]| && ts[1..][j] == rest[k];
          assert ts[j + 1] == rest[k];
        }
      }
      (if ts[0] in stop then [] else [ts[0]]) + rest
  }

  /**
   * The filter works token by token, as the comprehension does: it
   * distributes over concatenation, and a single token is dropped exactly
   * when it is a stop word.
   */
  lemma {:induction false} RemoveStopWordsAppend(a: seq<string>, b: seq<string>, t: string, stop: set<string>)
    ensures RemoveStopWords(a + b, stop) == RemoveStopWords(a, stop) + RemoveStopWords(b, stop)
    ensures RemoveStopWords([t], stop) == if t in stop then [] else [t]
  {
    if a == [] {
      assert a + b == b;
    } else {
      assert (a + b)[1..] == a[1..] + b;
      RemoveStopWordsAppend(a[1..], b, t, stop);
    }
  }

  /**
   * preprocess_text: "" for a value that is not a string; otherwise the
   * lower-cased, punctuation-free words that are not stop words, joined by
   * single spaces. The stop-word list is a parameter.
   */
  function PreprocessText(v: Value, stop: set<string>): (r: string)
    ensures v.NotStr? ==> r == ""
  {
    match v
    case NotStr => ""
    case Str(s) => Join(RemoveStopWords(Tokens(s), stop))
  }

  lemma CleanTokens(s: string)
    ensures forall k :: 0 <= k < |Tokens(s)| ==> All(Tokens(s)[k], CleanChars)
  {
    var cleaned := RemovePunctuation(Lower(s));
    assert All(cleaned, CleanChars);
    RunsChars(cleaned, WordChars, CleanChars);
  }

  /** The words of the output are the input's normalised words minus the stop words, in order. */
  lemma PreprocessWords(s: string, stop: set<string>)
    ensures Split(PreprocessText(Str(s), stop)) == RemoveStopWords(Tokens(s), stop)
  {
    SplitJoin(RemoveStopWords(Tokens(s), stop));
  }

  /** The output has no capital letter and no punctuation. */
  lemma PreprocessChars(v: Value, stop: set<string>)
    ensures forall i :: 0 <= i < |PreprocessText(v, stop)| ==> IsCleanChar(PreprocessText(v, stop)[i])
  {
    if v.Str? {
      var ws := RemoveStopWords(Tokens(v.s), stop);
      CleanTokens(v.s);
      assert forall k :: 0 <= k < |ws| ==> All(ws[k], CleanChars) by {
        forall k | 0 <= k < |ws| ensures All(ws[k], CleanChars) {
          var j :| 0 <= j < |Tokens(v.s)| && Tokens(v.s)[j] == ws[k];
        }
      }
      JoinChars(ws, CleanChars);
    }
  }

  /** The words of the output are non-empty, free of whitespace, and none of them is a stop word. */
  lemma PreprocessNoStopWords(v: Value, stop: set<string>)
    ensures forall k :: 0 <= k < |Split(PreprocessText(v, stop))| ==>
              IsToken(Split(PreprocessText(v, stop))[k]) && Split(PreprocessText(v, stop))[k] !in stop
  {
    if v.Str? {
      PreprocessWords(v.s, stop);
    } else {
      assert Split("") == [];
    }
  }

  /**
   * The only whitespace of the output is a single space between two words,
   * so it neither starts nor ends with a space.
   */
  lemma PreprocessSpacing(v: Value, stop: set<string>)
    ensures forall i :: 0 <= i < |PreprocessText(v, stop)| && IsPySpace(PreprocessText(v, stop)[i]) ==>
              PreprocessText(v, stop)[i] == ' ' && 0 < i < |PreprocessText(v, stop)| - 1 &&
              !IsPySpace(PreprocessText(v, stop)[i - 1]) && !IsPySpace(PreprocessText(v, stop)[i + 1])
  {
    if v.Str? {
      JoinSpacing(RemoveStopWords(Tokens(v.s), stop));
    }
  }

  /** Normalising a normalised query changes nothing. */
  lemma PreprocessIdempotent(v: Value, stop: set<string>)
    ensures PreprocessText(Str(PreprocessText(v, stop)), stop) == PreprocessText(v, stop)
  {
    var r := PreprocessText(v, stop);
    PreprocessChars(v, stop);
    LowerOfLower(r);
    RemovePunctuationKeepsClean(r);
    assert Tokens(r) == Split(r);
    if v.Str? {
      PreprocessWords(v.s, stop);
      SplitJoin(RemoveStopWords(Tokens(v.s), stop));
    } else {
      assert Split("") == [];
    }
  }

  // ---------------------------------------------------------------------------
  // Synonym expansion

  datatype SynonymEntry = SynonymEntry(key: string, values: seq<string>)

  /** The synonym table of expand_synonyms, in dictionary order. */
  const Synonyms: seq<SynonymEntry> := [
    SynonymEntry("developer", ["programmer", "engineer", "coder"]),
    SynonymEntry("marketing", ["sales", "promosi", "penjualan"]),
    SynonymEntry("designer", ["desain", "ux", "ui"])
  ]

  /** `word == key or word in values`. */
  predicate Triggers(e: SynonymEntry, word: string) {
    word == e.key || word in e.values
  }

  /** What the loop over the table adds for one word: the value lists of the entries it triggers, in table order. */
  function Additions(word: string, table: seq<SynonymEntry>): seq<string> {
    if table == [] then []
    else
      var e := table[|table| - 1];
      Additions(word, table[..|table| - 1]) + (if Triggers(e, word) then e.values else [])
  }

  lemma AdditionsStep(before: seq<string>, word: string, j: nat)
    requires j < |Synonyms|
    ensures Triggers(Synonyms[j], word) ==>
              before + Additions(word, Synonyms[..j + 1]) == before + Additions(word, Synonyms[..j]) + Synonyms[j].values
    ensures !Triggers(Synonyms[j], word) ==>
              before + Additions(word, Synonyms[..j + 1]) == before + Additions(word, Synonyms[..j])
  {
    assert Synonyms[..j + 1][..j] == Synonyms[..j];
  }

  /** The list `expanded` once the loop over `words` has run. */
  function Expanded(words: seq<string>): seq<string> {
    if words == [] then []
    else
      var w := words[|words| - 1];
      Expanded(words[..|words| - 1]) + [w] + Additions(w, Synonyms)
  }

  /** `w` is in the value list of an entry that `word` triggers. */
  ghost predicate AddedBy(word: string, w: string) {
    exists j :: 0 <= j < |Synonyms| && Triggers(Synonyms[j], word) && w in Synonyms[j].values
  }

  lemma {:induction false} AdditionsMembers(word: string, table: seq<SynonymEntry>, w: string)
    ensures w in Additions(word, table) <==>
            exists j :: 0 <= j < |table| && Triggers(table[j], word) && w in table[j].values
  {
    if table != [] {
      var n := |table| - 1;
      AdditionsMembers(word, table[..n], w);
      if w in Additions(word, table) && w !in Additions(word, table[..n]) {
        assert Triggers(table[n], word) && w in table[n].values;
      }
      if exists j :: 0 <= j < |table| && Triggers(table[j], word) && w in table[j].values {
        var j :| 0 <= j < |table| && Triggers(table[j], word) && w in table[j].values;
        if j < n {
          assert table[..n][j] == table[j];
        }
      }
    }
  }

  /**
   * A word is in the expansion exactly when it is one of the input words or
   * is added for one of them.
   */
  lemma {:induction false} ExpandedMembers(words: seq<string>, w: string)
    ensures w in Expanded(words) <==>
            exists k :: 0 <= k < |words| && (w == words[k] || w in Additions(words[k], Synonyms))
  {
    if words != [] {
      var n := |words| - 1;
      var pre, last := words[..n], words[n];
      ExpandedMembers(pre, w);
      assert Expanded(words) == Expanded(pre) + [last] + Additions(last, Synonyms);
      if w in Expanded(words) {
        if w in Expanded(pre) {
          var k :| 0 <= k < |pre| && (w == pre[k] || w in Additions(pre[k], Synonyms));
          assert pre[k] == words[k];
        } else {
          assert 0 <= n < |words| && (w == words[n] || w in Additions(words[n], Synonyms));
        }
      }
      if exists k :: 0 <= k < |words| && (w == words[k] || w in Additions(words[k], Synonyms)) {
        var k :| 0 <= k < |words| && (w == words[k] || w in Additions(words[k], Synonyms));
        if k < n {
          assert pre[k] == words[k];
        }
      }
    }
  }

  /** No key of the table is listed among any entry's values. */
  lemma KeysAreNotValues()
    ensures forall j, k :: 0 <= j < |Synonyms| && 0 <= k < |Synonyms| ==> Synonyms[j].key !in Synonyms[k].values
  {
  }

  /**
   * The expansion keeps every input word; a word that triggers an entry adds
   * that entry's whole value list; nothing else is added; and a table key is
   * in the expansion only if it was an input word (triggering never adds the
   * key itself).
   */
  lemma ExpansionProperties(words: seq<string>)
    ensures forall w :: w in words ==> w in Expanded(words)
    ensures forall u, j, w :: u in words && 0 <= j < |Synonyms| && Triggers(Synonyms[j], u) && w in Synonyms[j].values ==>
              w in Expanded(words)
    ensures forall w :: w in Expanded(words) && w !in words ==> exists u :: u in words && AddedBy(u, w)
    ensures forall j :: 0 <= j < |Synonyms| ==> (Synonyms[j].key in Expanded(words) <==> Synonyms[j].key in words)
  {
    forall w | w in words ensures w in Expanded(words) {
      ExpandedMembers(words, w);
      var k :| 0 <= k < |words| && words[k] == w;
    }
    forall u, j, w | u in words && 0 <= j < |Synonyms| && Triggers(Synonyms[j], u) && w in Synonyms[j].values
      ensures w in Expanded(words)
    {
      AdditionsMembers(u, Synonyms, w);
      ExpandedMembers(words, w);
      var k :| 0 <= k < |words| && words[k] == u;
    }
    forall w | w in Expanded(words) && w !in words ensures exists u :: u in words && AddedBy(u, w) {
      ExpandedMembers(words, w);
      var k :| 0 <= k < |words| && (w == words[k] || w in Additions(words[k], Synonyms));
      AdditionsMembers(words[k], Synonyms, w);
      assert AddedBy(words[k], w);
    }
    KeysAreNotValues();
    forall j | 0 <= j < |Synonyms| ensures Synonyms[j].key in Expanded(words) <==> Synonyms[j].key in words {
      var key := Synonyms[j].key;
      ExpandedMembers(words, key);
      if key in Expanded(words) {
        var k :| 0 <= k < |words| && (key == words[k] || key in Additions(words[k], Synonyms));
        AdditionsMembers(words[k], Synonyms, key);
      }
    }
  }

  lemma SynonymValuesAreTokens()
    ensures forall j, k :: 0 <= j < |Synonyms| && 0 <= k < |Synonyms[j].values| ==> IsToken(Synonyms[j].values[k])
  {
  }

  lemma {:induction false} ExpandedTokens(words: seq<string>)
    requires forall k :: 0 <= k < |words| ==> IsToken(words[k])
    ensures forall k :: 0 <= k < |Expanded(words)| ==> IsToken(Expanded(words)[k])
  {
    SynonymValuesAreTokens();
    forall i | 0 <= i < |Expanded(words)| ensures IsToken(Expanded(words)[i]) {
      var w := Expanded(words)[i];
      ExpandedMembers(words, w);
      var k :| 0 <= k < |words| && (w == words[k] || w in Additions(words[k], Synonyms));
      if w != words[k] {
        AdditionsMembers(words[k], Synonyms, w);
      }
    }
  }

  predicate NoDuplicates(xs: seq<string>) {
    forall i, j :: 0 <= i < j < |xs| ==> xs[i] != xs[j]
  }

  /**
   * Iterating over a Python set: every element once, in an order the
   * language leaves open.
   */
  method Enumerate(s: set<string>) returns (ordered: seq<string>)
    ensures NoDuplicates(ordered)
    ensures forall w :: w in ordered <==> w in s
  {
    var remaining := s;
    ordered := [];
    while remaining != {}
      invariant forall w :: w in ordered || w in remaining <==> w in s
      invariant forall w :: w in ordered ==> w !in remaining
      invariant NoDuplicates(ordered)
      decreases |remaining|
    {
      var w :| w in remaining;
      ordered := ordered + [w];
      remaining := remaining - {w};
    }
  }

  lemma ExpandedStep(words: seq<string>, i: nat)
    requires i < |words|
    ensures Expanded(words[..i + 1]) == Expanded(words[..i]) + [words[i]] + Additions(words[i], Synonyms)
  {
    assert words[..i + 1][..i] == words[..i];
  }

  /**
   * Joining the distinct words of the expansion of a text, in any order,
   * gives a text whose words are exactly those, once each.
   */
  lemma JoinExpansion(text: string, ordered: seq<string>)
    requires NoDuplicates(ordered)
    requires forall w :: w in ordered <==> w in Expanded(Split(text))
    ensures NoDuplicates(Split(Join(ordered)))
    ensures forall w :: w in Split(Join(ordered)) <==> w in Expanded(Split(text))
  {
    var expanded := Expanded(Split(text));
    ExpandedTokens(Split(text));
    forall k | 0 <= k < |ordered| ensures IsToken(ordered[k]) {
      assert ordered[k] in ordered;
      var j :| 0 <= j < |expanded| && expanded[j] == ordered[k];
    }
    SplitJoin(ordered);
  }

  /** The loop over the synonym table for one word: appends the value list of every entry the word triggers. */
  method ExtendWithSynonyms(expanded: seq<string>, word: string) returns (r: seq<string>)
    ensures r == expanded + Additions(word, Synonyms)
  {
    r := expanded;
    for j := 0 to |Synonyms|
      invariant r == expanded + Additions(word, Synonyms[..j])
    {
      var entry := Synonyms[j];
      AdditionsStep(expanded, word, j);
      if word == entry.key || word in entry.values {
        r := r + entry.values;
      }
    }
    assert Synonyms[..|Synonyms|] == Synonyms;
  }

  /** The loop over the words of expand_synonyms: each word, followed by what it triggers. */
  method ExpandWords(words: seq<string>) returns (expanded: seq<string>)
    ensures expanded == Expanded(words)
  {
    expanded := [];
    for i := 0 to |words|
      invariant expanded == Expanded(words[..i])
    {
      var word := words[i];
      expanded := expanded + [word];
      expanded := ExtendWithSynonyms(expanded, word);
      ExpandedStep(words, i);
    }
    assert words[..|words|] == words;
  }

  /**
   * expand_synonyms: every word of the text, followed by the value lists of
   * the entries it triggers, deduplicated through a set and joined by spaces.
   * The order of the words in the result is the set's iteration order and is
   * left open.
   */
  method ExpandSynonyms(text: string) returns (r: string)
    ensures NoDuplicates(Split(r))
    ensures forall w :: w in Split(r) <==> w in Expanded(Split(text))
  {
    var words := Split(text);
    var expanded := ExpandWords(words);
    var ordered := Enumerate(set w | w in expanded);
    JoinExpansion(text, ordered);
    r := Join(ordered);
  }

  // ---------------------------------------------------------------------------
  // Salary bounds

  /** `query.replace(',', '')`. */
  function RemoveCommas(s: string): (r: string)
    ensures forall i :: 0 <= i < |r| ==> r[i] != ',' && r[i] in s
  {
    if s == [] then []
    else
      var rest := RemoveCommas(s[1..]);
      assert forall i :: 0 <= i < |rest| ==> rest[i] in s by {
        forall i | 0 <= i < |rest| ensures rest[i] in s {
          var j :| 0 <= j < |s[1..]| && s[1..][j] == rest[i];
          assert s[j + 1] == rest[i];
        }
      }
      (if s[0] == ',' then [] else [s[0]]) + rest
  }

  lemma {:induction false} RemoveCommasKeeps(s: string, c: char)
    requires c != ','
    ensures c in RemoveCommas(s) <==> c in s
  {
    if s != [] {
      RemoveCommasKeeps(s[1..], c);
      assert s == [s[0]] + s[1..];
    }
  }

  /**
   * Comma removal works character by character, as `replace(',', '')`
   * does: it distributes over concatenation, and a single character is
   * dropped exactly when it is a comma.
   */
  lemma {:induction false} RemoveCommasAppend(a: string, b: string, c: char)
    ensures RemoveCommas(a + b) == RemoveCommas(a) + RemoveCommas(b)
    ensures RemoveCommas([c]) == if c == ',' then [] else [c]
  {
    if a == [] {
      assert a + b == b;
    } else {
      assert (a + b)[1..] == a[1..] + b;
      RemoveCommasAppend(a[1..], b, c);
    }
  }

  /** `int(d)` for a string of ASCII digits. */
  function DecimalValue(d: string): nat
    requires All(d, Digits)
  {
    if d == [] then 0 else 10 * DecimalValue(d[..|d| - 1]) + (d[|d| - 1] as int - '0' as int)
  }

  /** `list(map(int, re.findall(r'\d+', s)))`: the values of the maximal digit runs, left to right. */
  function Numbers(s: string): (r: seq<nat>)
    ensures |r| == |Runs(s, Digits)|
  {
    var runs := Runs(s, Digits);
    RunsShape(s, Digits);
    seq(|runs|, k requires 0 <= k < |runs| => DecimalValue(runs[k]))
  }

  function Min(xs: seq<nat>): (m: nat)
    requires xs != []
    ensures m in xs && forall i :: 0 <= i < |xs| ==> m <= xs[i]
  {
    if |xs| == 1 then xs[0]
    else
      var m := Min(xs[1..]);
      assert forall i :: 1 <= i < |xs| ==> xs[i] == xs[1..][i - 1];
      if xs[0] <= m then xs[0] else m
  }

  function Max(xs: seq<nat>): (m: nat)
    requires xs != []
    ensures m in xs && forall i :: 0 <= i < |xs| ==> xs[i] <= m
  {
    if |xs| == 1 then xs[0]
    else
      var m := Max(xs[1..]);
      assert forall i :: 1 <= i < |xs| ==> xs[i] == xs[1..][i - 1];
      if xs[0] >= m then xs[0] else m
  }

  /**
   * extract_salary_range: no number gives no bounds; a single number is a
   * lower bound after ">", otherwise an upper bound after "<", otherwise
   * nothing; two or more numbers give their minimum and maximum.
   */
  function ExtractSalaryRange(query: string): (r: (Option<nat>, Option<nat>))
    ensures var nums := Numbers(RemoveCommas(query));
      && (nums == [] ==> r == (None, None))
      && (|nums| == 1 ==> r == (if '>' in query then (Some(nums[0]), None)
                                else if '<' in query then (None, Some(nums[0]))
                                else (None, None)))
      && (|nums| >= 2 ==> r.0.Some? && r.1.Some? && r.0.value <= r.1.value
                          && r.0.value in nums && r.1.value in nums
                          && forall i :: 0 <= i < |nums| ==> r.0.value <= nums[i] <= r.1.value)
  {
    var q := RemoveCommas(query);
    var nums := Numbers(q);
    assert '>' in q <==> '>' in query by { RemoveCommasKeeps(query, '>'); }
    assert '<' in q <==> '<' in query by { RemoveCommasKeeps(query, '<'); }
    if |nums| == 1 then
      if '>' in q then (Some(nums[0]), None)
      else if '<' in q then (None, Some(nums[0]))
      else (None, None)
    else if |nums| >= 2 then (Some(Min(nums)), Some(Max(nums)))
    else (None, None)
  }

  /**
   * Thousands separators do not split a number: digits grouped by commas,
   * such as "5,000,000", are read as one number.
   */
  lemma CommaGroupedIsOneNumber(s: string)
    requires s != [] && IsDigit(s[0])
    requires forall i :: 0 <= i < |s| ==> IsDigit(s[i]) || s[i] == ','
    ensures |Numbers(RemoveCommas(s))| == 1
  {
    var q := RemoveCommas(s);
    assert All(q, Digits) by {
      forall i | 0 <= i < |q| ensures IsDigit(q[i]) {
        var j :| 0 <= j < |s| && s[j] == q[i];
      }
    }
    assert q != [] by {
      assert s == [s[0]] + s[1..];
    }
    RunsOfRun(q, Digits);
  }
}
