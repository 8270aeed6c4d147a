/**
 * The string operations of Python and JavaScript that the job finder relies on:
 * lower-casing, whitespace classes, `str.split()` without a separator and
 * `' '.join`, substring search, and JavaScript's `String.prototype.trim`.
 * Strings are sequences of Unicode scalar values; lower-casing is modelled on
 * ASCII only.
 */
module Text {

  /** An ASCII capital letter, the only characters the model's `lower()` changes. */
  predicate IsUpper(c: char) {
    'A' <= c <= 'Z'
  }

  function LowerChar(c: char): char {
    if IsUpper(c) then (c as int + 32) as char else c
  }

  /** Python's `str.lower()` on ASCII letters. */
  function Lower(s: string): (r: string)
    ensures |r| == |s|
    ensures forall i :: 0 <= i < |r| ==> !IsUpper(r[i])
    ensures forall i :: 0 <= i < |s| && !IsUpper(s[i]) ==> r[i] == s[i]
    ensures forall i :: 0 <= i < |s| && IsUpper(s[i]) ==> r[i] as int == s[i] as int + 32
  {
    seq(|s|, i requires 0 <= i < |s| => LowerChar(s[i]))
  }

  /** Lower-casing a string that has no capital letters changes nothing. */
  lemma LowerOfLower(s: string)
    requires forall i :: 0 <= i < |s| ==> !IsUpper(s[i])
    ensures Lower(s) == s
  {
  }

  /**
   * The characters Python's `str.isspace()` accepts, which are the separators
   * of `str.split()` without arguments: ASCII tab to carriage return, the
   * information separators 0x1C..0x1F, space, NEL, NBSP and the Unicode spaces.
   */
  predicate IsPySpace(c: char) {
    || c == ' ' || '\t' <= c <= '\r' || '\U{1C}' <= c <= '\U{1F}'
    || c == '\U{85}' || c == '\U{A0}' || c == '\U{1680}'
    || '\U{2000}' <= c <= '\U{200A}' || c == '\U{2028}' || c == '\U{2029}'
    || c == '\U{202F}' || c == '\U{205F}' || c == '\U{3000}'
  }

  /**
   * The characters JavaScript's `trim()` removes: WhiteSpace and LineTerminator
   * of the ECMAScript grammar (no information separators, but the BOM).
   */
  predicate IsJsSpace(c: char) {
    || c == ' ' || '\t' <= c <= '\r' || c == '\U{A0}' || c == '\U{1680}'
    || '\U{2000}' <= c <= '\U{200A}' || c == '\U{2028}' || c == '\U{2029}'
    || c == '\U{202F}' || c == '\U{205F}' || c == '\U{3000}' || c == '\U{FEFF}'
  }

  predicate IsWordChar(c: char) {
    !IsPySpace(c)
  }

  predicate IsDigit(c: char) {
    '0' <= c <= '9'
  }

  /** Python's `string.punctuation`. */
  const Punctuation: string := "!\"#$%&'()*+,-./:;<=>?@[\\]^_`{|}~"

  /** A character of `string.punctuation`: the four ASCII ranges of printable non-alphanumerics. */
  predicate IsPunctuation(c: char) {
    '!' <= c <= '/' || ':' <= c <= '@' || '[' <= c <= '`' || '{' <= c <= '~'
  }

  lemma PunctuationRanges(c: char)
    ensures IsPunctuation(c) <==> c in Punctuation
  {
  }

  /** A character that survives query normalisation: neither a capital letter nor punctuation. */
  predicate IsCleanChar(c: char) {
    !IsUpper(c) && !IsPunctuation(c)
  }

  /** The character classes the splitting functions and their lemmas are stated for. */
  datatype CharClass = WordChars | Digits | CleanChars

  predicate InClass(c: char, cls: CharClass) {
    match cls
    case WordChars => IsWordChar(c)
    case Digits => IsDigit(c)
    case CleanChars => IsCleanChar(c)
  }

  /** A word of `str.split()`: non-empty and free of whitespace. */
  predicate IsToken(w: string) {
    w != [] && All(w, WordChars)
  }

  /** Every character of `w` satisfies `p`. */
  predicate All(w: string, p: CharClass) {
    forall i :: 0 <= i < |w| ==> InClass(w[i], p)
  }

  /** The longest prefix of `s` whose characters all satisfy `keep`. */
  function Span(s: string, keep: CharClass): (r: string)
    ensures |r| <= |s| && r == s[..|r|]
    ensures All(r, keep)
    ensures |r| < |s| ==> !InClass(s[|r|], keep)
  {
    if s != [] && InClass(s[0], keep) then [s[0]] + Span(s[1..], keep) else []
  }

  /** `s` without its leading characters that fail `keep`. */
  function SkipTo(s: string, keep: CharClass): (r: string)
    ensures |r| <= |s| && r == s[|s| - |r|..]
    ensures r != [] ==> InClass(r[0], keep)
  {
    if s != [] && !InClass(s[0], keep) then SkipTo(s[1..], keep) else s
  }

  /** The maximal runs of consecutive characters of class `keep`, left to right. */
  function Runs(s: string, keep: CharClass): seq<string>
    decreases |s|
  {
    var t := SkipTo(s, keep);
    if t == [] then []
    else
      var w := Span(t, keep);
      [w] + Runs(t[|w|..], keep)
  }

  /** Every run is non-empty and made of characters of the class. */
  lemma {:induction false} RunsShape(s: string, keep: CharClass)
    ensures forall k :: 0 <= k < |Runs(s, keep)| ==> Runs(s, keep)[k] != [] && All(Runs(s, keep)[k], keep)
    decreases |s|
  {
    var t := SkipTo(s, keep);
    if t != [] {
      var w := Span(t, keep);
      var u := t[|w|..];
      RunsShape(u, keep);
      var rest := Runs(u, keep);
      var r := [w] + rest;
      assert Runs(s, keep) == r;
      forall k | 0 <= k < |r| ensures r[k] != [] && All(r[k], keep) {
        if k == 0 { assert r[k] == w; } else { assert r[k] == rest[k - 1]; }
      }
    }
  }

  lemma AllSlice(s: string, p: CharClass, lo: nat, hi: nat)
    requires All(s, p) && lo <= hi <= |s|
    ensures All(s[lo..hi], p)
  {
    assert forall i :: 0 <= i < hi - lo ==> s[lo..hi][i] == s[lo + i];
  }

  /** A property every character of `s` has, every character of every run has. */
  lemma {:induction false} RunsChars(s: string, keep: CharClass, p: CharClass)
    requires All(s, p)
    ensures forall k :: 0 <= k < |Runs(s, keep)| ==> All(Runs(s, keep)[k], p)
    decreases |s|
  {
    var t := SkipTo(s, keep);
    if t != [] {
      var w := Span(t, keep);
      var u := t[|w|..];
      assert All(w, p) && All(u, p) by {
        AllSlice(s, p, |s| - |t|, |s|);
        AllSlice(t, p, 0, |w|);
        AllSlice(t, p, |w|, |t|);
      }
      RunsChars(u, keep, p);
      ConsAll([w], Runs(u, keep), p);
    }
  }

  /** Every string in `[w] + rest` satisfies `p` when `w` and every string of `rest` do. */
  lemma ConsAll(head: seq<string>, rest: seq<string>, p: CharClass)
    requires |head| == 1 && All(head[0], p)
    requires forall k :: 0 <= k < |rest| ==> All(rest[k], p)
    ensures forall k :: 0 <= k < |head + rest| ==> All((head + rest)[k], p)
  {
  }

  /** Python's `str.split()` without a separator: the whitespace-separated words. */
  function Split(s: string): (r: seq<string>)
    ensures forall k :: 0 <= k < |r| ==> IsToken(r[k])
  {
    RunsShape(s, WordChars);
    Runs(s, WordChars)
  }

  /** Python's `' '.join(ws)`. */
  function Join(ws: seq<string>): string {
    if ws == [] then ""
    else if |ws| == 1 then ws[0]
    else ws[0] + " " + Join(ws[1..])
  }

  lemma {:induction false} SpanOfRun(w: string, rest: string, keep: CharClass)
    requires All(w, keep)
    requires rest == [] || !InClass(rest[0], keep)
    ensures Span(w + rest, keep) == w
    decreases |w|
  {
    if w == [] {
      assert w + rest == rest;
    } else {
      assert (w + rest)[1..] == w[1..] + rest;
      SpanOfRun(w[1..], rest, keep);
    }
  }

  /** A run followed by the end of the string or a character that ends it is the first run. */
  lemma RunsCons(w: string, rest: string, keep: CharClass)
    requires w != [] && All(w, keep)
    requires rest == [] || !InClass(rest[0], keep)
    ensures Runs(w + rest, keep) == [w] + Runs(rest, keep)
  {
    SpanOfRun(w, rest, keep);
    var t := w + rest;
    assert SkipTo(t, keep) == t;
    assert t[|w|..] == rest;
  }

  /** Splitting ignores a leading separator. */
  lemma SplitSkipsSpace(c: char, s: string)
    requires IsPySpace(c)
    ensures Split([c] + s) == Split(s)
  {
    assert ([c] + s)[1..] == s;
  }

  /** A string made only of characters of the class is one run. */
  lemma RunsOfRun(w: string, keep: CharClass)
    requires w != [] && All(w, keep)
    ensures Runs(w, keep) == [w]
  {
    RunsCons(w, [], keep);
    assert w + [] == w;
    assert Runs([], keep) == [];
  }

  /** A word followed by a space and more text splits into the word and the split of the text. */
  lemma SplitOfTokenSpace(w: string, tail: string)
    requires IsToken(w)
    ensures Split(w + " " + tail) == [w] + Split(tail)
  {
    assert w + " " + tail == w + ([' '] + tail);
    RunsCons(w, [' '] + tail, WordChars);
    SplitSkipsSpace(' ', tail);
  }

  /** Joining words with single spaces and splitting again gives the words back. */
  lemma {:induction false} SplitJoin(ws: seq<string>)
    requires forall k :: 0 <= k < |ws| ==> IsToken(ws[k])
    ensures Split(Join(ws)) == ws
  {
    if ws == [] {
    } else if |ws| == 1 {
      RunsOfRun(ws[0], WordChars);
    } else {
      SplitOfTokenSpace(ws[0], Join(ws[1..]));
      SplitJoin(ws[1..]);
      assert [ws[0]] + ws[1..] == ws;
    }
  }

  /**
   * The only whitespace in a join of words is the single space put between
   * two of them: none at either end and never two in a row.
   */
  lemma {:induction false} JoinSpacing(ws: seq<string>)
    requires forall k :: 0 <= k < |ws| ==> IsToken(ws[k])
    ensures (Join(ws) == []) == (ws == [])
    ensures forall i :: 0 <= i < |Join(ws)| && IsPySpace(Join(ws)[i]) ==>
              Join(ws)[i] == ' ' && 0 < i < |Join(ws)| - 1 &&
              !IsPySpace(Join(ws)[i - 1]) && !IsPySpace(Join(ws)[i + 1])
  {
    if |ws| > 1 {
      var w, tail := ws[0], Join(ws[1..]);
      JoinSpacing(ws[1..]);
      var r := Join(ws);
      assert r == w + " " + tail;
      assert forall i :: 0 <= i < |w| ==> r[i] == w[i];
      forall i | |w| <= i < |r| && IsPySpace(r[i])
        ensures r[i] == ' ' && 0 < i < |r| - 1 && !IsPySpace(r[i - 1]) && !IsPySpace(r[i + 1])
      {
        if i == |w| {
          assert r[i + 1] == tail[0];
        } else {
          assert r[i] == tail[i - |w| - 1];
          assert r[i - 1] == tail[i - |w| - 2];
          assert r[i + 1] == tail[i - |w|];
        }
      }
    }
  }

  /** Every character of a join is a separating space or a character of one of the words. */
  lemma {:induction false} JoinChars(ws: seq<string>, p: CharClass)
    requires forall k :: 0 <= k < |ws| ==> All(ws[k], p)
    ensures forall i :: 0 <= i < |Join(ws)| && Join(ws)[i] != ' ' ==> InClass(Join(ws)[i], p)
  {
    if |ws| > 1 {
      JoinChars(ws[1..], p);
      var w, tail := ws[0], Join(ws[1..]);
      var r := Join(ws);
      assert r == w + " " + tail;
      forall i | 0 <= i < |r| && r[i] != ' ' ensures InClass(r[i], p) {
        if i < |w| {
          assert r[i] == w[i];
        } else {
          assert r[i] == tail[i - |w| - 1];
        }
      }
    }
  }

  /** Plain substring search (`needle in hay`, or pandas' `str.contains` without regex characters). */
  predicate Contains(hay: string, needle: string)
    decreases |hay|
  {
    needle <= hay || (hay != [] && Contains(hay[1..], needle))
  }

  /** The slice of the hay starting at `i` is the needle. */
  predicate OccursAt(hay: string, needle: string, i: int) {
    0 <= i && i + |needle| <= |hay| && hay[i..i + |needle|] == needle
  }

  /** The needle occurs in the hay exactly when some slice of the hay equals it. */
  lemma {:induction false} ContainsAt(hay: string, needle: string)
    ensures Contains(hay, needle) <==> exists i :: OccursAt(hay, needle, i)
    decreases |hay|
  {
    if needle <= hay {
      assert OccursAt(hay, needle, 0);
    } else if hay == [] {
      assert forall i :: OccursAt(hay, needle, i) ==> needle == [];
    } else {
      ContainsAt(hay[1..], needle);
      if exists i :: OccursAt(hay, needle, i) {
        var i :| OccursAt(hay, needle, i);
        assert i != 0;
        assert OccursAt(hay[1..], needle, i - 1) by {
          assert hay[1..][i - 1..i - 1 + |needle|] == hay[i..i + |needle|];
        }
      }
      if Contains(hay[1..], needle) {
        var j :| OccursAt(hay[1..], needle, j);
        assert OccursAt(hay, needle, j + 1) by {
          assert hay[1..][j..j + |needle|] == hay[j + 1..j + 1 + |needle|];
        }
      }
    }
  }

  /** White space removed from the front: the rest of the string after its leading white space. */
  function TrimStart(s: string): (r: string)
    ensures |r| <= |s| && r == s[|s| - |r|..]
    ensures forall k :: 0 <= k < |s| - |r| ==> IsJsSpace(s[k])
    ensures r != [] ==> !IsJsSpace(r[0])
  {
    if s != [] && IsJsSpace(s[0]) then TrimStart(s[1..]) else s
  }

  /** White space removed from the back: the string up to its trailing white space. */
  function TrimEnd(s: string): (r: string)
    ensures |r| <= |s| && r == s[..|r|]
    ensures forall k :: |r| <= k < |s| ==> IsJsSpace(s[k])
    ensures r != [] ==> !IsJsSpace(r[|r| - 1])
  {
    if s != [] && IsJsSpace(s[|s| - 1]) then TrimEnd(s[..|s| - 1]) else s
  }

  /** `r` is the slice of `s` at `i`, and everything of `s` before and after it is white space. */
  predicate TrimmedAt(s: string, r: string, i: int) {
    && 0 <= i && i + |r| <= |s| && r == s[i..i + |r|]
    && (forall k :: 0 <= k < i ==> IsJsSpace(s[k]))
    && (forall k :: i + |r| <= k < |s| ==> IsJsSpace(s[k]))
  }

  /** JavaScript's `String.prototype.trim`; TrimIsSlice states what it keeps. */
  function Trim(s: string): (r: string)
    ensures |r| <= |s|
    ensures r != [] ==> !IsJsSpace(r[0]) && !IsJsSpace(r[|r| - 1])
  {
    TrimEnd(TrimStart(s))
  }

  /**
   * `trim()` keeps a slice of the string and cuts off only white space
   * before and after it.
   */
  lemma TrimIsSlice(s: string)
    ensures exists i :: TrimmedAt(s, Trim(s), i)
  {
    var t := TrimStart(s);
    var r := TrimEnd(t);
    assert Trim(s) == r;
    forall k | |s| - |t| + |r| <= k < |s| ensures IsJsSpace(s[k]) {
      assert s[k] == t[k - (|s| - |t|)];
    }
    assert TrimmedAt(s, r, |s| - |t|);
  }

  lemma {:induction false} TrimStartEmpty(s: string)
    ensures TrimStart(s) == [] <==> forall i :: 0 <= i < |s| ==> IsJsSpace(s[i])
  {
    if s != [] && IsJsSpace(s[0]) {
      TrimStartEmpty(s[1..]);
      assert forall i :: 1 <= i < |s| ==> s[i] == s[1..][i - 1];
    }
  }

  lemma {:induction false} TrimEndKeepsLead(s: string)
    requires s != [] && !IsJsSpace(s[0])
    ensures TrimEnd(s) != []
    decreases |s|
  {
    if IsJsSpace(s[|s| - 1]) {
      TrimEndKeepsLead(s[..|s| - 1]);
    }
  }

  /** A string trims to nothing exactly when every character of it is JavaScript whitespace. */
  lemma TrimBlank(s: string)
    ensures Trim(s) == [] <==> forall i :: 0 <= i < |s| ==> IsJsSpace(s[i])
  {
    TrimStartEmpty(s);
    var t := TrimStart(s);
    if t != [] {
      TrimEndKeepsLead(t);
    }
  }
}
