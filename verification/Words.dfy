/** What splitting a line at white space comes to: exactly the words of the line, however they
    are spaced. */
module Words {
  import opened Text

  predicate Blank(s: string) { forall i :: 0 <= i < |s| ==> IsSpace(s[i]) }

  predicate IsWord(s: string) { s != [] && forall i :: 0 <= i < |s| ==> !IsSpace(s[i]) }

  /** Nothing, or something that begins with space. */
  predicate Apart(s: string) { s != [] ==> IsSpace(s[0]) }

  /** Gaps of space around words, the inner ones not empty. */
  ghost predicate Fit(gaps: seq<string>, words: seq<string>)
  {
    && |gaps| == |words| + 1
    && (forall i :: 0 <= i < |gaps| ==> Blank(gaps[i]))
    && (forall i :: 0 <= i < |words| ==> IsWord(words[i]))
    && (forall i :: 0 < i < |words| ==> gaps[i] != [])
  }

  function Spaced(gaps: seq<string>, words: seq<string>): string
    requires |gaps| == |words| + 1
  {
    if words == [] then gaps[0] else gaps[0] + words[0] + Spaced(gaps[1..], words[1..])
  }

  /** A line of these words. */
  ghost predicate IsLine(s: string, words: seq<string>)
  {
    exists gaps :: Fit(gaps, words) && Spaced(gaps, words) == s
  }

  lemma SpanOf(a: string, b: string, space: bool)
    requires forall i :: 0 <= i < |a| ==> IsSpace(a[i]) == space
    requires b != [] ==> IsSpace(b[0]) != space
    ensures SpanLength(a + b, space) == |a|
  {
    assert forall i :: 0 <= i < |a| ==> (a + b)[i] == a[i];
    assert b != [] ==> (a + b)[|a|] == b[0];
  }

  lemma NoFields(s: string)
    requires Blank(s)
    ensures Fields(s) == []
  {
    SpanOf(s, [], true);
    assert s + [] == s;
  }

  lemma FirstField(gap: string, word: string, rest: string)
    requires Blank(gap) && IsWord(word) && Apart(rest)
    ensures Fields(gap + (word + rest)) == [word] + Fields(rest)
  {
    var t := word + rest;
    var s := gap + t;
    assert t[0] == word[0];
    SpanOf(gap, t, true);
    SpanOf(word, rest, false);
    assert s[|gap|..] == t && t[..|word|] == word && t[|word|..] == rest;
  }

  lemma FitTail(gaps: seq<string>, words: seq<string>)
    requires Fit(gaps, words) && words != []
    ensures Fit(gaps[1..], words[1..]) && Apart(Spaced(gaps[1..], words[1..]))
  {
    if |words| > 1 {
      assert Spaced(gaps[1..], words[1..])[0] == gaps[1][0];
    }
  }

  lemma {:induction false} FieldsSpaced(gaps: seq<string>, words: seq<string>)
    requires Fit(gaps, words)
    ensures Fields(Spaced(gaps, words)) == words
    decreases |words|
  {
    if words == [] {
      NoFields(gaps[0]);
    } else {
      var rest := Spaced(gaps[1..], words[1..]);
      FitTail(gaps, words);
      FirstField(gaps[0], words[0], rest);
      assert gaps[0] + words[0] + rest == gaps[0] + (words[0] + rest);
      FieldsSpaced(gaps[1..], words[1..]);
    }
  }

  /** Cutting off the first word. */
  lemma FirstWord(s: string) returns (gap: string, word: string, rest: string)
    requires !Blank(s)
    ensures Blank(gap) && IsWord(word) && Apart(rest) && s == gap + (word + rest)
  {
    var k := SpanLength(s, true);
    assert k < |s|;
    var t := s[k..];
    assert t[0] == s[k];
    var n := SpanLength(t, false);
    gap, word, rest := s[..k], t[..n], t[n..];
    assert t == word + rest;
  }

  lemma GapsCons(gap: string, word: string, gaps: seq<string>, words: seq<string>, rest: string)
    requires Blank(gap) && IsWord(word) && Apart(rest)
    requires Fit(gaps, words) && Spaced(gaps, words) == rest
    ensures Fit([gap] + gaps, [word] + words)
    ensures Spaced([gap] + gaps, [word] + words) == gap + word + rest
  {
    assert ([gap] + gaps)[1..] == gaps && ([word] + words)[1..] == words;
    assert words != [] ==> rest[|gaps[0]|] == words[0][0];
  }

  lemma {:induction false} SomeGaps(s: string) returns (gaps: seq<string>)
    ensures Fit(gaps, Fields(s)) && Spaced(gaps, Fields(s)) == s
    decreases |s|
  {
    if Blank(s) {
      NoFields(s);
      gaps := [s];
    } else {
      var gap, word, rest := FirstWord(s);
      FirstField(gap, word, rest);
      var more := SomeGaps(rest);
      GapsCons(gap, word, more, Fields(rest), rest);
      assert gap + word + rest == gap + (word + rest);
      gaps := [gap] + more;
    }
  }

  /** Fields finds exactly the words of a line. */
  lemma FieldsExactly(s: string, words: seq<string>)
    ensures Fields(s) == words <==> IsLine(s, words)
  {
    if Fields(s) == words {
      var gaps := SomeGaps(s);
    }
    if IsLine(s, words) {
      var gaps :| Fit(gaps, words) && Spaced(gaps, words) == s;
      FieldsSpaced(gaps, words);
    }
  }
}
