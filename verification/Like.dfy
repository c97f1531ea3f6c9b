/** SQL's `LIKE`, and what it means for the patterns this system stores. */
module Like {

  /** `LIKE` with its two wildcards and its default escape character. */
  predicate Matches(text: string, pattern: string)
    decreases |pattern|, |text|
  {
    if pattern == "" then text == ""
    else if pattern[0] == '%' then Matches(text, pattern[1..]) || (text != "" && Matches(text[1..], pattern))
    else if text == "" then false
    else if pattern[0] == '_' then Matches(text[1..], pattern[1..])
    else if pattern[0] == '\\' then |pattern| > 1 && text[0] == pattern[1] && Matches(text[1..], pattern[2..])
    else text[0] == pattern[0] && Matches(text[1..], pattern[1..])
  }

  /** A pattern in which every character stands for itself. */
  predicate Literal(pattern: string) {
    forall i :: 0 <= i < |pattern| ==> pattern[i] != '%' && pattern[i] != '_' && pattern[i] != '\\'
  }

  lemma {:induction false} LiteralMatchesItself(text: string, pattern: string)
    requires Literal(pattern)
    ensures Matches(text, pattern) <==> text == pattern
    decreases |pattern|
  {
    if pattern != "" && text != "" {
      LiteralMatchesItself(text[1..], pattern[1..]);
      assert text == [text[0]] + text[1..] && pattern == [pattern[0]] + pattern[1..];
    }
  }

  lemma {:induction false} PercentMatchesAll(text: string)
    ensures Matches(text, "%")
    decreases |text|
  {
    if text != "" {
      PercentMatchesAll(text[1..]);
    }
  }

  /** A literal followed by `%` is a prefix test. */
  lemma {:induction false} PrefixPattern(text: string, stem: string)
    requires Literal(stem)
    ensures Matches(text, stem + "%") <==> stem <= text
    decreases |stem|
  {
    var pattern := stem + "%";
    if stem == "" {
      assert pattern == "%";
      PercentMatchesAll(text);
    } else {
      assert pattern[0] == stem[0] && pattern[1..] == stem[1..] + "%";
      if text != "" {
        PrefixPattern(text[1..], stem[1..]);
        assert text == [text[0]] + text[1..] && stem == [stem[0]] + stem[1..];
      }
    }
  }

  predicate EndsWith(text: string, tail: string) {
    |tail| <= |text| && text[|text| - |tail|..] == tail
  }

  /** `%` followed by a literal is a suffix test. */
  lemma {:induction false} SuffixPattern(text: string, tail: string)
    requires Literal(tail)
    ensures Matches(text, "%" + tail) <==> EndsWith(text, tail)
    decreases |text|
  {
    var pattern := "%" + tail;
    assert pattern[1..] == tail;
    LiteralMatchesItself(text, tail);
    if text != "" {
      SuffixPattern(text[1..], tail);
    }
  }

  /** The other wildcard stands for one character, and an escaped character for itself. */
  lemma OneCharacterPatterns(text: string, c: char)
    ensures Matches(text, "_") <==> |text| == 1
    ensures Matches(text, ['\\', c]) <==> text == [c]
  {
    assert ['\\', c][2..] == "" && "_"[1..] == "";
    if text != "" {
      assert text == [text[0]] + text[1..];
    }
  }
}
