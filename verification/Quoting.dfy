/** How names are quoted when the gateway script and its queries are rendered. */
module Quoting {

  /** Python's `str.replace` for a one-character pattern. */
  function Replace(s: string, c: char, w: string): string {
    if s == "" then "" else (if s[0] == c then w else [s[0]]) + Replace(s[1..], c, w)
  }

  /** Backslashes first, then double quotes, as the renderer does it. */
  function KamailioString(value: string): string {
    Replace(Replace(value, '\\', "\\\\"), '"', "\\\"")
  }

  /** One pass: each character escaped on its own. */
  function Escaped(value: string): string {
    if value == "" then "" else EscapedCharacter(value[0]) + Escaped(value[1..])
  }

  function EscapedCharacter(c: char): string {
    if c == '\\' then "\\\\" else if c == '"' then "\\\"" else [c]
  }

  lemma {:induction false} ReplaceDistributes(a: string, b: string, c: char, w: string)
    ensures Replace(a + b, c, w) == Replace(a, c, w) + Replace(b, c, w)
  {
    if a == "" {
      assert a + b == b;
    } else {
      ReplaceDistributes(a[1..], b, c, w);
      assert (a + b)[1..] == a[1..] + b;
    }
  }

  /** The order of the two replaces is right: together they escape each character once. */
  lemma {:induction false} TwoReplacesAreOneEscape(value: string)
    ensures KamailioString(value) == Escaped(value)
  {
    if value != "" {
      var head := if value[0] == '\\' then "\\\\" else [value[0]];
      ReplaceDistributes(head, Replace(value[1..], '\\', "\\\\"), '"', "\\\"");
      TwoReplacesAreOneEscape(value[1..]);
      if value[0] == '\\' {
        assert head[1..] == "\\" && "\\"[1..] == "";
        assert Replace(head, '"', "\\\"") == head;
      } else {
        assert [value[0]][1..] == "";
      }
    }
  }

  datatype Scan = Unterminated | Literal(value: string, rest: string)

  /** Reads a double-quoted literal from after its opening quote. */
  function ScanDoubleQuoted(text: string): Scan {
    if text == "" then Unterminated
    else if text[0] == '"' then Literal("", text[1..])
    else if text[0] == '\\' then
      if |text| == 1 then Unterminated else Prepend(text[1], ScanDoubleQuoted(text[2..]))
    else Prepend(text[0], ScanDoubleQuoted(text[1..]))
  }

  function Prepend(c: char, s: Scan): Scan {
    match s
    case Unterminated => Unterminated
    case Literal(value, rest) => Literal([c] + value, rest)
  }

  lemma EscapedCharacterScans(c: char, tail: string)
    ensures ScanDoubleQuoted(EscapedCharacter(c) + tail) == Prepend(c, ScanDoubleQuoted(tail))
  {
    var text := EscapedCharacter(c) + tail;
    if c == '\\' || c == '"' {
      assert text[0] == '\\' && text[1] == c && text[2..] == tail;
    } else {
      assert text[0] == c && text[1..] == tail;
    }
  }

  lemma {:induction false} EscapedScans(value: string, rest: string)
    ensures ScanDoubleQuoted(Escaped(value) + "\"" + rest) == Literal(value, rest)
  {
    if value == "" {
      assert Escaped(value) + "\"" + rest == "\"" + rest;
    } else {
      var tail := Escaped(value[1..]) + "\"" + rest;
      EscapedScans(value[1..], rest);
      EscapedCharacterScans(value[0], tail);
      assert Escaped(value) + "\"" + rest == EscapedCharacter(value[0]) + tail;
      assert value == [value[0]] + value[1..];
    }
  }

  /** A literal built from any value reads back as the value and stops at its own closing quote,
      whatever text follows. */
  lemma DoubleQuotedRoundTrip(value: string, rest: string)
    ensures ScanDoubleQuoted(KamailioString(value) + "\"" + rest) == Literal(value, rest)
  {
    TwoReplacesAreOneEscape(value);
    EscapedScans(value, rest);
  }

  /** The renderer's doubling of single quotes in SQL literals. */
  function SqlString(value: string): string { Replace(value, '\'', "''") }

  /** Reads a single-quoted SQL literal from after its opening quote. */
  function ScanSingleQuoted(text: string): Scan {
    if text == "" then Unterminated
    else if text[0] == '\'' then
      if |text| > 1 && text[1] == '\'' then Prepend('\'', ScanSingleQuoted(text[2..])) else Literal("", text[1..])
    else Prepend(text[0], ScanSingleQuoted(text[1..]))
  }

  /** An SQL literal reads back as the value exactly when the text after it does not start with a
      further quote, as none of the rendered queries' does. */
  lemma {:induction false} SingleQuotedRoundTrip(value: string, rest: string)
    ensures ScanSingleQuoted(SqlString(value) + "'" + rest) == Literal(value, rest) <==> (rest == "" || rest[0] != '\'')
  {
    var text := SqlString(value) + "'" + rest;
    if value == "" {
      assert text == "'" + rest;
      if rest != "" && rest[0] == '\'' {
        assert text[0] == '\'' && text[1] == '\'';
      }
    } else {
      var tail := SqlString(value[1..]) + "'" + rest;
      SingleQuotedRoundTrip(value[1..], rest);
      if value[0] == '\'' {
        assert text == "''" + tail && text[2..] == tail;
      } else {
        assert text == [value[0]] + tail && text[1..] == tail;
      }
      assert value == [value[0]] + value[1..];
      PrependIsInjective(value[0], ScanSingleQuoted(tail), Literal(value[1..], rest));
    }
  }

  lemma PrependIsInjective(c: char, a: Scan, b: Scan)
    ensures Prepend(c, a) == Prepend(c, b) <==> a == b
  {
    if a.Literal? && b.Literal? {
      assert ([c] + a.value)[1..] == a.value && ([c] + b.value)[1..] == b.value;
    }
  }
}
