/** The string-literal printer of backend/api/routes_ai.py and the reader it must agree with:
    the escape rules for short string literals in section 2.4.1 of the Python Language
    Reference. */
module PythonLiteral {
  import opened Options

  /** `str.replace` with a one-character pattern. */
  function Replace(s: string, c: char, sub: string): string {
    if s == "" then "" else (if s[0] == c then sub else [s[0]]) + Replace(s[1..], c, sub)
  }

  /** The four whole-string replacements, in the order they are applied. */
  function Chain(s: string): string {
    Replace(Replace(Replace(Replace(s, '\\', "\\\\"), '"', "\\\""), '\n', "\\n"), '\r', "\\r")
  }

  function Literal(s: string): string {
    "\"" + Chain(s) + "\""
  }

  // ----- One pass over the characters -----------------------------------------------------

  function EscapeOne(c: char): string {
    match c
    case '\\' => "\\\\"
    case '"' => "\\\""
    case '\n' => "\\n"
    case '\r' => "\\r"
    case _ => [c]
  }

  function Escape(s: string): string {
    if s == "" then "" else EscapeOne(s[0]) + Escape(s[1..])
  }

  lemma {:induction false} ReplaceConcat(a: string, b: string, c: char, sub: string)
    ensures Replace(a + b, c, sub) == Replace(a, c, sub) + Replace(b, c, sub)
  {
    if a == "" {
      assert a + b == b;
    } else {
      assert (a + b)[1..] == a[1..] + b;
      ReplaceConcat(a[1..], b, c, sub);
      var head := if a[0] == c then sub else [a[0]];
      assert head + (Replace(a[1..], c, sub) + Replace(b, c, sub)) == head + Replace(a[1..], c, sub) + Replace(b, c, sub);
    }
  }

  lemma ChainConcat(a: string, b: string)
    ensures Chain(a + b) == Chain(a) + Chain(b)
  {
    ReplaceConcat(a, b, '\\', "\\\\");
    var a1, b1 := Replace(a, '\\', "\\\\"), Replace(b, '\\', "\\\\");
    ReplaceConcat(a1, b1, '"', "\\\"");
    var a2, b2 := Replace(a1, '"', "\\\""), Replace(b1, '"', "\\\"");
    ReplaceConcat(a2, b2, '\n', "\\n");
    ReplaceConcat(Replace(a2, '\n', "\\n"), Replace(b2, '\n', "\\n"), '\r', "\\r");
  }

  lemma ReplaceOne(x: char, c: char, sub: string)
    ensures Replace([x], c, sub) == if x == c then sub else [x]
  {}

  lemma ReplaceTwo(x: char, y: char, c: char, sub: string)
    requires x != c && y != c
    ensures Replace([x, y], c, sub) == [x, y]
  {
    assert [x, y][1..] == [y];
    ReplaceOne(y, c, sub);
  }

  /** On one character the order of the replacements matters only for the backslash, and
      there it is right: what one replacement inserts no later one touches. */
  lemma ChainOne(c: char)
    ensures Chain([c]) == EscapeOne(c)
  {
    ReplaceOne(c, '\\', "\\\\");
    ReplaceOne(c, '"', "\\\"");
    ReplaceOne(c, '\n', "\\n");
    ReplaceOne(c, '\r', "\\r");
    if c == '\\' {
      ReplaceTwo('\\', '\\', '"', "\\\"");
      ReplaceTwo('\\', '\\', '\n', "\\n");
      ReplaceTwo('\\', '\\', '\r', "\\r");
    } else if c == '"' {
      ReplaceTwo('\\', '"', '\n', "\\n");
      ReplaceTwo('\\', '"', '\r', "\\r");
    } else if c == '\n' {
      ReplaceTwo('\\', 'n', '\r', "\\r");
    }
  }

  /** The four successive replacements equal a single pass over the characters. */
  lemma {:induction false} ChainIsSinglePass(s: string)
    ensures Chain(s) == Escape(s)
  {
    if s != "" {
      assert s == [s[0]] + s[1..];
      ChainConcat([s[0]], s[1..]);
      ChainOne(s[0]);
      ChainIsSinglePass(s[1..]);
    }
  }

  /** How each character is written: the four special ones after a backslash, the two line ends
      by their letters, every other one as it is. */
  lemma LiteralOfOne(c: char)
    ensures Literal([c]) == match c
                            case '\\' => "\"\\\\\""
                            case '"' => "\"\\\"\""
                            case '\n' => "\"\\n\""
                            case '\r' => "\"\\r\""
                            case _ => ['"', c, '"']
  {
    ChainOne(c);
  }

  // ----- Reading the literal back -----------------------------------------------------------

  datatype Decoded = Malformed | Unsupported | Decoded(value: string, rest: string)

  /** A double-quoted literal at the start of the source text; `rest` is what follows it. */
  function Decode(source: string): Decoded {
    if source == "" || source[0] != '"' then Malformed else DecodeBody(source[1..])
  }

  function Cons(prefix: string, d: Decoded): Decoded {
    if d.Decoded? then Decoded(prefix + d.value, d.rest) else d
  }

  /** The one-character escapes. */
  function EscapeValue(c: char): Option<char> {
    match c
    case '\\' => Some('\\')
    case '\'' => Some('\'')
    case '"' => Some('"')
    case 'a' => Some(7 as char)
    case 'b' => Some(8 as char)
    case 'f' => Some(12 as char)
    case 'n' => Some('\n')
    case 'r' => Some('\r')
    case 't' => Some('\t')
    case 'v' => Some(11 as char)
    case _ => None
  }

  predicate StartsLongEscape(c: char) {
    '0' <= c <= '7' || c == 'x' || c == 'N' || c == 'u' || c == 'U'
  }

  /** Numeric and named escapes (\ooo, \x, \N, \u, \U) are not modelled; the printer emits none.
      A backslash before a newline joins lines; before any other character it stays. */
  function DecodeBody(t: string): Decoded {
    if t == "" || t[0] == '\n' || t[0] == '\r' then Malformed
    else if t[0] == '"' then Decoded("", t[1..])
    else if t[0] != '\\' then Cons([t[0]], DecodeBody(t[1..]))
    else if |t| == 1 then Malformed
    else
      var tail := DecodeBody(t[2..]);
      var e := EscapeValue(t[1]);
      if e.Some? then Cons([e.value], tail)
      else if t[1] == '\n' then tail
      else if StartsLongEscape(t[1]) then Unsupported
      else Cons(['\\', t[1]], tail)
  }

  lemma DecodePlain(c: char, tail: string)
    requires c != '\\' && c != '"' && c != '\n' && c != '\r'
    ensures DecodeBody([c] + tail) == Cons([c], DecodeBody(tail))
  {}

  lemma DecodeEscape(x: char, tail: string)
    requires EscapeValue(x).Some?
    ensures DecodeBody(['\\', x] + tail) == Cons([EscapeValue(x).value], DecodeBody(tail))
  {}

  lemma DecodeOne(c: char, tail: string)
    ensures DecodeBody(EscapeOne(c) + tail) == Cons([c], DecodeBody(tail))
  {
    match c
    case '\\' => DecodeEscape('\\', tail);
    case '"' => DecodeEscape('"', tail);
    case '\n' => DecodeEscape('n', tail);
    case '\r' => DecodeEscape('r', tail);
    case _ => DecodePlain(c, tail);
  }

  lemma {:induction false} DecodeEscaped(s: string, rest: string)
    ensures DecodeBody(Escape(s) + "\"" + rest) == Decoded(s, rest)
  {
    var t := Escape(s) + "\"" + rest;
    if s == "" {
      assert t == "\"" + rest;
      assert t[1..] == rest;
    } else {
      var tail := Escape(s[1..]) + "\"" + rest;
      assert t == EscapeOne(s[0]) + tail;
      DecodeOne(s[0], tail);
      DecodeEscaped(s[1..], rest);
      assert [s[0]] + s[1..] == s;
    }
  }

  /** Reading the printed literal gives back the string and stops exactly at its end, whatever
      source text follows: no character of the string can close the literal early. */
  lemma LiteralRoundTrip(s: string, rest: string)
    ensures Decode(Literal(s) + rest) == Decoded(s, rest)
  {
    ChainIsSinglePass(s);
    assert (Literal(s) + rest)[1..] == Escape(s) + "\"" + rest;
    DecodeEscaped(s, rest);
  }

  /** The literal stays on one source line. */
  lemma {:induction false} LiteralIsOneLine(s: string)
    ensures '\n' !in Literal(s) && '\r' !in Literal(s)
  {
    ChainIsSinglePass(s);
    EscapeIsOneLine(s);
  }

  lemma {:induction false} EscapeIsOneLine(s: string)
    ensures '\n' !in Escape(s) && '\r' !in Escape(s)
  {
    if s != "" {
      EscapeIsOneLine(s[1..]);
    }
  }
}
