/** `JSON.stringify` and `JSON.parse` on arrays of strings: the form the admin panel sends a
    product's sizes in, and the form the product controller reads them back from. */
module Json {
  import opened Wrappers

  const SyntaxErrorMessage := "Unexpected token in JSON"

  function HexDigit(d: nat): char
    requires d < 16
  {
    "0123456789abcdef"[d]
  }

  function HexValue(c: char): (r: Option<nat>)
    ensures r.Some? ==> r.value < 16
  {
    if '0' <= c <= '9' then Some(c as nat - '0' as nat)
    else if 'a' <= c <= 'f' then Some(c as nat - 'a' as nat + 10)
    else if 'A' <= c <= 'F' then Some(c as nat - 'A' as nat + 10)
    else None
  }

  lemma HexValueOfDigit(d: nat)
    requires d < 16
    ensures HexValue(HexDigit(d)) == Some(d)
  {
  }

  /** How `JSON.stringify` writes one character inside a string literal: quote and backslash
      escaped, the five named control characters by name, the other control characters as
      `\u00XX`, everything else as itself. */
  function EscapeChar(c: char): string {
    if c == '"' then ['\\', '"']
    else if c == '\\' then ['\\', '\\']
    else if c as int == 8 then ['\\', 'b']
    else if c as int == 12 then ['\\', 'f']
    else if c == '\n' then ['\\', 'n']
    else if c == '\r' then ['\\', 'r']
    else if c == '\t' then ['\\', 't']
    else if c as int < 0x20 then ['\\', 'u', '0', '0', HexDigit(c as int / 16), HexDigit(c as int % 16)]
    else [c]
  }

  function EscapeAll(s: string): string {
    if s == [] then [] else EscapeChar(s[0]) + EscapeAll(s[1..])
  }

  function Quote(s: string): string {
    ['"'] + (EscapeAll(s) + ['"'])
  }

  /** The string literals joined by commas, without brackets. */
  function JoinQuoted(xs: seq<string>): string {
    if xs == [] then []
    else if |xs| == 1 then Quote(xs[0])
    else Quote(xs[0]) + ([','] + JoinQuoted(xs[1..]))
  }

  /** `JSON.stringify(xs)` for an array of strings. */
  function Stringify(xs: seq<string>): (r: string)
    ensures |r| >= 2 && r[0] == '[' && r[|r| - 1] == ']'
  {
    ['['] + JoinQuoted(xs) + [']']
  }

  predicate IsWhitespace(c: char) { c == ' ' || c == '\t' || c == '\n' || c == '\r' }

  function SkipWhitespace(t: string): (r: string)
    ensures |r| <= |t| && (r == [] || !IsWhitespace(r[0]))
  {
    if t != [] && IsWhitespace(t[0]) then SkipWhitespace(t[1..]) else t
  }

  /** The character a one-letter escape stands for. */
  function SimpleEscape(c: char): Option<char> {
    if c == '"' || c == '\\' || c == '/' then Some(c)
    else if c == 'b' then Some(8 as char)
    else if c == 'f' then Some(12 as char)
    else if c == 'n' then Some('\n')
    else if c == 'r' then Some('\r')
    else if c == 't' then Some('\t')
    else None
  }

  /** The value of four hexadecimal digits. */
  function Hex4(t: string): (r: Option<nat>)
    requires |t| >= 4
    ensures r.Some? ==> r.value < 0x10000
  {
    match (HexValue(t[0]), HexValue(t[1]), HexValue(t[2]), HexValue(t[3]))
    case (Some(a), Some(b), Some(c), Some(d)) =>
      assert 4096 * a <= 4096 * 15 && 256 * b <= 256 * 15 && 16 * c <= 16 * 15;
      Some(4096 * a + 256 * b + 16 * c + d)
    case _ => None
  }

  /** The body of a string literal, read up to its closing quote: the decoded text and what
      follows the quote. */
  function ParseChars(t: string): (r: Result<(string, string)>)
    ensures r.Ok? ==> |r.value.1| < |t|
    decreases |t|
  {
    if t == [] then Err(SyntaxErrorMessage)
    else if t[0] == '"' then Ok(([], t[1..]))
    else if t[0] == '\\' then
      if |t| < 2 then Err(SyntaxErrorMessage)
      else if t[1] == 'u' then
        if |t| < 6 then Err(SyntaxErrorMessage)
        else match Hex4(t[2..6])
          case None => Err(SyntaxErrorMessage)
          case Some(n) =>
            if 0xD800 <= n <= 0xDFFF then Err(SyntaxErrorMessage)
            else match ParseChars(t[6..])
              case Err(m) => Err(m)
              case Ok((s, rest)) => Ok(([n as char] + s, rest))
      else match SimpleEscape(t[1])
        case None => Err(SyntaxErrorMessage)
        case Some(c) =>
          match ParseChars(t[2..])
          case Err(m) => Err(m)
          case Ok((s, rest)) => Ok(([c] + s, rest))
    else if (t[0] as int) < 0x20 then Err(SyntaxErrorMessage)
    else match ParseChars(t[1..])
      case Err(m) => Err(m)
      case Ok((s, rest)) => Ok(([t[0]] + s, rest))
  }

  /** The elements of a non-empty array up to and including its closing bracket; `u` starts at
      the first element. */
  function ParseItems(u: string): (r: Result<(seq<string>, string)>)
    ensures r.Ok? ==> |r.value.1| < |u|
    decreases |u|
  {
    if u == [] || u[0] != '"' then Err(SyntaxErrorMessage)
    else match ParseChars(u[1..])
      case Err(m) => Err(m)
      case Ok((s, rest)) =>
        var v := SkipWhitespace(rest);
        if v != [] && v[0] == ',' then
          match ParseItems(SkipWhitespace(v[1..]))
          case Err(m) => Err(m)
          case Ok((ss, after)) => Ok(([s] + ss, after))
        else if v != [] && v[0] == ']' then Ok(([s], v[1..]))
        else Err(SyntaxErrorMessage)
  }

  /** `JSON.parse(text)` where the value must be an array of strings; nothing but whitespace
      may follow it. */
  function Parse(text: string): Result<seq<string>> {
    var t := SkipWhitespace(text);
    if t == [] || t[0] != '[' then Err(SyntaxErrorMessage)
    else
      var u := SkipWhitespace(t[1..]);
      if u != [] && u[0] == ']' then
        if SkipWhitespace(u[1..]) == [] then Ok([]) else Err(SyntaxErrorMessage)
      else match ParseItems(u)
        case Err(m) => Err(m)
        case Ok((xs, rest)) => if SkipWhitespace(rest) == [] then Ok(xs) else Err(SyntaxErrorMessage)
  }

  /** What reading `c` and then `tail` gives. */
  function Continued(c: char, tail: string): Result<(string, string)> {
    match ParseChars(tail)
    case Err(m) => Err(m)
    case Ok((s, rest)) => Ok(([c] + s, rest))
  }

  lemma ParseSimpleEscape(c: char, k: char, tail: string)
    requires k != 'u' && SimpleEscape(k) == Some(c)
    ensures ParseChars(['\\', k] + tail) == Continued(c, tail)
  {
    var t := ['\\', k] + tail;
    assert t[0] == '\\' && t[1] == k && t[2..] == tail;
  }

  lemma ParseUnicodeEscape(c: char, tail: string)
    requires (c as int) < 0x20
    ensures ParseChars(['\\', 'u', '0', '0', HexDigit(c as int / 16), HexDigit(c as int % 16)] + tail) == Continued(c, tail)
  {
    var t := ['\\', 'u', '0', '0', HexDigit(c as int / 16), HexDigit(c as int % 16)] + tail;
    HexValueOfDigit(c as int / 16);
    HexValueOfDigit(c as int % 16);
    assert t[2..6] == ['0', '0', HexDigit(c as int / 16), HexDigit(c as int % 16)];
    assert Hex4(t[2..6]) == Some(c as int);
    assert t[6..] == tail;
  }

  lemma ParsePlainChar(c: char, tail: string)
    requires c != '"' && c != '\\' && (c as int) >= 0x20
    ensures ParseChars([c] + tail) == Continued(c, tail)
  {
    assert ([c] + tail)[1..] == tail;
  }

  /** Reading an escaped character gives the character back. */
  lemma ParseEscapedChar(c: char, tail: string)
    ensures ParseChars(EscapeChar(c) + tail) == Continued(c, tail)
  {
    if c == '"' {
      ParseSimpleEscape(c, '"', tail);
    } else if c == '\\' {
      ParseSimpleEscape(c, '\\', tail);
    } else if c as int == 8 {
      ParseSimpleEscape(c, 'b', tail);
    } else if c as int == 12 {
      ParseSimpleEscape(c, 'f', tail);
    } else if c == '\n' {
      ParseSimpleEscape(c, 'n', tail);
    } else if c == '\r' {
      ParseSimpleEscape(c, 'r', tail);
    } else if c == '\t' {
      ParseSimpleEscape(c, 't', tail);
    } else if c as int < 0x20 {
      ParseUnicodeEscape(c, tail);
    } else {
      ParsePlainChar(c, tail);
    }
  }

  /** An escaped body followed by a closing quote reads back as the original text. */
  lemma {:induction false} ParseCharsRoundTrip(s: string, rest: string)
    ensures ParseChars(EscapeAll(s) + ['"'] + rest) == Ok((s, rest))
  {
    if s == [] {
      assert EscapeAll(s) + ['"'] + rest == ['"'] + rest;
    } else {
      ParseCharsRoundTrip(s[1..], rest);
      assert EscapeAll(s) + ['"'] + rest == EscapeChar(s[0]) + (EscapeAll(s[1..]) + ['"'] + rest);
      ParseEscapedChar(s[0], EscapeAll(s[1..]) + ['"'] + rest);
      assert [s[0]] + s[1..] == s;
    }
  }

  /** One element read by `ParseItems`: the literal, then a comma and more, or the bracket. */
  lemma ParseItemsStep(u: string, s: string, rest: string)
    requires u != [] && u[0] == '"' && ParseChars(u[1..]) == Ok((s, rest))
    requires rest != [] && (rest[0] == ',' || rest[0] == ']')
    ensures rest[0] == ']' ==> ParseItems(u) == Ok(([s], rest[1..]))
    ensures rest[0] == ',' ==> (ParseItems(u) ==
      match ParseItems(SkipWhitespace(rest[1..]))
      case Err(m) => Err(m)
      case Ok((ss, after)) => Ok(([s] + ss, after)))
  {
    assert SkipWhitespace(rest) == rest;
  }

  lemma Assoc(a: string, b: string, c: string)
    ensures (a + b) + c == a + (b + c)
  {
  }

  /** The first literal of a joined list, and what comes after it. */
  lemma JoinQuotedFirst(xs: seq<string>, tail: string)
    requires xs != []
    ensures |xs| == 1 ==> JoinQuoted(xs) + tail == ['"'] + ((EscapeAll(xs[0]) + ['"']) + tail)
    ensures |xs| > 1 ==> (JoinQuoted(xs) + tail ==
      ['"'] + ((EscapeAll(xs[0]) + ['"']) + ([','] + (JoinQuoted(xs[1..]) + tail))))
  {
    var e := EscapeAll(xs[0]) + ['"'];
    if |xs| == 1 {
      Assoc(['"'], e, tail);
    } else {
      var j := JoinQuoted(xs[1..]);
      Assoc(Quote(xs[0]), [','] + j, tail);
      Assoc([','], j, tail);
      Assoc(['"'], e, [','] + (j + tail));
    }
  }

  /** One string literal as `JSON.stringify` writes it, read by `ParseItems` up to the comma
      or the bracket that follows it. */
  lemma ReadLiteral(x: string, after: string)
    requires after != [] && (after[0] == ',' || after[0] == ']')
    ensures var u := ['"'] + ((EscapeAll(x) + ['"']) + after);
      && (after[0] == ']' ==> ParseItems(u) == Ok(([x], after[1..])))
      && (after[0] == ',' ==> (ParseItems(u) ==
        match ParseItems(SkipWhitespace(after[1..]))
        case Err(m) => Err(m)
        case Ok((ss, rest)) => Ok(([x] + ss, rest))))
  {
    var u := ['"'] + ((EscapeAll(x) + ['"']) + after);
    assert u[1..] == EscapeAll(x) + ['"'] + after;
    ParseCharsRoundTrip(x, after);
    ParseItemsStep(u, x, after);
  }

  /** The last literal of the array, closed by its bracket. */
  lemma ParseLastItem(xs: seq<string>, rest: string)
    requires |xs| == 1
    ensures ParseItems(JoinQuoted(xs) + ([']'] + rest)) == Ok((xs, rest))
  {
    var tail := [']'] + rest;
    JoinQuotedFirst(xs, tail);
    ReadLiteral(xs[0], tail);
    assert tail[1..] == rest;
    assert [xs[0]] == xs;
  }

  lemma {:induction false} ParseItemsRoundTrip(xs: seq<string>, rest: string)
    requires xs != []
    ensures ParseItems(JoinQuoted(xs) + ([']'] + rest)) == Ok((xs, rest))
  {
    if |xs| == 1 {
      ParseLastItem(xs, rest);
    } else {
      var tail := [']'] + rest;
      JoinQuotedFirst(xs, tail);
      var next := JoinQuoted(xs[1..]) + tail;
      ReadLiteral(xs[0], [','] + next);
      assert ([','] + next)[1..] == next;
      ParseItemsRoundTrip(xs[1..], rest);
      JoinQuotedFirst(xs[1..], tail);
      assert SkipWhitespace(next) == next;
      assert [xs[0]] + xs[1..] == xs;
    }
  }

  /** `JSON.parse(JSON.stringify(xs))` gives `xs` back. */
  lemma ParseStringify(xs: seq<string>)
    ensures Parse(Stringify(xs)) == Ok(xs)
  {
    var text := Stringify(xs);
    assert text == ['['] + (JoinQuoted(xs) + [']']);
    assert SkipWhitespace(text) == text;
    assert text[1..] == JoinQuoted(xs) + [']'];
    if xs == [] {
      assert text[1..] == [']'];
    } else {
      ParseItemsRoundTrip(xs, []);
      assert JoinQuoted(xs) + ([']'] + []) == JoinQuoted(xs) + [']'];
      OpensWithQuote(xs, [']']);
      assert SkipWhitespace(text[1..]) == text[1..];
    }
  }

  /** A non-empty joined list starts with the opening quote of its first literal, so no
      whitespace is skipped before it. */
  lemma OpensWithQuote(xs: seq<string>, tail: string)
    requires xs != []
    ensures JoinQuoted(xs) + tail != [] && (JoinQuoted(xs) + tail)[0] == '"'
    ensures SkipWhitespace(JoinQuoted(xs) + tail) == JoinQuoted(xs) + tail
  {
    JoinQuotedFirst(xs, tail);
  }
}
