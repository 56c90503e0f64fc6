/** JSON string literals as `JSON.stringify` writes them and `JSON.parse`
    reads them back. The stored user record is text built from such
    literals, so its round trip rests on the one proved here. */
module Json {
  import opened Wrappers

  /** Lower-case hexadecimal digit of `n`, as used in a `\u00XX` escape. */
  function HexDigit(n: nat): (c: char)
    requires n < 16
    ensures HexValue(c) == Some(n)
  {
    if n < 10 then ('0' as int + n) as char else ('a' as int + n - 10) as char
  }

  /** Value of one hexadecimal digit, either case; `None` for other characters. */
  function HexValue(c: char): (r: Option<nat>)
    ensures r.Some? ==> r.value < 16
  {
    if '0' <= c <= '9' then Some(c as int - '0' as int)
    else if 'a' <= c <= 'f' then Some(c as int - 'a' as int + 10)
    else if 'A' <= c <= 'F' then Some(c as int - 'A' as int + 10)
    else None
  }

  /** How `JSON.stringify` writes one character inside a string literal:
      the quote and the backslash get a backslash, the five control
      characters with a short form use it, the other control characters
      below U+0020 become `\u00XX`, and everything else is written as is. */
  function EscapeChar(c: char): string {
    if c == '"' then "\\\""
    else if c == '\\' then "\\\\"
    else if c == '\U{8}' then "\\b"
    else if c == '\U{C}' then "\\f"
    else if c == '\n' then "\\n"
    else if c == '\r' then "\\r"
    else if c == '\t' then "\\t"
    else if c < ' ' then "\\u00" + [HexDigit(c as int / 16), HexDigit(c as int % 16)]
    else [c]
  }

  /** The body of the string literal for `s`, without its quotes. */
  function Escape(s: string): string {
    if s == [] then [] else EscapeChar(s[0]) + Escape(s[1..])
  }

  /** `JSON.stringify(s)` for a string `s`. */
  function Quote(s: string): string {
    "\"" + Escape(s) + "\""
  }

  /** Reads the escape sequence that follows a backslash: the character it
      stands for and how many characters the sequence takes (after the
      backslash). A `\u` escape naming a high surrogate that is directly
      followed by a `\u` escape naming a low surrogate stands for the one
      character the pair encodes; any other surrogate escape is refused. */
  function Unescape(s: string): (r: Option<(char, nat)>)
    ensures r.Some? ==> 1 <= r.value.1 <= |s|
  {
    if |s| == 0 then None
    else if s[0] == '"' then Some(('"', 1))
    else if s[0] == '\\' then Some(('\\', 1))
    else if s[0] == '/' then Some(('/', 1))
    else if s[0] == 'b' then Some(('\U{8}', 1))
    else if s[0] == 'f' then Some(('\U{C}', 1))
    else if s[0] == 'n' then Some(('\n', 1))
    else if s[0] == 'r' then Some(('\r', 1))
    else if s[0] == 't' then Some(('\t', 1))
    else if s[0] == 'u' && |s| >= 5 then
      match CodeUnit(s[1..5])
      case Some(code) =>
        if code < 0xD800 || 0xE000 <= code then Some((code as char, 5))
        else if code < 0xDC00 && |s| >= 11 && s[5] == '\\' && s[6] == 'u' then
          match CodeUnit(s[7..11])
          case Some(low) =>
            if 0xDC00 <= low < 0xE000 then Some((SurrogatePair(code, low), 11)) else None
          case None => None
        else None
      case None => None
    else None
  }

  /** The character a UTF-16 surrogate pair encodes. */
  function SurrogatePair(high: nat, low: nat): (c: char)
    requires 0xD800 <= high < 0xDC00 && 0xDC00 <= low < 0xE000
    ensures 0x10000 <= c as int
  {
    (0x10000 + (high - 0xD800) * 0x400 + (low - 0xDC00)) as char
  }

  /** The code unit written as four hexadecimal digits. */
  function CodeUnit(digits: string): (r: Option<nat>)
    requires |digits| == 4
    ensures r.Some? ==> r.value < 0x10000
  {
    match (HexValue(digits[0]), HexValue(digits[1]), HexValue(digits[2]), HexValue(digits[3]))
    case (Some(a), Some(b), Some(c), Some(d)) => Some(((a * 16 + b) * 16 + c) * 16 + d)
    case _ => None
  }

  /** Puts `c` in front of the text of a successful parse. */
  function Prepend(c: char, p: Option<(string, string)>): Option<(string, string)> {
    match p
    case Some((body, rest)) => Some(([c] + body, rest))
    case None => None
  }

  /** Reads a string literal whose opening quote has been consumed: the
      decoded text up to the closing quote, and what follows that quote.
      Unescaped control characters and unknown escapes are errors, as in
      `JSON.parse`. */
  function ParseStringBody(s: string): Option<(string, string)>
    decreases |s|
  {
    if s == [] then None
    else if s[0] == '"' then Some(([], s[1..]))
    else if s[0] == '\\' then
      match Unescape(s[1..])
      case Some((c, n)) => Prepend(c, ParseStringBody(s[1 + n..]))
      case None => None
    else if s[0] < ' ' then None
    else Prepend(s[0], ParseStringBody(s[1..]))
  }

  /** Reads one string literal at the front of `s`. */
  function ParseString(s: string): Option<(string, string)> {
    if |s| > 0 && s[0] == '"' then ParseStringBody(s[1..]) else None
  }

  /** Every character beyond U+FFFF is the pair of its UTF-16 surrogates:
      the high one carries the upper ten bits of `c - 0x10000`, the low one
      the lower ten. */
  lemma SurrogatePairOfItsHalves(c: char)
    requires 0x10000 <= c as int
    ensures var v := c as int - 0x10000;
      SurrogatePair(0xD800 + v / 0x400, 0xDC00 + v % 0x400) == c
  {
  }

  /** The four lower-case hexadecimal digits of a code unit, as a `\u`
      escape writes them. */
  function Hex4(n: nat): string
    requires n < 0x10000
  {
    [HexDigit(n / 0x1000), HexDigit(n / 0x100 % 16), HexDigit(n / 16 % 16), HexDigit(n % 16)]
  }

  /** Four digits written by `Hex4` read back as the code unit. */
  lemma CodeUnitOfHex4(n: nat)
    requires n < 0x10000
    ensures CodeUnit(Hex4(n)) == Some(n)
  {
    var a, b, c, d := n / 0x1000, n / 0x100 % 16, n / 16 % 16, n % 16;
    assert n / 16 == (n / 0x100) * 16 + c;
    assert n / 0x100 == a * 16 + b;
  }

  /** Every character beyond U+FFFF, escaped as its high and then its low
      surrogate, reads back as that one character; the two escapes take
      eleven characters after the first backslash. */
  lemma SurrogatePairEscapeReadsBack(c: char, t: string)
    requires 0x10000 <= c as int
    ensures var v := c as int - 0x10000;
      Unescape("u" + Hex4(0xD800 + v / 0x400) + "\\u" + Hex4(0xDC00 + v % 0x400) + t)
      == Some((c, 11))
  {
    var v := c as int - 0x10000;
    var high, low := 0xD800 + v / 0x400, 0xDC00 + v % 0x400;
    var s := "u" + Hex4(high) + "\\u" + Hex4(low) + t;
    assert s[1..5] == Hex4(high);
    assert s[5] == '\\' && s[6] == 'u';
    assert s[7..11] == Hex4(low);
    CodeUnitOfHex4(high);
    CodeUnitOfHex4(low);
    SurrogatePairOfItsHalves(c);
  }

  /** `JSON.parse` decodes an escaped surrogate pair, here the one for
      U+1F600, to the single character it encodes. */
  lemma EscapedPairReadsAsOneCharacter()
    ensures ParseString("\"\\ud83d\\ude00\"") == Some(("\U{1F600}", ""))
  {
    var s := "\\ud83d\\ude00\"";
    assert CodeUnit(s[2..6]) == Some(0xD83D);
    assert CodeUnit(s[8..12]) == Some(0xDE00);
    assert Unescape(s[1..]) == Some(('\U{1F600}', 11));
    assert s[12..] == "\"";
    assert ParseStringBody("\"") == Some(([], ""));
    assert s[0] == '\\' && s[1 + 11..] == "\"";
    assert ParseStringBody(s) == Prepend('\U{1F600}', ParseStringBody(s[1 + 11..]));
    assert ['\U{1F600}'] + [] == ['\U{1F600}'];
    assert ParseStringBody(s) == Some((['\U{1F600}'], ""));
    assert ("\"" + s)[1..] == s;
  }

  /** `c` is written as a backslash and one letter or sign. */
  predicate HasShortEscape(c: char) {
    c == '"' || c == '\\' || c == '\U{8}' || c == '\U{C}' || c == '\n' || c == '\r' || c == '\t'
  }

  /** A control character without a short form reads back from its
      `\u00XX` escape. */
  lemma HexEscapeReadsBack(c: char, t: string)
    requires c < ' ' && !HasShortEscape(c)
    ensures ParseStringBody(EscapeChar(c) + t) == Prepend(c, ParseStringBody(t))
  {
    var hi, lo := c as int / 16, c as int % 16;
    var digits := ['0', '0', HexDigit(hi), HexDigit(lo)];
    assert CodeUnit(digits) == Some(c as int);
    var s := EscapeChar(c) + t;
    var u := s[1..];
    assert s == ['\\'] + (['u'] + digits + t);
    assert u == ['u'] + digits + t;
    assert u[1..5] == digits;
    assert Unescape(u) == Some((c, 5));
    assert s[1 + 5..] == t;
  }

  /** A character with a short escape reads back from it. */
  lemma ShortEscapeReadsBack(c: char, t: string)
    requires HasShortEscape(c)
    ensures ParseStringBody(EscapeChar(c) + t) == Prepend(c, ParseStringBody(t))
  {
    var s := EscapeChar(c) + t;
    assert |EscapeChar(c)| == 2 && EscapeChar(c)[0] == '\\';
    assert Unescape(s[1..]) == Some((c, 1));
    assert s[1 + 1..] == t;
  }

  /** Reading back the escaped form of one character yields that character
      and leaves the text after it. */
  lemma EscapeCharReadsBack(c: char, t: string)
    ensures ParseStringBody(EscapeChar(c) + t) == Prepend(c, ParseStringBody(t))
  {
    if HasShortEscape(c) {
      ShortEscapeReadsBack(c, t);
    } else if c < ' ' {
      HexEscapeReadsBack(c, t);
    } else {
      assert (EscapeChar(c) + t)[1..] == t;
    }
  }

  /** The body written by `Escape`, followed by the closing quote, reads
      back as the original text, whatever comes after. */
  lemma {:induction false} EscapeReadsBack(x: string, rest: string)
    ensures ParseStringBody(Escape(x) + "\"" + rest) == Some((x, rest))
  {
    if x == [] {
      assert Escape(x) + "\"" + rest == "\"" + rest;
    } else {
      assert Escape(x) + "\"" + rest == EscapeChar(x[0]) + (Escape(x[1..]) + "\"" + rest);
      EscapeCharReadsBack(x[0], Escape(x[1..]) + "\"" + rest);
      EscapeReadsBack(x[1..], rest);
      assert [x[0]] + x[1..] == x;
    }
  }

  /** `JSON.parse` inverts `JSON.stringify` on strings: the literal written
      for `x` reads back as `x` and leaves the text after it untouched. */
  lemma QuoteReadsBack(x: string, rest: string)
    ensures ParseString(Quote(x) + rest) == Some((x, rest))
  {
    assert (Quote(x) + rest)[1..] == Escape(x) + "\"" + rest;
    EscapeReadsBack(x, rest);
  }
}
