/** The JSON-compatible values that the syntax tree serializes to (Python lists, dicts, str, int, bool, None). */
module Json {

  datatype Json =
    | JNull
    | JBool(b: bool)
    | JInt(i: int)
    | JStr(s: string)
    | JArr(a: seq<Json>)
    | JObj(o: map<string, Json>)

  /** `hasattr(data, "__len__") and len(data) >= n` for a list. */
  predicate ListAtLeast(j: Json, n: nat) {
    j.JArr? && |j.a| >= n
  }

  /** `len(data) == n` for a list. */
  predicate ListOf(j: Json, n: nat) {
    j.JArr? && |j.a| == n
  }

  /** Python `json.dumps(s)` with its default `ensure_ascii=True`: the string in double quotes,
      with `"`, `\` and control characters escaped and every non-ASCII character written as
      `\uXXXX` (two of them, a surrogate pair, above U+FFFF). */
  function Quote(s: string): (r: string)
    ensures |r| >= 2 + |s| && r[0] == '"' && r[|r| - 1] == '"'
  {
    "\"" + QuoteBody(s) + "\""
  }

  function QuoteBody(s: string): (r: string)
    ensures |r| >= |s|
  {
    if s == [] then [] else EscapeChar(s[0]) + QuoteBody(s[1..])
  }

  /** Printable ASCII other than the quote and the backslash: written as is. */
  predicate PlainChar(c: char) {
    ' ' <= c <= '~' && c != '"' && c != '\\'
  }

  function EscapeChar(c: char): (r: string)
    ensures |r| >= 1
    ensures PlainChar(c) <==> r == [c]
    ensures forall i :: 0 <= i < |r| && r[i] == '"' ==> i == 1 && r[0] == '\\'
  {
    if c == '"' then "\\\""
    else if c == '\\' then "\\\\"
    else if c == '\n' then "\\n"
    else if c == '\r' then "\\r"
    else if c == '\t' then "\\t"
    else if c as int == 0x08 then "\\b"
    else if c as int == 0x0C then "\\f"
    else if ' ' <= c <= '~' then [c]
    else if (c as int) < 0x1_0000 then UnicodeEscape(c as int)
    else
      var v := c as int - 0x1_0000;
      UnicodeEscape(0xD800 + v / 0x400) + UnicodeEscape(0xDC00 + v % 0x400)
  }

  /** `\u` and four lower-case hex digits. */
  function UnicodeEscape(code: nat): (r: string)
    requires code < 0x1_0000
    ensures |r| == 6 && r[0] == '\\' && r[1] == 'u' && '"' !in r
  {
    "\\u" + [HexDigit(code / 0x1000), HexDigit(code / 0x100 % 0x10), HexDigit(code / 0x10 % 0x10), HexDigit(code % 0x10)]
  }

  function HexDigit(d: nat): (c: char)
    requires d < 16
    ensures '0' <= c <= '9' || 'a' <= c <= 'f'
  {
    "0123456789abcdef"[d]
  }

  /** A string of plain characters is quoted verbatim: what `unparse_args` prints for a simple string argument. */
  lemma {:induction false} QuotePlain(s: string)
    requires forall i :: 0 <= i < |s| ==> PlainChar(s[i])
    ensures Quote(s) == "\"" + s + "\""
  {
    QuoteBodyPlain(s);
  }

  lemma {:induction false} QuoteBodyPlain(s: string)
    requires forall i :: 0 <= i < |s| ==> PlainChar(s[i])
    ensures QuoteBody(s) == s
  {
    if s != [] {
      QuoteBodyPlain(s[1..]);
      assert s == [s[0]] + s[1..];
    }
  }

  /** The quoted text never contains a raw double quote between its delimiters unless a backslash
      escapes it, so the argument list cannot be cut short by a quote inside a string argument. */
  lemma {:induction false} QuoteBodyEscapesQuotes(s: string)
    ensures forall i :: 0 <= i < |QuoteBody(s)| && QuoteBody(s)[i] == '"' ==> i > 0 && QuoteBody(s)[i - 1] == '\\'
  {
    if s != [] {
      QuoteBodyEscapesQuotes(s[1..]);
      var e := EscapeChar(s[0]);
      var rest := QuoteBody(s[1..]);
      assert QuoteBody(s) == e + rest;
      forall i | 0 <= i < |e + rest| && (e + rest)[i] == '"'
        ensures i > 0 && (e + rest)[i - 1] == '\\'
      {
        if i >= |e| {
          assert rest[i - |e|] == '"';
        }
      }
    }
  }
}
