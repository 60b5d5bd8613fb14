/** Lexer tokens: a (type, value) pair with a class per token type. The xdd filename token strips
    the double quotes of a quoted path when it is read and shell-quotes the path when it is
    folded back to text. */
module Tokens {
  import opened Wrappers

  datatype TokenClass =
    | BaseToken
    | EqualsToken
    | SemicolonToken
    | NameToken
    | ParameterValToken
    | OperatorToken
    | XddFilenameToken

  /** The `type` each class declares; the base class only has a placeholder. */
  function ClassType(c: TokenClass): string {
    match c
    case BaseToken => "__OVERRIDE_ME__"
    case EqualsToken => "EQUALS"
    case SemicolonToken => "SEMICOLON"
    case NameToken => "NAME"
    case ParameterValToken => "PARAMETER_VAL"
    case OperatorToken => "OPERATOR"
    case XddFilenameToken => "XDD_FILENAME"
  }

  /** A token as the lexer hands it over: its own type, which the class keeps, and its text. */
  datatype Token = Token(tokenType: string, value: string)

  /** `from_token`: the generic classes insist that the incoming type is their own (the check is
      skipped only for a class whose type is "base", and there is none); the xdd filename class
      checks nothing and strips the quotes of a quoted path. Either way the incoming type is kept. */
  function FromToken(c: TokenClass, tok: Token): Result<Token, string> {
    if c == XddFilenameToken then
      Ok(Token(tok.tokenType, Unquoted(tok.value)))
    else if ClassType(c) != "base" && tok.tokenType != ClassType(c) then
      Err("assert tok.type == cls.type")
    else
      Ok(Token(tok.tokenType, tok.value))
  }

  /** When the text both starts and ends with `"`, one `"` is removed from the front and then one
      from the back of what is left (so a lone `"` becomes empty); otherwise the text is kept. */
  function Unquoted(v: string): string {
    if v != [] && v[0] == '"' && v[|v| - 1] == '"' then
      var front := v[1..];
      if front != [] && front[|front| - 1] == '"' then front[..|front| - 1] else front
    else
      v
  }

  /** `fold`: the value itself, or for a filename the shell-quoted path. */
  function Fold(c: TokenClass, t: Token): string {
    if c == XddFilenameToken then ShellQuote(t.value) else t.value
  }

  /** `serialize`: the token's type and its folded value. */
  function Serialize(c: TokenClass, t: Token): (string, string) {
    (t.tokenType, Fold(c, t))
  }

  // ---------------------------------------------------------------- shell quoting

  /** Characters that need no quoting in a POSIX shell: ASCII letters and digits and `_@%+=:,./-`. */
  predicate SafeChar(c: char) {
    ('a' <= c <= 'z') || ('A' <= c <= 'Z') || ('0' <= c <= '9')
    || c == '_' || c == '@' || c == '%' || c == '+' || c == '=' || c == ':' || c == ','
    || c == '.' || c == '/' || c == '-'
  }

  predicate AllSafe(s: string) {
    forall i :: 0 <= i < |s| ==> SafeChar(s[i])
  }

  /** Python `shlex.quote`: `''` for the empty string, the string itself when every character is
      safe, otherwise the string in single quotes with each `'` written as `'"'"'`. */
  function ShellQuote(s: string): string {
    if s == [] then "''"
    else if AllSafe(s) then s
    else "'" + EscapeQuotes(s) + "'"
  }

  function EscapeQuotes(s: string): string {
    if s == [] then []
    else (if s[0] == '\'' then "'\"'\"'" else [s[0]]) + EscapeQuotes(s[1..])
  }

  // ---------------------------------------------------------------- reading a shell word

  datatype QuoteMode = Bare | InSingle | InDouble

  /** What a POSIX shell makes of `s` as one word: bare characters must be safe, single quotes
      keep everything up to the next `'`, double quotes everything up to the next `"` (the
      characters a shell would expand inside double quotes are refused rather than interpreted). */
  function ShellWord(s: string, mode: QuoteMode): Option<string> {
    if s == [] then
      if mode == Bare then Some([]) else None
    else
      var c := s[0];
      match mode
      case Bare =>
        if c == '\'' then ShellWord(s[1..], InSingle)
        else if c == '"' then ShellWord(s[1..], InDouble)
        else if SafeChar(c) then Prepend(c, ShellWord(s[1..], Bare))
        else None
      case InSingle =>
        if c == '\'' then ShellWord(s[1..], Bare) else Prepend(c, ShellWord(s[1..], InSingle))
      case InDouble =>
        if c == '"' then ShellWord(s[1..], Bare)
        else if c == '\\' || c == '$' || c == '`' then None
        else Prepend(c, ShellWord(s[1..], InDouble))
  }

  function Prepend(c: char, w: Option<string>): Option<string> {
    if w.Some? then Some([c] + w.value) else None
  }

  // ---------------------------------------------------------------- properties

  /** The generic classes accept a token exactly when its type is their own, and keep it as is. */
  lemma FromTokenChecksType(c: TokenClass, tok: Token)
    requires c != XddFilenameToken
    ensures FromToken(c, tok).Ok? <==> tok.tokenType == ClassType(c)
    ensures FromToken(c, tok).Ok? ==> FromToken(c, tok).value == tok
  {
  }

  /** The filename class accepts every token and keeps its type. */
  lemma FromTokenKeepsType(tok: Token)
    ensures FromToken(XddFilenameToken, tok).Ok?
    ensures FromToken(XddFilenameToken, tok).value.tokenType == tok.tokenType
  {
  }

  /** A quoted path loses exactly its two enclosing quotes. */
  lemma UnquotedStripsOnePair(v: string)
    requires |v| >= 2 && v[0] == '"' && v[|v| - 1] == '"'
    ensures Unquoted(v) == v[1..|v| - 1]
  {
  }

  /** A text that is not enclosed in quotes is kept. */
  lemma UnquotedKeeps(v: string)
    requires v == [] || v[0] != '"' || v[|v| - 1] != '"'
    ensures Unquoted(v) == v
  {
  }

  /** For the generic classes, fold is the value and serialize is (type, value). */
  lemma GenericFoldSerialize(c: TokenClass, t: Token)
    requires c != XddFilenameToken
    ensures Fold(c, t) == t.value && Serialize(c, t) == (t.tokenType, t.value)
  {
  }

  /** Shell quoting leaves a text alone exactly when it is a non-empty run of safe characters. */
  lemma ShellQuoteKeeps(s: string)
    ensures ShellQuote(s) == s <==> (s != [] && AllSafe(s))
  {
    if s != [] && !AllSafe(s) {
      assert |ShellQuote(s)| > |s| by { EscapeQuotesLength(s); }
    }
  }

  lemma {:induction false} EscapeQuotesLength(s: string)
    ensures |EscapeQuotes(s)| >= |s|
  {
    if s != [] {
      EscapeQuotesLength(s[1..]);
    }
  }

  /** Whatever the path, the shell reads the quoted text back as that very path. */
  lemma ShellQuoteRoundTrip(s: string)
    ensures ShellWord(ShellQuote(s), Bare) == Some(s)
  {
    if s == [] {
      var q := ShellQuote(s);
      assert q == "''" && q[1..] == "'" && q[1..][1..] == [];
      assert ShellWord(q[1..][1..], Bare) == Some([]);
      assert ShellWord(q[1..], InSingle) == Some([]);
    } else if AllSafe(s) {
      BareRoundTrip(s);
    } else {
      var q := ShellQuote(s);
      assert q[1..] == EscapeQuotes(s) + "'";
      SingleRoundTrip(s);
    }
  }

  lemma {:induction false} BareRoundTrip(s: string)
    requires AllSafe(s)
    ensures ShellWord(s, Bare) == Some(s)
  {
    if s != [] {
      BareRoundTrip(s[1..]);
      assert [s[0]] + s[1..] == s;
    }
  }

  /** Inside single quotes, the escaped text followed by the closing quote reads back as the text. */
  lemma {:induction false} SingleRoundTrip(s: string)
    ensures ShellWord(EscapeQuotes(s) + "'", InSingle) == Some(s)
  {
    if s == [] {
      assert EscapeQuotes(s) + "'" == "'";
      assert "'"[1..] == [];
    } else {
      var tail := EscapeQuotes(s[1..]) + "'";
      SingleRoundTrip(s[1..]);
      assert [s[0]] + s[1..] == s;
      if s[0] == '\'' {
        assert EscapeQuotes(s) + "'" == "'\"'\"'" + tail;
        EscapedQuoteStep(tail, s[1..]);
      } else {
        var w := [s[0]] + tail;
        assert EscapeQuotes(s) + "'" == w;
        assert w[1..] == tail;
      }
    }
  }

  /** `'"'"'` inside single quotes closes them, adds a double-quoted `'` and opens them again. */
  lemma {:induction false} EscapedQuoteStep(tail: string, rest: string)
    requires ShellWord(tail, InSingle) == Some(rest)
    ensures ShellWord("'\"'\"'" + tail, InSingle) == Some("'" + rest)
  {
    var w := "'\"'\"'" + tail;
    assert w[1..] == "\"'\"'" + tail;
    assert w[2..] == "'\"'" + tail;
    assert w[3..] == "\"'" + tail;
    assert w[4..] == "'" + tail;
    assert w[5..] == tail;
    assert ShellWord(w[4..], Bare) == Some(rest);
    assert ShellWord(w[3..], InDouble) == Some(rest);
    assert ShellWord(w[2..], InDouble) == Some("'" + rest);
    assert ShellWord(w[1..], Bare) == Some("'" + rest);
  }

  /** The quoted path of the filename tests loses its quotes. */
  lemma QuotedExample()
    ensures Unquoted("\"so me/pa th/file.name\"") == "so me/pa th/file.name"
  {
    var spaced := "so me/pa th/file.name";
    assert "\"so me/pa th/file.name\""[1..] == spaced + "\"";
    assert (spaced + "\"")[..|spaced|] == spaced;
  }

  /** A path of safe characters is folded unchanged. */
  lemma SafeExample()
    ensures ShellQuote("some/path/file.name") == "some/path/file.name"
  {
    var plain := "some/path/file.name";
    assert AllSafe(plain) by {
      forall i | 0 <= i < |plain| ensures SafeChar(plain[i]) {
      }
    }
  }

  /** A path with spaces is folded in single quotes. */
  lemma SpacedExample()
    ensures ShellQuote("so me/pa th/file.name") == "'" + "so me/pa th/file.name" + "'"
  {
    var spaced := "so me/pa th/file.name";
    assert !AllSafe(spaced) by {
      assert !SafeChar(spaced[2]);
    }
    forall i | 0 <= i < |spaced| ensures spaced[i] != '\'' {
    }
    NoQuotesKept(spaced);
  }

  lemma {:induction false} NoQuotesKept(s: string)
    requires forall i :: 0 <= i < |s| ==> s[i] != '\''
    ensures EscapeQuotes(s) == s
  {
    if s != [] {
      NoQuotesKept(s[1..]);
      assert [s[0]] + s[1..] == s;
    }
  }
}
