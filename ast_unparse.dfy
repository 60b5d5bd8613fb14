/** `unparse`: every node back to TOPAS source text. */
module AstUnparse {
  import opened Wrappers
  import opened Json
  import opened Decimals
  import opened ValueLiterals
  import opened AstNodes

  /** The precedence table of the binary operators; every other operator counts as 1. */
  function Prec(o: NaryOp): nat {
    match o
    case Add => 1
    case Sub => 1
    case Mul => 2
    case Div => 2
    case Exp => 3
    case _ => 1
  }

  /** An operand is put in parentheses when it is itself an operator with a list of operands
      (every comparison class is one, being a subclass of addition) of strictly lower precedence.
      Unary operators have a single operand and are never put in parentheses. The test
      `parent != Eq` only mirrors the `==` class's own `unparse`, which never adds parentheses; it
      cannot change the result, since `==` has the lowest precedence already. */
  predicate Wraps(parent: NaryOp, child: Node) {
    parent != Eq && child.Nary? && Prec(parent) > Prec(child.op)
  }

  function Unparse(n: Node): string
    decreases n, 0
  {
    match n
    case Text(t) => t
    case LineBreak => "\n"
    case ParameterName(name) => name
    case ParameterValue(v) => ValueText(v)
    case ParameterEquation(f, r) =>
      "= " + Unparse(f) + ";" + (if r.Some? then " : " + Unparse(r.value) else "")
    case Parameter(p) => ParamText(p)
    case Prm(p) => "prm " + ParamText(p)
    case FunctionCall(name, args) => name + "(" + ArgsText(args) + ")"
    case Unary(u, x) => (if u == UPlus then "+" else "-") + " " + Unparse(x)
    case Nary(o, xs) =>
      Join(" " + Symbol(o) + " ", OperandTexts(o, xs))
    case Formula(v) => Unparse(v)
    case Local(p) => "local " + ParamText(p)
    case ExistingPrm(name, op, m) => "existing_prm " + name + " " + op + " " + Unparse(m) + ";"
    case NumRuns(r) => "num_runs " + RunsText(r)
    case Xdd(x) => XddText(x)
    case AxialConv(f, s, r, p, q, b) =>
      "axial_conv filament_length " + ParamText(f) + " sample_length " + ParamText(s)
      + " receiving_slit_length " + ParamText(r)
      + (if p.Some? then " primary_soller_angle " + ParamText(p.value) else "")
      + (if q.Some? then " secondary_soller_angle " + ParamText(q.value) else "")
      + (if b.Some? then " axial_n_beta " + ParamText(b.value) else "")
    case Bkg(ps) => "bkg " + Join(" ", ParamTexts(ps))
    case Macro(name, args, stmts) =>
      "macro " + name + (if |args| > 0 then "(" + ArgsText(args) + ")" else "")
      + MacroBody(StatementTexts(stmts))
    case Root(stmts) => RootLines(stmts, |stmts|)
  }

  function OperandTexts(o: NaryOp, xs: seq<Node>): (r: seq<string>)
    ensures |r| == |xs|
    decreases xs, 2
  {
    seq(|xs|, i requires 0 <= i < |xs| => OperandText(o, xs[i]))
  }

  /** An operand of `o` as it appears between the operator symbols. */
  function OperandText(o: NaryOp, x: Node): string
    decreases x, 1
  {
    if Wraps(o, x) then "( " + Unparse(x) + " )" else Unparse(x)
  }

  // ---------------------------------------------------------------- parameters

  /** The words a parameter prints, joined by single spaces: `!` and `@` when set, then each
      attribute that holds a node in the fixed attribute order (name and value bare, the others
      after their attribute name), then the next parameter of a chain. */
  function ParamText(p: Param): string
    decreases p, 2
  {
    Join(" ", FlagWords(p) + KeyWords(p, |ParamKeys|) + NextWords(p))
  }

  function ParamTexts(ps: seq<Param>): (r: seq<string>)
    ensures |r| == |ps|
    decreases ps, 3
  {
    seq(|ps|, i requires 0 <= i < |ps| => ParamText(ps[i]))
  }

  function FlagWords(p: Param): seq<string> {
    (if IsSet(p.fixed) then ["!"] else []) + (if IsSet(p.refined) then ["@"] else [])
  }

  function NextWords(p: Param): seq<string>
    decreases p, 1
  {
    if p.next.Some? then [ParamText(p.next.value)] else []
  }

  /** The words of the first `i` attributes. */
  function KeyWords(p: Param, i: nat): seq<string>
    requires i <= |ParamKeys|
    decreases p, 1, i
  {
    if i == 0 then [] else KeyWords(p, i - 1) + SlotWords(p, ParamKeys[i - 1])
  }

  /** The words of one attribute: none unless it holds a node; the node's text alone for the name
      and the value; the attribute name and the node's text for the others. */
  function SlotWords(p: Param, k: ParamKey): seq<string>
    decreases p, 0
  {
    if k == ToBeFixed then
      if p.fixed.Misplaced? then [LongKey(k), Unparse(p.fixed.flagNode)] else []
    else if k == ToBeRefined then
      if p.refined.Misplaced? then [LongKey(k), Unparse(p.refined.flagNode)] else []
    else if k in p.fields then
      if k == Name || k == Value then [Unparse(p.fields[k])] else [LongKey(k), Unparse(p.fields[k])]
    else []
  }

  // ---------------------------------------------------------------- arguments and statements

  /** `unparse_args`: the pieces joined by `, `. */
  function ArgsText(args: seq<Arg>): string
    decreases args, 2
  {
    Join(", ", ArgPieces(args))
  }

  /** A node prints its text, a string its JSON quoting, an empty slot nothing (so the slot
      survives between the commas); any other value prints no piece at all. */
  function ArgPieces(args: seq<Arg>): seq<string>
    decreases args, 1
  {
    if args == [] then [] else ArgPiece(args[0]) + ArgPieces(args[1..])
  }

  function ArgPiece(a: Arg): seq<string>
    decreases a, 0
  {
    match a
    case ArgNode(x) => [Unparse(x)]
    case ArgStr(s) => [Quote(s)]
    case ArgNone => [""]
    case ArgOther(_) => []
  }

  function StatementTexts(stmts: seq<Statement>): (r: seq<string>)
    ensures |r| == |stmts|
    decreases stmts, 1
  {
    seq(|stmts|, i requires 0 <= i < |stmts| => StatementText(stmts[i]))
  }

  function StatementText(s: Statement): string
    decreases s, 0
  {
    match s
    case StmtNode(x) => Unparse(x)
    case StmtRaw(t) => t
  }

  /** A macro body: `{}` when empty, `{ s }` for one statement, otherwise the statements on lines
      of their own between `{` and `}`. */
  function MacroBody(texts: seq<string>): string {
    if |texts| == 0 then " {}"
    else if |texts| == 1 then " { " + texts[0] + " }"
    else " {\n" + MacroLines(texts, |texts|) + "}"
  }

  /** The first `i` statement texts, each after a line break except the first and a bare line
      break. */
  function MacroLines(texts: seq<string>, i: nat): string
    requires i <= |texts|
  {
    if i == 0 then "" else MacroLines(texts, i - 1) + (if i - 1 == 0 || texts[i - 1] == "\n" then "" else "\n") + texts[i - 1]
  }

  /** The first `i` root statements, each after a line break except the first and line-break nodes. */
  function RootLines(stmts: seq<Node>, i: nat): string
    requires i <= |stmts|
    decreases stmts, i
  {
    if i == 0 then ""
    else RootLines(stmts, i - 1) + (if i - 1 == 0 || stmts[i - 1].LineBreak? then "" else "\n") + Unparse(stmts[i - 1])
  }

  // ---------------------------------------------------------------- leaves

  function RunsText(r: Runs): string {
    match r
    case RunsInt(c) => IntStr(c)
    case RunsBool(b) => if b then "True" else "False"
    case RunsName(name) => name
  }

  /** The filename with each `"` preceded by a backslash. */
  function EscapeDoubleQuotes(s: string): string {
    if s == [] then [] else (if s[0] == '"' then "\\\"" else [s[0]]) + EscapeDoubleQuotes(s[1..])
  }

  /** `XddNode.unparse`: a non-empty filename in double quotes; otherwise non-empty inline data
      in braces (after `_xy` when set); a non-zero range; then the format and gui flags. */
  function XddText(x: XddFields): string {
    var r0 := "xdd";
    var r1 := if x.filename.Some? && x.filename.value != [] then r0 + (" \"" + EscapeDoubleQuotes(x.filename.value) + "\"") else r0;
    var r2 := if x.filename.None? && x.inlineData.Some? && |x.inlineData.value| > 0 then r1 + (" " + InlineText(x)) else r1;
    var r3 := if x.range.Some? && IsNonZero(x.range.value) then r2 + (" range " + Str(x.range.value)) else r2;
    var r4 := if x.xyeFormat then r3 + " xye_format" else r3;
    var r5 := if x.gsasFormat then r4 + " gsas_format" else r4;
    var r6 := if x.fullprofFormat then r5 + " fullprof_format" else r5;
    var r7 := if x.guiReload then r6 + " gui_reload" else r6;
    if x.guiIgnore then r7 + " gui_ignore" else r7
  }

  function InlineText(x: XddFields): string
    requires x.inlineData.Some?
  {
    var inParts := (if x.inlineDataXy then ["_xy"] else []) + Strs(x.inlineData.value);
    Join(" ", ["{"] + inParts + ["}"])
  }

  /** Each number's text, in order. */
  function Strs(data: seq<Decimal>): (r: seq<string>)
    ensures |r| == |data|
    ensures forall i :: 0 <= i < |data| ==> r[i] == Str(data[i])
  {
    if data == [] then [] else Strs(data[..|data| - 1]) + [Str(data[|data| - 1])]
  }
}

module AstUnparseSteps {
  import opened Wrappers
  import opened Decimals
  import opened AstNodes
  import opened AstUnparse

  // ---------------------------------------------------------------- the accumulating renditions

  /** `ParameterNode.unparse` as written: a list of words grown flag by flag and attribute by
      attribute, then joined. */
  method ParameterUnparse(p: Param) returns (text: string)
    ensures text == ParamText(p)
    decreases p
  {
    var strings: seq<string> := [];
    if IsSet(p.fixed) {
      strings := strings + ["!"];
    }
    if IsSet(p.refined) {
      strings := strings + ["@"];
    }
    strings := AttributeWords(p, strings);
    if p.next.Some? {
      var rest := ParameterUnparse(p.next.value);
      strings := strings + [rest];
    }
    assert strings == FlagWords(p) + KeyWords(p, |ParamKeys|) + NextWords(p);
    text := Join(" ", strings);
  }

  /** The attribute loop of `ParameterNode.unparse`: each attribute holding a node adds its words. */
  method AttributeWords(p: Param, start: seq<string>) returns (strings: seq<string>)
    ensures strings == start + KeyWords(p, |ParamKeys|)
  {
    strings := start;
    var i := 0;
    while i < |ParamKeys|
      invariant 0 <= i <= |ParamKeys|
      invariant strings == start + KeyWords(p, i)
    {
      var key := ParamKeys[i];
      var val := Slot(p, key);
      SlotWordsOfSlot(p, key);
      assert KeyWords(p, i + 1) == KeyWords(p, i) + SlotWords(p, key);
      if val.Some? {
        if key == Name || key == Value {
          strings := strings + [Unparse(val.value)];
        } else {
          strings := strings + [LongKey(key), Unparse(val.value)];
        }
      }
      i := i + 1;
    }
  }

  /** The words of an attribute, read through what `getattr` finds there. */
  lemma SlotWordsOfSlot(p: Param, k: ParamKey)
    ensures SlotWords(p, k)
      == if Slot(p, k).None? then []
         else if k == Name || k == Value then [Unparse(Slot(p, k).value)]
         else [LongKey(k), Unparse(Slot(p, k).value)]
  {
  }

  /** `XddNode.unparse` as written: a string extended part by part. */
  method XddUnparse(x: XddFields) returns (result: string)
    ensures result == XddText(x)
  {
    result := "xdd";
    if x.filename.Some? && x.filename.value != [] {
      result := result + (" \"" + EscapeDoubleQuotes(x.filename.value) + "\"");
    }
    if x.filename.None? && x.inlineData.Some? && |x.inlineData.value| > 0 {
      var inline := InlineUnparse(x);
      result := result + (" " + inline);
    }
    if x.range.Some? && IsNonZero(x.range.value) {
      result := result + (" range " + Str(x.range.value));
    }
    if x.xyeFormat {
      result := result + " xye_format";
    }
    if x.gsasFormat {
      result := result + " gsas_format";
    }
    if x.fullprofFormat {
      result := result + " fullprof_format";
    }
    if x.guiReload {
      result := result + " gui_reload";
    }
    if x.guiIgnore {
      result := result + " gui_ignore";
    }
  }

  /** The inline data in braces: `_xy` when set, then each number's text. */
  method InlineUnparse(x: XddFields) returns (text: string)
    requires x.inlineData.Some?
    ensures text == InlineText(x)
  {
    var data := x.inlineData.value;
    var strs: seq<string> := [];
    var i := 0;
    while i < |data|
      invariant 0 <= i <= |data|
      invariant strs == Strs(data[..i])
    {
      assert data[..i + 1][..i] == data[..i];
      strs := strs + [Str(data[i])];
      i := i + 1;
    }
    assert data[..i] == data;
    var inParts := (if x.inlineDataXy then ["_xy"] else []) + strs;
    text := Join(" ", ["{"] + inParts + ["}"]);
  }

  /** `MacroNode.unparse` as written: the statement texts appended one by one, each after its
      delimiter. */
  method MacroUnparse(name: string, args: seq<Arg>, stmts: seq<Statement>) returns (result: string)
    ensures result == Unparse(Macro(name, args, stmts))
  {
    result := "macro " + name;
    if |args| > 0 {
      result := result + ("(" + ArgsText(args) + ")");
    }
    var texts := StatementTexts(stmts);
    var body := BodyUnparse(texts);
    result := result + body;
    UnparseMacro(name, args, stmts);
  }

  /** The statements part of `MacroNode.unparse`. */
  method BodyUnparse(texts: seq<string>) returns (body: string)
    ensures body == MacroBody(texts)
  {
    if |texts| == 0 {
      body := " {}";
    } else if |texts| == 1 {
      body := " { " + texts[0] + " }";
    } else {
      body := AppendLines(" {\n", texts);
      body := body + "}";
    }
  }

  /** The loop of `MacroNode.unparse` over two or more statements. */
  method AppendLines(prefix: string, texts: seq<string>) returns (result: string)
    ensures result == prefix + MacroLines(texts, |texts|)
  {
    result := prefix;
    var idx := 0;
    while idx < |texts|
      invariant 0 <= idx <= |texts|
      invariant result == prefix + MacroLines(texts, idx)
    {
      var delim := if idx == 0 || texts[idx] == "\n" then "" else "\n";
      result := result + delim + texts[idx];
      idx := idx + 1;
    }
  }

  lemma UnparseMacro(name: string, args: seq<Arg>, stmts: seq<Statement>)
    ensures Unparse(Macro(name, args, stmts))
      == "macro " + name + (if |args| > 0 then "(" + ArgsText(args) + ")" else "")
         + MacroBody(StatementTexts(stmts))
  {
  }

  /** `RootNode.unparse` as written. */
  method RootUnparse(stmts: seq<Node>) returns (result: string)
    ensures result == Unparse(Root(stmts))
  {
    result := "";
    var idx := 0;
    while idx < |stmts|
      invariant 0 <= idx <= |stmts|
      invariant result == RootLines(stmts, idx)
    {
      var delim := if idx == 0 || stmts[idx].LineBreak? then "" else "\n";
      result := result + delim + Unparse(stmts[idx]);
      idx := idx + 1;
    }
  }
}
