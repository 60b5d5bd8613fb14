/** What the text form promises: where parentheses go, how lines and arguments are laid out, and
    how a parameter chain prints. */
module UnparseProperties {
  import opened Wrappers
  import opened AstNodes
  import opened AstUnparse

  // ---------------------------------------------------------------- parentheses

  /** Only `*`, `/` and `^` ever put an operand in parentheses. */
  lemma OnlyTightOperatorsWrap(o: NaryOp, x: Node)
    requires Wraps(o, x)
    ensures o == Mul || o == Div || o == Exp
  {
  }

  /** Under `*` and `/` an operand is wrapped exactly when it is an addition, a subtraction or a
      comparison (comparisons share the precedence of addition). */
  lemma WrapUnderProduct(o: NaryOp, x: Node)
    requires o == Mul || o == Div
    ensures Wraps(o, x) <==> x.Nary? && x.op != Mul && x.op != Div && x.op != Exp
  {
  }

  /** Under `^` every operand with operands of its own is wrapped, except another `^`. */
  lemma WrapUnderPower(x: Node)
    ensures Wraps(Exp, x) <==> x.Nary? && x.op != Exp
  {
  }

  /** A unary operator, a parameter or a call is never wrapped, whatever the operator. */
  lemma UnaryNeverWrapped(o: NaryOp, x: Node)
    requires !x.Nary?
    ensures OperandText(o, x) == Unparse(x)
  {
  }

  /** A parameter that holds only a name prints as the name. */
  lemma {:induction false} NameOnlyText(name: string)
    ensures ParamText(Param(Off, Off, map[Name := ParameterName(name)], None)) == name
  {
    var p := Param(Off, Off, map[Name := ParameterName(name)], None);
    KeyWordsInOrder(p);
    assert SlotWords(p, ToBeFixed) == [] && SlotWords(p, ToBeRefined) == [];
    assert SlotWords(p, Name) == [name];
    assert SlotWords(p, Value) == [] && SlotWords(p, Min) == [] && SlotWords(p, Max) == [];
    assert SlotWords(p, Del) == [] && SlotWords(p, Update) == [];
    assert SlotWords(p, StopWhen) == [] && SlotWords(p, ValOnContinue) == [];
    assert FlagWords(p) + KeyWords(p, |ParamKeys|) + NextWords(p) == [name];
  }

  lemma {:induction false} BinaryText(o: NaryOp, a: Node, b: Node)
    ensures Unparse(Nary(o, [a, b])) == OperandText(o, a) + (" " + Symbol(o) + " ") + OperandText(o, b)
  {
    var texts := OperandTexts(o, [a, b]);
    var sep := " " + Symbol(o) + " ";
    assert texts == [OperandText(o, a), OperandText(o, b)];
    JoinPair(sep, OperandText(o, a), OperandText(o, b));
  }

  lemma JoinPair(sep: string, x: string, y: string)
    ensures Join(sep, [x, y]) == x + sep + y
  {
    assert [x, y][1..] == [y];
  }

  /** A parameter that holds only a name. */
  function NameNode(name: string): Node {
    Parameter(Param(Off, Off, map[Name := ParameterName(name)], None))
  }

  /** The formula `TEST+(TEST-TEST)*TEST/TEST^(TEST+TEST)` prints with the parentheses it needs
      and no others. */
  lemma FormulaExample()
    ensures
      var t := NameNode("TEST");
      Unparse(Formula(Nary(Add, [t, Nary(Div, [Nary(Mul, [Nary(Sub, [t, t]), t]),
                                               Nary(Exp, [t, Nary(Add, [t, t])])])])))
      == "TEST" + " + " + "( TEST - TEST ) * TEST / TEST ^ ( TEST + TEST )"
  {
    var t := NameNode("TEST");
    NameOnlyText("TEST");
    var div := Nary(Div, [Nary(Mul, [Nary(Sub, [t, t]), t]), Nary(Exp, [t, Nary(Add, [t, t])])]);
    QuotientExample();
    BinaryText(Add, t, div);
    assert OperandText(Add, t) == "TEST" && OperandText(Add, div) == Unparse(div);
  }

  lemma QuotientExample()
    ensures
      var t := NameNode("TEST");
      Unparse(Nary(Div, [Nary(Mul, [Nary(Sub, [t, t]), t]), Nary(Exp, [t, Nary(Add, [t, t])])]))
      == "( TEST - TEST ) * TEST / TEST ^ ( TEST + TEST )"
  {
    var t := NameNode("TEST");
    var mul := Nary(Mul, [Nary(Sub, [t, t]), t]);
    var exp := Nary(Exp, [t, Nary(Add, [t, t])]);
    ProductExample();
    PowerExample();
    BinaryText(Div, mul, exp);
  }

  lemma ProductExample()
    ensures var t := NameNode("TEST"); Unparse(Nary(Mul, [Nary(Sub, [t, t]), t])) == "( TEST - TEST ) * TEST"
  {
    ProductShape("TEST");
  }

  lemma PowerExample()
    ensures var t := NameNode("TEST"); Unparse(Nary(Exp, [t, Nary(Add, [t, t])])) == "TEST ^ ( TEST + TEST )"
  {
    PowerShape("TEST");
  }

  /** A difference under a product is put in parentheses; the plain operand is not. */
  lemma ProductShape(s: string)
    ensures var t := NameNode(s); Unparse(Nary(Mul, [Nary(Sub, [t, t]), t])) == "( " + s + " - " + s + " )" + " * " + s
  {
    var t := NameNode(s);
    var sub := Nary(Sub, [t, t]);
    DifferenceText(s);
    WrappedOperand(Mul, sub);
    PlainOperand(Mul, s);
    BinaryText(Mul, sub, t);
  }

  /** A sum under a power is put in parentheses; the plain operand is not. */
  lemma PowerShape(s: string)
    ensures var t := NameNode(s); Unparse(Nary(Exp, [t, Nary(Add, [t, t])])) == s + " ^ " + "( " + s + " + " + s + " )"
  {
    var t := NameNode(s);
    var add := Nary(Add, [t, t]);
    var inner := s + " + " + s;
    SumText(s);
    WrappedOperand(Exp, add);
    PlainOperand(Exp, s);
    BinaryText(Exp, t, add);
    assert Unparse(Nary(Exp, [t, add])) == s + " ^ " + ("( " + inner + " )");
    Bracketed(s + " ^ ", inner);
  }

  lemma DifferenceText(s: string)
    ensures var t := NameNode(s); Unparse(Nary(Sub, [t, t])) == s + " - " + s
  {
    PlainOperand(Sub, s);
    BinaryText(Sub, NameNode(s), NameNode(s));
  }

  lemma SumText(s: string)
    ensures var t := NameNode(s); Unparse(Nary(Add, [t, t])) == s + " + " + s
  {
    PlainOperand(Add, s);
    BinaryText(Add, NameNode(s), NameNode(s));
  }

  /** A named parameter is never put in parentheses. */
  lemma PlainOperand(o: NaryOp, s: string)
    ensures OperandText(o, NameNode(s)) == s
  {
    NameOnlyText(s);
  }

  lemma WrappedOperand(o: NaryOp, x: Node)
    requires Wraps(o, x)
    ensures OperandText(o, x) == "( " + Unparse(x) + " )"
  {
  }

  /** Concatenation regrouped around a parenthesised operand. */
  lemma Bracketed(front: string, inner: string)
    ensures front + ("( " + inner + " )") == front + "( " + inner + " )"
  {
  }

  /** Operands of equal precedence are not wrapped, so `a - (b + c)` and `(a - b) + c` print
      alike although they are different trees. */
  lemma SamePrecedenceUnwrapped(a: string, b: string, c: string)
    ensures Nary(Sub, [Text(a), Nary(Add, [Text(b), Text(c)])]) != Nary(Add, [Nary(Sub, [Text(a), Text(b)]), Text(c)])
    ensures Unparse(Nary(Sub, [Text(a), Nary(Add, [Text(b), Text(c)])])) == a + " - " + (b + " + " + c)
    ensures Unparse(Nary(Add, [Nary(Sub, [Text(a), Text(b)]), Text(c)])) == (a + " - " + b) + " + " + c
  {
    BinaryText(Add, Text(b), Text(c));
    BinaryText(Sub, Text(a), Nary(Add, [Text(b), Text(c)]));
    BinaryText(Sub, Text(a), Text(b));
    BinaryText(Add, Nary(Sub, [Text(a), Text(b)]), Text(c));
  }

  // ---------------------------------------------------------------- lines

  /** When no statement is a bare line break, a macro's statements are simply one per line. */
  lemma {:induction false} MacroLinesJoin(texts: seq<string>, i: nat)
    requires i <= |texts|
    requires forall k :: 0 <= k < |texts| ==> texts[k] != "\n"
    ensures MacroLines(texts, i) == Join("\n", texts[..i])
  {
    if i > 0 {
      MacroLinesJoin(texts, i - 1);
      assert texts[..i] == texts[..i - 1] + [texts[i - 1]];
      JoinSnoc("\n", texts[..i - 1], texts[i - 1]);
    }
  }

  /** A macro of two or more statements, none a bare line break, prints them one per line
      between `{` and `}`. */
  lemma MacroBodyLines(texts: seq<string>)
    requires |texts| >= 2
    requires forall k :: 0 <= k < |texts| ==> texts[k] != "\n"
    ensures MacroBody(texts) == " {\n" + Join("\n", texts) + "}"
  {
    MacroLinesJoin(texts, |texts|);
    assert texts[..|texts|] == texts;
  }

  function NodeTexts(stmts: seq<Node>): (r: seq<string>)
    ensures |r| == |stmts|
  {
    seq(|stmts|, k requires 0 <= k < |stmts| => Unparse(stmts[k]))
  }

  /** When no statement is a line break, the root prints its statements one per line. */
  lemma {:induction false} RootLinesJoin(stmts: seq<Node>, i: nat)
    requires i <= |stmts|
    requires forall k :: 0 <= k < |stmts| ==> !stmts[k].LineBreak?
    ensures RootLines(stmts, i) == Join("\n", NodeTexts(stmts[..i]))
  {
    if i > 0 {
      RootLinesJoin(stmts, i - 1);
      assert NodeTexts(stmts[..i]) == NodeTexts(stmts[..i - 1]) + [Unparse(stmts[i - 1])];
      JoinSnoc("\n", NodeTexts(stmts[..i - 1]), Unparse(stmts[i - 1]));
    }
  }

  /** A line break statement adds its own line break and no separator. */
  lemma RootLineBreak(stmts: seq<Node>)
    ensures Unparse(Root(stmts + [LineBreak])) == Unparse(Root(stmts)) + "\n"
  {
    var all := stmts + [LineBreak];
    assert all[..|stmts|] == stmts;
    RootLinesPrefix(all, stmts, |stmts|);
    assert RootLines(all, |all|) == RootLines(stmts, |stmts|) + "" + "\n";
  }

  lemma {:induction false} RootLinesPrefix(all: seq<Node>, stmts: seq<Node>, i: nat)
    requires i <= |stmts| <= |all| && all[..|stmts|] == stmts
    ensures RootLines(all, i) == RootLines(stmts, i)
  {
    if i > 0 {
      RootLinesPrefix(all, stmts, i - 1);
      assert all[i - 1] == stmts[i - 1];
    }
  }

  // ---------------------------------------------------------------- parameters

  /** A parameter of a chain prints its own words, a space, and the rest of the chain. */
  lemma ParamTextNext(p: Param)
    requires p.next.Some?
    requires FlagWords(p) + KeyWords(p, |ParamKeys|) != []
    ensures ParamText(p) == ParamText(p.(next := None)) + " " + ParamText(p.next.value)
  {
    var own := FlagWords(p) + KeyWords(p, |ParamKeys|);
    var q := p.(next := None);
    OwnWordsIgnoreNext(p, |ParamKeys|);
    assert FlagWords(q) + KeyWords(q, |ParamKeys|) + NextWords(q) == own;
    JoinSnoc(" ", own, ParamText(p.next.value));
  }

  lemma {:induction false} OwnWordsIgnoreNext(p: Param, i: nat)
    requires i <= |ParamKeys|
    ensures KeyWords(p.(next := None), i) == KeyWords(p, i)
  {
    if i > 0 {
      OwnWordsIgnoreNext(p, i - 1);
    }
  }

  /** The fixed attribute order: flags, name, value, then min, max, del, update, stop_when and
      val_on_continue, each after its attribute name. */
  lemma FullParamOrder(p: Param)
    requires p.fixed == Off && p.refined == On && p.next.None?
    requires Name in p.fields && Value in p.fields && Min in p.fields && Max in p.fields
    requires Del in p.fields && Update in p.fields && StopWhen in p.fields && ValOnContinue in p.fields
    ensures ParamText(p) == Join(" ", ["@", Unparse(p.fields[Name]), Unparse(p.fields[Value]),
      "min", Unparse(p.fields[Min]), "max", Unparse(p.fields[Max]), "del", Unparse(p.fields[Del]),
      "update", Unparse(p.fields[Update]), "stop_when", Unparse(p.fields[StopWhen]),
      "val_on_continue", Unparse(p.fields[ValOnContinue])])
  {
    FullKeyWords(p);
    assert FlagWords(p) == ["@"];
    assert NextWords(p) == [];
    FlaggedWordsFlat(Unparse(p.fields[Name]), Unparse(p.fields[Value]), Unparse(p.fields[Min]), Unparse(p.fields[Max]),
      Unparse(p.fields[Del]), Unparse(p.fields[Update]), Unparse(p.fields[StopWhen]), Unparse(p.fields[ValOnContinue]));
  }

  lemma FlaggedWordsFlat(n: string, v: string, lo: string, hi: string, d: string, u: string, sw: string, vc: string)
    ensures ["@"] + [n, v, "min", lo, "max", hi, "del", d, "update", u, "stop_when", sw, "val_on_continue", vc] + []
      == ["@", n, v, "min", lo, "max", hi, "del", d, "update", u, "stop_when", sw, "val_on_continue", vc]
  {
  }

  lemma FullKeyWords(p: Param)
    requires Name in p.fields && Value in p.fields && Min in p.fields && Max in p.fields
    requires Del in p.fields && Update in p.fields && StopWhen in p.fields && ValOnContinue in p.fields
    requires !p.fixed.Misplaced? && !p.refined.Misplaced?
    ensures KeyWords(p, |ParamKeys|) == [Unparse(p.fields[Name]), Unparse(p.fields[Value]),
      "min", Unparse(p.fields[Min]), "max", Unparse(p.fields[Max]), "del", Unparse(p.fields[Del]),
      "update", Unparse(p.fields[Update]), "stop_when", Unparse(p.fields[StopWhen]),
      "val_on_continue", Unparse(p.fields[ValOnContinue])]
  {
    KeyWordsInOrder(p);
    assert SlotWords(p, ToBeFixed) == [] && SlotWords(p, ToBeRefined) == [];
    assert SlotWords(p, Name) == [Unparse(p.fields[Name])];
    assert SlotWords(p, Value) == [Unparse(p.fields[Value])];
    assert SlotWords(p, Min) == ["min", Unparse(p.fields[Min])];
    assert SlotWords(p, Max) == ["max", Unparse(p.fields[Max])];
    assert SlotWords(p, Del) == ["del", Unparse(p.fields[Del])];
    assert SlotWords(p, Update) == ["update", Unparse(p.fields[Update])];
    assert SlotWords(p, StopWhen) == ["stop_when", Unparse(p.fields[StopWhen])];
    assert SlotWords(p, ValOnContinue) == ["val_on_continue", Unparse(p.fields[ValOnContinue])];
    AllWordsFlat(Unparse(p.fields[Name]), Unparse(p.fields[Value]), Unparse(p.fields[Min]), Unparse(p.fields[Max]),
      Unparse(p.fields[Del]), Unparse(p.fields[Update]), Unparse(p.fields[StopWhen]), Unparse(p.fields[ValOnContinue]));
  }

  lemma AllWordsFlat(n: string, v: string, lo: string, hi: string, d: string, u: string, sw: string, vc: string)
    ensures [] + [] + [] + [n] + [v] + ["min", lo] + ["max", hi] + ["del", d] + ["update", u]
        + ["stop_when", sw] + ["val_on_continue", vc]
      == [n, v, "min", lo, "max", hi, "del", d, "update", u, "stop_when", sw, "val_on_continue", vc]
  {
  }

  /** The words of all attributes are those of each attribute in the fixed order. */
  lemma KeyWordsInOrder(p: Param)
    ensures KeyWords(p, |ParamKeys|) == [] + SlotWords(p, ToBeFixed) + SlotWords(p, ToBeRefined)
      + SlotWords(p, Name) + SlotWords(p, Value) + SlotWords(p, Min) + SlotWords(p, Max)
      + SlotWords(p, Del) + SlotWords(p, Update) + SlotWords(p, StopWhen) + SlotWords(p, ValOnContinue)
  {
    KeyWordsPair(p, 0);
    KeyWordsPair(p, 2);
    KeyWordsPair(p, 4);
    KeyWordsPair(p, 6);
    KeyWordsPair(p, 8);
  }

  /** Two attributes at a time, in the fixed order. */
  lemma {:induction false} KeyWordsPair(p: Param, i: nat)
    requires i + 2 <= |ParamKeys|
    ensures KeyWords(p, i + 2) == KeyWords(p, i) + SlotWords(p, ParamKeys[i]) + SlotWords(p, ParamKeys[i + 1])
  {
    assert KeyWords(p, i + 2) == KeyWords(p, i + 1) + SlotWords(p, ParamKeys[i + 1]);
  }

  // ---------------------------------------------------------------- arguments

  predicate NoOther(args: seq<Arg>) {
    forall k :: 0 <= k < |args| ==> !args[k].ArgOther?
  }

  lemma {:induction false} ArgPiecesSnoc(args: seq<Arg>, a: Arg)
    ensures ArgPieces(args + [a]) == ArgPieces(args) + ArgPiece(a)
  {
    if args == [] {
      assert [a][1..] == [];
    } else {
      assert (args + [a])[1..] == args[1..] + [a];
      ArgPiecesSnoc(args[1..], a);
    }
  }

  /** Without values of other types, every argument is one piece between the commas. */
  lemma {:induction false} ArgPiecesCount(args: seq<Arg>)
    requires NoOther(args)
    ensures |ArgPieces(args)| == |args|
  {
    if args != [] {
      ArgPiecesCount(args[1..]);
    }
  }

  /** An empty slot at the end prints as a trailing `, `, so `f(a, )` keeps its gap. */
  lemma TrailingGap(args: seq<Arg>)
    requires args != [] && NoOther(args)
    ensures ArgsText(args + [ArgNone]) == ArgsText(args) + ", "
  {
    ArgPiecesSnoc(args, ArgNone);
    ArgPiecesCount(args);
    JoinSnoc(", ", ArgPieces(args), "");
  }

  /** The argument texts of the gapped call `FUN(, "quoted string", a, )`: an empty first and last
      argument each print as nothing between their commas. */
  lemma GapsExample(s: string, a: Node)
    ensures ArgsText([ArgNone, ArgStr(s), ArgNode(a), ArgNone]) == "" + ", " + (Json.Quote(s) + ", " + (Unparse(a) + ", " + ""))
  {
    var q := Json.Quote(s);
    var args := [ArgNone, ArgStr(s), ArgNode(a), ArgNone];
    assert ArgPieces(args[3..]) == [""] by {
      assert args[3..][1..] == [];
    }
    assert ArgPieces(args[2..]) == [Unparse(a), ""] by {
      assert args[2..][1..] == args[3..];
    }
    assert ArgPieces(args[1..]) == [q, Unparse(a), ""] by {
      assert args[1..][1..] == args[2..];
    }
    assert ArgPieces(args) == ["", q, Unparse(a), ""];
    var pieces := ["", q, Unparse(a), ""];
    assert pieces[1..][1..][1..] == [""];
    assert Join(", ", pieces[1..][1..]) == Unparse(a) + ", " + "";
    assert Join(", ", pieces[1..]) == q + ", " + (Unparse(a) + ", " + "");
  }
}

/** The layout of an xdd statement, read off as a list of words. */
module XddUnparseProperties {
  import opened Wrappers
  import opened Decimals
  import opened ValueLiterals
  import opened AstNodes
  import opened AstUnparse
  import opened AstSerialize

  /** Each word preceded by one space. */
  function Spaced(ws: seq<string>): string {
    if ws == [] then "" else Spaced(ws[..|ws| - 1]) + " " + ws[|ws| - 1]
  }

  /** The words printed after `xdd`, in order: the quoted filename when it is non-empty, the
      inline data in braces when there is no filename and the data is non-empty, `range` and its
      value when the range is non-zero, then the flags. */
  function XddWords(x: XddFields): seq<string> {
    FileWords(x) + DataWords(x) + RangeWords(x) + ShownFlags(x)
  }

  function FileWords(x: XddFields): seq<string> {
    if x.filename.Some? && x.filename.value != [] then ["\"" + EscapeDoubleQuotes(x.filename.value) + "\""] else []
  }

  function DataWords(x: XddFields): seq<string> {
    if x.filename.None? && x.inlineData.Some? && |x.inlineData.value| > 0 then
      ["{"] + ((if x.inlineDataXy then ["_xy"] else []) + Strs(x.inlineData.value)) + ["}"]
    else []
  }

  function RangeWords(x: XddFields): seq<string> {
    if x.range.Some? && IsNonZero(x.range.value) then ["range", Str(x.range.value)] else []
  }

  /** The flags printed at the end are those that `serialize` writes, less `_xy`, which is
      printed inside the braces instead. */
  function ShownFlags(x: XddFields): seq<string> {
    var f1: seq<string> := [];
    var f2 := Listed(f1, x.xyeFormat, "xye_format");
    var f3 := Listed(f2, x.gsasFormat, "gsas_format");
    var f4 := Listed(f3, x.fullprofFormat, "fullprof_format");
    var f5 := Listed(f4, x.guiReload, "gui_reload");
    Listed(f5, x.guiIgnore, "gui_ignore")
  }

  /** The words `f`, followed by `w` when it is set. */
  function Listed(f: seq<string>, on: bool, w: string): seq<string> {
    if on then f + [w] else f
  }

  /** The text `r3` followed by the flags that are set, in their fixed order. */
  function XddFlagsAfter(r3: string, x: XddFields): string {
    var r4 := Flagged(r3, x.xyeFormat, " xye_format");
    var r5 := Flagged(r4, x.gsasFormat, " gsas_format");
    var r6 := Flagged(r5, x.fullprofFormat, " fullprof_format");
    var r7 := Flagged(r6, x.guiReload, " gui_reload");
    Flagged(r7, x.guiIgnore, " gui_ignore")
  }

  /** The text `r`, followed by `flag` when it is set. */
  function Flagged(r: string, on: bool, flag: string): string {
    if on then r + flag else r
  }

  /** The text before the flags. */
  function XddHead(x: XddFields): string {
    var r0 := "xdd";
    var r1 := if x.filename.Some? && x.filename.value != [] then r0 + (" \"" + EscapeDoubleQuotes(x.filename.value) + "\"") else r0;
    var r2 := if x.filename.None? && x.inlineData.Some? && |x.inlineData.value| > 0 then r1 + (" " + InlineText(x)) else r1;
    if x.range.Some? && IsNonZero(x.range.value) then r2 + (" range " + Str(x.range.value)) else r2
  }

  /** The text is its head followed by the flags. */
  lemma XddTextSplit(x: XddFields)
    ensures XddText(x) == XddFlagsAfter(XddHead(x), x)
  {
  }

  // ---------------------------------------------------------------- what is printed, and when

  /** The text starts `xdd "` exactly when there is a non-empty filename. */
  lemma XddFilenameShown(x: XddFields)
    ensures StartsWith(XddText(x), "xdd \"") <==> x.filename.Some? && x.filename.value != []
  {
    XddStart(x);
    StartsWithNext(XddText(x), "xdd ", '"');
  }

  /** The text starts `xdd {` exactly when there is no filename and the inline data is not
      empty (a filename that is empty prints nothing, and still hides the inline data). */
  lemma XddInlineShown(x: XddFields)
    ensures StartsWith(XddText(x), "xdd {") <==> x.filename.None? && x.inlineData.Some? && |x.inlineData.value| > 0
  {
    XddStart(x);
    StartsWithNext(XddText(x), "xdd ", '{');
  }

  /** Whether `s` starts with `p` and then `c`, for a text that is `p` and at least one more
      character, or is too short to hold `p` and one more. */
  lemma StartsWithNext(s: string, p: string, c: char)
    requires |s| > |p| ==> s[..|p|] == p
    ensures StartsWith(s, p + [c]) <==> |s| > |p| && s[|p|] == c
  {
    if |s| > |p| && s[|p|] == c {
      assert s[..|p| + 1] == s[..|p|] + [s[|p|]];
    }
    if StartsWith(s, p + [c]) {
      assert s[..|p| + 1][|p|] == c;
    }
  }

  /** The word `range` is printed exactly when the range is non-zero: no filename, number or
      flag is that word. */
  lemma XddRangeShown(x: XddFields)
    ensures "range" in XddWords(x) <==> x.range.Some? && IsNonZero(x.range.value)
  {
    var f, d, r, l := FileWords(x), DataWords(x), RangeWords(x), ShownFlags(x);
    assert XddWords(x) == f + d + r + l;
    RangeNotFile(x);
    RangeNotData(x);
    FlagNamesOnly(x);
    assert "range" !in l;
  }

  lemma RangeNotFile(x: XddFields)
    ensures "range" !in FileWords(x)
  {
    var f := FileWords(x);
    if f != [] {
      assert f[0][0] == '"';
    }
  }

  lemma RangeNotData(x: XddFields)
    ensures "range" !in DataWords(x)
  {
    if x.filename.None? && x.inlineData.Some? && |x.inlineData.value| > 0 {
      var data := x.inlineData.value;
      forall i | 0 <= i < |data|
        ensures Strs(data)[i] != "range"
      {
        Decimals.StrStart(data[i]);
      }
      var xy: seq<string> := if x.inlineDataXy then ["_xy"] else [];
      assert DataWords(x) == ["{"] + (xy + Strs(data)) + ["}"];
      assert "range" !in Strs(data);
    }
  }

  /** The flags printed at the end are the flags `serialize` writes, in the same order, less a
      leading `_xy`. */
  lemma XddFlagsSerialized(x: XddFields)
    ensures XddFlags(x) == (if x.filename.None? && x.inlineDataXy then ["_xy"] else []) + ShownFlags(x)
  {
    var pre: seq<string> := if x.filename.None? && x.inlineDataXy then ["_xy"] else [];
    var g1: seq<string> := [];
    var g2 := Listed(g1, x.xyeFormat, "xye_format");
    var g3 := Listed(g2, x.gsasFormat, "gsas_format");
    var g4 := Listed(g3, x.fullprofFormat, "fullprof_format");
    var g5 := Listed(g4, x.guiReload, "gui_reload");
    var f1 := if x.filename.None? && x.inlineDataXy then [] + ["_xy"] else [];
    var f2 := if x.xyeFormat then f1 + ["xye_format"] else f1;
    var f3 := if x.gsasFormat then f2 + ["gsas_format"] else f2;
    var f4 := if x.fullprofFormat then f3 + ["fullprof_format"] else f3;
    var f5 := if x.guiReload then f4 + ["gui_reload"] else f4;
    assert XddFlags(x) == if x.guiIgnore then f5 + ["gui_ignore"] else f5;
    assert f1 == pre + g1;
    PrefixStep(pre, g1, x.xyeFormat, "xye_format");
    PrefixStep(pre, g2, x.gsasFormat, "gsas_format");
    PrefixStep(pre, g3, x.fullprofFormat, "fullprof_format");
    PrefixStep(pre, g4, x.guiReload, "gui_reload");
    PrefixStep(pre, g5, x.guiIgnore, "gui_ignore");
  }

  lemma PrefixStep(pre: seq<string>, g: seq<string>, on: bool, w: string)
    ensures (if on then (pre + g) + [w] else pre + g) == pre + Listed(g, on, w)
  {
  }

  const FlagNames: seq<string> := ["xye_format", "gsas_format", "fullprof_format", "gui_reload", "gui_ignore"]

  lemma FlagNamesOnly(x: XddFields)
    ensures forall i :: 0 <= i < |ShownFlags(x)| ==> ShownFlags(x)[i] in FlagNames
  {
  }

  /** When something follows `xdd`, the text goes on with a space and the first word. */
  lemma XddStart(x: XddFields)
    ensures XddWords(x) == [] ==> XddText(x) == "xdd"
    ensures XddWords(x) != [] ==>
      |XddWords(x)[0]| > 0 && |XddText(x)| > 4 && XddText(x)[..4] == "xdd " && XddText(x)[4] == XddWords(x)[0][0]
    ensures XddWords(x) != [] ==>
      (XddWords(x)[0][0] == '"' <==> x.filename.Some? && x.filename.value != [])
      && (XddWords(x)[0][0] == '{' <==> x.filename.None? && x.inlineData.Some? && |x.inlineData.value| > 0)
  {
    var ws := XddWords(x);
    XddWordsText(x);
    if ws != [] {
      FirstWord(x);
      JoinedStart("xdd", ws);
    } else {
      JoinSpaced("xdd", ws);
    }
  }

  /** Joining `h` and non-empty words puts a space after `h`, then the first word. */
  lemma JoinedStart(h: string, ws: seq<string>)
    requires ws != [] && |ws[0]| > 0
    ensures |Join(" ", [h] + ws)| > |h| + 1
    ensures Join(" ", [h] + ws)[..|h| + 1] == h + " "
    ensures Join(" ", [h] + ws)[|h| + 1] == ws[0][0]
  {
    JoinSpaced(h, ws);
    SpacedJoin(ws);
    JoinStarts(ws);
    assert Join(" ", [h] + ws) == (h + " ") + Join(" ", ws);
  }

  lemma FirstWord(x: XddFields)
    requires XddWords(x) != []
    ensures |XddWords(x)[0]| > 0
    ensures XddWords(x)[0][0] == '"' <==> x.filename.Some? && x.filename.value != []
    ensures XddWords(x)[0][0] == '{' <==> x.filename.None? && x.inlineData.Some? && |x.inlineData.value| > 0
  {
    FileFirst(x);
    DataFirst(x);
    RangeFirst(x);
    FlagNamesOnly(x);
    FirstOfFour(FileWords(x), DataWords(x), RangeWords(x), ShownFlags(x),
      x.filename.Some? && x.filename.value != [],
      x.filename.None? && x.inlineData.Some? && |x.inlineData.value| > 0);
  }

  /** The first of the four groups of words tells which group it comes from. */
  lemma FirstOfFour(f: seq<string>, d: seq<string>, r: seq<string>, l: seq<string>, fileShown: bool, dataShown: bool)
    requires f + d + r + l != [] && !(fileShown && dataShown)
    requires (f != [] <==> fileShown) && (f != [] ==> |f[0]| > 0 && f[0][0] == '"')
    requires (d != [] <==> dataShown) && (d != [] ==> d[0] == "{")
    requires r != [] ==> r[0] == "range"
    requires forall i :: 0 <= i < |l| ==> l[i] in FlagNames
    ensures |(f + d + r + l)[0]| > 0
    ensures (f + d + r + l)[0][0] == '"' <==> fileShown
    ensures (f + d + r + l)[0][0] == '{' <==> dataShown
  {
    var w := (f + d + r + l)[0];
    if f != [] {
      assert w == f[0];
    } else if d != [] {
      assert w == d[0];
    } else if r != [] {
      assert w == r[0];
    } else {
      assert w == l[0] && l[0] in FlagNames;
    }
  }

  lemma FileFirst(x: XddFields)
    ensures FileWords(x) != [] <==> x.filename.Some? && x.filename.value != []
    ensures FileWords(x) != [] ==> |FileWords(x)[0]| > 0 && FileWords(x)[0][0] == '"'
  {
  }

  lemma DataFirst(x: XddFields)
    ensures DataWords(x) != [] <==> x.filename.None? && x.inlineData.Some? && |x.inlineData.value| > 0
    ensures DataWords(x) != [] ==> DataWords(x)[0] == "{"
  {
  }

  lemma RangeFirst(x: XddFields)
    ensures RangeWords(x) != [] ==> RangeWords(x)[0] == "range"
  {
  }

  lemma JoinStarts(ws: seq<string>)
    requires ws != []
    ensures |Join(" ", ws)| >= |ws[0]| && Join(" ", ws)[..|ws[0]|] == ws[0]
  {
  }

  // ---------------------------------------------------------------- the text is the words

  /** `xdd` followed by its words, each after one space. */
  lemma XddWordsText(x: XddFields)
    ensures XddText(x) == Join(" ", ["xdd"] + XddWords(x))
  {
    var f, d, r, l := FileWords(x), DataWords(x), RangeWords(x), ShownFlags(x);
    XddTextSplit(x);
    FlagsSpaced(XddHead(x), x);
    HeadSpaced(x);
    SpacedAppend(f, d);
    SpacedAppend(f + d, r);
    SpacedAppend(f + d + r, l);
    JoinSpaced("xdd", XddWords(x));
    Regroup("xdd", Spaced(f), Spaced(d), Spaced(r), Spaced(l));
  }

  lemma HeadSpaced(x: XddFields)
    ensures XddHead(x) == "xdd" + Spaced(FileWords(x)) + Spaced(DataWords(x)) + Spaced(RangeWords(x))
  {
    FileSpaced(x);
    DataSpaced(x);
    RangeSpaced(x);
  }

  lemma Regroup(a: string, b: string, c: string, d: string, e: string)
    ensures a + b + c + d + e == a + (((b + c) + d) + e)
  {
  }

  lemma FileSpaced(x: XddFields)
    ensures Spaced(FileWords(x)) ==
      if x.filename.Some? && x.filename.value != [] then " \"" + EscapeDoubleQuotes(x.filename.value) + "\"" else ""
  {
    if x.filename.Some? && x.filename.value != [] {
      QuotedSpaced(EscapeDoubleQuotes(x.filename.value));
    }
  }

  lemma QuotedSpaced(e: string)
    ensures Spaced(["\"" + e + "\""]) == " \"" + e + "\""
  {
    assert ["\"" + e + "\""][..0] == [];
  }

  lemma DataSpaced(x: XddFields)
    ensures Spaced(DataWords(x)) ==
      if x.filename.None? && x.inlineData.Some? && |x.inlineData.value| > 0 then " " + InlineText(x) else ""
  {
    if x.filename.None? && x.inlineData.Some? && |x.inlineData.value| > 0 {
      SpacedJoin(DataWords(x));
    }
  }

  lemma RangeSpaced(x: XddFields)
    ensures Spaced(RangeWords(x)) == if x.range.Some? && IsNonZero(x.range.value) then " range " + Str(x.range.value) else ""
  {
    if x.range.Some? && IsNonZero(x.range.value) {
      SpacedPair("range", Str(x.range.value));
    }
  }

  lemma SpacedPair(w: string, v: string)
    ensures Spaced([w, v]) == " " + w + " " + v
  {
    assert [w, v][..1] == [w] && [w][..0] == [];
    assert Spaced([w]) == "" + " " + w == " " + w;
  }

  /** The five flag steps of `unparse`, taken after the text `r3`, append the shown flags. */
  lemma FlagsSpaced(r3: string, x: XddFields)
    ensures XddFlagsAfter(r3, x) == r3 + Spaced(ShownFlags(x))
  {
    ChainSpaced(r3, x.xyeFormat, x.gsasFormat, x.fullprofFormat, x.guiReload, x.guiIgnore);
  }

  /** The five flag steps, for any settings of the flags. */
  lemma ChainSpaced(r3: string, a: bool, b: bool, c: bool, d: bool, e: bool)
    ensures
      Flagged(Flagged(Flagged(Flagged(Flagged(r3, a, " xye_format"), b, " gsas_format"),
        c, " fullprof_format"), d, " gui_reload"), e, " gui_ignore")
      == r3 + Spaced(Listed(Listed(Listed(Listed(Listed([], a, "xye_format"), b, "gsas_format"),
        c, "fullprof_format"), d, "gui_reload"), e, "gui_ignore"))
  {
    var f1: seq<string> := [];
    var f2 := Listed(f1, a, "xye_format");
    var f3 := Listed(f2, b, "gsas_format");
    var f4 := Listed(f3, c, "fullprof_format");
    var f5 := Listed(f4, d, "gui_reload");
    assert r3 == r3 + Spaced(f1);
    var r4 := Flagged(r3, a, " xye_format");
    FlagStep(r3, f1, r3, a, " xye_format", "xye_format");
    var r5 := Flagged(r4, b, " gsas_format");
    FlagStep(r3, f2, r4, b, " gsas_format", "gsas_format");
    var r6 := Flagged(r5, c, " fullprof_format");
    FlagStep(r3, f3, r5, c, " fullprof_format", "fullprof_format");
    var r7 := Flagged(r6, d, " gui_reload");
    FlagStep(r3, f4, r6, d, " gui_reload", "gui_reload");
    FlagStep(r3, f5, r7, e, " gui_ignore", "gui_ignore");
  }

  lemma FlagStep(r: string, f: seq<string>, prev: string, on: bool, spaced: string, w: string)
    requires prev == r + Spaced(f) && spaced == " " + w
    ensures Flagged(prev, on, spaced) == r + Spaced(Listed(f, on, w))
  {
    if on {
      assert (f + [w])[..|f|] == f;
    }
  }

  // ---------------------------------------------------------------- joining words

  lemma {:induction false} SpacedAppend(a: seq<string>, b: seq<string>)
    ensures Spaced(a + b) == Spaced(a) + Spaced(b)
    decreases |b|
  {
    if b == [] {
      assert a + b == a;
    } else {
      var init := b[..|b| - 1];
      assert (a + b)[..|a + b| - 1] == a + init;
      SpacedAppend(a, init);
    }
  }

  lemma {:induction false} JoinSpaced(h: string, ws: seq<string>)
    ensures Join(" ", [h] + ws) == h + Spaced(ws)
    decreases |ws|
  {
    if ws == [] {
      assert [h] + ws == [h];
    } else {
      var init := ws[..|ws| - 1];
      var w := ws[|ws| - 1];
      assert [h] + ws == ([h] + init) + [w];
      JoinSnoc(" ", [h] + init, w);
      JoinSpaced(h, init);
      assert Spaced(ws) == Spaced(init) + " " + w;
      calc {
        Join(" ", [h] + ws);
        Join(" ", [h] + init) + " " + w;
        (h + Spaced(init)) + " " + w;
        h + (Spaced(init) + " " + w);
      }
    }
  }

  lemma SpacedJoin(ws: seq<string>)
    requires ws != []
    ensures Spaced(ws) == " " + Join(" ", ws)
  {
    assert ws == [ws[0]] + ws[1..];
    JoinSpaced(ws[0], ws[1..]);
    SpacedAppend([ws[0]], ws[1..]);
    assert [ws[0]][..0] == [];
  }
}
