/** The syntax tree of a TOPAS control file: one constructor per node class, the records the
    classes hold, and the table of the tags their serialized forms start with. */
module AstNodes {
  import opened Wrappers
  import opened Json
  import opened Decimals
  import opened ValueLiterals

  /** `+1` and `-1`, the prefix operators. */
  datatype UnaryOp = UPlus | UMinus

  /** The operators with a list of operands. The comparison classes are subclasses of the addition
      class; their names in the source are off by one (`FormulaLE` is `<`, `FormulaLT` is `<=`,
      `FormulaGE` is `>`, `FormulaGT` is `>=`), so they are named here by the symbol they print. */
  datatype NaryOp = Add | Sub | Mul | Div | Exp | Eq | Ne | Less | LessEq | Greater | GreaterEq

  /** The ten attributes a parameter has, in the order every loop over them visits them. */
  datatype ParamKey = ToBeFixed | ToBeRefined | Name | Value | Min | Max | Del | Update | StopWhen | ValOnContinue

  /** A parameter's `!`/`@` attribute: unset, set, or — when a serialized list was found under its
      key — holding that list's node, which Python treats as true. */
  datatype Flag = Off | On | Misplaced(flagNode: Node)

  /** `ParameterNode`: the two flags, the node attributes that are present (the name as a
      parameter-name node, the others as values or equations), and the next parameter of a chain. */
  datatype Param = Param(fixed: Flag, refined: Flag, fields: map<ParamKey, Node>, next: Option<Param>)

  /** A function-call or macro argument: a node, a string, an empty slot (`None`), or any other
      JSON value, which is kept as it was read. */
  datatype Arg = ArgNode(node: Node) | ArgStr(str: string) | ArgNone | ArgOther(other: Json)

  /** A macro statement is a node or raw text. */
  datatype Statement = StmtNode(stmt: Node) | StmtRaw(raw: string)

  /** `num_runs` takes an int (Python's bool counts as one) or a parameter name. */
  datatype Runs = RunsInt(count: int) | RunsBool(flag: bool) | RunsName(runsName: string)

  datatype XddFields = XddFields(
    filename: Option<string>,
    inlineDataXy: bool,
    inlineData: Option<seq<Decimal>>,
    range: Option<Decimal>,
    xyeFormat: bool,
    gsasFormat: bool,
    fullprofFormat: bool,
    guiReload: bool,
    guiIgnore: bool)

  datatype Node =
    | Text(text: string)
    | LineBreak
    | ParameterName(name: string)
    | ParameterValue(literal: ValueLiteral)
    | ParameterEquation(formula: Node, reporting: Option<Node>)
    | Parameter(param: Param)
    | Prm(prm: Param)
    | FunctionCall(funcName: string, args: seq<Arg>)
    | Unary(uop: UnaryOp, operand: Node)
    | Nary(op: NaryOp, operands: seq<Node>)
    | Formula(formulaValue: Node)
    | Local(local: Param)
    | ExistingPrm(existingName: string, operator: string, modificator: Node)
    | NumRuns(runs: Runs)
    | Xdd(xdd: XddFields)
    | AxialConv(filamentLength: Param, sampleLength: Param, receivingSlitLength: Param,
                primarySollerAngle: Option<Param>, secondarySollerAngle: Option<Param>,
                axialNBeta: Option<Param>)
    | Bkg(params: seq<Param>)
    | Macro(macroName: string, macroArgs: seq<Arg>, statements: seq<Statement>)
    | Root(rootStatements: seq<Node>)

  // ---------------------------------------------------------------- node classes and their tags

  datatype Kind =
    | KText | KLineBreak | KParameterName | KParameterValue | KParameterEquation
    | KParameter | KPrm | KFunctionCall | KUnary(u: UnaryOp) | KNary(n: NaryOp) | KFormula
    | KLocal | KExistingPrm | KNumRuns | KXdd | KAxialConv | KBkg | KMacro | KRoot

  function KindOf(n: Node): Kind {
    match n
    case Text(_) => KText
    case LineBreak => KLineBreak
    case ParameterName(_) => KParameterName
    case ParameterValue(_) => KParameterValue
    case ParameterEquation(_, _) => KParameterEquation
    case Parameter(_) => KParameter
    case Prm(_) => KPrm
    case FunctionCall(_, _) => KFunctionCall
    case Unary(u, _) => KUnary(u)
    case Nary(o, _) => KNary(o)
    case Formula(_) => KFormula
    case Local(_) => KLocal
    case ExistingPrm(_, _, _) => KExistingPrm
    case NumRuns(_) => KNumRuns
    case Xdd(_) => KXdd
    case AxialConv(_, _, _, _, _, _) => KAxialConv
    case Bkg(_) => KBkg
    case Macro(_, _, _) => KMacro
    case Root(_) => KRoot
  }

  function Symbol(o: NaryOp): string {
    match o
    case Add => "+"
    case Sub => "-"
    case Mul => "*"
    case Div => "/"
    case Exp => "^"
    case Eq => "=="
    case Ne => "!="
    case Less => "<"
    case LessEq => "<="
    case Greater => ">"
    case GreaterEq => ">="
  }

  /** The class attribute `type`, the first element of every serialized node. */
  function Tag(k: Kind): string {
    match k
    case KText => "text"
    case KLineBreak => "lb"
    case KParameterName => "parameter_name"
    case KParameterValue => "parameter_value"
    case KParameterEquation => "prm_eq"
    case KParameter => "p"
    case KPrm => "prm"
    case KFunctionCall => "func_call"
    case KUnary(UPlus) => "+1"
    case KUnary(UMinus) => "-1"
    case KNary(o) => Symbol(o)
    case KFormula => "formula"
    case KLocal => "local"
    case KExistingPrm => "existing_prm"
    case KNumRuns => "num_runs"
    case KXdd => "xdd"
    case KAxialConv => "axial_conv"
    case KBkg => "bkg"
    case KMacro => "macro"
    case KRoot => "topas"
  }

  /** The class a tag names, read off the tag table. */
  function KindOfTag(t: string): Option<Kind> {
    if t == "text" then Some(KText)
    else if t == "lb" then Some(KLineBreak)
    else if t == "parameter_name" then Some(KParameterName)
    else if t == "parameter_value" then Some(KParameterValue)
    else if t == "prm_eq" then Some(KParameterEquation)
    else if t == "p" then Some(KParameter)
    else if t == "prm" then Some(KPrm)
    else if t == "func_call" then Some(KFunctionCall)
    else if t == "+1" then Some(KUnary(UPlus))
    else if t == "-1" then Some(KUnary(UMinus))
    else if t == "+" then Some(KNary(Add))
    else if t == "-" then Some(KNary(Sub))
    else if t == "*" then Some(KNary(Mul))
    else if t == "/" then Some(KNary(Div))
    else if t == "^" then Some(KNary(Exp))
    else if t == "==" then Some(KNary(Eq))
    else if t == "!=" then Some(KNary(Ne))
    else if t == "<" then Some(KNary(Less))
    else if t == "<=" then Some(KNary(LessEq))
    else if t == ">" then Some(KNary(Greater))
    else if t == ">=" then Some(KNary(GreaterEq))
    else if t == "formula" then Some(KFormula)
    else if t == "local" then Some(KLocal)
    else if t == "existing_prm" then Some(KExistingPrm)
    else if t == "num_runs" then Some(KNumRuns)
    else if t == "xdd" then Some(KXdd)
    else if t == "axial_conv" then Some(KAxialConv)
    else if t == "bkg" then Some(KBkg)
    else if t == "macro" then Some(KMacro)
    else if t == "topas" then Some(KRoot)
    else None
  }

  /** Every class has its own tag, so a serialized node names exactly one class. */
  lemma TagNamesKind(k: Kind)
    ensures KindOfTag(Tag(k)) == Some(k)
  {
    match k
    case KNary(o) => NaryTagNamesKind(o);
    case KUnary(u) =>
    case KFormula | KLocal | KExistingPrm => FormulaTagNamesKind(k);
    case KNumRuns | KXdd | KAxialConv => PatternTagNamesKind(k);
    case KBkg | KMacro | KRoot => BlockTagNamesKind(k);
    case _ =>
  }

  /** The tags at the end of the table are taken three at a time. */
  lemma FormulaTagNamesKind(k: Kind)
    requires k.KFormula? || k.KLocal? || k.KExistingPrm?
    ensures KindOfTag(Tag(k)) == Some(k)
  {
  }

  lemma PatternTagNamesKind(k: Kind)
    requires k.KNumRuns? || k.KXdd? || k.KAxialConv?
    ensures KindOfTag(Tag(k)) == Some(k)
  {
  }

  lemma BlockTagNamesKind(k: Kind)
    requires k.KBkg? || k.KMacro? || k.KRoot?
    ensures KindOfTag(Tag(k)) == Some(k)
  {
  }

  lemma NaryTagNamesKind(o: NaryOp)
    ensures KindOfTag(Symbol(o)) == Some(KNary(o))
  {
  }

  lemma TagInjective(k1: Kind, k2: Kind)
    requires Tag(k1) == Tag(k2)
    ensures k1 == k2
  {
    TagNamesKind(k1);
    TagNamesKind(k2);
  }

  // ---------------------------------------------------------------- the classes allowed at each place

  /** What a formula, and an operand of a binary or comparison operator, may be: a function call,
      a parameter, an arithmetic operator (`formula_arith_op_clses`), a comparison
      (`formula_comp_op_clses`) or text. */
  const OperandKinds: seq<Kind> := [
    KFunctionCall, KParameter,
    KUnary(UPlus), KUnary(UMinus), KNary(Exp), KNary(Mul), KNary(Div), KNary(Sub), KNary(Add),
    KNary(Eq), KNary(Ne), KNary(Less), KNary(LessEq), KNary(Greater), KNary(GreaterEq),
    KText]
  /** What a unary operator's operand may be: no comparison and no formula. */
  const UnaryOperandKinds: seq<Kind> := [
    KFunctionCall, KParameter,
    KUnary(UPlus), KUnary(UMinus), KNary(Exp), KNary(Mul), KNary(Div), KNary(Sub), KNary(Add),
    KText]
  /** What a parameter's value, limits and other attributes may be. */
  const ParamValueKinds: seq<Kind> := [KParameterValue, KParameterEquation, KText]
  const EquationKinds: seq<Kind> := [KFormula, KText]
  const ReportingKinds: seq<Kind> := [KParameterValue, KText]
  /** What a function-call or macro argument given as a list may be. */
  const ArgKinds: seq<Kind> := [KFormula, KText]
  const MacroStatementKinds: seq<Kind> :=
    [KLineBreak, KFormula, KPrm, KLocal, KExistingPrm, KNumRuns, KText, KXdd, KAxialConv, KBkg]
  const RootStatementKinds: seq<Kind> :=
    [KLineBreak, KFormula, KPrm, KLocal, KExistingPrm, KNumRuns, KText, KXdd, KAxialConv, KBkg, KMacro]

  // ---------------------------------------------------------------- parameter attributes

  const ParamKeys: seq<ParamKey> :=
    [ToBeFixed, ToBeRefined, Name, Value, Min, Max, Del, Update, StopWhen, ValOnContinue]

  /** No attribute appears twice in the fixed order. */
  lemma ParamKeysDistinct(m: nat, n: nat)
    requires m < |ParamKeys| && n < |ParamKeys| && m != n
    ensures ParamKeys[m] != ParamKeys[n]
  {
  }

  /** The one-character key of each attribute in the serialized dictionary. */
  function ShortKey(k: ParamKey): string {
    match k
    case ToBeFixed => "!"
    case ToBeRefined => "@"
    case Name => "n"
    case Value => "v"
    case Min => "_"
    case Max => "^"
    case Del => "d"
    case Update => "u"
    case StopWhen => "s"
    case ValOnContinue => "c"
  }

  /** The attribute's name, which the text form writes in front of the limits and the others. */
  function LongKey(k: ParamKey): string {
    match k
    case ToBeFixed => "to_be_fixed"
    case ToBeRefined => "to_be_refined"
    case Name => "name"
    case Value => "value"
    case Min => "min"
    case Max => "max"
    case Del => "del"
    case Update => "update"
    case StopWhen => "stop_when"
    case ValOnContinue => "val_on_continue"
  }

  predicate IsFlagKey(k: ParamKey) {
    k == ToBeFixed || k == ToBeRefined
  }

  function FlagOf(p: Param, k: ParamKey): Flag
    requires IsFlagKey(k)
  {
    if k == ToBeFixed then p.fixed else p.refined
  }

  /** What `getattr` finds under an attribute when it is a node: the node of a misplaced flag, or
      the attribute node. */
  function Slot(p: Param, k: ParamKey): Option<Node> {
    if IsFlagKey(k) then
      if FlagOf(p, k).Misplaced? then Some(FlagOf(p, k).flagNode) else None
    else if k in p.fields then Some(p.fields[k])
    else None
  }

  /** Python truthiness of a flag attribute. */
  predicate IsSet(f: Flag) {
    !f.Off?
  }

  function EmptyParam(): Param {
    Param(Off, Off, map[], None)
  }

  lemma ShortKeyInjective(k1: ParamKey, k2: ParamKey)
    requires ShortKey(k1) == ShortKey(k2)
    ensures k1 == k2
  {
  }

  // ---------------------------------------------------------------- text helpers

  /** Python `sep.join(xs)`. */
  function Join(sep: string, xs: seq<string>): string {
    if |xs| == 0 then ""
    else if |xs| == 1 then xs[0]
    else xs[0] + sep + Join(sep, xs[1..])
  }

  /** Joining after appending one more string adds the separator and that string. */
  lemma {:induction false} JoinSnoc(sep: string, xs: seq<string>, x: string)
    ensures Join(sep, xs + [x]) == if xs == [] then x else Join(sep, xs) + sep + x
  {
    if |xs| == 0 {
      assert xs + [x] == [x];
    } else if |xs| == 1 {
      assert (xs + [x])[1..] == [x];
    } else {
      assert (xs + [x])[1..] == xs[1..] + [x];
      JoinSnoc(sep, xs[1..], x);
    }
  }
}
