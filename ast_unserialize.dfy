/** `unserialize` and `match_unserialize`: a node rebuilt from its JSON form. Every failed check is
    the error the source raises, carrying the message of its `ReconstructException`. */
module AstUnserialize {
  import opened Wrappers
  import opened Json
  import opened Decimals
  import opened ValueLiterals
  import opened AstNodes

  type Error = string

  /** The first class among `kinds` whose tag is `t`. */
  function FirstKind(kinds: seq<Kind>, t: Json): (r: Option<Kind>)
    ensures r.Some? ==> r.value in kinds && t == JStr(Tag(r.value))
    ensures r.None? <==> forall k :: k in kinds ==> t != JStr(Tag(k))
  {
    if kinds == [] then None
    else if t == JStr(Tag(kinds[0])) then Some(kinds[0])
    else FirstKind(kinds[1..], t)
  }

  function Tags(kinds: seq<Kind>): (r: seq<string>)
    ensures |r| == |kinds|
  {
    seq(|kinds|, i requires 0 <= i < |kinds| => Tag(kinds[i]))
  }

  /** `BaseNode.match_unserialize`: a list whose first element is the tag of one of `kinds`,
      rebuilt by that class; the result is of the class the tag names (and so, by
      `UnserializeProperties.MatchKind`, of one of `kinds`). */
  function MatchUnserialize(kinds: seq<Kind>, j: Json): (r: Result<Node, Error>)
    ensures !ListAtLeast(j, 1) ==> r == Err("assert len > 1")
    ensures r.Ok? ==> j.a[0] == JStr(Tag(KindOf(r.value)))
    decreases j, 5
  {
    if !ListAtLeast(j, 1) then Err("assert len > 1")
    else
      var k := FirstKind(kinds, j.a[0]);
      if k.None? then Err("assert data[0] in [" + Join(",", Tags(kinds)) + "]")
      else UnserializeKind(k.value, j)
  }

  /** `unserialize` of the class `k`. */
  function UnserializeKind(k: Kind, j: Json): (r: Result<Node, Error>)
    ensures r.Ok? ==> KindOf(r.value) == k
    decreases j, 4
  {
    if k.KText? || k.KLineBreak? || k.KParameterName? || k.KParameterValue? || k.KParameterEquation? then
      LeafKind(k, j)
    else if k.KParameter? || k.KPrm? || k.KLocal? || k.KAxialConv? || k.KBkg? then
      ParameterKind(k, j)
    else if k.KFunctionCall? || k.KUnary? || k.KNary? || k.KFormula? then
      FormulaKind(k, j)
    else StatementKind(k, j)
  }

  function LeafKind(k: Kind, j: Json): (r: Result<Node, Error>)
    requires k.KText? || k.KLineBreak? || k.KParameterName? || k.KParameterValue? || k.KParameterEquation?
    ensures r.Ok? ==> KindOf(r.value) == k
    decreases j, 3
  {
    match k
    case KText => TextOf(j)
    case KLineBreak => LineBreakOf(j)
    case KParameterName => NameOf(j)
    case KParameterValue => ParameterValueOf(j)
    case KParameterEquation => EquationOf(j)
  }

  function ParameterKind(k: Kind, j: Json): (r: Result<Node, Error>)
    requires k.KParameter? || k.KPrm? || k.KLocal? || k.KAxialConv? || k.KBkg?
    ensures r.Ok? ==> KindOf(r.value) == k
    decreases j, 3
  {
    match k
    case KParameter => var p :- ParamOf(j); Ok(Parameter(p))
    case KPrm => PrmOf(j)
    case KLocal => LocalOf(j)
    case KAxialConv => AxialConvOf(j)
    case KBkg => BkgOf(j)
  }

  function FormulaKind(k: Kind, j: Json): (r: Result<Node, Error>)
    requires k.KFunctionCall? || k.KUnary? || k.KNary? || k.KFormula?
    ensures r.Ok? ==> KindOf(r.value) == k
    decreases j, 3
  {
    match k
    case KFunctionCall => FunctionCallOf(j)
    case KUnary(u) => UnaryOf(u, j)
    case KNary(o) => NaryOf(o, j)
    case KFormula => FormulaOf(j)
  }

  function StatementKind(k: Kind, j: Json): (r: Result<Node, Error>)
    requires k.KExistingPrm? || k.KNumRuns? || k.KXdd? || k.KMacro? || k.KRoot?
    ensures r.Ok? ==> KindOf(r.value) == k
    decreases j, 3
  {
    match k
    case KExistingPrm => ExistingPrmOf(j)
    case KNumRuns => NumRunsOf(j)
    case KXdd => XddOf(j)
    case KMacro => MacroOf(j)
    case KRoot => RootOf(j)
  }

  function TagError(k: Kind): Error {
    "assert data[0] == " + Tag(k)
  }

  // ---------------------------------------------------------------- leaves

  function TextOf(j: Json): (r: Result<Node, Error>)
    ensures r.Ok? ==> r.value.Text?
    decreases j, 2
  {
    if !ListAtLeast(j, 2) then Err("assert len >= 2")
    else if j.a[0] != JStr(Tag(KText)) then Err(TagError(KText))
    else if !j.a[1].JStr? then Err("assert type(data[1]) == str")
    else Ok(Text(j.a[1].s))
  }

  function LineBreakOf(j: Json): (r: Result<Node, Error>)
    ensures r.Ok? ==> r.value.LineBreak?
    decreases j, 2
  {
    if !ListAtLeast(j, 1) then Err("assert len >= 1")
    else if j.a[0] != JStr(Tag(KLineBreak)) then Err(TagError(KLineBreak))
    else Ok(LineBreak)
  }

  /** `ParameterNameNode.unserialize`, also used directly where only a name may stand. */
  function NameOf(j: Json): (r: Result<Node, Error>)
    ensures r.Ok? ==> r.value.ParameterName?
    decreases j, 2
  {
    if !ListAtLeast(j, 2) then Err("assert len >= 2")
    else if j.a[0] != JStr(Tag(KParameterName)) then Err(TagError(KParameterName))
    else if !j.a[1].JStr? then Err("assert type(data[1]) == str")
    else Ok(ParameterName(j.a[1].s))
  }

  /** The literal text is read again by the value parser. */
  function ParameterValueOf(j: Json): (r: Result<Node, Error>)
    ensures r.Ok? ==> r.value.ParameterValue?
    decreases j, 2
  {
    if !ListAtLeast(j, 2) then Err("assert len >= 2")
    else if j.a[0] != JStr(Tag(KParameterValue)) then Err(TagError(KParameterValue))
    else if !j.a[1].JStr? then Err("assert type(data[1]) == str")
    else
      var v := ParseValueLiteral(j.a[1].s);
      if v.None? then Err("not a parameter value literal") else Ok(ParameterValue(v.value))
  }

  /** A formula, and a reporting value when a third element is present. */
  function EquationOf(j: Json): (r: Result<Node, Error>)
    ensures r.Ok? ==> r.value.ParameterEquation?
    decreases j, 2
  {
    if !ListAtLeast(j, 2) then Err("assert len >= 2")
    else if j.a[0] != JStr(Tag(KParameterEquation)) then Err(TagError(KParameterEquation))
    else
      var f :- MatchUnserialize(EquationKinds, j.a[1]);
      if |j.a| < 3 then Ok(ParameterEquation(f, None))
      else
        var rep :- MatchUnserialize(ReportingKinds, j.a[2]);
        Ok(ParameterEquation(f, Some(rep)))
  }

  // ---------------------------------------------------------------- parameters

  /** `ParameterNode.unserialize`: `["p", {…}]`. */
  function ParamOf(j: Json): (r: Result<Param, Error>)
    ensures !ListAtLeast(j, 2) ==> r == Err("assert len >= 2")
    decreases j, 1
  {
    if !ListAtLeast(j, 2) then Err("assert len >= 2")
    else if j.a[0] != JStr(Tag(KParameter)) then Err(TagError(KParameter))
    else if !j.a[1].JObj? then Err("assert data[1] is dict")
    else ParamBody(j.a[1])
  }

  /** The dictionary of a parameter: the attributes in their order, then `!` and `@` when they are
      `true`, then the rest of the chain under `>` when it is not `null`. */
  function ParamBody(d: Json): (r: Result<Param, Error>)
    requires d.JObj?
    decreases d, 1
  {
    var p0 :- FieldsUpTo(d, |ParamKeys|);
    var p1 := if "!" in d.o && d.o["!"] == JBool(true) then p0.(fixed := On) else p0;
    var p2 := if "@" in d.o && d.o["@"] == JBool(true) then p1.(refined := On) else p1;
    if ">" in d.o && d.o[">"] != JNull then
      var rest :- ParamOf(d.o[">"]);
      Ok(p2.(next := Some(rest)))
    else Ok(p2)
  }

  /** The parameter after the loop has visited the first `i` attributes: each one whose short key
      holds a list is rebuilt, the name as a name and every other attribute as a value. */
  function FieldsUpTo(d: Json, i: nat): (r: Result<Param, Error>)
    requires d.JObj? && i <= |ParamKeys|
    ensures r.Ok? ==> r.value.next.None? && !r.value.fixed.On? && !r.value.refined.On?
    decreases d, 0, i
  {
    if i == 0 then Ok(EmptyParam())
    else
      var p :- FieldsUpTo(d, i - 1);
      var k := ParamKeys[i - 1];
      var s := ShortKey(k);
      if s in d.o && d.o[s].JArr? then
        var v :- if k == Name then NameOf(d.o[s]) else MatchUnserialize(ParamValueKinds, d.o[s]);
        Ok(SetSlot(p, k, v))
      else Ok(p)
  }

  /** `setattr` of an attribute: a flag attribute keeps the node itself. */
  function SetSlot(p: Param, k: ParamKey, v: Node): (r: Param)
    ensures Slot(r, k) == Some(v)
    ensures forall k' :: k' != k ==> Slot(r, k') == Slot(p, k')
    ensures r.next == p.next
    ensures r.fields.Keys == if IsFlagKey(k) then p.fields.Keys else p.fields.Keys + {k}
  {
    if k == ToBeFixed then p.(fixed := Misplaced(v))
    else if k == ToBeRefined then p.(refined := Misplaced(v))
    else p.(fields := p.fields[k := v])
  }

  /** `PrmNode.from_parameter`: the fixed flag and the attributes are kept; a `prm` is never marked
      for refinement and has no successor. */
  function FromParameter(p: Param): (r: Param)
    ensures r.fixed == p.fixed && r.fields == p.fields
    ensures r.refined == Off && r.next == None
  {
    Param(p.fixed, Off, p.fields, None)
  }

  /** `PrmNode.unserialize`: the dictionary read as a parameter's, then narrowed. */
  function PrmOf(j: Json): (r: Result<Node, Error>)
    ensures r.Ok? ==> r.value.Prm?
    decreases j, 2
  {
    if !ListAtLeast(j, 2) then Err("assert len >= 2")
    else if j.a[0] != JStr(Tag(KPrm)) then Err(TagError(KPrm))
    else if !j.a[1].JObj? then Err("assert data[1] is dict")
    else
      var p :- ParamBody(j.a[1]);
      Ok(Prm(FromParameter(p)))
  }

  function LocalOf(j: Json): (r: Result<Node, Error>)
    ensures r.Ok? ==> r.value.Local?
    decreases j, 2
  {
    if !ListOf(j, 2) then Err("assert len == 2")
    else if j.a[0] != JStr(Tag(KLocal)) then Err(TagError(KLocal))
    else
      var p :- ParamOf(j.a[1]);
      Ok(Local(p))
  }

  /** The parameters in `j.a[i..]`. */
  function ParamsFrom(j: Json, i: nat): (r: Result<seq<Param>, Error>)
    requires j.JArr? && i <= |j.a|
    ensures r.Ok? ==> |r.value| == |j.a| - i
    decreases j, 0, |j.a| - i
  {
    if i == |j.a| then Ok([])
    else
      var p :- ParamOf(j.a[i]);
      var rest :- ParamsFrom(j, i + 1);
      Ok([p] + rest)
  }

  predicate AllLists(xs: seq<Json>) {
    forall i :: 0 <= i < |xs| ==> xs[i].JArr?
  }

  function BkgOf(j: Json): (r: Result<Node, Error>)
    ensures r.Ok? ==> r.value.Bkg?
    decreases j, 2
  {
    if !ListAtLeast(j, 2) then Err("assert len >= 2")
    else if j.a[0] != JStr(Tag(KBkg)) then Err(TagError(KBkg))
    else if !AllLists(j.a[1..]) then Err("assert all of data[1:] of list type")
    else
      var ps :- ParamsFrom(j, 1);
      Ok(Bkg(ps))
  }

  /** An optional angle of an axial convolution: read when the options have the key. */
  function AxialOpt(j: Json, key: string): (r: Result<Option<Param>, Error>)
    requires ListAtLeast(j, 3) && j.a[2].JObj?
    ensures r.Ok? ==> (r.value.Some? <==> key in j.a[2].o)
    decreases j, 1
  {
    if key in j.a[2].o then
      var p :- ParamOf(j.a[2].o[key]);
      Ok(Some(p))
    else Ok(None)
  }

  function AxialConvOf(j: Json): (r: Result<Node, Error>)
    ensures r.Ok? ==> r.value.AxialConv?
    decreases j, 2
  {
    if !(ListOf(j, 2) || ListOf(j, 3)) then Err("assert len in [2, 3]")
    else if j.a[0] != JStr(Tag(KAxialConv)) then Err(TagError(KAxialConv))
    else if !j.a[1].JArr? then Err("assert isinstance(data[1], list)")
    else if |j.a[1].a| != 3 then Err("assert len(data[1]) == 3")
    else if |j.a| == 3 && !j.a[2].JObj? then Err("assert isinstance(data[2], dict)")
    else
      var f :- ParamOf(j.a[1].a[0]);
      var s :- ParamOf(j.a[1].a[1]);
      var l :- ParamOf(j.a[1].a[2]);
      if |j.a| == 2 then Ok(AxialConv(f, s, l, None, None, None))
      else
        var p :- AxialOpt(j, "p");
        var q :- AxialOpt(j, "s");
        var b :- AxialOpt(j, "b");
        Ok(AxialConv(f, s, l, p, q, b))
  }

  // ---------------------------------------------------------------- formulas

  /** The nodes `match_unserialize` makes of `j.a[i..]`. */
  function MatchFrom(kinds: seq<Kind>, j: Json, i: nat): (r: Result<seq<Node>, Error>)
    requires j.JArr? && i <= |j.a|
    ensures r.Ok? ==> |r.value| == |j.a| - i
    decreases j, 0, |j.a| - i
  {
    if i == |j.a| then Ok([])
    else
      var x :- MatchUnserialize(kinds, j.a[i]);
      var rest :- MatchFrom(kinds, j, i + 1);
      Ok([x] + rest)
  }

  function UnaryOf(u: UnaryOp, j: Json): (r: Result<Node, Error>)
    ensures r.Ok? ==> r.value.Unary? && r.value.uop == u
    decreases j, 2
  {
    if !ListOf(j, 2) then Err("assert len == 2")
    else if j.a[0] != JStr(Tag(KUnary(u))) then Err(TagError(KUnary(u)))
    else
      var x :- MatchUnserialize(UnaryOperandKinds, j.a[1]);
      Ok(Unary(u, x))
  }

  /** A binary or comparison operator needs at least two operands. */
  function NaryOf(o: NaryOp, j: Json): (r: Result<Node, Error>)
    ensures r.Ok? ==> r.value.Nary? && r.value.op == o && |r.value.operands| >= 2
    decreases j, 2
  {
    if !ListAtLeast(j, 3) then Err("assert len > 2")
    else if j.a[0] != JStr(Tag(KNary(o))) then Err(TagError(KNary(o)))
    else
      var xs :- MatchFrom(OperandKinds, j, 1);
      Ok(Nary(o, xs))
  }

  function FormulaOf(j: Json): (r: Result<Node, Error>)
    ensures r.Ok? ==> r.value.Formula?
    decreases j, 2
  {
    if !ListOf(j, 2) then Err("assert len == 2")
    else if j.a[0] != JStr(Tag(KFormula)) then Err(TagError(KFormula))
    else
      var v :- MatchUnserialize(OperandKinds, j.a[1]);
      Ok(Formula(v))
  }

  /** `FunctionCallNode.unserialize_args` for one argument: a list is a formula or text, any other
      value is kept as it is. */
  function ArgOf(x: Json): (r: Result<Arg, Error>)
    ensures r.Ok? && r.value.ArgOther? ==> !x.JArr? && !x.JStr? && !x.JNull?
    decreases x, 6
  {
    match x
    case JArr(_) => var n :- MatchUnserialize(ArgKinds, x); Ok(ArgNode(n))
    case JStr(s) => Ok(ArgStr(s))
    case JNull => Ok(ArgNone)
    case _ => Ok(ArgOther(x))
  }

  /** The arguments in `j.a[i..]`. */
  function ArgsFrom(j: Json, i: nat): (r: Result<seq<Arg>, Error>)
    requires j.JArr? && i <= |j.a|
    ensures r.Ok? ==> |r.value| == |j.a| - i
    decreases j, 0, |j.a| - i
  {
    if i == |j.a| then Ok([])
    else
      var a :- ArgOf(j.a[i]);
      var rest :- ArgsFrom(j, i + 1);
      Ok([a] + rest)
  }

  /** The name, then every further element as an argument. */
  function FunctionCallOf(j: Json): (r: Result<Node, Error>)
    ensures r.Ok? ==> r.value.FunctionCall? && j.JArr? && |r.value.args| == |j.a| - 2
    decreases j, 2
  {
    if !ListAtLeast(j, 2) then Err("assert len >= 2")
    else if j.a[0] != JStr(Tag(KFunctionCall)) then Err(TagError(KFunctionCall))
    else if !j.a[1].JStr? then Err("function name is not a string")
    else
      var args :- ArgsFrom(j, 2);
      Ok(FunctionCall(j.a[1].s, args))
  }

  // ---------------------------------------------------------------- statements

  /** A parameter name, an operator text and a formula. */
  function ExistingPrmOf(j: Json): (r: Result<Node, Error>)
    ensures r.Ok? ==> r.value.ExistingPrm? && r.value.modificator.Formula?
    decreases j, 2
  {
    if !ListOf(j, 4) then Err("assert len == 4")
    else if j.a[0] != JStr(Tag(KExistingPrm)) then Err(TagError(KExistingPrm))
    else
      var name :- NameOf(j.a[1]);
      var m :- FormulaOf(j.a[3]);
      if !j.a[2].JStr? then Err("operator is not a string")
      else Ok(ExistingPrm(name.name, j.a[2].s, m))
  }

  /** An int (a bool is one) is kept; a list is a parameter name. */
  function NumRunsOf(j: Json): (r: Result<Node, Error>)
    ensures r.Ok? ==> r.value.NumRuns?
    decreases j, 2
  {
    if !ListOf(j, 2) then Err("assert len == 2")
    else if j.a[0] != JStr(Tag(KNumRuns)) then Err(TagError(KNumRuns))
    else match j.a[1]
      case JInt(c) => Ok(NumRuns(RunsInt(c)))
      case JBool(b) => Ok(NumRuns(RunsBool(b)))
      case JArr(_) => var name :- NameOf(j.a[1]); Ok(NumRuns(RunsName(name.name)))
      case _ => Err("assert isinstance(data[1], int)")
  }

  /** Python `Decimal(x)` of a JSON value: an int or bool exactly, a string parsed, a list read as
      the tuple `(sign, digits, exponent)`. */
  function DecimalOf(x: Json): (r: Result<Decimal, Error>)
    ensures x.JInt? ==> r == Ok(FromInt(x.i))
    ensures x.JStr? ==> (r.Ok? <==> ParseDecimal(x.s).Some?)
    ensures x.JNull? || x.JObj? ==> r.Err?
  {
    match x
    case JInt(i) => Ok(FromInt(i))
    case JBool(b) => Ok(FromInt(if b then 1 else 0))
    case JStr(s) => var d := ParseDecimal(s); if d.None? then Err("decimal.InvalidOperation") else Ok(d.value)
    case JArr(t) => TupleDecimal(t)
    case _ => Err("conversion to Decimal is not supported")
  }

  /** A JSON value as Python's `int` checks see it: an int, or a bool as 0 or 1. */
  function IntOf(x: Json): (r: Option<int>)
    ensures r.Some? <==> x.JInt? || x.JBool?
  {
    match x
    case JInt(i) => Some(i)
    case JBool(b) => Some(if b then 1 else 0)
    case _ => None
  }

  predicate IsDigitJson(x: Json) {
    IntOf(x).Some? && 0 <= IntOf(x).value <= 9
  }

  /** The coefficient a list of digits denotes, most significant digit first (an empty list is
      zero); `None` when an element is not an int from 0 to 9. */
  function DigitListValue(xs: seq<Json>): (r: Option<nat>)
    ensures r.Some? <==> forall i :: 0 <= i < |xs| ==> IsDigitJson(xs[i])
    decreases |xs|
  {
    if xs == [] then Some(0)
    else
      var init := xs[..|xs| - 1];
      assert forall i :: 0 <= i < |init| ==> init[i] == xs[i];
      var v := DigitListValue(init);
      if v.None? || !IsDigitJson(xs[|xs| - 1]) then None
      else Some(v.value * 10 + IntOf(xs[|xs| - 1]).value)
  }

  /** `Decimal((sign, digits, exponent))`: three elements, a sign of 0 or 1, an int exponent and a
      list of digits, checked in that order with the decimal module's messages. A string exponent
      names an infinity or a NaN, which are not modelled. */
  function TupleDecimal(t: seq<Json>): (r: Result<Decimal, Error>)
    ensures r.Ok? <==>
      |t| == 3 && (IntOf(t[0]) == Some(0) || IntOf(t[0]) == Some(1)) && IntOf(t[2]).Some?
      && t[1].JArr? && forall i :: 0 <= i < |t[1].a| ==> IsDigitJson(t[1].a[i])
    ensures r.Ok? ==> r.value.negative == (IntOf(t[0]) == Some(1)) && r.value.exponent == IntOf(t[2]).value
  {
    if |t| != 3 then Err("argument must be a sequence of length 3")
    else if IntOf(t[0]) != Some(0) && IntOf(t[0]) != Some(1) then Err("sign must be an integer with the value 0 or 1")
    else if t[2].JStr? && t[2].s in ["F", "n", "N"] then Err("infinity and NaN are not modelled")
    else if t[2].JStr? then Err("string argument in the third position must be 'F', 'n' or 'N'")
    else if IntOf(t[2]).None? then Err("exponent must be an integer")
    else if !t[1].JArr? then Err("coefficient must be a tuple of digits")
    else match DigitListValue(t[1].a)
      case None => Err("coefficient must be a tuple of digits")
      case Some(c) => Ok(Decimal(IntOf(t[0]) == Some(1), c, IntOf(t[2]).value))
  }

  function DecimalsFrom(xs: seq<Json>): (r: Result<seq<Decimal>, Error>)
    ensures r.Ok? ==> |r.value| == |xs|
  {
    if xs == [] then Ok([])
    else
      var d :- DecimalOf(xs[0]);
      var rest :- DecimalsFrom(xs[1..]);
      Ok([d] + rest)
  }

  /** The options: a filename, inline data when it is a list, a range when it is a number or a
      string. The flags are the strings present in the flag list. */
  function XddOf(j: Json): (r: Result<Node, Error>)
    ensures r.Ok? ==> r.value.Xdd?
    decreases j, 2
  {
    if !(ListOf(j, 2) || ListOf(j, 3)) then Err("assert len in [2, 3]")
    else if j.a[0] != JStr(Tag(KXdd)) then Err(TagError(KXdd))
    else if !j.a[1].JObj? then Err("assert isinstance(data[1], dict)")
    else if |j.a| == 3 && !j.a[2].JArr? then Err("assert isinstance(data[2], list)")
    else
      var opts := j.a[1].o;
      var flags := if |j.a| == 3 then j.a[2].a else [];
      var filename :- OptFilename(opts);
      var inline :- OptInline(opts);
      var range :- OptRange(opts);
      Ok(Xdd(XddFields(filename, JStr("_xy") in flags, inline, range,
        JStr("xye_format") in flags, JStr("gsas_format") in flags, JStr("fullprof_format") in flags,
        JStr("gui_reload") in flags, JStr("gui_ignore") in flags)))
  }

  /** `opts.get("filename")`: absent or `null` is no filename. */
  function OptFilename(opts: map<string, Json>): (r: Result<Option<string>, Error>)
    ensures r == Ok(None) <==> "filename" !in opts || opts["filename"] == JNull
  {
    if "filename" !in opts || opts["filename"] == JNull then Ok(None)
    else if opts["filename"].JStr? then Ok(Some(opts["filename"].s))
    else Err("filename is not a string")
  }

  /** The inline data, read only when it is a list. */
  function OptInline(opts: map<string, Json>): (r: Result<Option<seq<Decimal>>, Error>)
    ensures r == Ok(None) <==> !("inline_data" in opts && opts["inline_data"].JArr?)
  {
    if "inline_data" in opts && opts["inline_data"].JArr? then
      var ds :- DecimalsFrom(opts["inline_data"].a); Ok(Some(ds))
    else Ok(None)
  }

  /** The range, read only when it is a number or a string. */
  function OptRange(opts: map<string, Json>): (r: Result<Option<Decimal>, Error>)
    ensures r == Ok(None) <==> !("range" in opts && (opts["range"].JInt? || opts["range"].JBool? || opts["range"].JStr?))
  {
    if "range" in opts && (opts["range"].JInt? || opts["range"].JBool? || opts["range"].JStr?) then
      var d :- DecimalOf(opts["range"]); Ok(Some(d))
    else Ok(None)
  }

  /** A macro statement is raw text when it is a string. */
  function StatementOf(x: Json): (r: Result<Statement, Error>)
    decreases x, 6
  {
    if x.JStr? then Ok(StmtRaw(x.s))
    else
      var n :- MatchUnserialize(MacroStatementKinds, x);
      Ok(StmtNode(n))
  }

  function StatementsFrom(j: Json, i: nat): (r: Result<seq<Statement>, Error>)
    requires j.JArr? && i <= |j.a|
    ensures r.Ok? ==> |r.value| == |j.a| - i
    decreases j, 0, |j.a| - i
  {
    if i == |j.a| then Ok([])
    else
      var s :- StatementOf(j.a[i]);
      var rest :- StatementsFrom(j, i + 1);
      Ok([s] + rest)
  }

  /** A name, an argument list and a statement list; the statements are read first. */
  function MacroOf(j: Json): (r: Result<Node, Error>)
    ensures r.Ok? ==> r.value.Macro?
    decreases j, 2
  {
    if !ListOf(j, 4) then Err("assert len == 4")
    else if j.a[0] != JStr(Tag(KMacro)) then Err(TagError(KMacro))
    else if !j.a[1].JStr? then Err("assert type of data[1] == str")
    else if !j.a[2].JArr? then Err("assert type of data[2] == list")
    else if !j.a[3].JArr? then Err("assert type of data[3] == list")
    else
      var stmts :- StatementsFrom(j.a[3], 0);
      var args :- ArgsFrom(j.a[2], 0);
      Ok(Macro(j.a[1].s, args, stmts))
  }

  function RootOf(j: Json): (r: Result<Node, Error>)
    ensures r.Ok? ==> r.value.Root? && j.JArr? && |r.value.rootStatements| == |j.a| - 1
    decreases j, 2
  {
    if !ListAtLeast(j, 1) then Err("assert len >= 1")
    else if j.a[0] != JStr(Tag(KRoot)) then Err(TagError(KRoot))
    else
      var stmts :- MatchFrom(RootStatementKinds, j, 1);
      Ok(Root(stmts))
  }
}

module AstUnserializeSteps {
  import opened Wrappers
  import opened Json
  import opened AstNodes
  import opened AstUnserialize

  /** Once an attribute fails to read, the loop is left with that error. */
  lemma {:induction false} FieldsErrorStays(d: Json, i: nat, n: nat)
    requires d.JObj? && i <= n <= |ParamKeys|
    requires FieldsUpTo(d, i).Err?
    ensures FieldsUpTo(d, n) == FieldsUpTo(d, i)
    decreases n - i
  {
    if n > i {
      FieldsErrorStays(d, i, n - 1);
    }
  }

  /** `ParameterNode.unserialize` as written: the attributes set one by one on a fresh parameter,
      then the flags, then the rest of the chain read by a recursive call. */
  method ParameterUnserialize(j: Json) returns (r: Result<Param, Error>)
    ensures r == ParamOf(j)
    decreases j
  {
    if !ListAtLeast(j, 2) {
      return Err("assert len >= 2");
    }
    if j.a[0] != JStr("p") {
      return Err(TagError(KParameter));
    }
    if !j.a[1].JObj? {
      return Err("assert data[1] is dict");
    }
    var d := j.a[1];
    var opts := d.o;
    var fields := ReadFields(d);
    if fields.Err? {
      return Err(fields.error);
    }
    var param := fields.value;
    if "!" in opts && opts["!"] == JBool(true) {
      param := param.(fixed := On);
    }
    if "@" in opts && opts["@"] == JBool(true) {
      param := param.(refined := On);
    }
    if ">" in opts && opts[">"] != JNull {
      var rest := ParameterUnserialize(opts[">"]);
      if rest.Err? {
        return Err(rest.error);
      }
      param := param.(next := Some(rest.value));
    }
    return Ok(param);
  }

  /** The loop over the attributes in their fixed order: each one present as a list is read and
      set, and the first one that fails ends the reading. */
  method ReadFields(d: Json) returns (r: Result<Param, Error>)
    requires d.JObj?
    ensures r == FieldsUpTo(d, |ParamKeys|)
  {
    var param := EmptyParam();
    var i := 0;
    while i < |ParamKeys|
      invariant 0 <= i <= |ParamKeys|
      invariant FieldsUpTo(d, i) == Ok(param)
    {
      var step := ReadField(d, i, param);
      if step.Err? {
        FieldsErrorStays(d, i + 1, |ParamKeys|);
        return step;
      }
      param := step.value;
      i := i + 1;
    }
    return Ok(param);
  }

  /** One turn of that loop: the attribute at `i`, when present as a list, read and set. */
  method ReadField(d: Json, i: nat, param: Param) returns (r: Result<Param, Error>)
    requires d.JObj? && i < |ParamKeys| && FieldsUpTo(d, i) == Ok(param)
    ensures r == FieldsUpTo(d, i + 1)
  {
    var key := ParamKeys[i];
    var s := ShortKey(key);
    r := Ok(param);
    if s in d.o && d.o[s].JArr? {
      var val: Result<Node, Error>;
      if key == Name {
        val := NameOf(d.o[s]);
      } else {
        val := MatchUnserialize(ParamValueKinds, d.o[s]);
      }
      if val.Err? {
        return Err(val.error);
      }
      r := Ok(SetSlot(param, key, val.value));
    }
  }
}
