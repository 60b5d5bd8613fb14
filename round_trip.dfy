/** Reading back what `serialize` wrote gives the same tree, for every tree the parser can build:
    `match_unserialize(kinds, node.serialize()) == node` whenever the node's class is among `kinds`. */
module RoundTrip {
  import opened Wrappers
  import opened Json
  import opened Decimals
  import opened ValueLiterals
  import opened AstNodes
  import opened AstSerialize
  import opened SerializeProperties
  import opened AstUnserialize

  // ---------------------------------------------------------------- well-formed trees

  /** The shape every node class's constructor and parse action guarantee: each child is of a
      class allowed at its place, an operator has at least two operands, a `bkg` at least one
      parameter, and an xdd with a file name has no inline data. */
  predicate WfNode(n: Node)
    decreases n, 1
  {
    match n
    case ParameterEquation(f, r) =>
      KindOf(f) in EquationKinds && WfNode(f)
      && (r.Some? ==> KindOf(r.value) in ReportingKinds && WfNode(r.value))
    case Parameter(p) => WfParam(p)
    case Prm(p) => WfParam(p) && p.refined == Off && p.next == None
    case FunctionCall(_, args) => WfArgs(args)
    case Unary(_, x) => KindOf(x) in UnaryOperandKinds && WfNode(x)
    case Nary(_, xs) => |xs| >= 2 && WfNodes(xs, OperandKinds)
    case Formula(v) => KindOf(v) in OperandKinds && WfNode(v)
    case Local(p) => WfParam(p)
    case ExistingPrm(_, _, m) => m.Formula? && WfNode(m)
    case Xdd(x) => x.filename.Some? ==> !x.inlineDataXy && x.inlineData.None?
    case AxialConv(f, s, r, p, q, b) =>
      WfParam(f) && WfParam(s) && WfParam(r)
      && (p.Some? ==> WfParam(p.value)) && (q.Some? ==> WfParam(q.value)) && (b.Some? ==> WfParam(b.value))
    case Bkg(ps) => |ps| >= 1 && WfParams(ps)
    case Macro(_, args, stmts) => WfArgs(args) && WfStatements(stmts)
    case Root(stmts) => WfNodes(stmts, RootStatementKinds)
    case _ => true
  }

  predicate WfNodes(xs: seq<Node>, kinds: seq<Kind>)
    decreases xs, 2
  {
    forall i :: 0 <= i < |xs| ==> KindOf(xs[i]) in kinds && WfNode(xs[i])
  }

  /** A flag holds a node only of a parameter value's class; the name is a name node, every other
      attribute a value, an equation or text; the flag attributes are not kept among the others. */
  predicate WfParam(p: Param)
    decreases p, 2
  {
    (p.fixed.Misplaced? ==> KindOf(p.fixed.flagNode) in ParamValueKinds && WfNode(p.fixed.flagNode))
    && (p.refined.Misplaced? ==> KindOf(p.refined.flagNode) in ParamValueKinds && WfNode(p.refined.flagNode))
    && (forall k :: k in p.fields ==> !IsFlagKey(k))
    && (Name in p.fields ==> p.fields[Name].ParameterName?)
    && (forall k :: k in p.fields && k != Name ==> KindOf(p.fields[k]) in ParamValueKinds && WfNode(p.fields[k]))
    && (p.next.Some? ==> WfParam(p.next.value))
  }

  predicate WfParams(ps: seq<Param>)
    decreases ps, 3
  {
    forall i :: 0 <= i < |ps| ==> WfParam(ps[i])
  }

  /** A node argument is a formula or text; a kept value is never a list, a string or `null`,
      which would be read back as something else. */
  predicate WfArg(a: Arg)
    decreases a, 2
  {
    match a
    case ArgNode(x) => KindOf(x) in ArgKinds && WfNode(x)
    case ArgOther(j) => !j.JArr? && !j.JStr? && !j.JNull?
    case _ => true
  }

  predicate WfArgs(args: seq<Arg>)
    decreases args, 3
  {
    forall i :: 0 <= i < |args| ==> WfArg(args[i])
  }

  predicate WfStatement(s: Statement)
    decreases s, 2
  {
    s.StmtNode? ==> KindOf(s.stmt) in MacroStatementKinds && WfNode(s.stmt)
  }

  predicate WfStatements(stmts: seq<Statement>)
    decreases stmts, 3
  {
    forall i :: 0 <= i < |stmts| ==> WfStatement(stmts[i])
  }

  // ---------------------------------------------------------------- the tag and the class

  /** Every serialized node is a list headed by its class's tag. */
  lemma SerializeHead(n: Node)
    ensures Serialize(n).JArr? && |Serialize(n).a| >= 1 && Serialize(n).a[0] == JStr(Tag(KindOf(n)))
  {
  }

  /** The class found for a node's own tag is the node's class, wherever it stands in `kinds`. */
  lemma {:induction false} FirstKindOf(kinds: seq<Kind>, k: Kind)
    requires k in kinds
    ensures FirstKind(kinds, JStr(Tag(k))) == Some(k)
  {
    if JStr(Tag(kinds[0])) == JStr(Tag(k)) {
      TagInjective(kinds[0], k);
    } else {
      assert k in kinds[1..];
      FirstKindOf(kinds[1..], k);
    }
  }

  // ---------------------------------------------------------------- the round trip

  /** The round trip through `match_unserialize`. */
  lemma {:induction false} NodeRoundTrip(n: Node, kinds: seq<Kind>)
    requires WfNode(n) && KindOf(n) in kinds
    ensures MatchUnserialize(kinds, Serialize(n)) == Ok(n)
    decreases n, 4
  {
    SerializeHead(n);
    FirstKindOf(kinds, KindOf(n));
    KindRoundTrip(n);
  }

  /** The round trip through the `unserialize` of the node's own class. */
  lemma {:induction false} KindRoundTrip(n: Node)
    requires WfNode(n)
    ensures UnserializeKind(KindOf(n), Serialize(n)) == Ok(n)
    decreases n, 3
  {
    var k := KindOf(n);
    if k.KText? || k.KLineBreak? || k.KParameterName? || k.KParameterValue? || k.KParameterEquation? {
      LeafRoundTrip(n);
    } else if k.KParameter? || k.KPrm? || k.KLocal? || k.KAxialConv? || k.KBkg? {
      ParameterRoundTrip(n);
    } else if k.KFunctionCall? || k.KUnary? || k.KNary? || k.KFormula? {
      OperatorRoundTrip(n);
    } else {
      StatementKindRoundTrip(n);
    }
  }

  lemma {:induction false} LeafRoundTrip(n: Node)
    requires WfNode(n)
    requires n.Text? || n.LineBreak? || n.ParameterName? || n.ParameterValue? || n.ParameterEquation?
    ensures LeafKind(KindOf(n), Serialize(n)) == Ok(n)
    decreases n, 2
  {
    match n
    case Text(_) =>
    case LineBreak =>
    case ParameterName(_) =>
    case ParameterValue(v) => ParseValueText(v);
    case ParameterEquation(_, _) => EquationRoundTrip(n);
  }

  lemma {:induction false} ParameterRoundTrip(n: Node)
    requires WfNode(n)
    requires n.Parameter? || n.Prm? || n.Local? || n.AxialConv? || n.Bkg?
    ensures ParameterKind(KindOf(n), Serialize(n)) == Ok(n)
    decreases n, 2
  {
    match n
    case Parameter(p) => ParamRoundTrip(p);
    case Prm(p) => PrmRoundTrip(n);
    case Local(p) => ParamRoundTrip(p);
    case AxialConv(_, _, _, _, _, _) => AxialConvRoundTrip(n);
    case Bkg(_) => BkgRoundTrip(n);
  }

  lemma {:induction false} OperatorRoundTrip(n: Node)
    requires WfNode(n)
    requires n.FunctionCall? || n.Unary? || n.Nary? || n.Formula?
    ensures FormulaKind(KindOf(n), Serialize(n)) == Ok(n)
    decreases n, 2
  {
    match n
    case FunctionCall(_, _) => FunctionCallRoundTrip(n);
    case Unary(_, _) => UnaryRoundTrip(n);
    case Nary(_, _) => NaryRoundTrip(n);
    case Formula(_) => FormulaRoundTrip(n);
  }

  lemma {:induction false} StatementKindRoundTrip(n: Node)
    requires WfNode(n)
    requires n.ExistingPrm? || n.NumRuns? || n.Xdd? || n.Macro? || n.Root?
    ensures StatementKind(KindOf(n), Serialize(n)) == Ok(n)
    decreases n, 2
  {
    match n
    case ExistingPrm(_, _, _) => ExistingPrmRoundTrip(n);
    case NumRuns(_) => NumRunsRoundTrip(n);
    case Xdd(x) => XddRoundTrip(x);
    case Macro(_, _, _) => MacroRoundTrip(n);
    case Root(_) => RootRoundTrip(n);
  }

  lemma {:induction false} UnaryRoundTrip(n: Node)
    requires n.Unary? && WfNode(n)
    ensures UnaryOf(n.uop, Serialize(n)) == Ok(n)
    decreases n, 1
  {
    var j := Serialize(n);
    assert j == JArr([JStr(Tag(KUnary(n.uop))), Serialize(n.operand)]);
    NodeRoundTrip(n.operand, UnaryOperandKinds);
    assert MatchUnserialize(UnaryOperandKinds, j.a[1]) == Ok(n.operand);
  }

  lemma {:induction false} ExistingPrmRoundTrip(n: Node)
    requires n.ExistingPrm? && WfNode(n)
    ensures ExistingPrmOf(Serialize(n)) == Ok(n)
    decreases n, 1
  {
    var j := Serialize(n);
    assert j == JArr([JStr(Tag(KExistingPrm)), JArr([JStr(Tag(KParameterName)), JStr(n.existingName)]),
                      JStr(n.operator), Serialize(n.modificator)]);
    FormulaRoundTrip(n.modificator);
    assert NameOf(j.a[1]) == Ok(ParameterName(n.existingName));
  }

  lemma NumRunsRoundTrip(n: Node)
    requires n.NumRuns?
    ensures NumRunsOf(Serialize(n)) == Ok(n)
  {
    var j := Serialize(n);
    assert j == JArr([JStr(Tag(KNumRuns)), RunsJson(n.runs)]);
  }

  lemma {:induction false} EquationRoundTrip(n: Node)
    requires n.ParameterEquation? && WfNode(n)
    ensures EquationOf(Serialize(n)) == Ok(n)
    decreases n, 1
  {
    var j := Serialize(n);
    assert j.a[0] == JStr(Tag(KParameterEquation)) && j.a[1] == Serialize(n.formula);
    NodeRoundTrip(n.formula, EquationKinds);
    if n.reporting.Some? {
      assert |j.a| == 3 && j.a[2] == Serialize(n.reporting.value);
      NodeRoundTrip(n.reporting.value, ReportingKinds);
    } else {
      assert |j.a| == 2;
    }
  }

  lemma {:induction false} FormulaRoundTrip(n: Node)
    requires n.Formula? && WfNode(n)
    ensures FormulaOf(Serialize(n)) == Ok(n)
    decreases n, 1
  {
    var j := Serialize(n);
    assert j == JArr([JStr(Tag(KFormula)), Serialize(n.formulaValue)]);
    NodeRoundTrip(n.formulaValue, OperandKinds);
    assert MatchUnserialize(OperandKinds, j.a[1]) == Ok(n.formulaValue);
  }

  lemma {:induction false} NaryRoundTrip(n: Node)
    requires n.Nary? && WfNode(n)
    ensures NaryOf(n.op, Serialize(n)) == Ok(n)
    decreases n, 1
  {
    var j := Serialize(n);
    assert j.a[1..] == SerializeAll(n.operands);
    MatchFromRoundTrip(OperandKinds, j, 1, n.operands);
  }

  lemma {:induction false} RootRoundTrip(n: Node)
    requires n.Root? && WfNode(n)
    ensures RootOf(Serialize(n)) == Ok(n)
    decreases n, 1
  {
    var j := Serialize(n);
    assert j.a[1..] == SerializeAll(n.rootStatements);
    MatchFromRoundTrip(RootStatementKinds, j, 1, n.rootStatements);
  }

  /** Each list element read back with `match_unserialize`. */
  lemma {:induction false} MatchFromRoundTrip(kinds: seq<Kind>, j: Json, i: nat, xs: seq<Node>)
    requires j.JArr? && i <= |j.a| && j.a[i..] == SerializeAll(xs) && WfNodes(xs, kinds)
    ensures MatchFrom(kinds, j, i) == Ok(xs)
    decreases xs, 0
  {
    if xs != [] {
      SerializeAllSplit(j, i, xs, kinds);
      NodeRoundTrip(xs[0], kinds);
      MatchFromRoundTrip(kinds, j, i + 1, xs[1..]);
      MatchFromStep(kinds, j, i, xs[0], xs[1..]);
      assert [xs[0]] + xs[1..] == xs;
    }
  }

  /** The first serialized node and the rest. */
  lemma SerializeAllSplit(j: Json, i: nat, xs: seq<Node>, kinds: seq<Kind>)
    requires j.JArr? && i <= |j.a| && j.a[i..] == SerializeAll(xs) && xs != []
    ensures i < |j.a| && j.a[i] == Serialize(xs[0]) && j.a[i + 1..] == SerializeAll(xs[1..])
    ensures WfNodes(xs, kinds) ==> WfNode(xs[0]) && KindOf(xs[0]) in kinds && WfNodes(xs[1..], kinds)
  {
    assert j.a[i..][0] == j.a[i];
    assert j.a[i + 1..] == j.a[i..][1..];
  }

  /** One step of the list reader. */
  lemma MatchFromStep(kinds: seq<Kind>, j: Json, i: nat, x: Node, rest: seq<Node>)
    requires j.JArr? && i < |j.a| && MatchUnserialize(kinds, j.a[i]) == Ok(x)
    requires MatchFrom(kinds, j, i + 1) == Ok(rest)
    ensures MatchFrom(kinds, j, i) == Ok([x] + rest)
  {
  }

  lemma {:induction false} FunctionCallRoundTrip(n: Node)
    requires n.FunctionCall? && WfNode(n)
    ensures FunctionCallOf(Serialize(n)) == Ok(n)
    decreases n, 1
  {
    var j := Serialize(n);
    assert j.a[2..] == ArgsJson(n.args);
    ArgsFromRoundTrip(j, 2, n.args);
  }

  lemma {:induction false} ArgRoundTrip(a: Arg)
    requires WfArg(a)
    ensures ArgOf(ArgJson(a)) == Ok(a)
    decreases a, 1
  {
    if a.ArgNode? {
      SerializeHead(a.node);
      NodeRoundTrip(a.node, ArgKinds);
    }
  }

  lemma {:induction false} ArgsFromRoundTrip(j: Json, i: nat, args: seq<Arg>)
    requires j.JArr? && i <= |j.a| && j.a[i..] == ArgsJson(args) && WfArgs(args)
    ensures ArgsFrom(j, i) == Ok(args)
    decreases args, 0
  {
    if args != [] {
      assert j.a[i] == ArgJson(args[0]);
      ArgRoundTrip(args[0]);
      assert j.a[i + 1..] == ArgsJson(args[1..]);
      ArgsFromRoundTrip(j, i + 1, args[1..]);
      assert [args[0]] + args[1..] == args;
    }
  }

  lemma {:induction false} StatementsFromRoundTrip(j: Json, i: nat, stmts: seq<Statement>)
    requires j.JArr? && i <= |j.a| && j.a[i..] == StatementsJson(stmts) && WfStatements(stmts)
    ensures StatementsFrom(j, i) == Ok(stmts)
    decreases stmts, 0
  {
    if stmts != [] {
      assert j.a[i] == StatementJson(stmts[0]);
      StatementRoundTrip(stmts[0]);
      assert j.a[i + 1..] == StatementsJson(stmts[1..]);
      StatementsFromRoundTrip(j, i + 1, stmts[1..]);
      assert [stmts[0]] + stmts[1..] == stmts;
    }
  }

  lemma {:induction false} StatementRoundTrip(st: Statement)
    requires WfStatement(st)
    ensures StatementOf(StatementJson(st)) == Ok(st)
    decreases st, 1
  {
    if st.StmtNode? {
      SerializeHead(st.stmt);
      NodeRoundTrip(st.stmt, MacroStatementKinds);
    }
  }

  lemma {:induction false} MacroRoundTrip(n: Node)
    requires n.Macro? && WfNode(n)
    ensures MacroOf(Serialize(n)) == Ok(n)
    decreases n, 1
  {
    var j := Serialize(n);
    assert j.a[3].a[0..] == StatementsJson(n.statements);
    StatementsFromRoundTrip(j.a[3], 0, n.statements);
    assert j.a[2].a[0..] == ArgsJson(n.macroArgs);
    ArgsFromRoundTrip(j.a[2], 0, n.macroArgs);
  }

  // ---------------------------------------------------------------- parameters

  /** The parameter the attribute loop has built after `i` attributes, read from a dictionary
      that `serialize` wrote: exactly the attributes among the first `i` that hold a node. */
  function Prefix(p: Param, i: nat): Param
    requires i <= |ParamKeys|
  {
    if i == 0 then EmptyParam()
    else
      var q := Prefix(p, i - 1);
      var k := ParamKeys[i - 1];
      if Slot(p, k).Some? then SetSlot(q, k, Slot(p, k).value) else q
  }

  lemma {:induction false} ParamRoundTrip(p: Param)
    requires WfParam(p)
    ensures ParamOf(ParamJson(p)) == Ok(p)
    decreases p, 3
  {
    BodyRoundTrip(p);
  }

  /** The flags are read after the attributes: `true` sets one, the node a flag held was already
      put back by the loop; `>` is read by a recursive call. */
  lemma {:induction false} BodyRoundTrip(p: Param)
    requires WfParam(p)
    ensures ParamBody(JObj(ParamDict(p))) == Ok(p)
    decreases p, 2
  {
    var d := JObj(ParamDict(p));
    FieldsRoundTrip(p, |ParamKeys|);
    PrefixAll(p);
    FlagKeys(p, ToBeFixed);
    FlagKeys(p, ToBeRefined);
    if p.fixed.Misplaced? {
      SerializeHead(p.fixed.flagNode);
    }
    if p.refined.Misplaced? {
      SerializeHead(p.refined.flagNode);
    }
    NextKey(p);
    if p.next.Some? {
      ParamRoundTrip(p.next.value);
    }
  }

  /** What the first `i` steps of the attribute loop read back. */
  lemma {:induction false} FieldsRoundTrip(p: Param, i: nat)
    requires WfParam(p) && i <= |ParamKeys|
    ensures FieldsUpTo(JObj(ParamDict(p)), i) == Ok(Prefix(p, i))
    decreases p, 1, i
  {
    if i > 0 {
      FieldsRoundTrip(p, i - 1);
      var d := JObj(ParamDict(p));
      var k := ParamKeys[i - 1];
      var s := ShortKey(k);
      if IsFlagKey(k) {
        FlagKeys(p, k);
        if FlagOf(p, k).Misplaced? {
          var x := if k == ToBeFixed then p.fixed.flagNode else p.refined.flagNode;
          SerializeHead(x);
          if k == ToBeFixed {
            NodeRoundTrip(p.fixed.flagNode, ParamValueKinds);
          } else {
            NodeRoundTrip(p.refined.flagNode, ParamValueKinds);
          }
          assert d.o[s] == Serialize(x);
        }
      } else {
        FieldKeys(p, k);
        if k in p.fields {
          SerializeHead(p.fields[k]);
          if k != Name {
            NodeRoundTrip(p.fields[k], ParamValueKinds);
          }
        }
      }
    }
  }

  /** After every attribute, the loop has put back every attribute and every node a flag held. */
  lemma {:induction false} PrefixAll(p: Param)
    requires forall k :: k in p.fields ==> !IsFlagKey(k)
    ensures Prefix(p, |ParamKeys|) == Param(Kept(p.fixed), Kept(p.refined), p.fields, None)
  {
    var q := Prefix(p, |ParamKeys|);
    PrefixSlots(p, |ParamKeys|);
    forall k | true
      ensures Slot(q, k) == Slot(p, k)
    {
      assert KeyIndex(k) < |ParamKeys|;
    }
    assert q.fields == p.fields by {
      forall k | k in q.fields
        ensures k in p.fields && q.fields[k] == p.fields[k]
      {
        assert Slot(q, k) == Slot(p, k);
      }
      forall k | k in p.fields
        ensures k in q.fields
      {
        assert Slot(q, k) == Slot(p, k);
      }
    }
    assert Slot(q, ToBeFixed) == Slot(p, ToBeFixed);
    assert Slot(q, ToBeRefined) == Slot(p, ToBeRefined);
  }

  /** A flag without the node: what the attribute loop alone leaves in a flag. */
  function Kept(f: Flag): Flag {
    if f.Misplaced? then f else Off
  }

  lemma {:induction false} PrefixSlots(p: Param, i: nat)
    requires i <= |ParamKeys|
    ensures forall k :: Slot(Prefix(p, i), k) == if KeyIndex(k) < i then Slot(p, k) else None
    ensures forall k :: k in Prefix(p, i).fields ==> !IsFlagKey(k)
    ensures !Prefix(p, i).fixed.On? && !Prefix(p, i).refined.On? && Prefix(p, i).next == None
  {
    if i > 0 {
      PrefixSlots(p, i - 1);
      var key := ParamKeys[i - 1];
      var q := Prefix(p, i - 1);
      assert Prefix(p, i) == if Slot(p, key).Some? then SetSlot(q, key, Slot(p, key).value) else q;
      forall k
        ensures Slot(Prefix(p, i), k) == if KeyIndex(k) < i then Slot(p, k) else None
      {
        if k == key && KeyIndex(k) != i - 1 {
          ParamKeysDistinct(KeyIndex(k), i - 1);
        }
      }
      forall k | k in Prefix(p, i).fields
        ensures !IsFlagKey(k)
      {
        if k !in q.fields {
          assert k == key && !IsFlagKey(key);
        }
      }
    }
  }

  lemma {:induction false} PrmRoundTrip(n: Node)
    requires n.Prm? && WfNode(n)
    ensures PrmOf(Serialize(n)) == Ok(n)
    decreases n, 1
  {
    BodyRoundTrip(n.prm);
  }

  lemma {:induction false} BkgRoundTrip(n: Node)
    requires n.Bkg? && WfNode(n)
    ensures BkgOf(Serialize(n)) == Ok(n)
    decreases n, 1
  {
    var j := Serialize(n);
    assert j.a[1..] == ParamsJson(n.params);
    ParamsFromRoundTrip(j, 1, n.params);
  }

  lemma {:induction false} ParamsFromRoundTrip(j: Json, i: nat, ps: seq<Param>)
    requires j.JArr? && i <= |j.a| && j.a[i..] == ParamsJson(ps) && WfParams(ps)
    ensures AllLists(j.a[i..]) && ParamsFrom(j, i) == Ok(ps)
    decreases ps, 0
  {
    if ps != [] {
      ParamsJsonSplit(j, i, ps);
      ParamRoundTrip(ps[0]);
      ParamsFromRoundTrip(j, i + 1, ps[1..]);
      ParamsFromStep(j, i, ps[0], ps[1..]);
      assert [ps[0]] + ps[1..] == ps;
    }
  }

  /** The first serialized parameter and the rest. */
  lemma ParamsJsonSplit(j: Json, i: nat, ps: seq<Param>)
    requires j.JArr? && i <= |j.a| && j.a[i..] == ParamsJson(ps) && ps != []
    ensures i < |j.a| && j.a[i] == ParamJson(ps[0]) && j.a[i + 1..] == ParamsJson(ps[1..])
    ensures WfParams(ps) ==> WfParam(ps[0]) && WfParams(ps[1..])
  {
    assert j.a[i..][0] == j.a[i];
    assert j.a[i + 1..] == j.a[i..][1..];
  }

  /** One step of the list reader, for a head element that is a list. */
  lemma ParamsFromStep(j: Json, i: nat, p: Param, rest: seq<Param>)
    requires j.JArr? && i < |j.a| && j.a[i] == ParamJson(p) && ParamOf(j.a[i]) == Ok(p)
    requires AllLists(j.a[i + 1..]) && ParamsFrom(j, i + 1) == Ok(rest)
    ensures AllLists(j.a[i..]) && ParamsFrom(j, i) == Ok([p] + rest)
  {
    assert j.a[i..] == [j.a[i]] + j.a[i + 1..];
  }

  /** The optional angles are written under their keys exactly when present. */
  lemma AxialOptsKeys(n: Node)
    requires n.AxialConv?
    ensures ("p" in AxialOpts(n) <==> n.primarySollerAngle.Some?)
      && (n.primarySollerAngle.Some? ==> AxialOpts(n)["p"] == ParamJson(n.primarySollerAngle.value))
    ensures ("s" in AxialOpts(n) <==> n.secondarySollerAngle.Some?)
      && (n.secondarySollerAngle.Some? ==> AxialOpts(n)["s"] == ParamJson(n.secondarySollerAngle.value))
    ensures ("b" in AxialOpts(n) <==> n.axialNBeta.Some?)
      && (n.axialNBeta.Some? ==> AxialOpts(n)["b"] == ParamJson(n.axialNBeta.value))
  {
  }

  lemma {:induction false} AxialOptRoundTrip(j: Json, key: string, p: Option<Param>)
    requires ListAtLeast(j, 3) && j.a[2].JObj?
    requires key in j.a[2].o <==> p.Some?
    requires p.Some? ==> j.a[2].o[key] == ParamJson(p.value) && WfParam(p.value)
    ensures AxialOpt(j, key) == Ok(p)
    decreases p, 4
  {
    if p.Some? {
      ParamRoundTrip(p.value);
    }
  }

  lemma {:induction false} AxialConvRoundTrip(n: Node)
    requires n.AxialConv? && WfNode(n)
    ensures AxialConvOf(Serialize(n)) == Ok(n)
    decreases n, 1
  {
    AxialConvRead(n, Serialize(n));
  }

  /** The serialized axial convolution, named so that it is unfolded only once. */
  lemma {:induction false} AxialConvRead(n: Node, j: Json)
    requires n.AxialConv? && WfNode(n)
    requires j == JArr([JStr(Tag(KAxialConv)),
                        JArr([ParamJson(n.filamentLength), ParamJson(n.sampleLength), ParamJson(n.receivingSlitLength)])]
                       + (if AxialOpts(n) == map[] then [] else [JObj(AxialOpts(n))]))
    ensures AxialConvOf(j) == Ok(n)
    decreases n, 0
  {
    ParamRoundTrip(n.filamentLength);
    ParamRoundTrip(n.sampleLength);
    ParamRoundTrip(n.receivingSlitLength);
    AxialOptsKeys(n);
    if AxialOpts(n) != map[] {
      AxialOptRoundTrip(j, "p", n.primarySollerAngle);
      AxialOptRoundTrip(j, "s", n.secondarySollerAngle);
      AxialOptRoundTrip(j, "b", n.axialNBeta);
    }
    AxialConvOfParts(j, n);
  }

  /** The reader assembles the node from its three lengths and, when there are options, the
      three optional angles. */
  lemma AxialConvOfParts(j: Json, n: Node)
    requires n.AxialConv? && (ListOf(j, 2) || ListOf(j, 3)) && j.a[0] == JStr(Tag(KAxialConv))
    requires j.a[1].JArr? && |j.a[1].a| == 3 && (|j.a| == 3 ==> j.a[2].JObj?)
    requires ParamOf(j.a[1].a[0]) == Ok(n.filamentLength)
    requires ParamOf(j.a[1].a[1]) == Ok(n.sampleLength)
    requires ParamOf(j.a[1].a[2]) == Ok(n.receivingSlitLength)
    requires |j.a| == 2 ==> n.primarySollerAngle.None? && n.secondarySollerAngle.None? && n.axialNBeta.None?
    requires |j.a| == 3 ==>
      (AxialOpt(j, "p") == Ok(n.primarySollerAngle)
       && AxialOpt(j, "s") == Ok(n.secondarySollerAngle) && AxialOpt(j, "b") == Ok(n.axialNBeta))
    ensures AxialConvOf(j) == Ok(n)
  {
  }

  // ---------------------------------------------------------------- xdd

  /** The inline numbers written as texts are read back as the same numbers. */
  lemma InlineRoundTrip(data: seq<Decimal>)
    ensures DecimalsFrom(StrsJson(data)) == Ok(data)
  {
    var xs := StrsJson(data);
    forall i | 0 <= i < |xs|
      ensures DecimalOf(xs[i]) == Ok(data[i])
    {
      DecimalRoundTrip(data[i]);
    }
    DecimalsRoundTrip(xs, data);
  }

  lemma {:induction false} DecimalsRoundTrip(xs: seq<Json>, data: seq<Decimal>)
    requires |xs| == |data| && forall i :: 0 <= i < |xs| ==> DecimalOf(xs[i]) == Ok(data[i])
    ensures DecimalsFrom(xs) == Ok(data)
  {
    if xs != [] {
      assert DecimalOf(xs[0]) == Ok(data[0]);
      assert forall i :: 0 <= i < |xs| - 1 ==> DecimalOf(xs[1..][i]) == Ok(data[1..][i]);
      DecimalsRoundTrip(xs[1..], data[1..]);
      DecimalsFromStep(xs, data[0], data[1..]);
      assert [data[0]] + data[1..] == data;
    }
  }

  lemma DecimalRoundTrip(d: Decimal)
    ensures DecimalOf(JStr(Str(d))) == Ok(d)
  {
    ParseStr(d);
  }

  /** Python `Decimal.as_tuple()` written as a JSON list: the sign as 0 or 1, the coefficient's
      digits and the exponent. */
  function AsTuple(d: Decimal): Json {
    JArr([JInt(if d.negative then 1 else 0), JArr(DigitsJson(NatDigits(d.coefficient))), JInt(d.exponent)])
  }

  function DigitsJson(s: string): (r: seq<Json>)
    requires AllDigits(s)
    ensures |r| == |s|
  {
    seq(|s|, i requires 0 <= i < |s| => JInt(s[i] as int - '0' as int))
  }

  /** The tuple form reads back as the number it was taken from, negative zero included. */
  lemma TupleRoundTrip(d: Decimal)
    ensures DecimalOf(AsTuple(d)) == Ok(d)
  {
    DigitsJsonValue(NatDigits(d.coefficient));
  }

  /** A list of digits denotes the number their characters denote. */
  lemma {:induction false} DigitsJsonValue(s: string)
    requires AllDigits(s)
    ensures DigitListValue(DigitsJson(s)) == Some(DigitsValue(s))
  {
    if s != [] {
      var init := s[..|s| - 1];
      assert DigitsJson(s)[..|s| - 1] == DigitsJson(init);
      DigitsJsonValue(init);
    }
  }

  /** One step of the number list reader. */
  lemma DecimalsFromStep(xs: seq<Json>, d: Decimal, rest: seq<Decimal>)
    requires xs != [] && DecimalOf(xs[0]) == Ok(d) && DecimalsFrom(xs[1..]) == Ok(rest)
    ensures DecimalsFrom(xs) == Ok([d] + rest)
  {
  }

  /** Each flag word is in the flag list exactly when its flag is set; `_xy` only without a file. */
  lemma XddFlagsHas(x: XddFields)
    ensures "_xy" in XddFlags(x) <==> x.filename.None? && x.inlineDataXy
    ensures "xye_format" in XddFlags(x) <==> x.xyeFormat
    ensures "gsas_format" in XddFlags(x) <==> x.gsasFormat
    ensures "fullprof_format" in XddFlags(x) <==> x.fullprofFormat
    ensures "gui_reload" in XddFlags(x) <==> x.guiReload
    ensures "gui_ignore" in XddFlags(x) <==> x.guiIgnore
  {
  }

  lemma StringsJsonHas(xs: seq<string>, s: string)
    ensures JStr(s) in StringsJson(xs) <==> s in xs
  {
    if s in xs {
      var i :| 0 <= i < |xs| && xs[i] == s;
      assert StringsJson(xs)[i] == JStr(s);
    }
  }

  /** The options written: the filename when there is one, the inline data only without one,
      the range when there is one. */
  lemma XddOptsKeys(x: XddFields)
    ensures ("filename" in XddOpts(x) <==> x.filename.Some?)
      && (x.filename.Some? ==> XddOpts(x)["filename"] == JStr(x.filename.value))
    ensures ("inline_data" in XddOpts(x) <==> x.filename.None? && x.inlineData.Some?)
      && (x.filename.None? && x.inlineData.Some? ==> XddOpts(x)["inline_data"] == JArr(StrsJson(x.inlineData.value)))
    ensures ("range" in XddOpts(x) <==> x.range.Some?)
      && (x.range.Some? ==> XddOpts(x)["range"] == JStr(Str(x.range.value)))
  {
  }

  /** The flag list as it is read back: a flag word is in it exactly when its flag was written. */
  lemma XddFlagsRead(x: XddFields)
    ensures var j := XddJson(x);
      var flags := if |j.a| == 3 then j.a[2].a else [];
      (|j.a| == 3 ==> j.a[2].JArr?)
      && (JStr("_xy") in flags <==> x.filename.None? && x.inlineDataXy)
      && (JStr("xye_format") in flags <==> x.xyeFormat)
      && (JStr("gsas_format") in flags <==> x.gsasFormat)
      && (JStr("fullprof_format") in flags <==> x.fullprofFormat)
      && (JStr("gui_reload") in flags <==> x.guiReload)
      && (JStr("gui_ignore") in flags <==> x.guiIgnore)
  {
    XddFlagsHas(x);
    var fl := XddFlags(x);
    StringsJsonHas(fl, "_xy");
    StringsJsonHas(fl, "xye_format");
    StringsJsonHas(fl, "gsas_format");
    StringsJsonHas(fl, "fullprof_format");
    StringsJsonHas(fl, "gui_reload");
    StringsJsonHas(fl, "gui_ignore");
  }

  lemma {:induction false} XddRoundTrip(x: XddFields)
    requires x.filename.Some? ==> !x.inlineDataXy && x.inlineData.None?
    ensures XddOf(XddJson(x)) == Ok(Xdd(x))
  {
    var opts := XddOpts(x);
    XddFlagsRead(x);
    XddOptionsRead(x);
    assert XddJson(x).a[1] == JObj(opts);
  }

  /** Each option is read back as it was written. */
  lemma XddOptionsRead(x: XddFields)
    requires x.filename.Some? ==> x.inlineData.None?
    ensures OptFilename(XddOpts(x)) == Ok(x.filename)
    ensures OptInline(XddOpts(x)) == Ok(x.inlineData)
    ensures OptRange(XddOpts(x)) == Ok(x.range)
  {
    XddOptsKeys(x);
    if x.inlineData.Some? {
      InlineRoundTrip(x.inlineData.value);
    }
    if x.range.Some? {
      DecimalRoundTrip(x.range.value);
    }
  }
}
