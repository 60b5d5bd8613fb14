/** The pyparsing parse actions of the syntax tree, over the token lists the grammar hands them:
    operator groups, argument groups, runs of bare parameter tokens, named parameter parts and the
    statements of a whole file. The grammar itself is not part of this model. */
module ParseActions {
  import opened Wrappers
  import opened AstNodes
  import opened AstUnparse
  import opened AstUnserialize
  import opened UnparseProperties

  // ---------------------------------------------------------------- operator groups

  /** A token of an operator group: an operand node or an operator symbol. */
  datatype Token = TokNode(node: Node) | TokSym(sym: string)

  /** The grammar groups the operands of one operator with that operator's symbol between them. */
  predicate SymbolsOf(o: NaryOp, toks: seq<Token>) {
    forall i :: 0 <= i < |toks| && toks[i].TokSym? ==> toks[i].sym == Symbol(o)
  }

  /** The nodes of a group, in order. */
  function Operands(o: NaryOp, toks: seq<Token>): (r: seq<Node>)
    requires SymbolsOf(o, toks)
    ensures forall x :: x in r <==> TokNode(x) in toks
    ensures |r| <= |toks|
  {
    if toks == [] then []
    else if toks[0].TokSym? then Operands(o, toks[1..])
    else [toks[0].node] + Operands(o, toks[1..])
  }

  /** `FormulaAdd.parse_action` and its subclasses: the symbols are filtered out of the group. */
  function NaryAction(o: NaryOp, toks: seq<Token>): (r: Node)
    requires SymbolsOf(o, toks)
    ensures r.Nary? && r.op == o
    ensures forall x :: x in r.operands <==> TokNode(x) in toks
  {
    Nary(o, Operands(o, toks))
  }

  /** The group the grammar makes of operands written with `o` between them. */
  function Interleave(o: NaryOp, xs: seq<Node>): (r: seq<Token>)
    requires xs != []
    ensures |r| == 2 * |xs| - 1 && SymbolsOf(o, r)
  {
    if |xs| == 1 then [TokNode(xs[0])]
    else [TokNode(xs[0]), TokSym(Symbol(o))] + Interleave(o, xs[1..])
  }

  /** Filtering the symbols out of the group gives back exactly the operands, in order. */
  lemma {:induction false} NaryActionInverts(o: NaryOp, xs: seq<Node>)
    requires xs != []
    ensures NaryAction(o, Interleave(o, xs)) == Nary(o, xs)
  {
    OperandsInterleave(o, xs);
  }

  lemma {:induction false} OperandsInterleave(o: NaryOp, xs: seq<Node>)
    requires xs != []
    ensures Operands(o, Interleave(o, xs)) == xs
    decreases |xs|
  {
    if |xs| > 1 {
      var rest := Interleave(o, xs[1..]);
      OperandsInterleave(o, xs[1..]);
      OperandsPair(o, xs[0], rest);
      assert [xs[0]] + xs[1..] == xs;
    }
  }

  /** An operand and a symbol in front of a group add just the operand. */
  lemma OperandsPair(o: NaryOp, x: Node, rest: seq<Token>)
    requires SymbolsOf(o, rest)
    ensures SymbolsOf(o, [TokNode(x), TokSym(Symbol(o))] + rest)
    ensures Operands(o, [TokNode(x), TokSym(Symbol(o))] + rest) == [x] + Operands(o, rest)
  {
    var t := [TokNode(x), TokSym(Symbol(o))] + rest;
    assert t[1..][1..] == rest;
  }

  // ---------------------------------------------------------------- unary operators

  /** `FormulaUnaryPlus.parse_action`: of the sign and the operand, the operand alone is kept. */
  function UnaryPlusAction(group: seq<Token>): (r: Node)
    requires |group| == 2 && group[1].TokNode?
  {
    group[1].node
  }

  /** `FormulaUnaryMinus.parse_action`: the operand is wrapped in a unary-minus node. */
  function UnaryMinusAction(group: seq<Token>): (r: Node)
    requires |group| == 2 && group[1].TokNode?
  {
    Unary(UMinus, group[1].node)
  }

  /** A leading `+` leaves no trace in the tree: the operand prints and serializes as itself,
      while a leading `-` prints in front of its operand. */
  lemma {:induction false} SignActions(x: Node)
    ensures UnaryPlusAction([TokSym("+"), TokNode(x)]) == x
    ensures UnaryMinusAction([TokSym("-"), TokNode(x)]) != x
    ensures Unparse(UnaryMinusAction([TokSym("-"), TokNode(x)])) == "- " + Unparse(x)
  {
    assert UnaryMinusAction([TokSym("-"), TokNode(x)]) == Unary(UMinus, x);
    assert x < Unary(UMinus, x);
    MinusText(x);
  }

  /** A unary-minus node prints its sign, a space, then its operand. */
  lemma MinusText(x: Node)
    ensures Unparse(Unary(UMinus, x)) == "- " + Unparse(x)
  {
  }

  // ---------------------------------------------------------------- function-call arguments

  /** `FunctionCallNode.func_args_parse_action`: every group holds one argument or is empty; an
      empty group is an empty slot, and a lone empty group is a call without arguments. */
  function ArgSlots(groups: seq<seq<Arg>>): (r: seq<Arg>)
    ensures groups == [[]] ==> r == []
    ensures groups != [[]] ==> |r| == |groups|
    ensures groups != [[]] ==> forall i :: 0 <= i < |groups| && groups[i] == [] ==> r[i] == ArgNone
    ensures groups != [[]] ==> forall i :: 0 <= i < |groups| && groups[i] != [] ==> r[i] == groups[i][0]
  {
    if groups == [[]] then [] else seq(|groups|, i requires 0 <= i < |groups| => GroupSlot(groups[i]))
  }

  function GroupSlot(group: seq<Arg>): Arg {
    if group == [] then ArgNone else group[0]
  }

  /** `FunctionCallNode.parse_action`: the name, then the arguments. */
  function CallAction(name: string, groups: seq<seq<Arg>>): (r: Node)
    ensures r.FunctionCall? && r.funcName == name
  {
    FunctionCall(name, ArgSlots(groups))
  }

  /** Groups that hold nodes, strings or nothing. */
  predicate PlainGroups(groups: seq<seq<Arg>>) {
    forall i :: 0 <= i < |groups| && groups[i] != [] ==> !groups[i][0].ArgOther?
  }

  /** Every group keeps its place between the commas of the printed call: an empty group prints
      as an empty piece. */
  lemma ArgGroupsKeepTheirPlace(name: string, groups: seq<seq<Arg>>)
    requires groups != [[]] && PlainGroups(groups)
    ensures |ArgPieces(CallAction(name, groups).args)| == |groups|
    ensures forall i :: 0 <= i < |groups| && groups[i] == [] ==> ArgPieces(CallAction(name, groups).args)[i] == ""
  {
    var args := ArgSlots(groups);
    assert NoOther(args);
    ArgPiecesCount(args);
    forall i | 0 <= i < |groups| && groups[i] == []
      ensures ArgPieces(args)[i] == ""
    {
      ArgPiecesAt(args, i);
    }
  }

  lemma {:induction false} ArgPiecesAt(args: seq<Arg>, i: nat)
    requires NoOther(args) && i < |args|
    ensures |ArgPieces(args)| == |args|
    ensures ArgPieces(args)[i] == ArgPiece(args[i])[0]
  {
    ArgPiecesCount(args);
    if i > 0 {
      assert NoOther(args[1..]);
      ArgPiecesAt(args[1..], i - 1);
    }
  }

  /** A call whose last group is empty prints with a trailing `, `. */
  lemma TrailingEmptyGroup(name: string, groups: seq<seq<Arg>>)
    requires groups != [] && groups != [[]] && PlainGroups(groups)
    ensures Unparse(CallAction(name, groups + [[]])) == name + "(" + ArgsText(ArgSlots(groups)) + ", " + ")"
  {
    var args := ArgSlots(groups);
    assert ArgSlots(groups + [[]]) == args + [ArgNone];
    assert NoOther(args);
    TrailingGap(args);
  }

  // ---------------------------------------------------------------- runs of bare parameter tokens

  /** One step of `mk_linked_params`: a name or a value token becomes a parameter holding it in
      front of the chain built so far; any other token makes `None`. */
  function Link(prev: Option<Param>, t: Node): (r: Option<Param>)
    ensures r.Some? <==> t.ParameterName? || t.ParameterValue?
    ensures r.Some? ==> r.value.next == prev && r.value.fixed == Off && r.value.refined == Off
  {
    if t.ParameterName? then Some(Param(Off, Off, map[Name := t], prev))
    else if t.ParameterValue? then Some(Param(Off, Off, map[Value := t], prev))
    else None
  }

  /** `reduce(mk_linked_params, reversed(tokens), None)`: the chain of the tokens, built from the
      last token back to the first. */
  function ChainOf(tokens: seq<Node>): Option<Param> {
    if tokens == [] then None else Link(ChainOf(tokens[1..]), tokens[0])
  }

  /** The chain a bare run of tokens is read as, built right to left as the source's `reduce`
      does. */
  method BareChain(tokens: seq<Node>) returns (r: Option<Param>)
    ensures r == ChainOf(tokens)
  {
    r := None;
    var i := |tokens|;
    while i > 0
      invariant 0 <= i <= |tokens|
      invariant r == ChainOf(tokens[i..])
    {
      i := i - 1;
      assert tokens[i..][1..] == tokens[i + 1..];
      r := Link(r, tokens[i]);
    }
  }

  predicate NamesAndValues(tokens: seq<Node>) {
    forall i :: 0 <= i < |tokens| ==> tokens[i].ParameterName? || tokens[i].ParameterValue?
  }

  /** The attribute a bare token fills. */
  function TokenKey(t: Node): ParamKey {
    if t.ParameterName? then Name else Value
  }

  /** The parameters of a chain, from its head along `next`. */
  function Links(o: Option<Param>): seq<Param>
    decreases o
  {
    if o.None? then [] else [o.value] + Links(o.value.next)
  }

  /** A bare run of names and values is a chain in input order: one parameter per token, each
      holding that token alone and no flag, the first token at the head and `None` after the
      last. */
  lemma {:induction false} ChainShape(tokens: seq<Node>)
    requires NamesAndValues(tokens)
    ensures |Links(ChainOf(tokens))| == |tokens|
    ensures tokens != [] <==> ChainOf(tokens).Some?
    ensures forall i :: 0 <= i < |tokens| ==>
      Links(ChainOf(tokens))[i].fields == map[TokenKey(tokens[i]) := tokens[i]]
    ensures forall i :: 0 <= i < |tokens| ==>
      Links(ChainOf(tokens))[i].fixed == Off && Links(ChainOf(tokens))[i].refined == Off
    ensures tokens != [] ==> Links(ChainOf(tokens))[|tokens| - 1].next == None
  {
    if tokens != [] {
      var rest := tokens[1..];
      assert NamesAndValues(rest) by {
        forall i | 0 <= i < |rest| ensures rest[i].ParameterName? || rest[i].ParameterValue? {
          assert rest[i] == tokens[i + 1];
        }
      }
      ChainShape(rest);
      var c := ChainOf(tokens);
      assert c == Link(ChainOf(rest), tokens[0]);
      assert Links(c) == [c.value] + Links(ChainOf(rest));
      forall i | 0 <= i < |tokens|
        ensures Links(c)[i].fields == map[TokenKey(tokens[i]) := tokens[i]]
      {
        if i > 0 {
          assert Links(c)[i] == Links(ChainOf(rest))[i - 1] && rest[i - 1] == tokens[i];
        }
      }
      if |tokens| > 1 {
        assert Links(c)[|tokens| - 1] == Links(ChainOf(rest))[|rest| - 1];
      } else {
        assert ChainOf(rest) == None;
      }
    }
  }

  /** A parameter holding one name or value and nothing else prints as that node. */
  lemma SingleSlotText(t: Node)
    requires t.ParameterName? || t.ParameterValue?
    ensures ParamText(Param(Off, Off, map[TokenKey(t) := t], None)) == Unparse(t)
  {
    var p := Param(Off, Off, map[TokenKey(t) := t], None);
    KeyWordsInOrder(p);
    assert SlotWords(p, ToBeFixed) == [] && SlotWords(p, ToBeRefined) == [];
    if t.ParameterName? {
      assert SlotWords(p, Name) == [Unparse(t)] && SlotWords(p, Value) == [];
    } else {
      assert SlotWords(p, Name) == [] && SlotWords(p, Value) == [Unparse(t)];
    }
    assert SlotWords(p, Min) == [] && SlotWords(p, Max) == [] && SlotWords(p, Del) == [];
    assert SlotWords(p, Update) == [] && SlotWords(p, StopWhen) == [] && SlotWords(p, ValOnContinue) == [];
    assert FlagWords(p) + KeyWords(p, |ParamKeys|) + NextWords(p) == [Unparse(t)];
  }

  function TokenTexts(tokens: seq<Node>): (r: seq<string>)
    ensures |r| == |tokens|
  {
    seq(|tokens|, i requires 0 <= i < |tokens| => Unparse(tokens[i]))
  }

  /** A chain prints its tokens in input order, separated by single spaces. */
  lemma {:induction false} ChainText(tokens: seq<Node>)
    requires tokens != [] && NamesAndValues(tokens)
    ensures ChainOf(tokens).Some?
    ensures ParamText(ChainOf(tokens).value) == Join(" ", TokenTexts(tokens))
  {
    var t := tokens[0];
    var rest := tokens[1..];
    if rest == [] {
      SingleSlotText(t);
      assert TokenTexts(tokens) == [Unparse(t)];
    } else {
      NamesAndValuesTail(tokens);
      ChainText(rest);
      LinkText(t, ChainOf(rest).value);
      TokenTextsJoin(tokens);
    }
  }

  lemma NamesAndValuesTail(tokens: seq<Node>)
    requires tokens != [] && NamesAndValues(tokens)
    ensures NamesAndValues(tokens[1..])
  {
    var rest := tokens[1..];
    forall i | 0 <= i < |rest| ensures rest[i].ParameterName? || rest[i].ParameterValue? {
      assert rest[i] == tokens[i + 1];
    }
  }

  lemma TokenTextsJoin(tokens: seq<Node>)
    requires |tokens| >= 2
    ensures Join(" ", TokenTexts(tokens)) == Unparse(tokens[0]) + " " + Join(" ", TokenTexts(tokens[1..]))
  {
    assert TokenTexts(tokens)[1..] == TokenTexts(tokens[1..]);
  }

  /** A link prints its token, a space and the rest of the chain. */
  lemma LinkText(t: Node, next: Param)
    requires t.ParameterName? || t.ParameterValue?
    ensures ParamText(Param(Off, Off, map[TokenKey(t) := t], Some(next))) == Unparse(t) + " " + ParamText(next)
  {
    var c := Param(Off, Off, map[TokenKey(t) := t], Some(next));
    KeyWordsInOrder(c);
    assert SlotWords(c, ToBeFixed) == [] && SlotWords(c, ToBeRefined) == [];
    assert SlotWords(c, TokenKey(t)) == [Unparse(t)];
    ParamTextNext(c);
    SingleSlotText(t);
    assert c.(next := None) == Param(Off, Off, map[TokenKey(t) := t], None);
  }

  // ---------------------------------------------------------------- named parameter parts

  /** What the grammar stores under an attribute's results name: the `!`/`@` mark itself, or a
      node. */
  datatype TokValue = Mark | Found(found: Node)

  /** The tokens handed to `ParameterNode.parse_action`: a run of bare tokens as the first token,
      or the named parts of a normal parameter. */
  datatype ParamTokens = BareRun(run: seq<Node>) | Named(named: map<ParamKey, TokValue>)

  /** `setattr` of one named part: a mark sets a flag (and, on any other attribute, is no node, so
      no later step sees it); a node is stored as `setattr` of a node does. */
  function SetToken(p: Param, k: ParamKey, v: TokValue): (r: Param)
    ensures r.next == p.next
  {
    match v
    case Mark =>
      if k == ToBeFixed then p.(fixed := On)
      else if k == ToBeRefined then p.(refined := On)
      else p
    case Found(n) => SetSlot(p, k, n)
  }

  /** The parameter after the loop has visited the first `i` attributes. */
  function NamedUpTo(named: map<ParamKey, TokValue>, i: nat): (r: Param)
    requires i <= |ParamKeys|
    ensures r.next == None
  {
    if i == 0 then EmptyParam()
    else
      var p := NamedUpTo(named, i - 1);
      var k := ParamKeys[i - 1];
      if k in named then SetToken(p, k, named[k]) else p
  }

  /** `ParameterNode.parse_action` as a value: `None` when a bare run starts with a token that is
      neither a name nor a value. */
  function ParamFromTokens(toks: ParamTokens): Option<Param> {
    match toks
    case BareRun(run) => if run != [] then ChainOf(run) else Some(EmptyParam())
    case Named(named) => Some(NamedUpTo(named, |ParamKeys|))
  }

  /** `ParameterNode.parse_action` as written: a bare run is linked up; otherwise every attribute
      found among the named parts is set on a fresh parameter, in the fixed attribute order. */
  method ParameterParseAction(toks: ParamTokens) returns (r: Option<Param>)
    ensures r == ParamFromTokens(toks)
  {
    if toks.BareRun? && toks.run != [] {
      r := BareChain(toks.run);
      return;
    }
    var param := EmptyParam();
    if toks.Named? {
      var i := 0;
      while i < |ParamKeys|
        invariant 0 <= i <= |ParamKeys|
        invariant param == NamedUpTo(toks.named, i)
      {
        var key := ParamKeys[i];
        if key in toks.named {
          param := SetToken(param, key, toks.named[key]);
        }
        i := i + 1;
      }
    }
    r := Some(param);
  }

  /** What the named parts leave in each attribute. */
  function SlotFromToken(named: map<ParamKey, TokValue>, k: ParamKey): Option<Node> {
    if k in named && named[k].Found? then Some(named[k].found) else None
  }

  /** Every attribute holds exactly the node found under its name, every flag is set exactly when
      its mark or a node was found, and there is no next parameter. */
  lemma NamedParts(named: map<ParamKey, TokValue>)
    ensures forall k :: Slot(NamedUpTo(named, |ParamKeys|), k) == SlotFromToken(named, k)
    ensures IsSet(NamedUpTo(named, |ParamKeys|).fixed) <==> ToBeFixed in named
    ensures IsSet(NamedUpTo(named, |ParamKeys|).refined) <==> ToBeRefined in named
    ensures NamedUpTo(named, |ParamKeys|).next == None
  {
    NamedPartsUpTo(named, |ParamKeys|);
    forall k ensures Slot(NamedUpTo(named, |ParamKeys|), k) == SlotFromToken(named, k) {
      KeyIndexOf(k);
    }
    KeyIndexOf(ToBeFixed);
    KeyIndexOf(ToBeRefined);
  }

  lemma KeyIndexOf(k: ParamKey)
    ensures exists m :: 0 <= m < |ParamKeys| && ParamKeys[m] == k
  {
    match k
    case ToBeFixed => assert ParamKeys[0] == k;
    case ToBeRefined => assert ParamKeys[1] == k;
    case Name => assert ParamKeys[2] == k;
    case Value => assert ParamKeys[3] == k;
    case Min => assert ParamKeys[4] == k;
    case Max => assert ParamKeys[5] == k;
    case Del => assert ParamKeys[6] == k;
    case Update => assert ParamKeys[7] == k;
    case StopWhen => assert ParamKeys[8] == k;
    case ValOnContinue => assert ParamKeys[9] == k;
  }

  /** After `i` steps, the attributes among the first `i` hold what was found under them and the
      others are still empty. */
  lemma {:induction false} NamedPartsUpTo(named: map<ParamKey, TokValue>, i: nat)
    requires i <= |ParamKeys|
    ensures forall m :: 0 <= m < i ==> Slot(NamedUpTo(named, i), ParamKeys[m]) == SlotFromToken(named, ParamKeys[m])
    ensures forall m :: i <= m < |ParamKeys| ==> Slot(NamedUpTo(named, i), ParamKeys[m]) == None
    ensures IsSet(NamedUpTo(named, i).fixed) <==> i > 0 && ToBeFixed in named
    ensures IsSet(NamedUpTo(named, i).refined) <==> i > 1 && ToBeRefined in named
  {
    if i > 0 {
      NamedPartsUpTo(named, i - 1);
      var p := NamedUpTo(named, i - 1);
      var k := ParamKeys[i - 1];
      if k in named {
        SetTokenSlots(p, k, named[k]);
      }
      forall m | 0 <= m < |ParamKeys| && m != i - 1
        ensures Slot(NamedUpTo(named, i), ParamKeys[m]) == Slot(p, ParamKeys[m])
      {
        ParamKeysDistinct(m, i - 1);
      }
    }
  }

  /** One step of that loop changes only the attribute it names, and sets that flag. */
  lemma SetTokenSlots(p: Param, k: ParamKey, v: TokValue)
    ensures Slot(SetToken(p, k, v), k) == if v.Found? then Some(v.found) else if IsFlagKey(k) then None else Slot(p, k)
    ensures forall k' :: k' != k ==> Slot(SetToken(p, k, v), k') == Slot(p, k')
    ensures IsSet(SetToken(p, k, v).fixed) <==> IsSet(p.fixed) || k == ToBeFixed
    ensures IsSet(SetToken(p, k, v).refined) <==> IsSet(p.refined) || k == ToBeRefined
  {
  }

  // ---------------------------------------------------------------- prm

  /** `PrmNode.parse_action`: the tokens read as a parameter, then narrowed by
      `PrmNode.from_parameter`; `None` where the parameter action gives `None` (the source then
      fails on the missing attributes). */
  method PrmParseAction(toks: ParamTokens) returns (r: Option<Param>)
    ensures r.Some? <==> ParamFromTokens(toks).Some?
    ensures r.Some? ==> r.value == FromParameter(ParamFromTokens(toks).value)
  {
    var param := ParameterParseAction(toks);
    if param.None? {
      return None;
    }
    r := Some(FromParameter(param.value));
  }

  /** A `prm` keeps only the head of a bare run: the rest of the chain is dropped. */
  lemma PrmKeepsHead(tokens: seq<Node>)
    requires tokens != [] && NamesAndValues(tokens)
    ensures ParamFromTokens(BareRun(tokens)).Some?
    ensures FromParameter(ParamFromTokens(BareRun(tokens)).value)
      == Param(Off, Off, map[TokenKey(tokens[0]) := tokens[0]], None)
  {
    ChainShape(tokens);
    assert Links(ChainOf(tokens))[0] == ChainOf(tokens).value;
  }

  // ---------------------------------------------------------------- the statements of a file

  /** One statement added as `RootNode.parse_action` adds it: a text after a text is folded into
      it with a space between, anything else is appended. */
  function Push(acc: seq<Node>, x: Node): (r: seq<Node>)
    ensures |r| == (if EndsInText(acc) && x.Text? then |acc| else |acc| + 1)
  {
    if EndsInText(acc) && x.Text? then acc[..|acc| - 1] + [Text(acc[|acc| - 1].text + " " + x.text)]
    else acc + [x]
  }

  predicate EndsInText(acc: seq<Node>) {
    |acc| > 0 && acc[|acc| - 1].Text?
  }

  /** The statements after the loop has visited all of `xs`. */
  function Merged(xs: seq<Node>): seq<Node>
    decreases |xs|
  {
    if xs == [] then [] else Push(Merged(xs[..|xs| - 1]), xs[|xs| - 1])
  }

  /** One line break at the end is dropped. */
  function DropTrailingBreak(xs: seq<Node>): (r: seq<Node>)
    ensures |r| == (if xs != [] && xs[|xs| - 1] == LineBreak then |xs| - 1 else |xs|)
  {
    if xs != [] && xs[|xs| - 1] == LineBreak then xs[..|xs| - 1] else xs
  }

  function RootFromTokens(xs: seq<Node>): Node {
    Root(Merged(DropTrailingBreak(xs)))
  }

  /** `RootNode.parse_action` as written: the trailing line break dropped, then each statement
      appended, a text being folded into a text just before it. */
  method RootParseAction(toks: seq<Node>) returns (r: Node)
    ensures r == RootFromTokens(toks)
  {
    var stmts := toks;
    if |stmts| > 0 && stmts[|stmts| - 1] == LineBreak {
      stmts := stmts[..|stmts| - 1];
    }
    var statements: seq<Node> := [];
    var i := 0;
    while i < |stmts|
      invariant 0 <= i <= |stmts|
      invariant statements == Merged(stmts[..i])
    {
      var stmt := stmts[i];
      ghost var before := statements;
      if |statements| > 0 && statements[|statements| - 1].Text? && stmt.Text? {
        var last := statements[|statements| - 1];
        statements := statements[..|statements| - 1] + [Text(last.text + " " + stmt.text)];
      } else {
        statements := statements + [stmt];
      }
      assert statements == Push(before, stmt);
      MergedStep(stmts, i);
      i := i + 1;
    }
    assert stmts[..i] == stmts;
    r := Root(statements);
  }

  lemma MergedStep(xs: seq<Node>, i: nat)
    requires i < |xs|
    ensures Merged(xs[..i + 1]) == Push(Merged(xs[..i]), xs[i])
  {
    assert xs[..i + 1][..i] == xs[..i];
  }

  /** No two texts are next to each other. */
  predicate NoAdjacentTexts(xs: seq<Node>) {
    forall i :: 0 <= i < |xs| - 1 ==> !(xs[i].Text? && xs[i + 1].Text?)
  }

  /** The statements that are not texts, in order. */
  function NonTexts(xs: seq<Node>): (r: seq<Node>)
    ensures |r| <= |xs|
  {
    if xs == [] then []
    else (if xs[0].Text? then [] else [xs[0]]) + NonTexts(xs[1..])
  }

  lemma {:induction false} NonTextsAppend(xs: seq<Node>, ys: seq<Node>)
    ensures NonTexts(xs + ys) == NonTexts(xs) + NonTexts(ys)
  {
    if xs == [] {
      assert xs + ys == ys;
    } else {
      assert (xs + ys)[0] == xs[0] && (xs + ys)[1..] == xs[1..] + ys;
      NonTextsAppend(xs[1..], ys);
    }
  }

  /** The merged statements have no two adjacent texts, and the other statements are those of the
      input in the same order. */
  lemma {:induction false} MergedShape(xs: seq<Node>)
    ensures NoAdjacentTexts(Merged(xs))
    ensures NonTexts(Merged(xs)) == NonTexts(xs)
    decreases |xs|
  {
    if xs != [] {
      var init := xs[..|xs| - 1];
      var x := xs[|xs| - 1];
      var acc := Merged(init);
      MergedShape(init);
      assert xs == init + [x];
      NonTextsAppend(init, [x]);
      PushShape(acc, x);
    }
  }

  /** One step of the fold keeps texts apart and appends the statement unless it is a text. */
  lemma PushShape(acc: seq<Node>, x: Node)
    requires NoAdjacentTexts(acc)
    ensures NoAdjacentTexts(Push(acc, x))
    ensures NonTexts(Push(acc, x)) == NonTexts(acc) + NonTexts([x])
  {
    if EndsInText(acc) && x.Text? {
      var front := acc[..|acc| - 1];
      assert acc == front + [acc[|acc| - 1]];
      NonTextsAppend(front, [acc[|acc| - 1]]);
      NonTextsAppend(front, [Text(acc[|acc| - 1].text + " " + x.text)]);
    } else {
      NonTextsAppend(acc, [x]);
    }
  }

  /** An independent reading of the fold: each maximal run of adjacent texts, built from the
      front, becomes one text holding the run's values joined by single spaces. */
  function Runs(xs: seq<Node>): seq<Node>
    decreases |xs|
  {
    if xs == [] then [] else Cons(xs[0], Runs(xs[1..]))
  }

  function Cons(x: Node, rest: seq<Node>): seq<Node> {
    if x.Text? && rest != [] && rest[0].Text? then [Text(x.text + " " + rest[0].text)] + rest[1..]
    else [x] + rest
  }

  /** Folding from the back, as the loop does, gives the runs. */
  lemma {:induction false} MergedIsRuns(xs: seq<Node>)
    ensures Merged(xs) == Runs(xs)
    decreases |xs|
  {
    if xs != [] {
      var init := xs[..|xs| - 1];
      MergedIsRuns(init);
      assert xs == init + [xs[|xs| - 1]];
      RunsSnoc(init, xs[|xs| - 1]);
    }
  }

  lemma {:induction false} RunsSnoc(xs: seq<Node>, y: Node)
    ensures Runs(xs + [y]) == Push(Runs(xs), y)
    decreases |xs|
  {
    if xs == [] {
      assert Runs([y]) == Cons(y, Runs([]));
    } else {
      assert (xs + [y])[1..] == xs[1..] + [y];
      RunsSnoc(xs[1..], y);
      ConsPush(xs[0], Runs(xs[1..]), y);
    }
  }

  /** Folding in at the front and at the back commute. */
  lemma ConsPush(x: Node, rs: seq<Node>, y: Node)
    ensures Cons(x, Push(rs, y)) == Push(Cons(x, rs), y)
  {
    if |rs| == 1 && x.Text? && rs[0].Text? && y.Text? {
      assert (x.text + " " + rs[0].text) + " " + y.text == x.text + " " + (rs[0].text + " " + y.text);
    } else if |rs| >= 2 {
      if EndsInText(rs) && y.Text? {
        ConsPushMerging(x, rs, y);
      } else {
        ConsPushAppending(x, rs, y);
      }
    }
  }

  /** With two statements or more, the front and the back fold apart from each other. */
  lemma ConsPushMerging(x: Node, rs: seq<Node>, y: Node)
    requires |rs| >= 2 && EndsInText(rs) && y.Text?
    ensures Cons(x, Push(rs, y)) == Push(Cons(x, rs), y)
  {
    var c := Cons(x, rs);
    assert c[|c| - 1] == rs[|rs| - 1];
    var p := Push(rs, y);
    assert p[0] == rs[0] && p[1..] == rs[1..|rs| - 1] + [Text(rs[|rs| - 1].text + " " + y.text)];
  }

  lemma ConsPushAppending(x: Node, rs: seq<Node>, y: Node)
    requires |rs| >= 2 && !(EndsInText(rs) && y.Text?)
    ensures Cons(x, Push(rs, y)) == Push(Cons(x, rs), y)
  {
    var c := Cons(x, rs);
    assert c[|c| - 1] == rs[|rs| - 1];
    assert (rs + [y])[0] == rs[0] && (rs + [y])[1..] == rs[1..] + [y];
  }

  /** One line break at the end is dropped and only one: an earlier break, like every other
      statement, stays. */
  lemma OneBreakDropped(xs: seq<Node>)
    ensures RootFromTokens(xs + [LineBreak]) == Root(Merged(xs))
    ensures xs != [] && xs[|xs| - 1] == LineBreak ==>
      var r := RootFromTokens(xs + [LineBreak]).rootStatements; r != [] && r[|r| - 1] == LineBreak
  {
    assert (xs + [LineBreak])[..|xs|] == xs;
  }
}
