/** When `match_unserialize` refuses its input, and what it makes of a parameter dictionary that
    `serialize` would not have written. */
module UnserializeProperties {
  import opened Wrappers
  import opened Json
  import opened AstNodes
  import opened AstSerialize
  import opened AstUnserialize

  /** A list headed by the tag of class `k` goes to that class when `k` is allowed, and is
      refused otherwise. */
  lemma {:induction false} MatchTag(kinds: seq<Kind>, j: Json, k: Kind)
    requires ListAtLeast(j, 1) && j.a[0] == JStr(Tag(k))
    ensures k in kinds ==> MatchUnserialize(kinds, j) == UnserializeKind(k, j)
    ensures k !in kinds ==> MatchUnserialize(kinds, j).Err?
  {
    var f := FirstKind(kinds, j.a[0]);
    if f.Some? {
      TagInjective(f.value, k);
    }
  }

  /** Whatever `match_unserialize` returns is of one of the classes it was given. */
  lemma MatchKind(kinds: seq<Kind>, j: Json)
    requires MatchUnserialize(kinds, j).Ok?
    ensures KindOf(MatchUnserialize(kinds, j).value) in kinds
  {
    var k := FirstKind(kinds, j.a[0]);
    assert k.Some? && MatchUnserialize(kinds, j) == UnserializeKind(k.value, j);
  }

  /** Every node of a list read by `match_unserialize` is of one of the allowed classes. */
  lemma {:induction false} MatchFromKinds(kinds: seq<Kind>, j: Json, i: nat)
    requires j.JArr? && i <= |j.a| && MatchFrom(kinds, j, i).Ok?
    ensures forall m :: 0 <= m < |MatchFrom(kinds, j, i).value| ==> KindOf(MatchFrom(kinds, j, i).value[m]) in kinds
    decreases |j.a| - i
  {
    if i < |j.a| {
      MatchKind(kinds, j.a[i]);
      MatchFromKinds(kinds, j, i + 1);
    }
  }

  /** No class among `kinds` has the list's tag: the error lists the allowed tags. */
  lemma NoKindMatches(kinds: seq<Kind>, j: Json)
    requires ListAtLeast(j, 1)
    requires forall k :: k in kinds ==> j.a[0] != JStr(Tag(k))
    ensures MatchUnserialize(kinds, j) == Err("assert data[0] in [" + Join(",", Tags(kinds)) + "]")
  {
  }

  /** A binary or comparison operator with fewer than two operands is refused. */
  lemma OperatorArity(kinds: seq<Kind>, j: Json, o: NaryOp)
    requires ListAtLeast(j, 1) && j.a[0] == JStr(Tag(KNary(o))) && |j.a| <= 2
    ensures MatchUnserialize(kinds, j).Err?
    ensures KNary(o) in kinds ==> MatchUnserialize(kinds, j) == Err("assert len > 2")
  {
    MatchTag(kinds, j, KNary(o));
    if KNary(o) in kinds {
      assert UnserializeKind(KNary(o), j) == FormulaKind(KNary(o), j) == NaryOf(o, j);
    }
  }

  /** A unary operator takes exactly one operand. */
  lemma UnaryArity(kinds: seq<Kind>, j: Json, u: UnaryOp)
    requires ListAtLeast(j, 1) && j.a[0] == JStr(Tag(KUnary(u))) && |j.a| != 2
    ensures MatchUnserialize(kinds, j).Err?
    ensures KUnary(u) in kinds ==> MatchUnserialize(kinds, j) == Err("assert len == 2")
  {
    MatchTag(kinds, j, KUnary(u));
    if KUnary(u) in kinds {
      assert UnserializeKind(KUnary(u), j) == FormulaKind(KUnary(u), j) == UnaryOf(u, j);
    }
  }

  /** A formula holds exactly one value. */
  lemma FormulaArity(kinds: seq<Kind>, j: Json)
    requires ListAtLeast(j, 1) && j.a[0] == JStr(Tag(KFormula)) && |j.a| != 2
    ensures MatchUnserialize(kinds, j).Err?
    ensures KFormula in kinds ==> MatchUnserialize(kinds, j) == Err("assert len == 2")
  {
    MatchTag(kinds, j, KFormula);
    if KFormula in kinds {
      assert UnserializeKind(KFormula, j) == FormulaKind(KFormula, j) == FormulaOf(j);
    }
  }

  /** A macro is four elements: the tag, a name string, an argument list and a statement list. */
  lemma MacroShape(kinds: seq<Kind>, j: Json)
    requires ListAtLeast(j, 1) && j.a[0] == JStr(Tag(KMacro))
    requires !(|j.a| == 4 && j.a[1].JStr? && j.a[2].JArr? && j.a[3].JArr?)
    ensures MatchUnserialize(kinds, j).Err?
  {
    MatchTag(kinds, j, KMacro);
    if KMacro in kinds {
      assert UnserializeKind(KMacro, j) == StatementKind(KMacro, j) == MacroOf(j);
    }
  }

  /** Whatever a binary or comparison operator is read as has at least two operands. */
  lemma OperatorsReadHaveTwoOperands(kinds: seq<Kind>, j: Json)
    requires MatchUnserialize(kinds, j).Ok? && MatchUnserialize(kinds, j).value.Nary?
    ensures |MatchUnserialize(kinds, j).value.operands| >= 2
  {
    var n := MatchUnserialize(kinds, j).value;
    MatchTag(kinds, j, KindOf(n));
    assert UnserializeKind(KindOf(n), j) == FormulaKind(KindOf(n), j) == NaryOf(n.op, j);
  }

  /** A class never accepts a list headed by another class's tag. */
  lemma {:induction false} WrongTag(k: Kind, j: Json)
    requires ListAtLeast(j, 1) && j.a[0] != JStr(Tag(k))
    ensures UnserializeKind(k, j).Err?
  {
    if k.KText? || k.KLineBreak? || k.KParameterName? || k.KParameterValue? || k.KParameterEquation? {
      assert LeafKind(k, j).Err?;
    } else if k.KParameter? || k.KPrm? || k.KLocal? || k.KAxialConv? || k.KBkg? {
      assert ParameterKind(k, j).Err?;
    } else if k.KFunctionCall? || k.KUnary? || k.KNary? || k.KFormula? {
      assert FormulaKind(k, j).Err?;
    } else {
      assert StatementKind(k, j).Err?;
    }
  }

  // ---------------------------------------------------------------- parameter dictionaries

  /** A list under `!` is read as a value and kept in the flag attribute itself. */
  lemma FlagHoldingANode(x: Node)
    requires MatchUnserialize(ParamValueKinds, Serialize(x)) == Ok(x)
    ensures ParamBody(JObj(map["!" := Serialize(x)])) == Ok(Param(Misplaced(x), Off, map[], None))
  {
    FlagHoldingAList(Serialize(x), x);
  }

  lemma FlagHoldingAList(v: Json, x: Node)
    requires v.JArr? && MatchUnserialize(ParamValueKinds, v) == Ok(x)
    ensures ParamBody(JObj(map["!" := v])) == Ok(Param(Misplaced(x), Off, map[], None))
  {
    var d := JObj(map["!" := v]);
    assert ParamKeys[0] == ToBeFixed && ShortKey(ToBeFixed) == "!";
    assert FieldsUpTo(d, 1) == Ok(SetSlot(EmptyParam(), ToBeFixed, x));
    forall m | 1 <= m < |ParamKeys|
      ensures ShortKey(ParamKeys[m]) !in d.o
    {
      assert ParamKeys[m] != ToBeFixed;
    }
    FieldsUnchangedWithout(d, 1, |ParamKeys|);
  }

  /** Only the value `true` sets a flag: `1`, as Python's `is True` test says, does not. */
  lemma FlagNeedsTrue()
    ensures ParamBody(JObj(map["!" := JInt(1)])) == Ok(EmptyParam())
    ensures ParamBody(JObj(map["!" := JBool(true)])) == Ok(Param(On, Off, map[], None))
  {
    var d1 := JObj(map["!" := JInt(1)]);
    var d2 := JObj(map["!" := JBool(true)]);
    FieldsUnchangedWithout(d1, 0, |ParamKeys|);
    FieldsUnchangedWithout(d2, 0, |ParamKeys|);
  }

  /** Attributes after the `i`-th whose short keys hold no list leave the parameter as it was. */
  lemma {:induction false} FieldsUnchangedWithout(d: Json, i: nat, n: nat)
    requires d.JObj? && i <= n <= |ParamKeys|
    requires forall m :: i <= m < n ==> !(ShortKey(ParamKeys[m]) in d.o && d.o[ShortKey(ParamKeys[m])].JArr?)
    ensures FieldsUpTo(d, n) == FieldsUpTo(d, i)
    decreases n - i
  {
    if n > i {
      FieldsUnchangedWithout(d, i, n - 1);
    }
  }

  /** Keys other than the ten short keys and `>` are ignored. */
  lemma {:induction false} UnknownKeyIgnored(d: Json, key: string, v: Json)
    requires d.JObj? && key != ">" && forall k :: key != ShortKey(k)
    ensures ParamBody(JObj(d.o[key := v])) == ParamBody(d)
  {
    var e := JObj(d.o[key := v]);
    FieldsIgnoreKey(d, key, v, |ParamKeys|);
    assert "!" == ShortKey(ToBeFixed) && "@" == ShortKey(ToBeRefined);
  }

  lemma {:induction false} FieldsIgnoreKey(d: Json, key: string, v: Json, i: nat)
    requires d.JObj? && i <= |ParamKeys| && forall k :: key != ShortKey(k)
    ensures FieldsUpTo(JObj(d.o[key := v]), i) == FieldsUpTo(d, i)
  {
    if i > 0 {
      FieldsIgnoreKey(d, key, v, i - 1);
      assert key != ShortKey(ParamKeys[i - 1]);
    }
  }
}
