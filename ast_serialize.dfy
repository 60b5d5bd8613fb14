/** `serialize`: every node to its JSON form, a list whose first element is the class tag. */
module AstSerialize {
  import opened Wrappers
  import opened Json
  import opened Decimals
  import opened ValueLiterals
  import opened AstNodes

  function TagJson(n: Node): Json {
    JStr(Tag(KindOf(n)))
  }

  function Serialize(n: Node): Json
    decreases n, 1
  {
    match n
    case Text(t) => JArr([TagJson(n), JStr(t)])
    case LineBreak => JArr([TagJson(n)])
    case ParameterName(name) => JArr([TagJson(n), JStr(name)])
    case ParameterValue(v) => JArr([TagJson(n), JStr(ValueText(v))])
    case ParameterEquation(f, r) =>
      JArr([TagJson(n), Serialize(f)] + (if r.Some? then [Serialize(r.value)] else []))
    case Parameter(p) => ParamJson(p)
    case Prm(p) => JArr([TagJson(n), JObj(ParamDict(p))])
    case FunctionCall(name, args) => JArr([TagJson(n), JStr(name)] + ArgsJson(args))
    case Unary(_, x) => JArr([TagJson(n), Serialize(x)])
    case Nary(_, xs) => JArr([TagJson(n)] + SerializeAll(xs))
    case Formula(v) => JArr([TagJson(n), Serialize(v)])
    case Local(p) => JArr([TagJson(n), ParamJson(p)])
    case ExistingPrm(name, op, m) =>
      JArr([TagJson(n), JArr([JStr(Tag(KParameterName)), JStr(name)]), JStr(op), Serialize(m)])
    case NumRuns(r) => JArr([TagJson(n), RunsJson(r)])
    case Xdd(x) => XddJson(x)
    case AxialConv(f, s, r, p, q, b) =>
      var opts := AxialOpts(n);
      JArr([TagJson(n), JArr([ParamJson(f), ParamJson(s), ParamJson(r)])]
           + (if opts == map[] then [] else [JObj(opts)]))
    case Bkg(ps) => JArr([TagJson(n)] + ParamsJson(ps))
    case Macro(name, args, stmts) =>
      JArr([TagJson(n), JStr(name), JArr(ArgsJson(args)), JArr(StatementsJson(stmts))])
    case Root(stmts) => JArr([TagJson(n)] + SerializeAll(stmts))
  }

  function SerializeAll(xs: seq<Node>): (r: seq<Json>)
    ensures |r| == |xs|
    decreases xs, 1
  {
    seq(|xs|, i requires 0 <= i < |xs| => Serialize(xs[i]))
  }

  // ---------------------------------------------------------------- parameters

  /** A parameter as `["p", {…}]`. */
  function ParamJson(p: Param): Json
    decreases p, 3
  {
    JArr([JStr(Tag(KParameter)), JObj(ParamDict(p))])
  }

  function ParamsJson(ps: seq<Param>): (r: seq<Json>)
    ensures |r| == |ps|
    decreases ps, 4
  {
    seq(|ps|, i requires 0 <= i < |ps| => ParamJson(ps[i]))
  }

  /** The dictionary of a parameter: `!` and `@` as `true` when the flag is set, `>` for the rest
      of a chain, then one short key for each attribute holding a node (a node under a flag
      replaces its `true`). */
  function ParamDict(p: Param): map<string, Json>
    decreases p, 2
  {
    KeyEntries(p, |ParamKeys|)
  }

  /** The flag and chain entries. */
  function HeadEntries(p: Param): map<string, Json>
    decreases p, 0
  {
    var d0: map<string, Json> := map[];
    var d1 := if IsSet(p.fixed) then d0["!" := JBool(true)] else d0;
    var d2 := if IsSet(p.refined) then d1["@" := JBool(true)] else d1;
    if p.next.Some? then d2[">" := ParamJson(p.next.value)] else d2
  }

  /** The entries after the first `i` attributes. */
  function KeyEntries(p: Param, i: nat): map<string, Json>
    requires i <= |ParamKeys|
    decreases p, 1, i
  {
    if i == 0 then HeadEntries(p)
    else
      var d := KeyEntries(p, i - 1);
      var v := SlotJson(p, ParamKeys[i - 1]);
      if v.Some? then d[ShortKey(ParamKeys[i - 1]) := v.value] else d
  }

  /** The serialized node an attribute holds, if it holds one. */
  function SlotJson(p: Param, k: ParamKey): (r: Option<Json>)
    ensures r.Some? <==> Slot(p, k).Some?
    decreases p, 0
  {
    if k == ToBeFixed then
      if p.fixed.Misplaced? then Some(Serialize(p.fixed.flagNode)) else None
    else if k == ToBeRefined then
      if p.refined.Misplaced? then Some(Serialize(p.refined.flagNode)) else None
    else if k in p.fields then Some(Serialize(p.fields[k]))
    else None
  }

  // ---------------------------------------------------------------- arguments and statements

  /** A node argument is serialized; a string, an empty slot or any other value is kept as it is. */
  function ArgJson(a: Arg): Json
    decreases a, 0
  {
    match a
    case ArgNode(x) => Serialize(x)
    case ArgStr(s) => JStr(s)
    case ArgNone => JNull
    case ArgOther(j) => j
  }

  function ArgsJson(args: seq<Arg>): (r: seq<Json>)
    ensures |r| == |args|
    decreases args, 1
  {
    seq(|args|, i requires 0 <= i < |args| => ArgJson(args[i]))
  }

  function StatementJson(s: Statement): Json
    decreases s, 0
  {
    match s
    case StmtNode(x) => Serialize(x)
    case StmtRaw(t) => JStr(t)
  }

  function StatementsJson(stmts: seq<Statement>): (r: seq<Json>)
    ensures |r| == |stmts|
    decreases stmts, 1
  {
    seq(|stmts|, i requires 0 <= i < |stmts| => StatementJson(stmts[i]))
  }

  // ---------------------------------------------------------------- leaves

  /** A count as a number, a flag as a boolean, a name as its node. */
  function RunsJson(r: Runs): Json {
    match r
    case RunsInt(c) => JInt(c)
    case RunsBool(b) => JBool(b)
    case RunsName(name) => JArr([JStr(Tag(KParameterName)), JStr(name)])
  }

  /** The optional angles of an axial convolution under `p`, `s` and `b`. */
  function AxialOpts(n: Node): map<string, Json>
    requires n.AxialConv?
    decreases n, 0
  {
    var o0: map<string, Json> := map[];
    var o1 := if n.primarySollerAngle.Some? then o0["p" := ParamJson(n.primarySollerAngle.value)] else o0;
    var o2 := if n.secondarySollerAngle.Some? then o1["s" := ParamJson(n.secondarySollerAngle.value)] else o1;
    if n.axialNBeta.Some? then o2["b" := ParamJson(n.axialNBeta.value)] else o2
  }

  function StrsJson(data: seq<Decimal>): (r: seq<Json>)
    ensures |r| == |data|
    ensures forall i :: 0 <= i < |data| ==> r[i] == JStr(Str(data[i]))
  {
    if data == [] then [] else StrsJson(data[..|data| - 1]) + [JStr(Str(data[|data| - 1]))]
  }

  /** The options of an xdd: the filename when there is one; without a filename, the inline data
      as number texts; the range as text. */
  function XddOpts(x: XddFields): map<string, Json> {
    var kv0: map<string, Json> := map[];
    var kv1 := if x.filename.Some? then kv0["filename" := JStr(x.filename.value)] else kv0;
    var kv2 := if x.filename.None? && x.inlineData.Some? then kv1["inline_data" := JArr(StrsJson(x.inlineData.value))] else kv1;
    if x.range.Some? then kv2["range" := JStr(Str(x.range.value))] else kv2
  }

  /** The flags of an xdd in their fixed order; `_xy` only without a filename. */
  function XddFlags(x: XddFields): seq<string> {
    var f0: seq<string> := [];
    var f1 := if x.filename.None? && x.inlineDataXy then f0 + ["_xy"] else f0;
    var f2 := if x.xyeFormat then f1 + ["xye_format"] else f1;
    var f3 := if x.gsasFormat then f2 + ["gsas_format"] else f2;
    var f4 := if x.fullprofFormat then f3 + ["fullprof_format"] else f3;
    var f5 := if x.guiReload then f4 + ["gui_reload"] else f4;
    if x.guiIgnore then f5 + ["gui_ignore"] else f5
  }

  function StringsJson(xs: seq<string>): (r: seq<Json>)
    ensures |r| == |xs|
  {
    seq(|xs|, i requires 0 <= i < |xs| => JStr(xs[i]))
  }

  /** `["xdd", options]`, with the flags as a third element when there are any. */
  function XddJson(x: XddFields): Json {
    var flags := XddFlags(x);
    if flags == [] then JArr([JStr(Tag(KXdd)), JObj(XddOpts(x))])
    else JArr([JStr(Tag(KXdd)), JObj(XddOpts(x)), JArr(StringsJson(flags))])
  }
}

module AstSerializeSteps {
  import opened Wrappers
  import opened Json
  import opened Decimals
  import opened AstNodes
  import opened AstSerialize

  /** An attribute's serialized node, read through what `getattr` finds there. */
  lemma SlotJsonOfSlot(p: Param, k: ParamKey)
    ensures SlotJson(p, k) == if Slot(p, k).Some? then Some(Serialize(Slot(p, k).value)) else None
  {
  }

  /** `ParameterNode.serialize` as written: a dictionary filled key by key. */
  method ParameterSerialize(p: Param) returns (j: Json)
    ensures j == ParamJson(p)
    decreases p
  {
    var short: map<string, Json> := map[];
    if IsSet(p.fixed) {
      short := short["!" := JBool(true)];
    }
    if IsSet(p.refined) {
      short := short["@" := JBool(true)];
    }
    if p.next.Some? {
      var rest := ParameterSerialize(p.next.value);
      short := short[">" := rest];
    }
    var i := 0;
    while i < |ParamKeys|
      invariant 0 <= i <= |ParamKeys|
      invariant short == KeyEntries(p, i)
    {
      var key := ParamKeys[i];
      var val := Slot(p, key);
      SlotJsonOfSlot(p, key);
      if val.Some? {
        short := short[ShortKey(key) := Serialize(val.value)];
      }
      i := i + 1;
    }
    j := JArr([JStr("p"), JObj(short)]);
  }

  /** The inline numbers as texts, one by one. */
  method InlineStrs(data: seq<Decimal>) returns (strs: seq<Json>)
    ensures strs == StrsJson(data)
  {
    strs := [];
    var i := 0;
    while i < |data|
      invariant 0 <= i <= |data|
      invariant strs == StrsJson(data[..i])
    {
      assert data[..i + 1][..i] == data[..i];
      strs := strs + [JStr(Str(data[i]))];
      i := i + 1;
    }
    assert data[..i] == data;
  }

  /** `XddNode.serialize` as written: an options dictionary and a flag list filled in turn. */
  method XddSerialize(x: XddFields) returns (j: Json)
    ensures j == XddJson(x)
  {
    var kv: map<string, Json> := map[];
    var flags: seq<string> := [];
    if x.filename.Some? {
      kv := kv["filename" := JStr(x.filename.value)];
    }
    if x.filename.None? && x.inlineDataXy {
      flags := flags + ["_xy"];
    }
    if x.filename.None? && x.inlineData.Some? {
      var strs := InlineStrs(x.inlineData.value);
      kv := kv["inline_data" := JArr(strs)];
    }
    if x.range.Some? {
      kv := kv["range" := JStr(Str(x.range.value))];
    }
    assert kv == XddOpts(x);
    if x.xyeFormat {
      flags := flags + ["xye_format"];
    }
    if x.gsasFormat {
      flags := flags + ["gsas_format"];
    }
    if x.fullprofFormat {
      flags := flags + ["fullprof_format"];
    }
    if x.guiReload {
      flags := flags + ["gui_reload"];
    }
    if x.guiIgnore {
      flags := flags + ["gui_ignore"];
    }
    assert flags == XddFlags(x);
    if flags == [] {
      j := JArr([JStr("xdd"), JObj(kv)]);
    } else {
      j := JArr([JStr("xdd"), JObj(kv), JArr(StringsJson(flags))]);
    }
  }
}
