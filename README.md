# pytopas syntax tree, tokens and parse actions — a Dafny model

pytopas reads TOPAS control files into a syntax tree of node classes. Each node can be written back as
TOPAS text (`unparse`). It can also be turned into a JSON-like list headed by its class's tag
(`serialize`) and read back from such a list (`unserialize`, dispatched by `match_unserialize`).
The grammar's parse actions build the nodes from matched tokens. The lexer's token classes keep a
token's type and value, and the xdd filename token shell-quotes its path.

The model covers the following:

- `Json`: the serialized form. It has null, bool, int, string, list and dict values, and
  `json.dumps` quoting of strings.
- `Decimals`: Python's `Decimal` as sign, coefficient and exponent. It holds `str(Decimal)` and a
  reader of decimal text, and proves that the reader inverts `str`.
- `ValueLiterals`: the text of a parameter value and its re-reading.
- `Tokens`: `BaseToken` and `XddFilenameToken`: `from_token`, `fold`, `serialize` and `shlex.quote`.
- `AstNodes`: one `Node` constructor per node class, the parameter record `Param` and the tag table.
- `AstUnparse` and `AstUnparseSteps`: `unparse`. The loops of the source are methods, each proved
  equal to its specification function.
- `AstSerialize` and `AstSerializeSteps`: `serialize`. `SerializeProperties` states which keys a
  parameter's dict holds.
- `AstUnserialize` and `AstUnserializeSteps`: `unserialize` and `match_unserialize`, with every
  error message the source raises.
- `UnserializeProperties` and `UnparseProperties`: properties of each direction.
- `RoundTrip`: `match_unserialize(kinds, n.serialize()) == n` for every well-formed tree `n` whose
  class is in `kinds`.
- `ParseActions`: the list-level parse actions:
  - operator groups, unary signs and function-call argument groups;
  - bare and named parameter parts, and `PrmNode.from_parameter`;
  - the root node's text merge.

## Model

| member | source | states |
|---|---|---|
| Tokens.FromToken | pytopas/token.py:18-22 | `from_token` of both token classes: a generic class refuses a token of another type, and the filename class (token.py:63-72) accepts any token and unquotes its value; FromTokenChecksType and FromTokenKeepsType state this |
| Tokens.Unquoted | pytopas/token.py:69-71 | `removeprefix('"').removesuffix('"')`, applied only when the value starts and ends with `"`; UnquotedStripsOnePair and UnquotedKeeps state it |
| Tokens.ShellQuote | pytopas/token.py:74-76 | `shlex.quote`: `''` for an empty path, a safe path unchanged, otherwise the path in single quotes with each `'` written `'"'"'`; ShellQuoteKeeps and ShellQuoteRoundTrip state it |
| Tokens.FromTokenChecksType | pytopas/token.py:18-22 | a generic token class accepts a token exactly when the token's type is the class's own, and then keeps it unchanged |
| Tokens.FromTokenKeepsType | pytopas/token.py:63-72 | the filename class accepts every token and keeps its type |
| Tokens.UnquotedStripsOnePair | pytopas/token.py:63-72 | a path in double quotes loses exactly the outer pair |
| Tokens.UnquotedKeeps | pytopas/token.py:63-72 | a path not wrapped in double quotes is kept as it is |
| Tokens.GenericFoldSerialize | pytopas/token.py:24-30 | a generic token folds to its value and serializes to its type and value |
| Tokens.ShellQuoteKeeps | pytopas/token.py:74-80 | the filename is left unquoted exactly when it is non-empty and every character is shell-safe |
| Tokens.ShellQuoteRoundTrip | pytopas/token.py:74-80 | a POSIX shell reads the folded filename back as the original path, whatever it contains |
| Tokens.SafeExample | pytopas/token.py:74-80 | a plain path folds to itself |
| Tokens.SpacedExample | pytopas/token.py:74-80 | a path with spaces folds to the path in single quotes |
| Tokens.QuotedExample | pytopas/token.py:63-72 | a quoted path with spaces is read without its quotes |
| Decimals.Str | pytopas/ast.py:1277-1280 | Python's `str(Decimal)`, as serialize writes the inline numbers and the range: plain notation, or one digit and an `E` exponent when the value is large or tiny; its contract says the text is never empty, and ParseStr states that it reads back |
| Decimals.ParseDecimal | pytopas/ast.py:1308-1317 | `Decimal(text)` for an optional sign, digits with an optional point and an optional exponent, the whole text being one number; ParseStr states that it inverts Str |
| Decimals.ParseStr | pytopas/ast.py:1308-1317 | reading the text `str(d)` of any decimal, as serialize writes it (ast.py:1277-1278), gives back `d`, with its sign, coefficient and exponent |
| Decimals.FromInt | pytopas/ast.py:1313-1317 | an int read as a decimal keeps its value, with exponent 0 |
| Json.Quote | pytopas/ast.py:745-746 | `json.dumps` of a string argument: its contract says the text starts and ends with `"` and is at least two longer than the string; QuotePlain and QuoteBodyEscapesQuotes state the escaping |
| Json.QuotePlain | pytopas/ast.py:745-746 | a string of printable ASCII without quotes or backslashes is printed verbatim between double quotes |
| Json.QuoteBodyEscapesQuotes | pytopas/ast.py:745-746 | every double quote inside a quoted string argument is preceded by a backslash |
| ValueLiterals.ValueText | pytopas/ast.py:426-431 | `ParameterValueNode.unparse`: the number, a backtick when set, then `_` and the esd, `_LIMIT_MIN_` and the minimum, `_LIMIT_MAX_` and the maximum, each only when present |
| ValueLiterals.ParseValueLiteral | pytopas/ast.py:444 | the re-reading of that text by `cls.parse` in `ParameterValueNode.unserialize`; ParseValueText states that it inverts ValueText |
| ValueLiterals.ParseValueText | pytopas/ast.py:426-448 | re-reading the unparsed text of a parameter value (value, backtick, esd, limits) gives back the same value |
| AstUnparse.Unparse | pytopas/ast.py:272-274 | `unparse` of every node class, one case per class (text 322-323, macro 1503-1520, root 1611-1616 and so on); the UnparseProperties rows state what the text holds |
| AstUnparse.ParamText | pytopas/ast.py:584-600 | `ParameterNode.unparse`: the flag and attribute words joined by spaces, then the next parameter's text; FullParamOrder, NameOnlyText and ParamTextNext state it |
| AstUnparse.XddText | pytopas/ast.py:1246-1268 | `XddNode.unparse`; XddWordsText and the XddUnparseProperties rows state what it holds |
| AstUnparseSteps.ParameterUnparse | pytopas/ast.py:584-600 | the word loop over a chain of parameters produces the parameter text |
| AstUnparseSteps.AttributeWords | pytopas/ast.py:590-597 | the attribute loop appends, in the fixed key order, the words of each attribute that holds a node |
| AstUnparseSteps.XddUnparse | pytopas/ast.py:1246-1268 | the xdd text is built piece by piece: a non-empty filename, non-empty inline data, a non-zero range, then the flags; what that text holds is stated by the `XddUnparseProperties` rows below |
| XddUnparseProperties.XddWordsText | pytopas/ast.py:1246-1268 | the xdd text is `xdd` and then each shown word after one space: the quoted filename, the braced inline data, `range` and its value, then the set flags, in that order |
| XddUnparseProperties.XddFilenameShown | pytopas/ast.py:1248-1250 | the text starts `xdd "` exactly when the filename is present and non-empty |
| XddUnparseProperties.XddInlineShown | pytopas/ast.py:1251-1255 | the text starts `xdd {` exactly when there is no filename and the inline data is non-empty; an empty filename prints nothing and still hides the data |
| XddUnparseProperties.XddRangeShown | pytopas/ast.py:1256-1257 | the word `range` is printed exactly when the range is present and non-zero |
| XddUnparseProperties.XddFlagsSerialized | pytopas/ast.py:1258-1267 | the flags printed at the end are the flags serialize writes (ast.py:1274-1290), in the same order, less a leading `_xy` |
| XddUnparseProperties.FlagsSpaced | pytopas/ast.py:1258-1267 | the five flag steps append each set flag after a space, in the fixed order xye, gsas, fullprof, gui_reload, gui_ignore |
| XddUnparseProperties.XddStart | pytopas/ast.py:1246-1257 | the text is `xdd` alone when nothing is shown; otherwise `xdd `, then the first word, which starts with `"` exactly for a filename and `{` exactly for inline data |
| XddUnparseProperties.FirstWord | pytopas/ast.py:1246-1257 | the first shown word starts with `"` exactly when the filename is shown and `{` exactly when the inline data is shown |
| XddUnparseProperties.HeadSpaced | pytopas/ast.py:1246-1257 | the text before the flags is `xdd` and the filename, inline-data and range words, each after a space |
| XddUnparseProperties.FileSpaced | pytopas/ast.py:1248-1250 | the filename prints after a space in double quotes, its own double quotes escaped, and only when non-empty |
| XddUnparseProperties.DataSpaced | pytopas/ast.py:1251-1255 | the inline data prints after a space as `{`, `_xy` when set, each number's text and `}`, joined by spaces |
| XddUnparseProperties.RangeSpaced | pytopas/ast.py:1256-1257 | a non-zero range prints as ` range ` and the number's text |
| Decimals.StrStart | pytopas/ast.py:1252-1254 | the text of any decimal starts with `-` or a digit, so no number prints as a word such as `range` |
| AstUnparseSteps.InlineUnparse | pytopas/ast.py:1249-1253 | inline data prints in braces, after `_xy` when that is set |
| AstUnparseSteps.MacroUnparse | pytopas/ast.py:1503-1520 | a macro's text is its name, its argument list when there are arguments, and its body |
| AstUnparseSteps.BodyUnparse | pytopas/ast.py:1510-1519 | a macro body is `{}`, `{ s }` or the statements on separate lines |
| AstUnparseSteps.AppendLines | pytopas/ast.py:1515-1518 | statements are joined by newlines, except before a statement that is itself a newline |
| AstUnparseSteps.RootUnparse | pytopas/ast.py:1611-1616 | the root text is its statements joined by newlines, with no extra newline before a line break |
| UnparseProperties.OnlyTightOperatorsWrap | pytopas/ast.py:874-894 | only the operands of `*`, `/` and `^` are ever put in parentheses |
| UnparseProperties.WrapUnderProduct | pytopas/ast.py:874-894 | under `*` or `/`, an operand is parenthesised exactly when it is an operator other than `*`, `/` or `^`; comparisons included |
| UnparseProperties.WrapUnderPower | pytopas/ast.py:874-894 | under `^`, an operand is parenthesised exactly when it is any other operator |
| UnparseProperties.UnaryNeverWrapped | pytopas/ast.py:874-894 | an operand that is not an operator prints as itself |
| UnparseProperties.SamePrecedenceUnwrapped | pytopas/ast.py:874-894 | two different trees, `a - (b + c)` and `(a - b) + c`, print without parentheses |
| UnparseProperties.BinaryText | pytopas/ast.py:874-894 | two operands print around the spaced operator symbol |
| UnparseProperties.FormulaExample | pytopas/ast.py:874-894 | a nested formula prints with the parentheses it needs and no others |
| UnparseProperties.ProductShape | pytopas/ast.py:874-894 | for any parameter name, a difference under a product prints in parentheses, the plain parameter without |
| UnparseProperties.PowerShape | pytopas/ast.py:874-894 | for any parameter name, a sum under a power prints in parentheses, the plain parameter without |
| UnparseProperties.PlainOperand | pytopas/ast.py:874-894 | a named parameter is never put in parentheses, under any operator |
| UnparseProperties.NameOnlyText | pytopas/ast.py:584-600 | a parameter holding only a name prints as that name |
| UnparseProperties.FullParamOrder | pytopas/ast.py:584-600 | a fully populated parameter prints `@`, the name and value, then each keyword with its value, in the fixed order |
| UnparseProperties.ParamTextNext | pytopas/ast.py:584-600 | a chained parameter prints its own words, a space, then the next parameter's text |
| UnparseProperties.TrailingGap | pytopas/ast.py:740-749 | a trailing empty argument slot adds a trailing `, ` |
| UnparseProperties.GapsExample | pytopas/ast.py:740-749 | empty slots print as empty pieces, strings in JSON quotes, nodes as their text |
| UnparseProperties.MacroBodyLines | pytopas/ast.py:1503-1520 | a body of two or more statements prints them on separate lines inside braces |
| UnparseProperties.RootLineBreak | pytopas/ast.py:1611-1616 | a final line break adds exactly one newline to the root text |
| AstSerialize.Serialize | pytopas/ast.py:276-278 | `serialize` of every node class, a list headed by the class's tag (macro 1522-1528, root 1618-1619 and so on); NodeRoundTrip states that match_unserialize reads it back |
| AstSerialize.ParamDict | pytopas/ast.py:602-616 | the short-key dict of a parameter; FlagKeys, FieldKeys, NextKey and OnlyKnownKeys state its keys and values |
| AstSerialize.XddJson | pytopas/ast.py:1270-1291 | `XddNode.serialize`; XddRoundTrip, XddOptionsRead and XddFlagsSerialized state it |
| AstSerializeSteps.ParameterSerialize | pytopas/ast.py:602-616 | the key loop produces the parameter's dict |
| AstSerializeSteps.InlineStrs | pytopas/ast.py:1277-1278 | inline data serializes to the text of each number, in order |
| AstSerializeSteps.XddSerialize | pytopas/ast.py:1270-1291 | the xdd options and flags are collected step by step; the flag list appears only when non-empty |
| SerializeProperties.FlagKeys | pytopas/ast.py:602-616 | `!` or `@` appears exactly when that flag is set: `true` for a set flag, the node's list for a node held in the flag |
| SerializeProperties.FieldKeys | pytopas/ast.py:602-616 | each short key appears exactly when its attribute is present, holding the attribute's serialized node |
| SerializeProperties.NextKey | pytopas/ast.py:602-616 | `>` appears exactly when there is a next parameter, holding that parameter's serialized form |
| SerializeProperties.OnlyKnownKeys | pytopas/ast.py:602-616 | the dict holds no key other than `>` and the short keys |
| AstUnserialize.TextOf | pytopas/ast.py:329-337 | `TextNode.unserialize` with its three checks and messages; its contract says a success is a text node |
| AstUnserialize.LineBreakOf | pytopas/ast.py:360-364 | `LineBreakNode.unserialize`: a non-empty list headed `lb`; its contract says a success is a line break |
| AstUnserialize.NameOf | pytopas/ast.py:390-397 | `ParameterNameNode.unserialize`: a tag and a string name; its contract says a success is a name node |
| AstUnserialize.ParameterValueOf | pytopas/ast.py:436-444 | `ParameterValueNode.unserialize`: a tag and the value's text, read again; its contract says a success is a value node |
| AstUnserialize.EquationOf | pytopas/ast.py:494-507 | `ParameterEquationNode.unserialize`: a formula, and a reporting part when a third element is present; its contract says a success is an equation |
| AstUnserialize.ParamBody | pytopas/ast.py:624-654 | the dict part of `ParameterNode.unserialize`: the attributes in key order, `!` and `@` only when `true`, then `>` read as the next parameter; ParamRoundTrip and the UnserializeProperties flag rows state it |
| AstUnserialize.PrmOf | pytopas/ast.py:705-713 | `PrmNode.unserialize`: the dict read as a parameter's, then passed through `from_parameter`; its contract says a success is a prm node |
| AstUnserialize.LocalOf | pytopas/ast.py:1117-1124 | `LocalNode.unserialize`: exactly a tag and a parameter; its contract says a success is a local node |
| AstUnserialize.BkgOf | pytopas/ast.py:1439-1446 | `BkgNode.unserialize`: every element after the tag must be a list, and each is read as a parameter; its contract says a success is a bkg node |
| AstUnserialize.AxialConvOf | pytopas/ast.py:1386-1414 | `AxialConvNode.unserialize`: three length parameters and the optional `p`, `s` and `b` options; its contract says a success is an axial_conv node |
| AstUnserialize.FormulaOf | pytopas/ast.py:1077-1091 | `FormulaNode.unserialize`: exactly a tag and one value of the formula kinds; its contract says a success is a formula |
| AstUnserialize.ArgOf | pytopas/ast.py:763-767 | one argument of `unserialize_args`: a list is a formula or text, anything else is kept; its contract says a kept value is never a list, a string or null |
| AstUnserialize.ArgsFrom | pytopas/ast.py:759-768 | `unserialize_args` over the rest of the list; its contract says there is one argument per element |
| AstUnserialize.NumRunsOf | pytopas/ast.py:1199-1210 | `NumRunsNode.unserialize`: an int is kept and a list is a parameter name; its contract says a success is a num_runs node |
| AstUnserialize.XddOf | pytopas/ast.py:1294-1325 | `XddNode.unserialize`: the options dict and the optional flag list; its contract says a success is an xdd node, and XddRoundTrip states what is read |
| AstUnserialize.StatementOf | pytopas/ast.py:1541-1547 | one macro statement: a string is kept as raw text, anything else goes through match_unserialize |
| AstUnserialize.MacroOf | pytopas/ast.py:1530-1553 | `MacroNode.unserialize`: exactly four elements, a string name, an argument list and a statement list; its contract says a success is a macro |
| AstUnserialize.MatchFrom | pytopas/ast.py:1626-1630 | match_unserialize applied to each element after the first (root statements, and operands at 912-915); its contract says there is one node per element |
| AstUnserialize.FirstKind | pytopas/ast.py:291-293 | the class found for a tag is one of the candidates and has that tag; none is found exactly when no candidate has it |
| AstUnserialize.MatchUnserialize | pytopas/ast.py:285-297 | input that is not a non-empty list is refused with the source's message; a node read back carries the tag it was read from |
| AstUnserialize.UnserializeKind | pytopas/ast.py:281-297 | a class's `unserialize` returns a node of that class |
| AstUnserialize.UnaryOf | pytopas/ast.py:816-830 | a sign node read back has the sign its tag names |
| AstUnserialize.NaryOf | pytopas/ast.py:900-915 | an operator node read back has its tag's operator and at least two operands |
| AstUnserialize.FunctionCallOf | pytopas/ast.py:771-776 | a call read back is a call with one argument per list element after the name |
| AstUnserialize.ExistingPrmOf | pytopas/ast.py:1156-1167 | an existing-prm node read back has a formula as its modifier |
| AstUnserialize.RootOf | pytopas/ast.py:1621-1631 | a root read back has one statement per list element after the tag |
| AstUnserialize.ParamOf | pytopas/ast.py:619-626 | a list shorter than two elements is refused with the source's message |
| AstUnserialize.FieldsUpTo | pytopas/ast.py:628-643 | the key loop alone sets no flag to true and no next parameter |
| AstUnserialize.SetSlot | pytopas/ast.py:632-643 | setting an attribute changes that attribute and no other |
| AstUnserialize.FromParameter | pytopas/ast.py:675-687 | a prm keeps the parameter's `!` flag and attributes, drops `@` and drops the next parameter |
| AstUnserialize.AxialOpt | pytopas/ast.py:1402-1413 | an optional axial parameter is present exactly when its key is in the options dict |
| AstUnserialize.DecimalOf | pytopas/ast.py:1308-1317 | an int is read as that number; a string is accepted exactly when it is decimal text; null and a dict are refused; a list is read as the tuple form |
| AstUnserialize.DigitListValue | pytopas/ast.py:1309-1313 | a digit list is accepted exactly when every element is an int from 0 to 9 |
| AstUnserialize.TupleDecimal | pytopas/ast.py:1309-1313 | `Decimal((sign, digits, exponent))` for an inline number given as a list: accepted exactly when it has three elements, a sign of 0 or 1, an int exponent and a list of digits 0 to 9; the sign and exponent are kept |
| AstUnserialize.OptFilename | pytopas/ast.py:1303 | there is no filename exactly when the key is missing or null |
| AstUnserialize.OptInline | pytopas/ast.py:1309-1313 | there is no inline data exactly when the key is missing or does not hold a list |
| AstUnserialize.OptRange | pytopas/ast.py:1314-1318 | there is no range exactly when the key is missing or holds neither a number nor a string |
| AstUnserializeSteps.ParameterUnserialize | pytopas/ast.py:619-654 | the key loop over the short keys, then the flags and the next parameter, reads the parameter as specified |
| AstUnserializeSteps.ReadFields | pytopas/ast.py:628-643 | the loop over the short keys sets each attribute found as a list, and stops at the first one that cannot be read |
| AstUnserializeSteps.ReadField | pytopas/ast.py:628-643 | one turn of that loop reads and sets the attribute under its short key, if it is a list |
| UnserializeProperties.MatchKind | pytopas/ast.py:285-297 | every node `match_unserialize` returns is of one of the requested classes |
| UnserializeProperties.MatchTag | pytopas/ast.py:285-297 | a list with a candidate's tag is read by that class's `unserialize`; a tag of no candidate is an error |
| UnserializeProperties.NoKindMatches | pytopas/ast.py:294-296 | with no matching tag, the error lists the candidates' tags joined by commas |
| UnserializeProperties.OperatorArity | pytopas/ast.py:900-903 | an operator list of fewer than three elements is refused |
| UnserializeProperties.UnaryArity | pytopas/ast.py:816-818 | a sign list not of exactly two elements is refused |
| UnserializeProperties.FormulaArity | pytopas/ast.py:1077-1079 | a formula list not of exactly two elements is refused |
| UnserializeProperties.MacroShape | pytopas/ast.py:1530-1540 | a macro list that is not a tag, a string and two lists is refused |
| UnserializeProperties.OperatorsReadHaveTwoOperands | pytopas/ast.py:900-915 | every operator node read back has at least two operands |
| UnserializeProperties.WrongTag | pytopas/ast.py:281-297 | every class refuses a list headed by another class's tag |
| UnserializeProperties.FlagHoldingANode | pytopas/ast.py:628-652 | a serialized node under `!` is read into the flag attribute itself |
| UnserializeProperties.FlagNeedsTrue | pytopas/ast.py:644-647 | only the value `true` sets a flag; `1` leaves it unset |
| UnserializeProperties.UnknownKeyIgnored | pytopas/ast.py:619-654 | a dict key that is neither `>` nor a short key does not change the parameter read |
| RoundTrip.NodeRoundTrip | pytopas/ast.py:285-297 | `match_unserialize` inverts `serialize` for every well-formed node of a requested class |
| RoundTrip.ParamRoundTrip | pytopas/ast.py:602-654 | reading a parameter's serialized form gives back the parameter, its chain included |
| RoundTrip.EquationRoundTrip | pytopas/ast.py:489-507 | an equation and its optional reporting part round-trip |
| RoundTrip.UnaryRoundTrip | pytopas/ast.py:811-830 | a sign node and its operand round-trip |
| RoundTrip.FunctionCallRoundTrip | pytopas/ast.py:754-776 | a call's name and arguments round-trip |
| RoundTrip.NaryRoundTrip | pytopas/ast.py:896-915 | an operator and its operands round-trip |
| RoundTrip.FormulaRoundTrip | pytopas/ast.py:1073-1091 | a formula round-trips |
| RoundTrip.ExistingPrmRoundTrip | pytopas/ast.py:1152-1167 | an existing-prm node's name, operator and modifier round-trip |
| RoundTrip.NumRunsRoundTrip | pytopas/ast.py:1192-1210 | a run count, as a number or as a parameter name, round-trips |
| RoundTrip.XddRoundTrip | pytopas/ast.py:1270-1324 | xdd options and flags round-trip, inline numbers and range included |
| RoundTrip.XddOptionsRead | pytopas/ast.py:1306-1318 | the filename, inline data and range are read back from the options dict the xdd node wrote |
| RoundTrip.InlineRoundTrip | pytopas/ast.py:1309-1313 | every list of numbers written as decimal texts is read back as the same numbers |
| RoundTrip.TupleRoundTrip | pytopas/ast.py:1309-1313 | a number given in the tuple form of `Decimal.as_tuple()` is read back as that number, negative zero included |
| RoundTrip.DigitsJsonValue | pytopas/ast.py:1309-1313 | a list of digits denotes the number its digit characters denote |
| RoundTrip.DecimalRoundTrip | pytopas/ast.py:1314-1318 | one number written as its decimal text is read back as the same number |
| RoundTrip.AxialConvRoundTrip | pytopas/ast.py:1370-1414 | the three required and three optional axial parameters round-trip |
| RoundTrip.AxialConvRead | pytopas/ast.py:1370-1414 | the axial list, with its option dict only when an option is set, is read back as the same node |
| RoundTrip.BkgRoundTrip | pytopas/ast.py:1435-1446 | a background's parameters round-trip |
| RoundTrip.MacroRoundTrip | pytopas/ast.py:1522-1558 | a macro's name, arguments and statements round-trip |
| RoundTrip.RootRoundTrip | pytopas/ast.py:1618-1631 | a root's statements round-trip |
| RoundTrip.PrmRoundTrip | pytopas/ast.py:701-713 | a prm round-trips through the parameter reader and `from_parameter` |
| ParseActions.Operands | pytopas/ast.py:862-868 | a group's operands are exactly its nodes, the operator symbols dropped |
| ParseActions.NaryAction | pytopas/ast.py:862-868 | the action builds a node of the group's operator over exactly the group's nodes |
| ParseActions.NaryActionInverts | pytopas/ast.py:862-868 | operands interleaved with the symbol are read back as the same operator node |
| ParseActions.UnaryPlusAction | pytopas/ast.py:797-803 | `FormulaUnaryPlus.parse_action`: the operand alone is kept; SignActions states it |
| ParseActions.UnaryMinusAction | pytopas/ast.py:839-845 | `FormulaUnaryMinus.parse_action`: the operand wrapped in a unary-minus node; SignActions and MinusText state it |
| ParseActions.SignActions | pytopas/ast.py:797-845 | unary plus yields its operand itself; unary minus yields a new node printed `- ` before the operand |
| ParseActions.MinusText | pytopas/ast.py:809-810 | a unary-minus node prints its sign, a space, then its operand |
| ParseActions.ArgSlots | pytopas/ast.py:723-727 | a lone empty group means no arguments; otherwise one argument per group: its first item, or an empty slot |
| ParseActions.CallAction | pytopas/ast.py:730-734 | the call keeps its name |
| ParseActions.ArgGroupsKeepTheirPlace | pytopas/ast.py:723-749 | each group keeps its place between the commas of the printed call, an empty group as an empty piece |
| ParseActions.TrailingEmptyGroup | pytopas/ast.py:723-751 | a trailing empty group prints as a trailing `, ` |
| ParseActions.ChainOf | pytopas/ast.py:559-570 | `reduce(mk_linked_params, reversed(tokens), None)`; ChainShape and ChainText state what the chain holds |
| ParseActions.ParamFromTokens | pytopas/ast.py:554-582 | `ParameterNode.parse_action` as a value; ParameterParseAction, NamedParts and SetTokenSlots state what it builds |
| ParseActions.Link | pytopas/ast.py:559-566 | a name or value token becomes a parameter holding it and pointing at the previous one; any other token gives nothing |
| ParseActions.BareChain | pytopas/ast.py:554-570 | the reversed fold over a bare run builds the chain of parameters |
| ParseActions.ChainShape | pytopas/ast.py:554-570 | the chain has one parameter per token, in token order, each holding only its token, with no flags and a last `next` of none |
| ParseActions.ChainText | pytopas/ast.py:554-600 | the chain prints as the tokens' texts separated by spaces |
| ParseActions.ParameterParseAction | pytopas/ast.py:554-578 | the action links a bare run, or sets each named part found on a fresh parameter in the fixed key order |
| ParseActions.NamedParts | pytopas/ast.py:571-578 | each attribute holds exactly the node found under its name; each flag is set exactly when its part was found; there is no next parameter |
| ParseActions.SetTokenSlots | pytopas/ast.py:573-577 | setting one named part changes that attribute alone and sets its flag when it is one |
| ParseActions.PrmParseAction | pytopas/ast.py:690-692 | a prm is the parameter action's result passed through `from_parameter` |
| ParseActions.PrmKeepsHead | pytopas/ast.py:675-692 | a prm read from a bare run keeps only its first token |
| ParseActions.Merged | pytopas/ast.py:1572-1579 | the statement list after the loop; MergedShape and MergedIsRuns state it |
| ParseActions.RootFromTokens | pytopas/ast.py:1567-1581 | `RootNode.parse_action` as a value; RootParseAction and OneBreakDropped state it |
| ParseActions.RootParseAction | pytopas/ast.py:1567-1581 | the statement loop drops the trailing line break and folds each text into a text just before it |
| ParseActions.MergedShape | pytopas/ast.py:1572-1579 | after merging, no two texts are adjacent, and the non-text statements are exactly the input's, in order |
| ParseActions.PushShape | pytopas/ast.py:1574-1579 | one step of the statement loop keeps texts apart and keeps every non-text statement |
| ParseActions.MergedIsRuns | pytopas/ast.py:1572-1579 | the loop's left-to-right merge equals the reference definition that merges each run of texts into one |
| ParseActions.OneBreakDropped | pytopas/ast.py:1569-1570 | exactly one trailing line break is dropped; an earlier one stays |

The source's documentation says operands are parenthesised by precedence among `+ - * / ^`.
The code does more: the comparison classes subclass the addition class and count as precedence 1.
So a comparison under `*`, `/` or `^` is parenthesised too, and the model follows the code
(`WrapUnderProduct`, `WrapUnderPower`). An operand of the same precedence is never parenthesised.
As a result, `a - (b + c)` and `(a - b) + c` print the same text (`SamePrecedenceUnwrapped`).

## Left out

- The pyparsing grammar, `get_parser` and `parse` are not modelled. The parse actions are modelled on the token lists the grammar hands them.
- The parse actions that only copy named results into a node are not modelled: text, line break, name, value, equation, formula, local, existing prm, xdd, axial conv, bkg and macro.
- The num-runs parse action (pytopas/ast.py:1176-1182) converts its token with `int()` and keeps the raw token when that raises `TypeError`. It is left out with the grammar, which decides what that token is.
- base.py, parser.py, tree.py, the transformer and the command line are not part of this model.
- Warnings and logging are left out.
- Float JSON values are not modelled, and neither is `Decimal(float)`: the JSON model has no floats.
- ValueLiterals.ParseValueText: when the re-parse of a parameter value fails, the source falls back to a text node. The model returns an error instead, because the text grammar is not modelled.
- Decimals.ParseStr: the reader accepts the text `str` produces. Whitespace, `NaN`, `Infinity` and underscores are not accepted.
- AstUnserialize.DecimalOf: for an inline number (pytopas/ast.py:1309-1313) or a range (1314-1318) given as a string, Python also accepts surrounding whitespace, underscores between digits, non-ASCII Unicode digits, `NaN` and `Infinity`; the model refuses these as errors. In the tuple form, an exponent of `'F'`, `'n'` or `'N'` (an infinity or a NaN) is refused too. The range is never a list, so the tuple form only applies to inline data.
- A function name, an xdd filename or an existing-prm operator that is not a string is refused as an error. The source would store whatever value it found there.
- Exceptions are modelled as error values carrying the source's messages. Their types are not modelled. For some non-list inputs, Python fails later with a different exception.
- RootParseAction: the source merges texts by changing the previous text node in place. The model builds a new text, so sharing of that node object is not captured.
- ParseActions.NaryAction: a group that holds another operator's symbol (which Python would keep as a string operand) is outside its precondition.
- ParseActions.ParamFromTokens: a keyword found without a node on an attribute key (as opposed to a flag key) is ignored, as if it were absent. The grammar is not modelled, so whether it can produce one is not captured.
- ParseActions.UnaryPlusAction, ParseActions.UnaryMinusAction: they require a two-element group. The source would fail unpacking anything else.
- Json.Quote: only `json.dumps` with its default options is modelled.
- Tokens.ShellWord: the shell reading used for the round trip refuses `$`, `` ` `` and `\` inside double quotes rather than interpreting them; `shlex.quote` never produces those.
- Integers are unbounded, as Python's are.
