# Monkey interpreter core in Dafny

This project models the parts of an early tree-walking interpreter for the Monkey language (written in JavaScript) that already hold logic, and proves what that logic promises:

- **Token** (`token.dfy`): the token kinds with their tags, the keyword table and `lookupIdent`.
- **Lexer** (`lexer.dfy`): the lexer's character cursor, as a class with the fields `input`, `position`, `readPosition` and `ch`. Its constructor and `ReadChar` update those fields in place. The end-of-input marker is its own `Sentinel` case.
- **Ast** (`ast.dfy`): every syntax-tree node kind as a constructor of one `Node` datatype, with `TokenLiteral` and the canonical, fully parenthesised printer `ToString`. Proved facts:
  - each node kind's layout;
  - programs print one statement per line;
  - an operator tree carries exactly one pair of parentheses per operator;
  - every printing whose leaf texts hold no parentheses is balanced.
- **Object** (`object.dfy`): runtime values with their type tags and `Inspect`. Integer renderings are proved to read back as the integer. A return value inspects as the value it finally wraps.
- **Builtins** (`builtins.dfy`): the `len` builtin and the table that holds it. Proved facts:
  - the arity check comes before the type check;
  - each error message;
  - the cases from the interpreter's tests.
- **Env** (`environment.dfy`): lexical environments as a class with a mutable `store` map and an `outer` link, whose ghost `Repr` footprint keeps the chain finite. `Get` walks the chain and is specified against the flattened bindings. `Set` writes only locally, and its contract states what it leaves unchanged.
- **Evaluator** (`evaluator.dfy`): `Evaluate`, a function that dispatches on the node kind, and `EvalStatements`, a loop proved to give what `Evaluate` gives for the whole program.
- **Strings** (`strings.dfy`) and **Wrappers** (`wrappers.dfy`): JavaScript's `join`, parenthesis counting, decimal rendering of integers with its parser, and `Option`.

## Model

| member | source | states |
|---|---|---|
| Token.Tag | token/token.js:1-21 | the `tokenTypes` table: the string each kind stands for; its properties are stated by TagRoundTrip, TagsDistinct and PunctuationTags |
| Token.TagRoundTrip | token/token.js:1-21 | every kind's tag reads back as that kind |
| Token.TagsDistinct | token/token.js:1-21 | two kinds have the same tag exactly when they are the same kind |
| Token.PunctuationTags | token/token.js:8-17 | a kind's tag is one character exactly when it is punctuation; the tags are `=`, `+`, `,`, `;`, `(`, `)`, `{`, `}` |
| Token.LookupIdent | token/token.js:23-35 | looks the word up in the `keywords` table (the constant `Token.Keywords`, mapping "fn" to FUNCTION and "let" to LET); gives FUNCTION exactly for "fn", LET exactly for "let", and IDENT exactly for words outside the keyword table; it gives nothing else |
| Token.LookupIdentNeverPunctuation | token/token.js:29-35 | a looked-up word is never punctuation, ILLEGAL, EOF or INT |
| Lexer.CharAt | lexer/lexer.js:13-18 | the character at an index inside the input, and the sentinel exactly when the index is at or past the end |
| Lexer.SentinelSticks | lexer/lexer.js:13-14 | once a position reads the sentinel, every later position does too |
| Lexer.Lexer.constructor | lexer/lexer.js:3-10 | after construction, position is 0 and readPosition is 1; ch is the first character, or the sentinel for empty input; the input is stored |
| Lexer.Lexer.ReadChar | lexer/lexer.js:12-22 | position becomes the old readPosition and readPosition grows by one; ch is the character at the new position or the sentinel; the input is unchanged; readPosition == position + 1 afterwards |
| Ast.TokenLiteral | ast/ast.js:8-13 | every node's `tokenLiteral()`: a program answers for its first statement, any other node gives its token's text; stated by ProgramTokenLiteral and LeavesPrintTheirText |
| Ast.ToString | ast/ast.js:15-216 | every node's `toString()`, one case per node class; each case's layout is stated by the lemmas below |
| Strings.Join | ast/ast.js:16-18 | `Array.prototype.join`: "" for no items, the item itself for one, items separated by the separator otherwise; stated by JoinAppend |
| Ast.Render | ast/ast.js:16-17 | one printing per node, in order, each that node's ToString |
| Ast.RenderIndented | ast/ast.js:180 | one line per statement, in order, each a tab followed by the statement's printing |
| Strings.JoinAppend | ast/ast.js:16-18 | joining one more string appends the separator and that string |
| Ast.ProgramTokenLiteral | ast/ast.js:8-13 | an empty program's token literal is ""; otherwise it is the first statement's, whatever follows |
| Ast.ProgramPrintsLines | ast/ast.js:15-19 | an empty program prints ""; one statement prints as itself; each further statement adds a newline and its own printing |
| Ast.StatementsEndInSemicolon | ast/ast.js:34-36 | let, return and expression statements end in ';' and print their token literal and children in the template's order |
| Ast.LetStatementExample | parser/parser.test.js:52-78 | the hand-built program `let myVar = anotherVar;` prints back as that text |
| Ast.LeavesPrintTheirText | ast/ast.js:79-144 | an identifier prints its name; integer and boolean literals print their token text, which is also their token literal, and not their value |
| Ast.PrefixAddsOnePair | ast/ast.js:110-112 | a prefix expression prints as "(", its operator, its operand's printing, ")"; so it starts with '(' and ends with ')', and when the operator holds no parentheses, holds exactly one more '(' and one more ')' than its operand's |
| Ast.InfixAddsOnePair | ast/ast.js:127-129 | an infix expression prints as "(", its left operand's printing, " ", its operator, " ", its right operand's printing, ")"; so it starts with '(' and ends with ')', and, when the operator holds no parentheses, holds exactly one more of each than its two operands together |
| Ast.OperatorTreeParentheses | ast/ast.js:99-145 | a tree of prefix and infix operators over leaves prints exactly one '(' and one ')' per operator node |
| Ast.PrintedParenthesesBalance | ast/ast.js:2-217 | every node whose leaf texts and operators hold no parentheses prints with as many '(' as ')' |
| Ast.IfElseAppends | ast/ast.js:160-166 | without an alternative, an if prints "if <cond> <consequence>"; an alternative only appends " else " and its printing |
| Ast.BlockLayout | ast/ast.js:179-181 | an empty block prints "{\n\n}"; a one-statement block prints "{\n\t<statement>\n}" |
| Ast.BlockAppend | ast/ast.js:179-181 | one more statement goes on a new tab-indented line just before the closing "\n}" |
| Ast.FunctionLiteralLayout | ast/ast.js:195-199 | with no parameters a function prints "<literal>() <body>"; with one parameter, "<literal>(<p>) <body>" |
| Ast.FunctionLiteralAppend | ast/ast.js:195-199 | one more parameter adds ", " and its printing at the end of the parameter list |
| Ast.CallLayout | ast/ast.js:213-216 | a call prints its callee, then "()" or "(<arg>)"; one more argument adds ", " and its printing at the end of the list |
| Ast.PrefixBindsTighterExample | ast/ast.js:110-129 | the tree for `-a * b;` prints as "((-a) * b);" |
| Ast.CallOfProductExample | ast/ast.js:213-216 | a call of `add` on `b * c` prints as "add((b * c))" |
| Ast.TwoStatementExample | ast/ast.js:15-19 | the two statements `3 + 4` and `-5 * 5` print as "(3 + 4);\n((-5) * 5);" |
| Strings.IntToString | object/object.js:16 | the `${value}` rendering of an integer: a '-' exactly when the integer is negative, then a non-empty run of decimal digits with no leading zero |
| Object.Type | object/object.js:2-38 | every value's `type()` tag from the `objectType` table; stated by TypeTagsDistinct and the Inspect lemmas |
| Object.Inspect | object/object.js:16-39 | every value's `inspect()`; stated by InspectInteger, InspectBoolean, InspectNull and InspectReturnValue |
| Strings.IntToStringRoundTrip | object/object.js:16 | the decimal rendering of any integer parses back to that integer |
| Object.TypeTagsDistinct | object/object.js:2-7 | two values have the same type tag exactly when they are the same kind |
| Object.InspectInteger | object/object.js:10-17 | an Integer has type "INTEGER"; its inspection parses back to its value, starts with '-' exactly when it is negative, and is otherwise a non-empty run of decimal digits with no leading zero, so it is the one canonical decimal text of the value |
| Object.InspectBoolean | object/object.js:19-26 | a Boolean has type "BOOLEAN" and inspects as "true" exactly when true, and as "false" exactly when false |
| Object.InspectNull | object/object.js:28-31 | Null has type "NULL" and inspects as "null" |
| Object.InspectReturnValue | object/object.js:33-40 | a return value has type "RETURN_VALUE"; any value inspects as the innermost value under all return-value wrapping |
| Builtins.Len | evaluator/builtins.js:5-18 | len always gives an Integer or an Error, and an Integer it gives is never negative |
| Builtins.LenSucceedsOnOneString | evaluator/builtins.js:11-15 | len gives an Integer exactly when called on one String, and then that String's length |
| Builtins.LenArityFirst | evaluator/builtins.js:6-9 | any call without exactly one argument gives the arity Error with the argument count |
| Builtins.LenTypeError | evaluator/builtins.js:17 | one argument that is not a String gives the Error naming its type tag |
| Builtins.LenErrorsTellApart | evaluator/builtins.js:6-17 | an arity error never reads like a type error, and two equal arity errors come from the same argument count |
| Builtins.LenExamples | evaluator/evaluator.test.js:228-235 | `len("")` gives 0, `len("four")` 4, `len("hello world")` 11; `len(1)` and `len("one", "two")` give the tested messages |
| Builtins.Call | evaluator/builtins.js:4-19 | calls an entry of the `builtins` table (the constant `Builtins.Table`) on evaluated arguments; stated by TableHoldsLen |
| Builtins.TableHoldsLen | evaluator/builtins.js:4-19 | the table holds only "len", and calling its entry is calling len |
| Env.Environment.constructor | object/environment.js:3-6 | a new environment holds the given store, has no outer scope, and sees exactly that store |
| Env.Environment.Get | object/environment.js:8-15 | lookup gives the innermost binding of the name along the outer chain, or None when no scope binds it |
| Env.Environment.Set | object/environment.js:17-20 | binds the name in the local store only and returns the value; the name then looks up to it; other names and the outer chain look up as before |
| Env.LocalShadows | object/environment.js:9-12 | a local binding is found before any outer binding of the name |
| Env.MissDelegates | object/environment.js:13-15 | on a local miss, lookup is the outer scope's lookup, or None with no outer scope |
| Env.NewEnclosedEnvironment | object/environment.js:23-27 | a fresh environment with an empty store whose outer is the given one, and which looks up every name as that one does |
| Evaluator.Evaluate | evaluator/evaluator.js:4-15 | any value evaluation yields is an Integer |
| Evaluator.EvalStatements | evaluator/evaluator.js:17-25 | the loop's result is what Evaluate gives for the program of those statements; undefined when there are none |
| Evaluator.IntegerLiteralEvaluates | evaluator/evaluator.js:11-12 | an integer literal evaluates to the Integer with its value, which inspects as digits that read back as that value |
| Evaluator.ExpressionStatementEvaluates | evaluator/evaluator.js:8-9 | a statement evaluates as its expression does |
| Evaluator.ProgramYieldsLast | evaluator/evaluator.js:5-6 | an empty program gives undefined; a program gives what its last statement gives |
| Evaluator.UnsupportedNodesYieldNull | evaluator/evaluator.js:14 | every other node kind gives the host's null, which differs from an empty program's undefined |
| Evaluator.UndefinedOnlyFromEmptyProgram | evaluator/evaluator.js:17-25 | only a program or statement gives undefined, and only when following last statements reaches an empty program |
| Evaluator.IntegerProgramExamples | evaluator/evaluator.test.js:11-12 | the programs `5` and `10` give Integers that inspect as "5" and "10" |

## Left out

- Lexer `nextToken` has an empty body, so there is nothing to model. The parser (`parser/parser.js`) is a stub: `parseProgram` returns null. Neither is part of this model.
- The REPL (`repl/repl.js`) is console I/O and is not part of this model.
- Tokenisation, precedence parsing and the evaluation of anything beyond integer literals are asserted only by the test files; the sources do not implement them. The printing examples build their trees by hand and check only the printer.
- The token table has no kinds for `*`, `-` or `/`. The hand-built operator nodes give those operators the ILLEGAL kind; the printer never reads it.
- Lexer.Lexer.constructor: the source leaves `position` null and `ch` null until its first `readChar`. Here they start at 0 and the sentinel, and are overwritten by that call before anyone can observe them.
- Ast.ToString: the source's constructors default children to null, and a template string would print them as "null" or "undefined". Here every child except an if-expression's alternative is always present, as after parsing.
- Object.Inspect: JavaScript numbers are doubles; integers here are unbounded, so float formatting of very large values is not modelled.
- Builtins.Len: lengths are counted in characters rather than UTF-16 code units, and `len` of arrays is not modelled (the sources have no array value).
- Lexer.CharAt: indexes the input by character, where the source indexes UTF-16 code units, so text outside the Basic Multilingual Plane is read as one character here and as two in the source.
- Lexer.Lexer.ReadChar: measures and indexes the input by character rather than by UTF-16 code unit, as Lexer.CharAt does.
- The String and Error values, their type tags "STRING" and "ERROR", and their inspections are additions: `len` creates and inspects them, but `object/object.js` does not define them. The `Builtin` wrapper value is not modelled; the table maps names to a `BuiltinFunction` datatype.
- Env.Environment.constructor: the source keeps a reference to the store object it is given, so a caller holding that object could still change it. Here the store is a value.
- Env.Environment.Get: the source tests the stored value's truthiness rather than key presence. The two agree because only objects, which are always truthy, are stored.
- Prototype-inherited keys of JavaScript plain objects (`keywords["toString"]`, store keys such as "constructor") are not modelled. Maps hold only what was put in them.
- Evaluator.EvalStatements: the source cannot stop early and evaluation has no side effects, so "the last statement's result" is the whole behaviour.
