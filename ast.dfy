/**
 * The syntax tree and its canonical, fully parenthesised printing (ast/ast.js).
 *
 * Every node class of the source is a constructor of one datatype, as the
 * source's own nodes are untyped objects that may sit in any child slot. The
 * children that the parser fills in are always present; only an if-expression's
 * `alternative` is optional, because its printing tests whether it is there.
 */
module Ast {
  import opened Wrappers
  import opened Strings
  import opened Token

  datatype Node =
    | Program(statements: seq<Node>)
    | LetStatement(token: Token, name: Node, value: Node)
    | ReturnStatement(token: Token, returnValue: Node)
    | ExpressionStatement(token: Token, expression: Node)
      /** `ident` is the source's `value` field of an identifier */
    | Identifier(token: Token, ident: string)
      /** `integer` is the source's `value` field of an integer literal */
    | IntegerLiteral(token: Token, integer: int)
    | PrefixExpression(token: Token, operator: string, right: Node)
    | InfixExpression(token: Token, operator: string, left: Node, right: Node)
      /** `truth` is the source's `value` field of a boolean literal */
    | Boolean(token: Token, truth: bool)
    | IfExpression(token: Token, condition: Node, consequence: Node, alternative: Option<Node>)
    | BlockStatement(token: Token, statements: seq<Node>)
    | FunctionLiteral(token: Token, parameters: seq<Node>, body: Node)
    | CallExpression(token: Token, func: Node, args: seq<Node>)

  /** `tokenLiteral()`: a program answers for its first statement, every other node gives its token's text. */
  function TokenLiteral(n: Node): string
  {
    match n
    case Program(ss) => if |ss| > 0 then TokenLiteral(ss[0]) else ""
    case _ => n.token.literal
  }

  /** `toString()` of every node kind. */
  function ToString(n: Node): string
  {
    match n
    case Program(ss) =>
      Join(Render(ss), "\n")
    case LetStatement(t, name, value) =>
      t.literal + " " + ToString(name) + " = " + ToString(value) + ";"
    case ReturnStatement(t, rv) =>
      t.literal + " " + ToString(rv) + ";"
    case ExpressionStatement(_, e) =>
      ToString(e) + ";"
    case Identifier(_, v) => v
    case IntegerLiteral(t, _) => t.literal
    case PrefixExpression(_, op, right) =>
      "(" + op + ToString(right) + ")"
    case InfixExpression(_, op, left, right) =>
      "(" + ToString(left) + " " + op + " " + ToString(right) + ")"
    case Boolean(t, _) => t.literal
    case IfExpression(_, cond, cons, alt) =>
      var s := "if " + ToString(cond) + " " + ToString(cons);
      if alt.Some? then s + " else " + ToString(alt.value) else s
    case BlockStatement(_, ss) =>
      "{\n" + Join(RenderIndented(ss), "\n") + "\n}"
    case FunctionLiteral(t, ps, body) =>
      t.literal + "(" + Join(Render(ps), ", ") + ") " + ToString(body)
    case CallExpression(_, f, args) =>
      ToString(f) + "(" + Join(Render(args), ", ") + ")"
  }

  /** The printed forms of a list of nodes, in order. */
  function Render(ns: seq<Node>): (r: seq<string>)
    ensures |r| == |ns| && forall i :: 0 <= i < |ns| ==> r[i] == ToString(ns[i])
  {
    if |ns| == 0 then [] else [ToString(ns[0])] + Render(ns[1..])
  }

  /** The printed forms of a block's statements, each behind a tab. */
  function RenderIndented(ns: seq<Node>): (r: seq<string>)
    ensures |r| == |ns| && forall i :: 0 <= i < |ns| ==> r[i] == "\t" + ToString(ns[i])
  {
    if |ns| == 0 then [] else ["\t" + ToString(ns[0])] + RenderIndented(ns[1..])
  }

  // Program

  /** A program's token literal is that of its first statement, whatever follows; "" when empty. */
  lemma ProgramTokenLiteral(ss: seq<Node>, more: seq<Node>)
    ensures TokenLiteral(Program([])) == ""
    ensures |ss| > 0 ==> TokenLiteral(Program(ss + more)) == TokenLiteral(ss[0])
  {
    if |ss| > 0 {
      assert (ss + more)[0] == ss[0];
    }
  }

  /** A program prints its statements one per line: "" when empty, one more line per extra statement. */
  lemma ProgramPrintsLines(ss: seq<Node>, s: Node)
    ensures ToString(Program([])) == ""
    ensures ToString(Program([s])) == ToString(s)
    ensures |ss| > 0 ==> ToString(Program(ss + [s])) == ToString(Program(ss)) + "\n" + ToString(s)
  {
    assert ToString(Program([s])) == Join(Render([s]), "\n");
    if |ss| > 0 {
      assert Render(ss + [s]) == Render(ss) + [ToString(s)];
      JoinAppend(Render(ss), ToString(s), "\n");
    }
  }

  // Statements

  /** Let, return and expression statements end in ';' after their last child's printing. */
  lemma StatementsEndInSemicolon(n: Node)
    requires n.LetStatement? || n.ReturnStatement? || n.ExpressionStatement?
    ensures var s := ToString(n); |s| > 0 && s[|s| - 1] == ';'
    ensures n.LetStatement? ==> ToString(n) == TokenLiteral(n) + " " + ToString(n.name) + " = " + ToString(n.value) + ";"
    ensures n.ReturnStatement? ==> ToString(n) == TokenLiteral(n) + " " + ToString(n.returnValue) + ";"
    ensures n.ExpressionStatement? ==> ToString(n) == ToString(n.expression) + ";"
  {
  }

  /** The printing test: `let myVar = anotherVar;` built by hand prints back as that text. */
  lemma LetStatementExample()
    ensures ToString(Program([LetStatement(Token(LET, "let"),
                                           Identifier(Token(IDENT, "myVar"), "myVar"),
                                           Identifier(Token(IDENT, "anotherVar"), "anotherVar"))]))
            == "let myVar = anotherVar;"
  {
    var let := LetStatement(Token(LET, "let"),
                            Identifier(Token(IDENT, "myVar"), "myVar"),
                            Identifier(Token(IDENT, "anotherVar"), "anotherVar"));
    ProgramPrintsLines([], let);
  }

  // Leaves

  /** Identifiers print their name; integer and boolean literals print their token's text, which is also their token literal. */
  lemma LeavesPrintTheirText(t: Token, name: string, value: int, truth: bool)
    ensures ToString(Identifier(t, name)) == name
    ensures ToString(IntegerLiteral(t, value)) == t.literal == TokenLiteral(IntegerLiteral(t, value))
    ensures ToString(Boolean(t, truth)) == t.literal == TokenLiteral(Boolean(t, truth))
    ensures ToString(IntegerLiteral(t, value)) == ToString(IntegerLiteral(t, value + 1))
  {
  }

  // Operators and full parenthesisation

  /** An expression built only from identifiers, literals and operators, none of whose texts holds a parenthesis. */
  predicate OperatorTree(n: Node)
  {
    match n
    case Identifier(_, v) => ParenFree(v)
    case IntegerLiteral(t, _) => ParenFree(t.literal)
    case Boolean(t, _) => ParenFree(t.literal)
    case PrefixExpression(_, op, right) => ParenFree(op) && OperatorTree(right)
    case InfixExpression(_, op, left, right) => ParenFree(op) && OperatorTree(left) && OperatorTree(right)
    case _ => false
  }

  /** Number of prefix and infix nodes in a tree. */
  function OperatorCount(n: Node): nat
  {
    match n
    case PrefixExpression(_, _, right) => 1 + OperatorCount(right)
    case InfixExpression(_, _, left, right) => 1 + OperatorCount(left) + OperatorCount(right)
    case _ => 0
  }

  /**
   * A prefix expression prints as its operator and operand inside one pair of
   * parentheses; when the operator holds no parentheses, that pair is the only
   * one it adds.
   */
  lemma PrefixAddsOnePair(n: Node)
    requires n.PrefixExpression?
    ensures ToString(n) == "(" + n.operator + ToString(n.right) + ")"
    ensures var s := ToString(n); |s| >= 2 && s[0] == '(' && s[|s| - 1] == ')'
    ensures ParenFree(n.operator) ==>
      Count(ToString(n), '(') == 1 + Count(ToString(n.right), '(') &&
      Count(ToString(n), ')') == 1 + Count(ToString(n.right), ')')
  {
    if ParenFree(n.operator) {
      PrefixCounts(n.operator, ToString(n.right));
    }
  }

  /**
   * An infix expression prints as its operands around its operator inside one
   * pair of parentheses; when the operator holds no parentheses, that pair is
   * the only one it adds.
   */
  lemma InfixAddsOnePair(n: Node)
    requires n.InfixExpression?
    ensures ToString(n) == "(" + ToString(n.left) + " " + n.operator + " " + ToString(n.right) + ")"
    ensures var s := ToString(n); |s| >= 2 && s[0] == '(' && s[|s| - 1] == ')'
    ensures ParenFree(n.operator) ==>
      Count(ToString(n), '(') == 1 + Count(ToString(n.left), '(') + Count(ToString(n.right), '(') &&
      Count(ToString(n), ')') == 1 + Count(ToString(n.left), ')') + Count(ToString(n.right), ')')
  {
    if ParenFree(n.operator) {
      InfixCounts(ToString(n.left), n.operator, ToString(n.right));
    }
  }

  /** Fully parenthesised: an operator tree prints with one balanced pair of parentheses per operator node. */
  lemma {:induction false} OperatorTreeParentheses(n: Node)
    requires OperatorTree(n)
    ensures Count(ToString(n), '(') == OperatorCount(n)
    ensures Count(ToString(n), ')') == OperatorCount(n)
  {
    if n.PrefixExpression? {
      OperatorTreeParentheses(n.right);
      PrefixParentheses(n);
    } else if n.InfixExpression? {
      OperatorTreeParentheses(n.left);
      OperatorTreeParentheses(n.right);
      InfixParentheses(n);
    } else {
      LeafParentheses(n);
    }
  }

  /** The prefix step of OperatorTreeParentheses. */
  lemma PrefixParentheses(n: Node)
    requires n.PrefixExpression? && OperatorTree(n)
    requires Count(ToString(n.right), '(') == OperatorCount(n.right)
    requires Count(ToString(n.right), ')') == OperatorCount(n.right)
    ensures Count(ToString(n), '(') == OperatorCount(n)
    ensures Count(ToString(n), ')') == OperatorCount(n)
  {
    PrefixAddsOnePair(n);
  }

  /** The infix step of OperatorTreeParentheses. */
  lemma InfixParentheses(n: Node)
    requires n.InfixExpression? && OperatorTree(n)
    requires Count(ToString(n.left), '(') == OperatorCount(n.left)
    requires Count(ToString(n.left), ')') == OperatorCount(n.left)
    requires Count(ToString(n.right), '(') == OperatorCount(n.right)
    requires Count(ToString(n.right), ')') == OperatorCount(n.right)
    ensures Count(ToString(n), '(') == OperatorCount(n)
    ensures Count(ToString(n), ')') == OperatorCount(n)
  {
    InfixAddsOnePair(n);
  }

  /** The leaves of an operator tree print no parentheses. */
  lemma LeafParentheses(n: Node)
    requires n.Identifier? || n.IntegerLiteral? || n.Boolean?
    requires OperatorTree(n)
    ensures Count(ToString(n), '(') == OperatorCount(n)
    ensures Count(ToString(n), ')') == OperatorCount(n)
  {
    ParenFreeCount(ToString(n));
  }

  /** Every text a node prints that does not come from a child or a fixed delimiter is free of parentheses. */
  predicate LeavesParenFree(n: Node)
  {
    match n
    case Program(ss) => forall i :: 0 <= i < |ss| ==> LeavesParenFree(ss[i])
    case LetStatement(t, name, value) => ParenFree(t.literal) && LeavesParenFree(name) && LeavesParenFree(value)
    case ReturnStatement(t, rv) => ParenFree(t.literal) && LeavesParenFree(rv)
    case ExpressionStatement(_, e) => LeavesParenFree(e)
    case Identifier(_, v) => ParenFree(v)
    case IntegerLiteral(t, _) => ParenFree(t.literal)
    case PrefixExpression(_, op, right) => ParenFree(op) && LeavesParenFree(right)
    case InfixExpression(_, op, left, right) => ParenFree(op) && LeavesParenFree(left) && LeavesParenFree(right)
    case Boolean(t, _) => ParenFree(t.literal)
    case IfExpression(_, cond, cons, alt) =>
      LeavesParenFree(cond) && LeavesParenFree(cons) && (alt.Some? ==> LeavesParenFree(alt.value))
    case BlockStatement(_, ss) => forall i :: 0 <= i < |ss| ==> LeavesParenFree(ss[i])
    case FunctionLiteral(t, ps, body) =>
      ParenFree(t.literal) && LeavesParenFree(body) && forall i :: 0 <= i < |ps| ==> LeavesParenFree(ps[i])
    case CallExpression(_, f, args) =>
      LeavesParenFree(f) && forall i :: 0 <= i < |args| ==> LeavesParenFree(args[i])
  }

  /** The printed form of any tree whose texts hold no parentheses has balanced parentheses. */
  lemma {:induction false} PrintedParenthesesBalance(n: Node)
    requires LeavesParenFree(n)
    ensures Balanced(ToString(n))
    decreases n, 1
  {
    if n.Program? || n.LetStatement? || n.ReturnStatement? || n.ExpressionStatement? || n.BlockStatement? {
      StatementsBalance(n);
    } else if n.IfExpression? || n.FunctionLiteral? || n.CallExpression? {
      CompoundsBalance(n);
    } else {
      ExpressionsBalance(n);
    }
  }

  /** The statement cases of PrintedParenthesesBalance. */
  lemma {:induction false} StatementsBalance(n: Node)
    requires n.Program? || n.LetStatement? || n.ReturnStatement? || n.ExpressionStatement? || n.BlockStatement?
    requires LeavesParenFree(n)
    ensures Balanced(ToString(n))
    decreases n, 0
  {
    match n
    case Program(ss) =>
      forall i | 0 <= i < |ss| ensures Balanced(Render(ss)[i]) {
        PrintedParenthesesBalance(ss[i]);
      }
      LinesBalanced(Render(ss));
    case LetStatement(t, name, value) =>
      PrintedParenthesesBalance(name);
      PrintedParenthesesBalance(value);
      LetBalanced(t.literal, ToString(name), ToString(value));
    case ReturnStatement(t, rv) =>
      PrintedParenthesesBalance(rv);
      ReturnBalanced(t.literal, ToString(rv));
    case ExpressionStatement(_, e) =>
      PrintedParenthesesBalance(e);
      ParenFreeBalanced(";");
      BalancedConcat(ToString(e), ";");
    case BlockStatement(_, ss) =>
      forall i | 0 <= i < |ss| ensures Balanced(RenderIndented(ss)[i]) {
        PrintedParenthesesBalance(ss[i]);
        ParenFreeBalanced("\t");
        BalancedConcat("\t", ToString(ss[i]));
      }
      LinesBalanced(RenderIndented(ss));
      BlockBalanced(Join(RenderIndented(ss), "\n"));
  }

  /** The leaf and operator cases of PrintedParenthesesBalance. */
  lemma {:induction false} ExpressionsBalance(n: Node)
    requires n.Identifier? || n.IntegerLiteral? || n.Boolean? || n.PrefixExpression? || n.InfixExpression?
    requires LeavesParenFree(n)
    ensures Balanced(ToString(n))
    decreases n, 0
  {
    match n
    case Identifier(_, v) => ParenFreeBalanced(v);
    case IntegerLiteral(t, _) => ParenFreeBalanced(t.literal);
    case Boolean(t, _) => ParenFreeBalanced(t.literal);
    case PrefixExpression(_, _, right) =>
      PrintedParenthesesBalance(right);
      PrefixAddsOnePair(n);
    case InfixExpression(_, _, left, right) =>
      PrintedParenthesesBalance(left);
      PrintedParenthesesBalance(right);
      InfixAddsOnePair(n);
  }

  /** The if, function-literal and call cases of PrintedParenthesesBalance. */
  lemma {:induction false} CompoundsBalance(n: Node)
    requires n.IfExpression? || n.FunctionLiteral? || n.CallExpression?
    requires LeavesParenFree(n)
    ensures Balanced(ToString(n))
    decreases n, 0
  {
    match n
    case IfExpression(_, cond, cons, alt) =>
      PrintedParenthesesBalance(cond);
      PrintedParenthesesBalance(cons);
      if alt.Some? {
        PrintedParenthesesBalance(alt.value);
        IfBalanced(ToString(cond), ToString(cons), Some(ToString(alt.value)));
      } else {
        IfBalanced(ToString(cond), ToString(cons), None);
      }
    case FunctionLiteral(t, ps, body) =>
      forall i | 0 <= i < |ps| ensures Balanced(Render(ps)[i]) {
        PrintedParenthesesBalance(ps[i]);
      }
      PrintedParenthesesBalance(body);
      CommaListBalanced(Render(ps));
      FunctionBalanced(t.literal, Join(Render(ps), ", "), ToString(body));
    case CallExpression(_, f, args) =>
      forall i | 0 <= i < |args| ensures Balanced(Render(args)[i]) {
        PrintedParenthesesBalance(args[i]);
      }
      PrintedParenthesesBalance(f);
      CommaListBalanced(Render(args));
      CallBalanced(ToString(f), Join(Render(args), ", "));
  }

  // If-expressions and blocks

  /** An alternative only appends " else " and its block to the printing without one. */
  lemma IfElseAppends(t: Token, cond: Node, cons: Node, alt: Node)
    ensures ToString(IfExpression(t, cond, cons, None)) == "if " + ToString(cond) + " " + ToString(cons)
    ensures ToString(IfExpression(t, cond, cons, Some(alt)))
            == ToString(IfExpression(t, cond, cons, None)) + " else " + ToString(alt)
  {
  }

  /** A block prints between "{\n" and "\n}", one tab-indented statement per line. */
  lemma BlockLayout(t: Token, s: Node)
    ensures ToString(BlockStatement(t, [])) == "{\n\n}"
    ensures ToString(BlockStatement(t, [s])) == "{\n\t" + ToString(s) + "\n}"
  {
    assert ToString(BlockStatement(t, [s])) == "{\n" + Join(RenderIndented([s]), "\n") + "\n}";
  }

  /** One more statement goes on a new tab-indented line just before the closing "\n}". */
  lemma BlockAppend(t: Token, ss: seq<Node>, s: Node)
    requires |ss| > 0
    ensures var inner := ToString(BlockStatement(t, ss));
      ToString(BlockStatement(t, ss + [s])) == inner[..|inner| - 2] + "\n\t" + ToString(s) + "\n}"
  {
    var j := Join(RenderIndented(ss), "\n");
    var inner := ToString(BlockStatement(t, ss));
    assert inner == "{\n" + j + "\n}";
    assert inner[..|inner| - 2] == "{\n" + j;
    assert RenderIndented(ss + [s]) == RenderIndented(ss) + ["\t" + ToString(s)];
    JoinAppend(RenderIndented(ss), "\t" + ToString(s), "\n");
  }

  // Function literals and calls

  /** A function literal prints its parameters between parentheses, separated by ", ", then its body. */
  lemma FunctionLiteralLayout(t: Token, p: Node, body: Node)
    ensures ToString(FunctionLiteral(t, [], body)) == t.literal + "() " + ToString(body)
    ensures ToString(FunctionLiteral(t, [p], body)) == t.literal + "(" + ToString(p) + ") " + ToString(body)
  {
    assert ToString(FunctionLiteral(t, [], body)) == t.literal + "(" + Join(Render([]), ", ") + ") " + ToString(body);
    assert ToString(FunctionLiteral(t, [p], body)) == t.literal + "(" + Join(Render([p]), ", ") + ") " + ToString(body);
  }

  /** One more parameter adds ", " and its printing at the end of the parameter list. */
  lemma FunctionLiteralAppend(t: Token, ps: seq<Node>, p: Node, body: Node)
    requires |ps| > 0
    ensures ToString(FunctionLiteral(t, ps + [p], body))
            == t.literal + "(" + (Join(Render(ps), ", ") + ", " + ToString(p)) + ") " + ToString(body)
  {
    assert Render(ps + [p]) == Render(ps) + [ToString(p)];
    JoinAppend(Render(ps), ToString(p), ", ");
  }

  /** A call prints its callee, then its arguments between parentheses, separated by ", ". */
  lemma CallLayout(t: Token, f: Node, args: seq<Node>, a: Node)
    ensures ToString(CallExpression(t, f, [])) == ToString(f) + "()"
    ensures ToString(CallExpression(t, f, [a])) == ToString(f) + "(" + ToString(a) + ")"
    ensures |args| > 0 ==>
      ToString(CallExpression(t, f, args + [a]))
      == ToString(f) + "(" + (Join(Render(args), ", ") + ", " + ToString(a)) + ")"
  {
    assert ToString(CallExpression(t, f, [a])) == ToString(f) + "(" + Join(Render([a]), ", ") + ")";
    if |args| > 0 {
      assert Render(args + [a]) == Render(args) + [ToString(a)];
      JoinAppend(Render(args), ToString(a), ", ");
    }
  }

  // Printings that the parser's precedence tests expect

  /** The token a single-character operator is read as; this token table has a kind only for "+". */
  function OperatorToken(op: string): Token
  {
    Token(if op == "+" then PLUS else ILLEGAL, op)
  }

  function Ident(name: string): Node
  {
    Identifier(Token(IDENT, name), name)
  }

  function Int(literal: string, value: int): Node
  {
    IntegerLiteral(Token(INT, literal), value)
  }

  function Prefix(op: string, right: Node): Node
  {
    PrefixExpression(OperatorToken(op), op, right)
  }

  function Infix(op: string, left: Node, right: Node): Node
  {
    InfixExpression(OperatorToken(op), op, left, right)
  }

  /**
   * An expression statement around `e`. The parser would give it the
   * expression's first token; the printer never reads a statement's token, so
   * these examples give it kind IDENT and the expression's token literal.
   */
  function Statement(e: Node): Node
  {
    ExpressionStatement(Token(IDENT, TokenLiteral(e)), e)
  }

  /** The parser's tree for `-a * b;` prints as `((-a) * b);`. */
  lemma PrefixBindsTighterExample()
    ensures ToString(Statement(Infix("*", Prefix("-", Ident("a")), Ident("b")))) == "((-a) * b);"
  {
    var negA := Prefix("-", Ident("a"));
    assert ToString(negA) == "(-a)";
    assert ToString(Infix("*", negA, Ident("b"))) == "((-a) * b)";
  }

  /** The call inside the parser's tree for `a + add(b * c) + d;` prints as `add((b * c))`. */
  lemma CallOfProductExample()
    ensures ToString(CallExpression(Token(LPAREN, "("), Ident("add"), [Infix("*", Ident("b"), Ident("c"))]))
            == "add((b * c))"
  {
    var bc := Infix("*", Ident("b"), Ident("c"));
    assert ToString(bc) == "(b * c)";
    CallLayout(Token(LPAREN, "("), Ident("add"), [], bc);
  }

  /** `3 + 4; -5 * 5;` prints one statement per line. */
  lemma TwoStatementExample()
    ensures ToString(Program([Statement(Infix("+", Int("3", 3), Int("4", 4))),
                              Statement(Infix("*", Prefix("-", Int("5", 5)), Int("5", 5)))]))
            == "(3 + 4);\n((-5) * 5);"
  {
    var s1 := Statement(Infix("+", Int("3", 3), Int("4", 4)));
    var s2 := Statement(Infix("*", Prefix("-", Int("5", 5)), Int("5", 5)));
    SumStatementExample();
    ProductStatementExample();
    ProgramPrintsLines([s1], s2);
    ProgramPrintsLines([], s1);
    assert [s1] + [s2] == [s1, s2];
  }

  lemma SumStatementExample()
    ensures ToString(Statement(Infix("+", Int("3", 3), Int("4", 4)))) == "(3 + 4);"
  {
  }

  lemma ProductStatementExample()
    ensures ToString(Statement(Infix("*", Prefix("-", Int("5", 5)), Int("5", 5)))) == "((-5) * 5);"
  {
    assert ToString(Prefix("-", Int("5", 5))) == "(-5)";
  }
}
