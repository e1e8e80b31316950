/** The evaluator as far as the source implements it (evaluator/evaluator.js). */
module Evaluator {
  import opened Wrappers
  import opened Strings
  import Token
  import Ast
  import opened Object

  /**
   * What `evaluate` hands back: `undefined` (an empty program), the host's
   * `null` (a node kind the evaluator does not handle, not the Null value),
   * or a runtime value.
   */
  datatype Evaluated = Undefined | NullResult | ObjectResult(value: Value)

  /** `evaluate`: dispatch on the node kind; a program yields what its last statement yields. */
  function Evaluate(node: Ast.Node): (r: Evaluated)
    ensures r.ObjectResult? ==> r.value.Integer?
  {
    match node
    case Program(ss) => if |ss| == 0 then Undefined else Evaluate(ss[|ss| - 1])
    case ExpressionStatement(_, e) => Evaluate(e)
    case IntegerLiteral(_, v) => ObjectResult(Integer(v))
    case _ => NullResult
  }

  /** `evalStatements`: evaluates every statement in order, keeping the last result. */
  method EvalStatements(statements: seq<Ast.Node>) returns (result: Evaluated)
    ensures result == Evaluate(Ast.Program(statements))
    ensures |statements| == 0 ==> result == Undefined
  {
    result := Undefined;
    for i := 0 to |statements|
      invariant result == if i == 0 then Undefined else Evaluate(statements[i - 1])
    {
      result := Evaluate(statements[i]);
    }
  }

  /** An integer literal evaluates to the Integer with its value, and that value inspects as its decimal digits. */
  lemma IntegerLiteralEvaluates(t: Token.Token, v: int)
    ensures Evaluate(Ast.IntegerLiteral(t, v)) == ObjectResult(Integer(v))
    ensures ParseInt(Inspect(Evaluate(Ast.IntegerLiteral(t, v)).value)) == Some(v)
  {
    IntToStringRoundTrip(v);
  }

  /** A statement evaluates as its expression does. */
  lemma ExpressionStatementEvaluates(t: Token.Token, e: Ast.Node)
    ensures Evaluate(Ast.ExpressionStatement(t, e)) == Evaluate(e)
  {
  }

  /** A program's result is its last statement's: appending a statement replaces the result. */
  lemma ProgramYieldsLast(ss: seq<Ast.Node>, s: Ast.Node)
    ensures Evaluate(Ast.Program([])) == Undefined
    ensures Evaluate(Ast.Program(ss + [s])) == Evaluate(s)
  {
  }

  /** Every other node kind evaluates to the host's null, which is not what an empty program gives. */
  lemma UnsupportedNodesYieldNull(node: Ast.Node)
    requires !node.Program? && !node.ExpressionStatement? && !node.IntegerLiteral?
    ensures Evaluate(node) == NullResult
    ensures Evaluate(node) != Evaluate(Ast.Program([]))
  {
  }

  /** Only programs and statements can come out undefined, and only when some program in them is empty. */
  lemma {:induction false} UndefinedOnlyFromEmptyProgram(node: Ast.Node)
    requires Evaluate(node) == Undefined
    ensures node.Program? || node.ExpressionStatement?
    ensures EndsInEmptyProgram(node)
  {
    match node
    case Program(ss) =>
      if |ss| > 0 {
        UndefinedOnlyFromEmptyProgram(ss[|ss| - 1]);
      }
    case ExpressionStatement(_, e) =>
      UndefinedOnlyFromEmptyProgram(e);
  }

  /** Following last statements and statement expressions from `node` reaches an empty program. */
  predicate EndsInEmptyProgram(node: Ast.Node)
  {
    match node
    case Program(ss) => |ss| == 0 || EndsInEmptyProgram(ss[|ss| - 1])
    case ExpressionStatement(_, e) => EndsInEmptyProgram(e)
    case _ => false
  }

  /** The evaluator's tests: the programs `5` and `10` give the Integers 5 and 10. */
  lemma IntegerProgramExamples()
    ensures Inspect(Evaluate(Ast.Program([Ast.Statement(Ast.Int("5", 5))])).value) == "5"
    ensures Inspect(Evaluate(Ast.Program([Ast.Statement(Ast.Int("10", 10))])).value) == "10"
  {
    assert IntToString(10) == "10" by {
      assert NatToString(1) == "1";
    }
  }
}
