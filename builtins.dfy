/** The `len` entry of the builtin-function table (evaluator/builtins.js). */
module Builtins {
  import opened Wrappers
  import opened Strings
  import opened Object

  const ARITY_PREFIX := "wrong number of arguments. got="
  const ARITY_SUFFIX := ", want=1"
  const TYPE_PREFIX := "argument to `len` not supported, got "

  /** The message for a call with `n` arguments. */
  function ArityMessage(n: nat): string
  {
    ARITY_PREFIX + IntToString(n) + ARITY_SUFFIX
  }

  /** `len`: one String argument gives its length; any other call gives an Error value. */
  function Len(args: seq<Value>): (r: Value)
    ensures r.Integer? || r.Error?
    ensures r.Integer? ==> r.integer >= 0
  {
    if |args| != 1 then Error(ArityMessage(|args|))
    else if args[0].String? then Integer(|args[0].text|)
    else Error(TYPE_PREFIX + Type(args[0]))
  }

  /** `len` succeeds exactly on one String, and then counts its characters. */
  lemma LenSucceedsOnOneString(args: seq<Value>)
    ensures Len(args).Integer? <==> |args| == 1 && args[0].String?
    ensures Len(args).Integer? ==> Len(args).integer == |args[0].text|
  {
  }

  /** The arity check comes first: a wrong count is reported whatever the arguments are. */
  lemma LenArityFirst(args: seq<Value>)
    requires |args| != 1
    ensures Len(args) == Error(ArityMessage(|args|))
  {
  }

  /** A single argument that is not a String is reported with its type tag. */
  lemma LenTypeError(arg: Value)
    requires !arg.String?
    ensures Len([arg]) == Error(TYPE_PREFIX + Type(arg))
  {
  }

  /** The two error messages never coincide, and the arity message tells how many arguments came. */
  lemma {:induction false} LenErrorsTellApart(args: seq<Value>, other: seq<Value>)
    requires Len(args).Error? && Len(other).Error?
    ensures Len(args).message == Len(other).message ==> (|args| == 1 <==> |other| == 1)
    ensures Len(args).message == Len(other).message && |args| != 1 ==> |args| == |other|
  {
    var m, k := Len(args).message, Len(other).message;
    if m == k && |args| != 1 && |other| != 1 {
      ArityMessageInjective(|args|, |other|);
    }
    if |args| != 1 && |other| == 1 {
      assert m[0] == 'w' && k[0] == 'a';
    }
    if |args| == 1 && |other| != 1 {
      assert m[0] == 'a' && k[0] == 'w';
    }
  }

  lemma ArityMessageInjective(n: nat, k: nat)
    requires ArityMessage(n) == ArityMessage(k)
    ensures n == k
  {
    var p := |ARITY_PREFIX|;
    var a, b := IntToString(n), IntToString(k);
    var m := ArityMessage(n);
    assert |a| == |b| by {
      assert |m| == p + |a| + |ARITY_SUFFIX| == p + |b| + |ARITY_SUFFIX|;
    }
    assert a == m[p..p + |a|];
    assert b == m[p..p + |b|];
    IntToStringInjective(n, k);
  }

  /** The cases from the interpreter's tests: "", "four", "hello world", `len(1)` and `len("one", "two")`. */
  lemma LenExamples()
    ensures Len([String("")]) == Integer(0)
    ensures Len([String("four")]) == Integer(4)
    ensures Len([String("hello world")]) == Integer(11)
    ensures Len([Integer(1)]) == Error("argument to `len` not supported, got INTEGER")
    ensures Len([String("one"), String("two")]) == Error("wrong number of arguments. got=2, want=1")
  {
    assert IntToString(2) == "2";
  }

  /** The builtin functions a name can stand for; this model has only `len`. */
  datatype BuiltinFunction = LenFunction

  /** The `builtins` table. */
  const Table: map<string, BuiltinFunction> := map["len" := LenFunction]

  /** Calls a builtin on already evaluated arguments. */
  function Call(f: BuiltinFunction, args: seq<Value>): Value
  {
    match f
    case LenFunction => Len(args)
  }

  /** The table holds `len` and nothing else, and calling the entry is calling `len`. */
  lemma TableHoldsLen(args: seq<Value>)
    ensures Table.Keys == {"len"}
    ensures Call(Table["len"], args) == Len(args)
  {
  }
}
