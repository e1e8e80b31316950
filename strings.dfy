/**
 * String helpers the interpreter takes from its host: `Array.prototype.join`,
 * character counting, and the decimal rendering of an integer that a template
 * string such as `${value}` produces.
 */
module Strings {
  import opened Wrappers

  /** `xs.join(sep)`: the empty list joins to "", otherwise `sep` goes between neighbours. */
  function Join(xs: seq<string>, sep: string): string
  {
    if |xs| == 0 then ""
    else if |xs| == 1 then xs[0]
    else xs[0] + sep + Join(xs[1..], sep)
  }

  /** Joining one more element appends the separator and that element. */
  lemma {:induction false} JoinAppend(xs: seq<string>, x: string, sep: string)
    requires |xs| > 0
    ensures Join(xs + [x], sep) == Join(xs, sep) + sep + x
  {
    if |xs| == 1 {
      assert xs + [x] == [xs[0], x];
      assert [xs[0], x][1..] == [x];
    } else {
      assert (xs + [x])[1..] == xs[1..] + [x];
      JoinAppend(xs[1..], x, sep);
    }
  }

  /** Number of occurrences of `c` in `s`. */
  function Count(s: string, c: char): nat
  {
    multiset(s)[c]
  }

  lemma CountConcat(a: string, b: string, c: char)
    ensures Count(a + b, c) == Count(a, c) + Count(b, c)
  {
    assert multiset(a + b) == multiset(a) + multiset(b);
  }

  /** Holds no parenthesis at all. */
  predicate ParenFree(s: string)
  {
    forall i :: 0 <= i < |s| ==> s[i] != '(' && s[i] != ')'
  }

  lemma ParenFreeCount(s: string)
    requires ParenFree(s)
    ensures Count(s, '(') == 0 && Count(s, ')') == 0
  {
    assert '(' !in s && ')' !in s;
  }

  /** As many opening as closing parentheses. */
  predicate Balanced(s: string)
  {
    Count(s, '(') == Count(s, ')')
  }

  lemma BalancedConcat(a: string, b: string)
    requires Balanced(a) && Balanced(b)
    ensures Balanced(a + b)
  {
    CountConcat(a, b, '(');
    CountConcat(a, b, ')');
  }

  /** Joining balanced pieces with a balanced separator gives a balanced string. */
  lemma {:induction false} BalancedJoin(xs: seq<string>, sep: string)
    requires Balanced(sep)
    requires forall i :: 0 <= i < |xs| ==> Balanced(xs[i])
    ensures Balanced(Join(xs, sep))
  {
    if |xs| > 1 {
      BalancedJoin(xs[1..], sep);
      BalancedConcat(xs[0], sep);
      BalancedConcat(xs[0] + sep, Join(xs[1..], sep));
    }
  }

  // Balance of the printer's templates

  lemma ParenFreeBalanced(s: string)
    requires ParenFree(s)
    ensures Balanced(s)
  {
    ParenFreeCount(s);
  }

  lemma LetBalanced(lit: string, a: string, b: string)
    requires ParenFree(lit) && Balanced(a) && Balanced(b)
    ensures Balanced(lit + " " + a + " = " + b + ";")
  {
    ParenFreeCount(lit);
    assert multiset(lit + " " + a + " = " + b + ";")
        == multiset(lit) + multiset(" ") + multiset(a) + multiset(" = ") + multiset(b) + multiset(";");
  }

  lemma ReturnBalanced(lit: string, a: string)
    requires ParenFree(lit) && Balanced(a)
    ensures Balanced(lit + " " + a + ";")
  {
    ParenFreeCount(lit);
    assert multiset(lit + " " + a + ";") == multiset(lit) + multiset(" ") + multiset(a) + multiset(";");
  }

  lemma IfBalanced(c: string, k: string, alt: Option<string>)
    requires Balanced(c) && Balanced(k) && (alt.Some? ==> Balanced(alt.value))
    ensures var s := "if " + c + " " + k;
            Balanced(if alt.Some? then s + " else " + alt.value else s)
  {
    var s := "if " + c + " " + k;
    assert multiset(s) == multiset("if ") + multiset(c) + multiset(" ") + multiset(k);
    if alt.Some? {
      assert multiset(s + " else " + alt.value) == multiset(s) + multiset(" else ") + multiset(alt.value);
    }
  }

  lemma BlockBalanced(j: string)
    requires Balanced(j)
    ensures Balanced("{\n" + j + "\n}")
  {
    assert multiset("{\n" + j + "\n}") == multiset("{\n") + multiset(j) + multiset("\n}");
  }

  /** A list printed with a newline between items is balanced when its items are. */
  lemma LinesBalanced(xs: seq<string>)
    requires forall i :: 0 <= i < |xs| ==> Balanced(xs[i])
    ensures Balanced(Join(xs, "\n"))
  {
    ParenFreeBalanced("\n");
    BalancedJoin(xs, "\n");
  }

  /** The prefix template adds exactly one pair of parentheses around its operand. */
  lemma PrefixCounts(op: string, r: string)
    requires ParenFree(op)
    ensures var s := "(" + op + r + ")"; |s| >= 2 && s[0] == '(' && s[|s| - 1] == ')'
    ensures Count("(" + op + r + ")", '(') == 1 + Count(r, '(')
    ensures Count("(" + op + r + ")", ')') == 1 + Count(r, ')')
  {
    ParenFreeCount(op);
    assert multiset("(" + op + r + ")") == multiset("(") + multiset(op) + multiset(r) + multiset(")");
  }

  /** The infix template adds exactly one pair of parentheses around its operands. */
  lemma InfixCounts(l: string, op: string, r: string)
    requires ParenFree(op)
    ensures var s := "(" + l + " " + op + " " + r + ")"; |s| >= 2 && s[0] == '(' && s[|s| - 1] == ')'
    ensures Count("(" + l + " " + op + " " + r + ")", '(') == 1 + Count(l, '(') + Count(r, '(')
    ensures Count("(" + l + " " + op + " " + r + ")", ')') == 1 + Count(l, ')') + Count(r, ')')
  {
    ParenFreeCount(op);
    assert multiset("(" + l + " " + op + " " + r + ")")
        == multiset("(") + multiset(l) + multiset(" ") + multiset(op) + multiset(" ") + multiset(r) + multiset(")");
  }

  /** A list printed with ", " between items is balanced when its items are. */
  lemma CommaListBalanced(xs: seq<string>)
    requires forall i :: 0 <= i < |xs| ==> Balanced(xs[i])
    ensures Balanced(Join(xs, ", "))
  {
    ParenFreeBalanced(", ");
    BalancedJoin(xs, ", ");
  }

  lemma FunctionBalanced(lit: string, j: string, b: string)
    requires ParenFree(lit) && Balanced(j) && Balanced(b)
    ensures Balanced(lit + "(" + j + ") " + b)
  {
    ParenFreeCount(lit);
    assert multiset(lit + "(" + j + ") " + b)
        == multiset(lit) + multiset("(") + multiset(j) + multiset(") ") + multiset(b);
  }

  lemma CallBalanced(g: string, j: string)
    requires Balanced(g) && Balanced(j)
    ensures Balanced(g + "(" + j + ")")
  {
    assert multiset(g + "(" + j + ")") == multiset(g) + multiset("(") + multiset(j) + multiset(")");
  }

  // Decimal rendering of integers

  predicate IsDigit(c: char)
  {
    '0' <= c <= '9'
  }

  predicate AllDigits(s: string)
  {
    forall i :: 0 <= i < |s| ==> IsDigit(s[i])
  }

  function DigitChar(d: nat): (c: char)
    requires d < 10
    ensures IsDigit(c)
  {
    (48 + d) as char
  }

  function DigitValue(c: char): (d: nat)
    requires IsDigit(c)
    ensures d < 10 && DigitChar(d) == c
  {
    c as int - 48
  }

  /** Decimal digits of `n`, most significant first, no leading zeros. */
  function NatToString(n: nat): (s: string)
    ensures |s| > 0 && AllDigits(s)
    ensures |s| > 1 ==> s[0] != '0'
  {
    if n < 10 then [DigitChar(n)] else NatToString(n / 10) + [DigitChar(n % 10)]
  }

  /** The value of a string of decimal digits. */
  function DigitsValue(s: string): nat
    requires AllDigits(s)
  {
    if |s| == 0 then 0 else DigitsValue(s[..|s| - 1]) * 10 + DigitValue(s[|s| - 1])
  }

  lemma {:induction false} DigitsValueOfNatToString(n: nat)
    ensures DigitsValue(NatToString(n)) == n
  {
    if n >= 10 {
      var s := NatToString(n);
      assert s[..|s| - 1] == NatToString(n / 10);
      DigitsValueOfNatToString(n / 10);
    }
  }

  /** What `${i}` renders for an integer `i`: an optional minus sign, then the digits of |i|. */
  function IntToString(i: int): (s: string)
    ensures |s| > 0
    ensures i >= 0 <==> s[0] != '-'
    ensures var d := if i < 0 then s[1..] else s; |d| > 0 && AllDigits(d) && (|d| > 1 ==> d[0] != '0')
  {
    if i < 0 then "-" + NatToString(-i) else NatToString(i)
  }

  /** Reads back a decimal rendering; None when `s` is not one. */
  function ParseInt(s: string): Option<int>
  {
    if |s| > 1 && s[0] == '-' && AllDigits(s[1..]) then Some(0 - DigitsValue(s[1..]) as int)
    else if |s| > 0 && AllDigits(s) then Some(DigitsValue(s))
    else None
  }

  /** The decimal rendering loses nothing: parsing it gives back the integer. */
  lemma IntToStringRoundTrip(i: int)
    ensures ParseInt(IntToString(i)) == Some(i)
  {
    var s := IntToString(i);
    if i < 0 {
      assert s[1..] == NatToString(-i);
      DigitsValueOfNatToString(-i);
    } else {
      DigitsValueOfNatToString(i);
    }
  }

  /** Distinct integers render differently. */
  lemma IntToStringInjective(i: int, j: int)
    ensures IntToString(i) == IntToString(j) ==> i == j
  {
    IntToStringRoundTrip(i);
    IntToStringRoundTrip(j);
  }
}
