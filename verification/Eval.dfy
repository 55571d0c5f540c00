/** The prefix-expression evaluator of eval.c. */
module PrefixEvaluator {

  /** The character at i of a string that ends with a zero. */
  function CharAt(a: string, i: nat): char {
    if i < |a| then a[i] else '\0'
  }

  predicate IsDigit(c: char) {
    '0' <= c <= '9'
  }

  function DigitValue(c: char): int {
    c as int - '0' as int
  }

  function SkipSpaces(a: string, i: nat): (r: nat)
    ensures i <= r && (i <= |a| ==> r <= |a|) && CharAt(a, r) != ' '
    decreases |a| - i
  {
    if CharAt(a, i) == ' ' then SkipSpaces(a, i + 1) else i
  }

  /** Reads digits from i on into the accumulator x. */
  function ReadNumber(a: string, i: nat, x: int): (r: (int, nat))
    ensures i <= r.1 && (i <= |a| ==> r.1 <= |a|)
    decreases |a| - i
  {
    if IsDigit(CharAt(a, i)) then ReadNumber(a, i + 1, 10 * x + DigitValue(a[i])) else (x, i)
  }

  datatype Operator = Plus | Times

  function Apply(op: Operator, v: int, w: int): int {
    match op
    case Plus => v + w
    case Times => v * w
  }

  lemma OperandsCommute(op: Operator, v: int, w: int)
    ensures Apply(op, v, w) == Apply(op, w, v)
  {
  }

  predicate IsOperator(c: char) {
    c == '+' || c == '*'
  }

  function OperatorOf(c: char): Operator {
    if c == '+' then Plus else Times
  }

  /** The value returned by a call that starts at i, and the index it leaves behind. */
  function ValueAt(a: string, i: nat): (r: (int, nat))
    requires i <= |a|
    ensures i <= r.1 <= |a|
    decreases |a| - i
  {
    var j := SkipSpaces(a, i);
    if IsOperator(CharAt(a, j)) then
      var left := ValueAt(a, j + 1);
      var right := ValueAt(a, left.1);
      (Apply(OperatorOf(a[j]), left.0, right.0), right.1)
    else
      ReadNumber(a, j, 0)
  }

  /** The global string and index, and the recursive function that advances the index. */
  class Evaluator {
    const a: string
    var i: nat

    constructor (a: string)
      ensures this.a == a && i == 0
    {
      this.a := a;
      i := 0;
    }

    /**
     * Either operand call may run first (section 6.5.2.2 of ISO/IEC 9899:2011 leaves it open), and
     * `leftFirst` decides for the operator at each index; the result does not depend on it.
     */
    method Eval(leftFirst: nat -> bool) returns (value: int)
      requires i <= |a|
      modifies this
      ensures (value, i) == ValueAt(a, old(i))
      decreases |a| - i, 0
    {
      var x := 0;
      while CharAt(a, i) == ' '
        invariant i <= |a| && SkipSpaces(a, i) == SkipSpaces(a, old(i))
        decreases |a| - i
      {
        i := i + 1;
      }
      if CharAt(a, i) == '+' {
        i := i + 1;
        value := Operands(Plus, leftFirst);
        return;
      }
      if CharAt(a, i) == '*' {
        i := i + 1;
        value := Operands(Times, leftFirst);
        return;
      }
      while IsDigit(CharAt(a, i))
        invariant i <= |a| && ReadNumber(a, i, x) == ReadNumber(a, SkipSpaces(a, old(i)), 0)
        decreases |a| - i
      {
        x := 10 * x + DigitValue(a[i]);
        i := i + 1;
      }
      value := x;
    }

    /** The two calls of an operator, in the order chosen for it, and the operation. */
    method Operands(op: Operator, leftFirst: nat -> bool) returns (value: int)
      requires i <= |a|
      modifies this
      ensures var left := ValueAt(a, old(i));
              var right := ValueAt(a, left.1);
              value == Apply(op, left.0, right.0) && i == right.1
      decreases |a| - i, 1
    {
      var left, right;
      if leftFirst(i) {
        left := Eval(leftFirst);
        right := Eval(leftFirst);
      } else {
        right := Eval(leftFirst);
        left := Eval(leftFirst);
      }
      OperandsCommute(op, left, right);
      value := if op.Plus? then left + right else left * right;
    }
  }

  // ---------------------------------------------------------------------------------------------
  // Expressions in prefix form.

  /** A tree with its layout: the spaces before each token and the digits of each number. */
  datatype Expr =
    | Num(spaces: nat, digits: string)
    | Op(spaces: nat, op: Operator, left: Expr, right: Expr)

  function Spaces(n: nat): (r: string)
    ensures |r| == n
  {
    if n == 0 then "" else " " + Spaces(n - 1)
  }

  function Symbol(op: Operator): char {
    if op.Plus? then '+' else '*'
  }

  function Text(e: Expr): string {
    match e
    case Num(n, digits) => Spaces(n) + digits
    case Op(n, op, left, right) => Spaces(n) + [Symbol(op)] + Text(left) + Text(right)
  }

  function Decimal(digits: string): int {
    if digits == [] then 0 else 10 * Decimal(digits[..|digits| - 1]) + DigitValue(digits[|digits| - 1])
  }

  function Meaning(e: Expr): int {
    match e
    case Num(_, digits) => Decimal(digits)
    case Op(_, Plus, left, right) => Meaning(left) + Meaning(right)
    case Op(_, Times, left, right) => Meaning(left) * Meaning(right)
  }

  /** Numbers are made of digits, and a number right after an operand has a space before it. */
  predicate Separated(e: Expr) {
    match e
    case Num(_, digits) => digits != [] && forall c | c in digits :: IsDigit(c)
    case Op(_, _, left, right) => Separated(left) && Separated(right) && (right.Num? ==> right.spaces > 0)
  }

  /** s stands in a at i. */
  predicate Stands(a: string, i: nat, s: string) {
    i + |s| <= |a| && forall k | 0 <= k < |s| :: a[i + k] == s[k]
  }

  lemma StandsSplit(a: string, i: nat, s: string, t: string)
    ensures Stands(a, i, s + t) <==> Stands(a, i, s) && Stands(a, i + |s|, t)
  {
    if Stands(a, i, s + t) {
      forall k | 0 <= k < |s| ensures a[i + k] == s[k] {
        assert (s + t)[k] == s[k];
      }
      forall k | 0 <= k < |t| ensures a[i + |s| + k] == t[k] {
        assert (s + t)[|s| + k] == t[k];
      }
    }
  }

  lemma {:induction false} SkipsTo(a: string, i: nat, n: nat)
    requires Stands(a, i, Spaces(n)) && CharAt(a, i + n) != ' '
    ensures SkipSpaces(a, i) == i + n
    decreases n
  {
    if n > 0 {
      StandsSplit(a, i, " ", Spaces(n - 1));
      assert " "[0] == ' ';
      SkipsTo(a, i + 1, n - 1);
    }
  }

  /** Reading on after the first k digits, with their value in the accumulator, gives the whole. */
  lemma {:induction false} ReadsDigits(a: string, i: nat, digits: string, k: nat)
    requires Stands(a, i, digits) && k <= |digits|
    requires (forall c | c in digits :: IsDigit(c)) && !IsDigit(CharAt(a, i + |digits|))
    ensures ReadNumber(a, i + k, Decimal(digits[..k])) == (Decimal(digits), i + |digits|)
    decreases |digits| - k
  {
    if k == |digits| {
      assert digits[..k] == digits;
    } else {
      assert digits[k] in digits;
      assert digits[..k + 1][..k] == digits[..k];
      ReadsDigits(a, i, digits, k + 1);
    }
  }

  /** The first character of an expression that is not a separated number is no digit. */
  lemma NoDigitFirst(a: string, i: nat, e: Expr)
    requires Stands(a, i, Text(e)) && Separated(e) && (e.Num? ==> e.spaces > 0)
    ensures !IsDigit(CharAt(a, i))
  {
    assert |Text(e)| > 0 && a[i + 0] == Text(e)[0];
  }

  lemma EvaluatesNumber(a: string, i: nat, n: nat, digits: string)
    requires Stands(a, i, Spaces(n) + digits) && digits != [] && (forall c | c in digits :: IsDigit(c))
    requires !IsDigit(CharAt(a, i + n + |digits|))
    ensures ValueAt(a, i) == (Decimal(digits), i + n + |digits|)
  {
    StandsSplit(a, i, Spaces(n), digits);
    assert a[i + n + 0] == digits[0];
    assert digits[0] in digits;
    SkipsTo(a, i, n);
    assert digits[..0] == [];
    ReadsDigits(a, i + n, digits, 0);
  }

  /** Where the parts of an operator expression stand. */
  lemma OperatorParts(a: string, i: nat, e: Expr)
    requires e.Op? && Stands(a, i, Text(e))
    ensures var j := i + e.spaces;
            && j < |a| && SkipSpaces(a, i) == j && a[j] == Symbol(e.op)
            && Stands(a, j + 1, Text(e.left)) && Stands(a, j + 1 + |Text(e.left)|, Text(e.right))
            && j + 1 + |Text(e.left)| + |Text(e.right)| == i + |Text(e)|
  {
    var head := Spaces(e.spaces) + [Symbol(e.op)];
    assert Text(e) == (head + Text(e.left)) + Text(e.right);
    StandsSplit(a, i, head + Text(e.left), Text(e.right));
    StandsSplit(a, i, head, Text(e.left));
    StandsSplit(a, i, Spaces(e.spaces), [Symbol(e.op)]);
    var j := i + e.spaces;
    assert a[j + 0] == [Symbol(e.op)][0];
    SkipsTo(a, i, e.spaces);
  }

  /** A call at an operator, in terms of its two operand calls. */
  lemma OperatorValue(a: string, i: nat, l: nat, op: Operator, left: (int, nat), right: (int, nat))
    requires i < l <= |a| && SkipSpaces(a, i) == l - 1 && a[l - 1] == Symbol(op)
    requires ValueAt(a, l) == left && left.1 <= |a| && ValueAt(a, left.1) == right
    ensures ValueAt(a, i) == (Apply(op, left.0, right.0), right.1)
  {
    var j := l - 1;
    assert CharAt(a, j) == Symbol(op) && IsOperator(a[j]) && OperatorOf(a[j]) == op;
  }

  /**
   * An expression written in prefix form with separated numbers, followed by no digit, is evaluated
   * to its value, and the index stops just after it.
   */
  lemma {:induction false} EvaluatesPrefixForm(a: string, i: nat, e: Expr)
    requires Stands(a, i, Text(e)) && Separated(e) && !IsDigit(CharAt(a, i + |Text(e)|))
    ensures ValueAt(a, i) == (Meaning(e), i + |Text(e)|)
    decreases e, 1
  {
    if e.Num? {
      EvaluatesNumber(a, i, e.spaces, e.digits);
    } else {
      OperatorParts(a, i, e);
      var l := i + e.spaces + 1;
      var r := l + |Text(e.left)|;
      EvaluatesOperands(a, l, e);
      MeaningOfOperator(e);
      OperatorValue(a, i, l, e.op, (Meaning(e.left), r), (Meaning(e.right), r + |Text(e.right)|));
    }
  }

  lemma {:induction false} EvaluatesOperands(a: string, l: nat, e: Expr)
    requires e.Op? && Separated(e)
    requires Stands(a, l, Text(e.left)) && Stands(a, l + |Text(e.left)|, Text(e.right))
    requires !IsDigit(CharAt(a, l + |Text(e.left)| + |Text(e.right)|))
    ensures ValueAt(a, l) == (Meaning(e.left), l + |Text(e.left)|)
    ensures ValueAt(a, l + |Text(e.left)|) == (Meaning(e.right), l + |Text(e.left)| + |Text(e.right)|)
    decreases e, 0
  {
    NoDigitFirst(a, l + |Text(e.left)|, e.right);
    EvaluatesPrefixForm(a, l, e.left);
    EvaluatesPrefixForm(a, l + |Text(e.left)|, e.right);
  }

  lemma MeaningOfOperator(e: Expr)
    requires e.Op?
    ensures Meaning(e) == Apply(e.op, Meaning(e.left), Meaning(e.right))
  {
  }

  // ---------------------------------------------------------------------------------------------
  // Exactly which layouts are read as meant.

  /** Numbers are non-empty strings of digits, wherever they stand. */
  predicate WrittenInDigits(e: Expr) {
    match e
    case Num(_, digits) => digits != [] && forall c | c in digits :: IsDigit(c)
    case Op(_, _, left, right) => WrittenInDigits(left) && WrittenInDigits(right)
  }

  /** The call at i returns the value of e and stops just after it, and so do the calls it makes. */
  ghost predicate Reads(a: string, i: nat, e: Expr)
    decreases e
  {
    && i <= |a|
    && ValueAt(a, i) == (Meaning(e), i + |Text(e)|)
    && (e.Op? ==>
          && Reads(a, i + e.spaces + 1, e.left)
          && Reads(a, i + e.spaces + 1 + |Text(e.left)|, e.right))
  }

  lemma {:induction false} StopsAfterDigits(a: string, i: nat, x: int)
    requires i <= |a|
    ensures !IsDigit(CharAt(a, ReadNumber(a, i, x).1))
    decreases |a| - i
  {
    if IsDigit(CharAt(a, i)) {
      StopsAfterDigits(a, i + 1, 10 * x + DigitValue(a[i]));
    }
  }

  /** No call stops in front of a digit, on any string. */
  lemma {:induction false} StopsBeforeNoDigit(a: string, i: nat)
    requires i <= |a|
    ensures !IsDigit(CharAt(a, ValueAt(a, i).1))
    decreases |a| - i
  {
    var j := SkipSpaces(a, i);
    if IsOperator(CharAt(a, j)) {
      StopsBeforeNoDigit(a, ValueAt(a, j + 1).1);
    } else {
      StopsAfterDigits(a, j, 0);
    }
  }

  lemma {:induction false} SeparatedReads(a: string, i: nat, e: Expr)
    requires Stands(a, i, Text(e)) && Separated(e) && !IsDigit(CharAt(a, i + |Text(e)|))
    ensures Reads(a, i, e)
    decreases e, 1
  {
    EvaluatesPrefixForm(a, i, e);
    if e.Op? {
      OperatorParts(a, i, e);
      SeparatedOperandsRead(a, i + e.spaces + 1, e);
    }
  }

  lemma {:induction false} SeparatedOperandsRead(a: string, l: nat, e: Expr)
    requires e.Op? && Separated(e)
    requires Stands(a, l, Text(e.left)) && Stands(a, l + |Text(e.left)|, Text(e.right))
    requires !IsDigit(CharAt(a, l + |Text(e.left)| + |Text(e.right)|))
    ensures Reads(a, l, e.left) && Reads(a, l + |Text(e.left)|, e.right)
    decreases e, 0
  {
    NoDigitFirst(a, l + |Text(e.left)|, e.right);
    SeparatedReads(a, l, e.left);
    SeparatedReads(a, l + |Text(e.left)|, e.right);
  }

  lemma DigitFirst(a: string, i: nat, e: Expr)
    requires Stands(a, i, Text(e)) && WrittenInDigits(e)
    ensures e.Num? && e.spaces == 0 ==> IsDigit(CharAt(a, i))
  {
    if e.Num? && e.spaces == 0 {
      assert a[i + 0] == Text(e)[0] == e.digits[0];
    }
  }

  lemma {:induction false} ReadsOnlySeparated(a: string, i: nat, e: Expr)
    requires Stands(a, i, Text(e)) && WrittenInDigits(e) && Reads(a, i, e)
    ensures Separated(e)
    decreases e
  {
    if e.Op? {
      OperatorParts(a, i, e);
      var l := i + e.spaces + 1;
      var r := l + |Text(e.left)|;
      ReadsOnlySeparated(a, l, e.left);
      ReadsOnlySeparated(a, r, e.right);
      DigitFirst(a, r, e.right);
      StopsBeforeNoDigit(a, l);
    }
  }

  /**
   * For a tree whose numbers are digits, wherever its text stands: every call it takes reads its own
   * part of the tree if and only if the numbers are separated and no digit follows the text.
   */
  lemma ReadsExactlySeparated(a: string, i: nat, e: Expr)
    requires Stands(a, i, Text(e)) && WrittenInDigits(e)
    ensures Reads(a, i, e) <==> Separated(e) && !IsDigit(CharAt(a, i + |Text(e)|))
  {
    if Reads(a, i, e) {
      ReadsOnlySeparated(a, i, e);
      StopsBeforeNoDigit(a, i);
    } else if Separated(e) && !IsDigit(CharAt(a, i + |Text(e)|)) {
      SeparatedReads(a, i, e);
    }
  }

  /** Without the space the second number is read as part of the first. */
  lemma UnseparatedNumbersRunTogether()
    ensures var e := Op(0, Plus, Num(0, "1"), Num(0, "2")); Text(e) == "+12" && Meaning(e) == 3
    ensures ValueAt("+12", 0).0 == 12
  {
    var e := Op(0, Plus, Num(0, "1"), Num(0, "2"));
    assert Spaces(0) == "";
    assert Decimal("1") == 1 && Decimal("2") == 2;
    ReadsTwoDigits();
    OperatorValue("+12", 0, 1, Plus, (12, 3), (0, 3));
  }

  lemma ReadsTwoDigits()
    ensures ValueAt("+12", 1) == (12, 3) && ValueAt("+12", 3) == (0, 3)
  {
    assert ReadNumber("+12", 3, 12) == (12, 3);
    assert ReadNumber("+12", 2, 1) == (12, 3);
  }

  /** One value alone does not show how a text was read: here 12 * 0 comes out for 0 * 12. */
  lemma ValueAloneIsNotEnough()
    ensures var e := Op(0, Times, Num(0, "0"), Num(0, "12"));
            && Text(e) == "*012" && WrittenInDigits(e) && !Separated(e)
            && ValueAt("*012", 0) == (Meaning(e), |Text(e)|)
  {
    var e := Op(0, Times, Num(0, "0"), Num(0, "12"));
    ZeroTimesTwelve(e);
    ReadsThreeDigits();
    OperatorValue("*012", 0, 1, Times, (12, 4), (0, 4));
  }

  lemma ZeroTimesTwelve(e: Expr)
    requires e == Op(0, Times, Num(0, "0"), Num(0, "12"))
    ensures Text(e) == "*012" && Meaning(e) == 0 && WrittenInDigits(e) && !Separated(e)
  {
    assert Spaces(0) == "";
    assert Text(e.left) == "0" && Text(e.right) == "12";
    assert Decimal("0") == 0;
    assert Meaning(e.left) == 0;
  }

  lemma ReadsThreeDigits()
    ensures ValueAt("*012", 1) == (12, 4) && ValueAt("*012", 4) == (0, 4)
  {
    assert ReadNumber("*012", 4, 12) == (12, 4);
    assert ReadNumber("*012", 3, 1) == (12, 4);
    assert ReadNumber("*012", 2, 0) == (12, 4);
  }

  // ---------------------------------------------------------------------------------------------
  // Numbers as they are written, and the program's own example.

  const DIGITS := "0123456789"

  /** The decimal text of n. */
  function Written(n: nat): string {
    if n < 10 then [DIGITS[n]] else Written(n / 10) + [DIGITS[n % 10]]
  }

  lemma DigitsAreDigits(d: nat)
    requires d < 10
    ensures IsDigit(DIGITS[d]) && DigitValue(DIGITS[d]) == d
  {
  }

  /** The decimal text of every number is made of digits and read back as that number. */
  lemma {:induction false} WrittenIsRead(n: nat)
    ensures Written(n) != [] && (forall c | c in Written(n) :: IsDigit(c)) && Decimal(Written(n)) == n
  {
    var text := Written(n);
    DigitsAreDigits(n % 10);
    if n >= 10 {
      WrittenIsRead(n / 10);
      assert text[..|text| - 1] == Written(n / 10);
    } else {
      assert text[..0] == [];
    }
  }

  /** Nothing but the ten digits is read as part of a number. */
  lemma OnlyDigitsAreDigits(c: char)
    ensures IsDigit(c) <==> c in DIGITS
  {
    if IsDigit(c) {
      assert DIGITS[DigitValue(c)] == c;
    }
  }

  /** A whole string written in prefix form is evaluated to its value, to the end. */
  lemma EvaluatesWhole(e: Expr)
    requires Separated(e)
    ensures ValueAt(Text(e), 0) == (Meaning(e), |Text(e)|)
  {
    EvaluatesPrefixForm(Text(e), 0, e);
  }

  lemma NumberText(n: nat) returns (e: Expr)
    requires n < 10
    ensures Text(e) == " " + [DIGITS[n]] && Meaning(e) == n && Separated(e) && e.spaces == 1
  {
    e := Num(1, Written(n));
    SpacesText(1);
    WrittenIsRead(n);
  }

  lemma OperatorText(n: nat, op: Operator, left: Expr, right: Expr) returns (e: Expr)
    requires n <= 1 && Separated(left) && Separated(right) && right.spaces > 0
    ensures e.Op? && e.spaces == n && Separated(e)
    ensures Text(e) == (if n == 0 then "" else " ") + [Symbol(op)] + Text(left) + Text(right)
    ensures Meaning(e) == if op.Plus? then Meaning(left) + Meaning(right) else Meaning(left) * Meaning(right)
  {
    e := Op(n, op, left, right);
    SpacesText(n);
    MeaningOfOperator(e);
  }

  lemma SpacesText(n: nat)
    requires n <= 1
    ensures Spaces(n) == if n == 0 then "" else " "
  {
    if n == 1 {
      assert Spaces(0) == "";
    }
  }

  lemma InnerProduct() returns (e: Expr)
    ensures Text(e) == " * 4 6" && Meaning(e) == 24 && Separated(e)
  {
    var four := NumberText(4);
    var six := NumberText(6);
    e := OperatorText(1, Times, four, six);
  }

  lemma InnerSum() returns (e: Expr)
    ensures Text(e) == " + 8 9" && Meaning(e) == 17 && Separated(e) && e.spaces == 1
  {
    var eight := NumberText(8);
    var nine := NumberText(9);
    e := OperatorText(1, Plus, eight, nine);
  }

  lemma OuterProduct() returns (e: Expr)
    ensures Text(e) == " * * 4 6 + 8 9" && Meaning(e) == 408 && Separated(e) && e.spaces == 1
  {
    var product := InnerProduct();
    var sum := InnerSum();
    e := OperatorText(1, Times, product, sum);
  }

  lemma OuterSum() returns (e: Expr)
    ensures Text(e) == " + 7 * * 4 6 + 8 9" && Meaning(e) == 415 && Separated(e)
  {
    var seven := NumberText(7);
    var product := OuterProduct();
    e := OperatorText(1, Plus, seven, product);
  }

  /** The expression of the source is (7 + (4 * 6) * (8 + 9)) * 5. */
  lemma Example() returns (e: Expr)
    ensures Text(e) == "* + 7 * * 4 6 + 8 9 5" && Meaning(e) == 2075 && Separated(e)
  {
    var sum := OuterSum();
    var five := NumberText(5);
    e := OperatorText(0, Times, sum, five);
  }

  /** The source's string is evaluated to 2075, and read to its end. */
  lemma ExampleIsEvaluated()
    ensures ValueAt("* + 7 * * 4 6 + 8 9 5", 0) == (2075, 21)
  {
    var e := Example();
    EvaluatesWhole(e);
  }
}
