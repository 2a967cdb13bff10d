/** Runtime values and the value-level half of the evaluator: truthiness, equality, the text
    of a value, the operand checks and the operator tables of `visitBinaryExpr`,
    `visitUnaryExpr` and `visitAssignShorthandExpr`. Numbers are Java doubles in the source;
    here they are reals, and what only IEEE arithmetic can say comes from a `Host`. */
module Values {
  import opened Tokens
  import opened Ast

  /** A user function (`LoxFunction`): the declaration it was made from and the environment it
      closes over. `id` stands for the object's identity, which Java's `equals` compares. */
  datatype Callable = LoxFunction(id: nat, name: Token, params: seq<Token>, body: seq<Option<Stmt>>, closure: nat)
  {
    /** The number of arguments a call must pass. */
    function Arity(): nat { |params| }
  }

  /** What an expression evaluates to: Java's `null`, `Boolean`, `Double`, `String` or a callable. */
  datatype Value =
    | Nil
    | Bool(b: bool)
    | Num(n: real)
    | Text(s: string)
    | Fun(callee: Callable)

  /** The messages a runtime error can carry. */
  datatype ErrorKind =
    | OperandMustBeNumber
    | OperandsMustBeNumbers
    | TwoNumbersOrTwoStrings
    | TypesMustMatch
    | NotCallable
    | ArityMismatch(expected: nat, got: nat)
    | UndefinedVariable(name: string)

  /** An exception escaping an expression or statement: the language's `RuntimeError`, raised
      at a token; a Java `NullPointerException` or `StackOverflowError`, which the interpreter
      does not catch; or `OutOfFuel`, which stands for a loop still running when its bound on
      iterations is used up. */
  datatype Failure =
    | RuntimeError(token: Token, kind: ErrorKind)
    | NullPointer
    | StackOverflow
    | OutOfFuel

  /** A value, or the exception that replaced it; `:-` propagates the exception. */
  datatype Result<T> = Ok(value: T) | Err(failure: Failure) {
    predicate IsFailure() { Err? }
    function PropagateFailure<U>(): Result<U> requires Err? { Err(failure) }
    function Extract(): T requires Ok? { value }
  }

  /** What the model takes from the Java platform: IEEE `Math.pow`, floating `%`, division of
      a number by zero in `/=`, `Double.toString`, and the text of a callable. */
  datatype Host = Host(
    pow: (real, real) -> real,
    remainder: (real, real) -> real,
    divideByZero: real -> real,
    numberText: real -> string,
    callableText: Callable -> string)

  /** The value a literal node holds. */
  function FromLiteral(lit: LiteralValue): (v: Value)
    ensures v.Nil? <==> lit.NilLiteral?
    ensures lit.BoolLiteral? ==> v == Bool(lit.b)
    ensures lit.NumberLiteral? ==> v == Num(lit.n)
    ensures lit.StringLiteral? ==> v == Text(lit.s)
  {
    match lit
    case NilLiteral => Nil
    case BoolLiteral(b) => Bool(b)
    case NumberLiteral(n) => Num(n)
    case StringLiteral(s) => Text(s)
  }

  // ---------------------------------------------------------------------------------------
  // Truthiness and equality.

  /** `nil` and `false` are false, a number is false exactly when it is zero, and everything
      else is true. */
  predicate IsTruthy(v: Value)
  {
    match v
    case Nil => false
    case Bool(b) => b
    case Num(n) => n != 0.0
    case _ => true
  }

  /** The falsy values are exactly `nil`, `false` and zero. */
  lemma FalsyValues(v: Value)
    ensures !IsTruthy(v) <==> v in {Nil, Bool(false), Num(0.0)}
  {
  }

  /** Java's `a.equals(b)` for a non-null `a`: the same boxed value, or for a callable the
      same object. */
  predicate Equals(a: Value, b: Value)
    requires !a.Nil?
  {
    match a
    case Bool(x) => b == Bool(x)
    case Num(x) => b == Num(x)
    case Text(x) => b == Text(x)
    case Fun(f) => b.Fun? && b.callee.id == f.id
  }

  /** `isEqual`: two nils are equal, nil equals nothing else, and otherwise `equals` decides. */
  predicate IsEqual(a: Value, b: Value)
  {
    if a.Nil? && b.Nil? then true
    else if a.Nil? then false
    else Equals(a, b)
  }

  /** `nil` equals only `nil`, from either side. */
  lemma NilEqualsOnlyNil(v: Value)
    ensures IsEqual(Nil, v) <==> v == Nil
    ensures IsEqual(v, Nil) <==> v == Nil
  {
  }

  /** Equality is value equality, except that callables are compared by identity. */
  lemma IsEqualIsValueEquality(a: Value, b: Value)
    ensures !a.Fun? ==> (IsEqual(a, b) <==> a == b)
    ensures a.Fun? ==> (IsEqual(a, b) <==> b.Fun? && a.callee.id == b.callee.id)
  {
  }

  /** Equality is reflexive, symmetric and transitive. */
  lemma IsEqualIsEquivalence(a: Value, b: Value, c: Value)
    ensures IsEqual(a, a)
    ensures IsEqual(a, b) ==> IsEqual(b, a)
    ensures IsEqual(a, b) && IsEqual(b, c) ==> IsEqual(a, c)
  {
  }

  // ---------------------------------------------------------------------------------------
  // Text.

  /** Whether a text ends with `.0`. */
  predicate EndsWithPointZero(text: string)
  {
    |text| >= 2 && text[|text| - 2..] == ".0"
  }

  /** The work-around for Java writing integral doubles with a trailing `.0`: drop it. */
  function StripPointZero(text: string): string
  {
    if EndsWithPointZero(text) then text[..|text| - 2] else text
  }

  /** Stripping removes exactly a trailing `.0`: putting it back gives the text, and a text
      without one is left alone. */
  lemma StripPointZeroRoundTrip(text: string)
    ensures EndsWithPointZero(text) ==> StripPointZero(text) + ".0" == text
    ensures EndsWithPointZero(text) ==> |StripPointZero(text)| == |text| - 2
    ensures !EndsWithPointZero(text) ==> StripPointZero(text) == text
  {
    if EndsWithPointZero(text) {
      assert text == text[..|text| - 2] + text[|text| - 2..];
    }
  }

  /** `stringify`: the text `print` writes for a value. */
  function Stringify(host: Host, v: Value): string
  {
    match v
    case Nil => "nil"
    case Num(n) => StripPointZero(host.numberText(n))
    case Bool(b) => if b then "true" else "false"
    case Text(s) => s
    case Fun(f) => host.callableText(f)
  }

  /** The decimal digits of a count, as Java writes an `int` into a message. */
  function NatText(n: nat): (s: string)
    ensures |s| > 0
    ensures forall i | 0 <= i < |s| :: '0' <= s[i] <= '9'
  {
    if n < 10 then [Digit(n)] else NatText(n / 10) + [Digit(n % 10)]
  }

  /** The digit character for `0 <= d < 10`. */
  function Digit(d: nat): (c: char)
    requires d < 10
    ensures '0' <= c <= '9'
  {
    ['0', '1', '2', '3', '4', '5', '6', '7', '8', '9'][d]
  }

  /** The number a string of decimal digits denotes. */
  function DigitsValue(s: string): nat
    requires forall i | 0 <= i < |s| :: '0' <= s[i] <= '9'
  {
    if s == [] then 0 else DigitsValue(s[..|s| - 1]) * 10 + (s[|s| - 1] as int - '0' as int)
  }

  /** Reading the digits back gives the count: the arity message names the right numbers. */
  lemma {:induction false} NatTextRoundTrip(n: nat)
    ensures DigitsValue(NatText(n)) == n
  {
    if n >= 10 {
      NatTextRoundTrip(n / 10);
      var s := NatText(n);
      assert s[..|s| - 1] == NatText(n / 10);
    }
  }

  /** The text of a runtime error. Every text but the last is written out where the interpreter
      raises it; the undefined-variable text is assumed, since the environment class that
      raises it is not part of this model. */
  function Message(kind: ErrorKind): string
  {
    match kind
    case OperandMustBeNumber => "Operand must be a number."
    case OperandsMustBeNumbers => "Operands must be numbers."
    case TwoNumbersOrTwoStrings => "Operands must be " + "two numbers or two strings."
    case TypesMustMatch => "Types must match."
    case NotCallable => "Can only call functions and classes."
    case ArityMismatch(expected, got) =>
      "Expected " + (NatText(expected) + (" arguments but got " + (NatText(got) + ".")))
    case UndefinedVariable(name) => "Undefined variable '" + name + "'."
  }

  /** A text of digits followed by a non-digit is determined by the whole: the digits end
      where the first non-digit starts. */
  lemma DigitsThenRest(a: string, x: string, b: string, y: string)
    requires forall i | 0 <= i < |a| :: '0' <= a[i] <= '9'
    requires forall i | 0 <= i < |b| :: '0' <= b[i] <= '9'
    requires |x| > 0 && !('0' <= x[0] <= '9') && |y| > 0 && !('0' <= y[0] <= '9')
    requires a + x == b + y
    ensures a == b && x == y
  {
    assert (a + x)[|a|] == x[0] && (b + y)[|b|] == y[0];
    assert |b| <= |a|;
    assert |a| <= |b|;
    assert a == (a + x)[..|a|] && b == (b + y)[..|b|];
    assert x == (a + x)[|a|..] && y == (b + y)[|b|..];
  }

  /** The arity message names both counts: equal messages mean equal counts. */
  lemma ArityMessageNamesCounts(expected1: nat, got1: nat, expected2: nat, got2: nat)
    requires Message(ArityMismatch(expected1, got1)) == Message(ArityMismatch(expected2, got2))
    ensures expected1 == expected2 && got1 == got2
  {
    var (e1, g1, e2, g2) := (NatText(expected1), NatText(got1), NatText(expected2), NatText(got2));
    var head, tail := "Expected ", " arguments but got ";
    var x1, x2 := tail + (g1 + "."), tail + (g2 + ".");
    assert head + (e1 + x1) == head + (e2 + x2);
    assert e1 + x1 == (head + (e1 + x1))[|head|..];
    assert e2 + x2 == (head + (e2 + x2))[|head|..];
    DigitsThenRest(e1, x1, e2, x2);
    assert g1 + "." == x1[|tail|..];
    assert g2 + "." == x2[|tail|..];
    assert g1 == (g1 + ".")[..|g1|];
    assert g2 == (g2 + ".")[..|g2|];
    NatTextRoundTrip(expected1);
    NatTextRoundTrip(expected2);
    NatTextRoundTrip(got1);
    NatTextRoundTrip(got2);
  }

  /** The undefined-variable message names the variable. */
  lemma UndefinedMessageNamesVariable(name1: string, name2: string)
    requires Message(UndefinedVariable(name1)) == Message(UndefinedVariable(name2))
    ensures name1 == name2
  {
    var m1, m2 := Message(UndefinedVariable(name1)), Message(UndefinedVariable(name2));
    assert name1 == m1[20..|m1| - 2];
    assert name2 == m2[20..|m2| - 2];
  }

  /** The arity message alone starts with `E`, and the undefined-variable message alone with `U`. */
  lemma MessageInitial(k: ErrorKind)
    ensures |Message(k)| > 0
    ensures Message(k)[0] == 'E' <==> k.ArityMismatch?
    ensures Message(k)[0] == 'U' <==> k.UndefinedVariable?
  {
    match k
    case OperandMustBeNumber => assert Message(k)[0] == 'O';
    case OperandsMustBeNumbers => assert Message(k)[0] == 'O';
    case TwoNumbersOrTwoStrings => assert Message(k)[0] == 'O';
    case TypesMustMatch => assert Message(k)[0] == 'T';
    case NotCallable => assert Message(k)[0] == 'C';
    case ArityMismatch(_, _) => assert Message(k)[0] == 'E';
    case UndefinedVariable(_) => assert Message(k)[0] == 'U';
  }

  /** Different runtime errors carry different messages. */
  lemma MessageIdentifiesKind(k1: ErrorKind, k2: ErrorKind)
    ensures Message(k1) == Message(k2) <==> k1 == k2
  {
    if Message(k1) == Message(k2) {
      MessageInitial(k1);
      MessageInitial(k2);
      if k1.ArityMismatch? {
        ArityMessageNamesCounts(k1.expected, k1.got, k2.expected, k2.got);
      } else if k1.UndefinedVariable? {
        UndefinedMessageNamesVariable(k1.name, k2.name);
      } else {
        var m1, m2 := Message(k1), Message(k2);
        assert |m1| == |m2|;
        assert m1[0] == m2[0] && m1[7] == m2[7];
      }
    }
  }

  // ---------------------------------------------------------------------------------------
  // Operand checks and operators.

  /** `checkNumberOperand`, returning the number it has checked. */
  function CheckNumberOperand(operator: Token, operand: Value): (r: Result<real>)
    ensures r.Ok? <==> operand.Num?
    ensures r.Ok? ==> operand == Num(r.value)
    ensures r.Err? ==> r.failure == RuntimeError(operator, OperandMustBeNumber)
  {
    if operand.Num? then Ok(operand.n) else Err(RuntimeError(operator, OperandMustBeNumber))
  }

  /** `checkNumberOperands`, returning the two numbers it has checked. */
  function CheckNumberOperands(operator: Token, left: Value, right: Value): (r: Result<(real, real)>)
    ensures r.Ok? <==> left.Num? && right.Num?
    ensures r.Ok? ==> left == Num(r.value.0) && right == Num(r.value.1)
    ensures r.Err? ==> r.failure == RuntimeError(operator, OperandsMustBeNumbers)
  {
    if left.Num? && right.Num? then Ok((left.n, right.n))
    else Err(RuntimeError(operator, OperandsMustBeNumbers))
  }

  /** The operators that check for two numbers. */
  const NumericOperators: set<TokenType> :=
    {MINUS, SLASH, STAR, STAR_STAR, MODULUS, GREATER, GREATER_EQUAL, LESS, LESS_EQUAL}

  /** The `switch` of `visitBinaryExpr`, once both operands are evaluated. An operator it does
      not list yields `nil`. It never makes a function, and the only errors it raises are a
      runtime error at the operator and the null dereference of `+.`. */
  function BinaryOperation(host: Host, operator: Token, left: Value, right: Value): (r: Result<Value>)
    ensures r.Ok? ==> !r.value.Fun?
    ensures r.Err? ==> r.failure == NullPointer || (r.failure.RuntimeError? && r.failure.token == operator)
    ensures r.Err? && r.failure == NullPointer ==> operator.kind == DOT_PLUS
  {
    match operator.kind
    case MINUS =>
      var (a, b) :- CheckNumberOperands(operator, left, right);
      Ok(Num(a - b))
    case SLASH =>
      var (a, b) :- CheckNumberOperands(operator, left, right);
      if b == 0.0 then Ok(Nil) else Ok(Num(a / b))
    case STAR =>
      var (a, b) :- CheckNumberOperands(operator, left, right);
      Ok(Num(a * b))
    case PLUS =>
      if left.Num? && right.Num? then Ok(Num(left.n + right.n))
      else if left.Text? && right.Text? then Ok(Text(left.s + right.s))
      else Err(RuntimeError(operator, TwoNumbersOrTwoStrings))
    case STAR_STAR =>
      var (a, b) :- CheckNumberOperands(operator, left, right);
      Ok(Num(host.pow(a, b)))
    case MODULUS =>
      var (a, b) :- CheckNumberOperands(operator, left, right);
      Ok(Num(host.remainder(a, b)))
    case DOT_PLUS =>
      if right.Nil? || left.Nil? then Err(NullPointer)
      else Ok(Text(Stringify(host, left) + Stringify(host, right)))
    case GREATER =>
      var (a, b) :- CheckNumberOperands(operator, left, right);
      Ok(Bool(a > b))
    case GREATER_EQUAL =>
      var (a, b) :- CheckNumberOperands(operator, left, right);
      Ok(Bool(a >= b))
    case LESS =>
      var (a, b) :- CheckNumberOperands(operator, left, right);
      Ok(Bool(a < b))
    case LESS_EQUAL =>
      var (a, b) :- CheckNumberOperands(operator, left, right);
      Ok(Bool(a <= b))
    case BANG_EQUAL => Ok(Bool(!IsEqual(left, right)))
    case EQUAL_EQUAL => Ok(Bool(IsEqual(left, right)))
    case _ => Ok(Nil)
  }

  /** The `switch` of `visitUnaryExpr`, once the operand is evaluated. It never makes a
      function, and raises only at the operator. */
  function UnaryOperation(operator: Token, right: Value): (r: Result<Value>)
    ensures r.Ok? ==> !r.value.Fun?
    ensures r.Err? ==> r.failure == RuntimeError(operator, OperandMustBeNumber)
  {
    match operator.kind
    case MINUS =>
      var n :- CheckNumberOperand(operator, right);
      Ok(Num(-n))
    case BANG => Ok(Bool(!IsTruthy(right)))
    case _ => Ok(Nil)
  }

  /** Division as `/=` performs it: a zero divisor gives what IEEE division gives. */
  function Quotient(host: Host, a: real, b: real): real
  {
    if b != 0.0 then a / b else host.divideByZero(a)
  }

  /** The `if` chain of `visitAssignShorthandExpr` on two numbers: the new value of the
      variable, or `None` (Java's `null`) for an operator the chain does not list. `x--`
      carries `-1` as its operand, so it adds too. */
  function ShorthandValue(host: Host, operator: TokenType, value: real, rhs: real): Option<real>
  {
    if operator == SLASH_EQUAL then Some(Quotient(host, value, rhs))
    else if operator == STAR_EQUAL then Some(value * rhs)
    else if operator == PLUS_EQUAL then Some(value + rhs)
    else if operator == MINUS_EQUAL then Some(value - rhs)
    else if operator == PLUS_PLUS then Some(value + rhs)
    else if operator == MINUS_MINUS then Some(value + rhs)
    else None
  }

  // ---------------------------------------------------------------------------------------
  // What the operators promise.

  /** `+` adds two numbers, joins two strings, and raises for any other pair. */
  lemma PlusAddsOrConcatenates(host: Host, op: Token, left: Value, right: Value)
    requires op.kind == PLUS
    ensures left.Num? && right.Num? ==> BinaryOperation(host, op, left, right) == Ok(Num(left.n + right.n))
    ensures left.Text? && right.Text? ==> BinaryOperation(host, op, left, right) == Ok(Text(left.s + right.s))
    ensures BinaryOperation(host, op, left, right).Err? <==> !(left.Num? && right.Num?) && !(left.Text? && right.Text?)
    ensures BinaryOperation(host, op, left, right).Err? ==>
              BinaryOperation(host, op, left, right).failure == RuntimeError(op, TwoNumbersOrTwoStrings)
  {
  }

  /** Every numeric operator raises "Operands must be numbers." at itself unless both operands
      are numbers, and never raises when they are. */
  lemma NumericOperatorsCheckOperands(host: Host, op: Token, left: Value, right: Value)
    requires op.kind in NumericOperators
    ensures BinaryOperation(host, op, left, right).Err? <==> !(left.Num? && right.Num?)
    ensures BinaryOperation(host, op, left, right).Err? ==>
              BinaryOperation(host, op, left, right).failure == RuntimeError(op, OperandsMustBeNumbers)
  {
  }

  /** Dividing by zero gives `nil` rather than an error; otherwise `/` undoes `*`. */
  lemma DivisionByZeroIsNil(host: Host, slash: Token, star: Token, a: real, b: real)
    requires slash.kind == SLASH && star.kind == STAR
    ensures b == 0.0 ==> BinaryOperation(host, slash, Num(a), Num(b)) == Ok(Nil)
    ensures b != 0.0 ==> BinaryOperation(host, slash, Num(a), Num(b)) == Ok(Num(a / b))
    ensures b != 0.0 ==> BinaryOperation(host, star, Num(a / b), Num(b)) == Ok(Num(a))
  {
    if b != 0.0 {
      DivideThenMultiply(a, b);
      var q := BinaryOperation(host, star, Num(a / b), Num(b));
      assert q.value == Num((a / b) * b);
    }
  }

  /** Real division by a non-zero number is undone by multiplying. */
  lemma DivideThenMultiply(a: real, b: real)
    requires b != 0.0
    ensures (a / b) * b == a
  {
  }

  /** Real multiplication by a non-zero number is undone by dividing. */
  lemma MultiplyThenDivide(a: real, b: real)
    requires b != 0.0
    ensures (a * b) / b == a
  {
  }

  /** The comparisons agree with each other: `a > b` is `b < a`, and `a >= b` is `!(a < b)`. */
  lemma ComparisonsAgree(host: Host, gt: Token, ge: Token, lt: Token, a: real, b: real)
    requires gt.kind == GREATER && ge.kind == GREATER_EQUAL && lt.kind == LESS
    ensures BinaryOperation(host, gt, Num(a), Num(b)) == BinaryOperation(host, lt, Num(b), Num(a))
    ensures BinaryOperation(host, ge, Num(a), Num(b)) == Ok(Bool(!BinaryOperation(host, lt, Num(a), Num(b)).value.b))
  {
  }

  /** `==` and `!=` never raise and always disagree. */
  lemma EqualityOperatorsComplement(host: Host, eq: Token, ne: Token, left: Value, right: Value)
    requires eq.kind == EQUAL_EQUAL && ne.kind == BANG_EQUAL
    ensures BinaryOperation(host, eq, left, right) == Ok(Bool(IsEqual(left, right)))
    ensures BinaryOperation(host, ne, left, right) == Ok(Bool(!IsEqual(left, right)))
  {
  }

  /** `+.` joins the printed texts of its operands, failing with a null dereference when either
      is `nil`; on two strings it agrees with `+`. */
  lemma DotPlusJoinsTexts(host: Host, dotPlus: Token, plus: Token, left: Value, right: Value)
    requires dotPlus.kind == DOT_PLUS && plus.kind == PLUS
    ensures BinaryOperation(host, dotPlus, left, right).Err? <==> left.Nil? || right.Nil?
    ensures BinaryOperation(host, dotPlus, left, right).Err? ==>
              BinaryOperation(host, dotPlus, left, right).failure == NullPointer
    ensures !left.Nil? && !right.Nil? ==>
              BinaryOperation(host, dotPlus, left, right) == Ok(Text(Stringify(host, left) + Stringify(host, right)))
    ensures left.Text? && right.Text? ==>
              BinaryOperation(host, dotPlus, left, right) == BinaryOperation(host, plus, left, right)
  {
  }

  /** `!` never raises and `!!v` is the truthiness of `v`; `-` needs a number and `- -n` is `n`. */
  lemma UnaryOperators(bang: Token, minus: Token, v: Value)
    requires bang.kind == BANG && minus.kind == MINUS
    ensures UnaryOperation(bang, v).Ok?
    ensures UnaryOperation(bang, UnaryOperation(bang, v).value) == Ok(Bool(IsTruthy(v)))
    ensures UnaryOperation(minus, v).Err? <==> !v.Num?
    ensures UnaryOperation(minus, v).Err? ==> UnaryOperation(minus, v).failure == RuntimeError(minus, OperandMustBeNumber)
    ensures v.Num? ==> UnaryOperation(minus, UnaryOperation(minus, v).value) == Ok(v)
  {
  }

  /** `x++` adds one and `x--` (whose operand is `-1`) subtracts one; `+= d` followed by
      `-= d` gives the value back. */
  lemma ShorthandSteps(host: Host, x: real, d: real)
    ensures ShorthandValue(host, PLUS_PLUS, x, 1.0) == Some(x + 1.0)
    ensures ShorthandValue(host, MINUS_MINUS, x, -1.0) == Some(x - 1.0)
    ensures ShorthandValue(host, MINUS_EQUAL, ShorthandValue(host, PLUS_EQUAL, x, d).value, d) == Some(x)
    ensures d != 0.0 ==> ShorthandValue(host, SLASH_EQUAL, ShorthandValue(host, STAR_EQUAL, x, d).value, d) == Some(x)
  {
    if d != 0.0 {
      MultiplyThenDivide(x, d);
      var m := ShorthandValue(host, STAR_EQUAL, x, d);
      assert m.value == x * d;
    }
  }

  /** Exactly the six compound-assignment kinds produce a value. */
  lemma ShorthandOperators(host: Host, operator: TokenType, x: real, d: real)
    ensures ShorthandValue(host, operator, x, d).Some? <==>
              operator in {SLASH_EQUAL, STAR_EQUAL, PLUS_EQUAL, MINUS_EQUAL, PLUS_PLUS, MINUS_MINUS}
  {
  }
}
