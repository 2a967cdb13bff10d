/** The parser's behaviour as pure functions of the token stream and the parser state.
    A rule returns `Ok(tree, state)` or, where the Java parser throws its `ParseError`,
    `Fail(state)` with the state at the throw (the diagnostic is already reported).
    The `Parsing.Parser` class is proved to compute exactly these functions. */
module Grammar {
  import opened Tokens
  import opened Ast

  /** A syntax error as it is handed to the diagnostics sink. */
  datatype Diagnostic = Diagnostic(token: Token, message: string)

  /** The parser's mutable state: the cursor `current` and the diagnostics reported so far. */
  datatype PState = PState(pos: nat, diagnostics: seq<Diagnostic>)

  /** Outcome of a grammar rule. */
  datatype Parsed<+T> = Ok(value: T, st: PState) | Fail(st: PState) {
    predicate IsFailure() { Fail? }
    function PropagateFailure<U>(): Parsed<U> requires Fail? { Fail(st) }
    function Extract(): (T, PState) requires Ok? { (value, st) }
  }

  /** The state is usable on this token stream: the cursor points at a token. */
  predicate Valid(toks: seq<Token>, st: PState)
  {
    ValidTokens(toks) && st.pos < |toks|
  }

  /** A rule never moves the cursor backwards nor off the stream, and a rule that succeeds
      has consumed at least one token. */
  predicate Consumes<T>(toks: seq<Token>, st: PState, r: Parsed<T>)
  {
    Valid(toks, r.st) && st.pos <= r.st.pos && (r.Ok? ==> st.pos < r.st.pos)
  }

  /** A loop never moves the cursor backwards nor off the stream. */
  predicate Moves<T>(toks: seq<Token>, st: PState, r: Parsed<T>)
  {
    Valid(toks, r.st) && st.pos <= r.st.pos
  }

  // ---------------------------------------------------------------------------------------
  // Cursor helpers: peek, previous, isAtEnd, check, advance, match, consume, error.

  function Peek(toks: seq<Token>, st: PState): Token
    requires Valid(toks, st)
  {
    toks[st.pos]
  }

  function Previous(toks: seq<Token>, st: PState): Token
    requires Valid(toks, st) && st.pos > 0
  {
    toks[st.pos - 1]
  }

  predicate IsAtEnd(toks: seq<Token>, st: PState)
    requires Valid(toks, st)
  {
    Peek(toks, st).kind == EOF
  }

  predicate Check(toks: seq<Token>, st: PState, kind: TokenType)
    requires Valid(toks, st)
  {
    !IsAtEnd(toks, st) && Peek(toks, st).kind == kind
  }

  /** Moves the cursor one token on, except at `EOF`, which it never passes. */
  function Advance(toks: seq<Token>, st: PState): (r: PState)
    requires Valid(toks, st)
    ensures Valid(toks, r) && r.diagnostics == st.diagnostics
  {
    if IsAtEnd(toks, st) then st else st.(pos := st.pos + 1)
  }

  /** Whether `match` with these kinds succeeds: some listed kind fits the current token. */
  predicate Matches(toks: seq<Token>, st: PState, kinds: seq<TokenType>)
    requires Valid(toks, st)
  {
    !IsAtEnd(toks, st) && Peek(toks, st).kind in kinds
  }

  /** The state after `match`: advanced by one when it succeeds, unchanged otherwise. */
  function Match(toks: seq<Token>, st: PState, kinds: seq<TokenType>): PState
    requires Valid(toks, st)
  {
    if Matches(toks, st, kinds) then Advance(toks, st) else st
  }

  /** Reports a diagnostic at a token (the Java `error`, which does not itself throw). */
  function Report(st: PState, token: Token, message: string): PState
  {
    st.(diagnostics := st.diagnostics + [Diagnostic(token, message)])
  }

  /** `consume`: the current token when it has the expected kind, else a parse error at it. */
  function Consume(toks: seq<Token>, st: PState, kind: TokenType, message: string): (r: Parsed<Token>)
    requires Valid(toks, st)
    ensures Consumes(toks, st, r)
  {
    if Check(toks, st, kind) then Ok(Peek(toks, st), Advance(toks, st))
    else Fail(Report(st, Peek(toks, st), message))
  }

  // ---------------------------------------------------------------------------------------
  // Expressions, by precedence from lowest to highest. Each rule's second `decreases`
  // component is its rank: a rule only calls a rule of lower rank without consuming a token.

  function ExpressionRule(toks: seq<Token>, st: PState): (r: Parsed<Expr>)
    requires Valid(toks, st)
    ensures Consumes(toks, st, r)
    decreases |toks| - st.pos, 19
  {
    Assignment(toks, st)
  }

  const One: Expr := Literal(NumberLiteral(1.0))
  const MinusOne: Expr := Literal(NumberLiteral(-1.0))

  /** `=`, the compound operators and postfix `++`/`--` on a variable. Any other target is
      reported, not thrown: the left-hand expression is returned and the right-hand one dropped. */
  function Assignment(toks: seq<Token>, st: PState): (r: Parsed<Expr>)
    requires Valid(toks, st)
    ensures Consumes(toks, st, r)
    decreases |toks| - st.pos, 18
  {
    var (expr, s1) :- BinaryRule(toks, st, OrLevel);
    AssignmentTail(toks, s1, expr)
  }

  /** What follows the left-hand side `expr` of an assignment. */
  function AssignmentTail(toks: seq<Token>, st: PState, expr: Expr): (r: Parsed<Expr>)
    requires Valid(toks, st)
    ensures Moves(toks, st, r)
    decreases |toks| - st.pos, 17
  {
    if Matches(toks, st, [EQUAL]) then
      var (value, s1) :- Assignment(toks, Advance(toks, st));
      if expr.Variable? then Ok(Assign(expr.name, value), s1)
      else Ok(expr, Report(s1, Peek(toks, st), "Invalid assignment target."))
    else if Matches(toks, st, CompoundOperators) then
      var (value, s1) :- Assignment(toks, Advance(toks, st));
      if expr.Variable? then Ok(AssignShorthand(expr.name, Peek(toks, st), value), s1)
      else Ok(expr, Report(s1, Peek(toks, st), "Invalid assignment target."))
    else if Matches(toks, st, [PLUS_PLUS]) then
      if expr.Variable? then Ok(AssignShorthand(expr.name, Peek(toks, st), One), Advance(toks, st))
      else Ok(expr, Report(Advance(toks, st), Peek(toks, st), "Invalid assignment target."))
    else if Matches(toks, st, [MINUS_MINUS]) then
      if expr.Variable? then Ok(AssignShorthand(expr.name, Peek(toks, st), MinusOne), Advance(toks, st))
      else Ok(expr, Report(Advance(toks, st), Peek(toks, st), "Invalid assignment target."))
    else Ok(expr, st)
  }

  /** The seven binary precedence levels, from `or` down to `**`. */
  datatype Level =
    | OrLevel | AndLevel | EqualityLevel | ComparisonLevel
    | AdditionLevel | MultiplicationLevel | ExponentLevel

  /** The operator kinds each level's loop matches. */
  function Operators(level: Level): seq<TokenType>
  {
    match level
    case OrLevel => [OR]
    case AndLevel => [AND]
    case EqualityLevel => [BANG_EQUAL, EQUAL_EQUAL]
    case ComparisonLevel => [GREATER, GREATER_EQUAL, LESS, LESS_EQUAL]
    case AdditionLevel => [MINUS, PLUS, DOT_PLUS]
    case MultiplicationLevel => [SLASH, STAR, STAR_STAR, MODULUS]
    case ExponentLevel => [STAR_STAR]
  }

  /** The next-tighter level (`ExponentLevel` hands over to `Unary`). */
  function Tighter(level: Level): Level
    requires level != ExponentLevel
  {
    match level
    case OrLevel => AndLevel
    case AndLevel => EqualityLevel
    case EqualityLevel => ComparisonLevel
    case ComparisonLevel => AdditionLevel
    case AdditionLevel => MultiplicationLevel
    case MultiplicationLevel => ExponentLevel
  }

  function Rank(level: Level): nat
  {
    match level
    case OrLevel => 17
    case AndLevel => 15
    case EqualityLevel => 13
    case ComparisonLevel => 11
    case AdditionLevel => 9
    case MultiplicationLevel => 7
    case ExponentLevel => 5
  }

  /** The node a level builds: `or`/`and` make `Logical`, the others `Binary`. */
  function Combine(level: Level, left: Expr, operator: Token, right: Expr): Expr
  {
    if level == OrLevel || level == AndLevel then Logical(left, operator, right)
    else Binary(left, operator, right)
  }

  /** The operand of a level: the next level, or `unary` below `**`. */
  function Operand(toks: seq<Token>, st: PState, level: Level): (r: Parsed<Expr>)
    requires Valid(toks, st)
    ensures Consumes(toks, st, r)
    decreases |toks| - st.pos, Rank(level) - 1
  {
    if level == ExponentLevel then UnaryRule(toks, st) else BinaryRule(toks, st, Tighter(level))
  }

  /** One binary level: an operand, then the loop that folds further operands to the left. */
  function BinaryRule(toks: seq<Token>, st: PState, level: Level): (r: Parsed<Expr>)
    requires Valid(toks, st)
    ensures Consumes(toks, st, r)
    ensures r.Ok? ==> !Matches(toks, r.st, Operators(level))
    decreases |toks| - st.pos, Rank(level)
  {
    var (expr, s1) :- Operand(toks, st, level);
    BinaryTail(toks, s1, level, expr)
  }

  /** The `while (match(...))` loop of a binary level, with `left` the tree built so far. */
  function BinaryTail(toks: seq<Token>, st: PState, level: Level, left: Expr): (r: Parsed<Expr>)
    requires Valid(toks, st)
    ensures Moves(toks, st, r)
    ensures r.Ok? ==> !Matches(toks, r.st, Operators(level))
    decreases |toks| - st.pos, Rank(level) - 2
  {
    if Matches(toks, st, Operators(level)) then
      var operator := Peek(toks, st);
      var (right, s1) :- Operand(toks, Advance(toks, st), level);
      BinaryTail(toks, s1, level, Combine(level, left, operator, right))
    else Ok(left, st)
  }

  function UnaryRule(toks: seq<Token>, st: PState): (r: Parsed<Expr>)
    requires Valid(toks, st)
    ensures Consumes(toks, st, r)
    decreases |toks| - st.pos, 3
  {
    if Matches(toks, st, [BANG, MINUS]) then
      var operator := Peek(toks, st);
      var (right, s1) :- UnaryRule(toks, Advance(toks, st));
      Ok(Unary(operator, right), s1)
    else CallRule(toks, st)
  }

  function CallRule(toks: seq<Token>, st: PState): (r: Parsed<Expr>)
    requires Valid(toks, st)
    ensures Consumes(toks, st, r)
    decreases |toks| - st.pos, 2
  {
    var (expr, s1) :- Primary(toks, st);
    CallTail(toks, s1, expr)
  }

  /** The loop of `call`: every `(` that follows applies the tree built so far. */
  function CallTail(toks: seq<Token>, st: PState, callee: Expr): (r: Parsed<Expr>)
    requires Valid(toks, st)
    ensures Moves(toks, st, r)
    decreases |toks| - st.pos, 1
  {
    if Matches(toks, st, [LEFT_PAREN]) then
      var (call, s1) :- FinishCall(toks, Advance(toks, st), callee);
      CallTail(toks, s1, call)
    else Ok(callee, st)
  }

  /** The argument list after `(` and the closing `)`, whose token the call keeps. */
  function FinishCall(toks: seq<Token>, st: PState, callee: Expr): (r: Parsed<Expr>)
    requires Valid(toks, st)
    ensures Consumes(toks, st, r)
    decreases |toks| - st.pos, 22
  {
    var (arguments, s1) :- ArgumentList(toks, st);
    var (paren, s2) :- Consume(toks, s1, RIGHT_PAREN, "Expect ')' after arguments.");
    Ok(Call(callee, paren, arguments), s2)
  }

  /** The arguments before `)`: none when `)` comes at once. */
  function ArgumentList(toks: seq<Token>, st: PState): (r: Parsed<seq<Expr>>)
    requires Valid(toks, st)
    ensures Moves(toks, st, r)
    decreases |toks| - st.pos, 21
  {
    if !Check(toks, st, RIGHT_PAREN) then Arguments(toks, st, []) else Ok([], st)
  }

  /** The `do ... while (match(COMMA))` loop over arguments; `done` holds those parsed so far.
      More than 255 arguments is reported but not thrown. */
  function Arguments(toks: seq<Token>, st: PState, done: seq<Expr>): (r: Parsed<seq<Expr>>)
    requires Valid(toks, st)
    ensures Consumes(toks, st, r)
    ensures r.Ok? ==> |done| < |r.value| && r.value[..|done|] == done
    decreases |toks| - st.pos, 20
  {
    var s0 := if |done| >= 255 then Report(st, Peek(toks, st), "Cannot have more than 255 arguments.") else st;
    var (argument, s1) :- ExpressionRule(toks, s0);
    if Matches(toks, s1, [COMMA]) then Arguments(toks, Advance(toks, s1), done + [argument])
    else Ok(done + [argument], s1)
  }

  function Primary(toks: seq<Token>, st: PState): (r: Parsed<Expr>)
    requires Valid(toks, st)
    ensures Consumes(toks, st, r)
    decreases |toks| - st.pos, 0
  {
    if Matches(toks, st, [FALSE]) then Ok(Literal(BoolLiteral(false)), Advance(toks, st))
    else if Matches(toks, st, [TRUE]) then Ok(Literal(BoolLiteral(true)), Advance(toks, st))
    else if Matches(toks, st, [NIL]) then Ok(Literal(NilLiteral), Advance(toks, st))
    else if Matches(toks, st, [NUMBER, STRING]) then Ok(Literal(Peek(toks, st).literal), Advance(toks, st))
    else if Matches(toks, st, [LEFT_PAREN]) then
      var (expr, s1) :- ExpressionRule(toks, Advance(toks, st));
      var (_, s2) :- Consume(toks, s1, RIGHT_PAREN, "Expect ')' after expression.");
      Ok(Grouping(expr), s2)
    else if Matches(toks, st, [IDENTIFIER]) then Ok(Variable(Peek(toks, st)), Advance(toks, st))
    else Fail(Report(st, Peek(toks, st), "Expect expression."))
  }

  // ---------------------------------------------------------------------------------------
  // Statements.

  /** `print value` ended by `;`, or by `:` when it is the true branch of a ternary. */
  function PrintStatement(toks: seq<Token>, st: PState): (r: Parsed<Stmt>)
    requires Valid(toks, st)
    ensures Consumes(toks, st, r)
    ensures r.Ok? ==> r.value.Print?
    decreases |toks| - st.pos, 30
  {
    var (value, s1) :- ExpressionRule(toks, st);
    if Matches(toks, s1, [TERNARY_ELSE]) then Ok(Print(value), Advance(toks, s1))
    else
      var (_, s2) :- Consume(toks, s1, SEMICOLON, "Expect ';' after value.");
      Ok(Print(value), s2)
  }

  /** A ternary branch that is not a print: an expression statement closed by `terminator`. */
  function BranchExpression(toks: seq<Token>, st: PState, terminator: TokenType, message: string): (r: Parsed<Stmt>)
    requires Valid(toks, st)
    ensures Consumes(toks, st, r)
    ensures r.Ok? ==> r.value.Expression? && Previous(toks, r.st).kind == terminator
    decreases |toks| - st.pos, 31
  {
    var (e, s1) :- ExpressionRule(toks, st);
    var (_, s2) :- Consume(toks, s1, terminator, message);
    Ok(Expression(e), s2)
  }

  /** The statement ternary after `condition ?`: each branch is a print or an expression. */
  function TernaryStatement(toks: seq<Token>, st: PState, condition: Expr): (r: Parsed<Stmt>)
    requires Valid(toks, st)
    ensures Consumes(toks, st, r)
    ensures r.Ok? ==> r.value.Ternary? && r.value.condition == condition
    ensures r.Ok? ==> r.value.ifTrue.Print? || r.value.ifTrue.Expression?
    ensures r.Ok? ==> r.value.ifFalse.Print? || r.value.ifFalse.Expression?
    ensures r.Ok? && r.value.ifFalse.Expression? ==> Previous(toks, r.st).kind == SEMICOLON
    decreases |toks| - st.pos, 33
  {
    var (ifTrue, s1) :- TernaryBranch(toks, st, TERNARY_ELSE, "Expected ':' after statement.");
    var (ifFalse, s2) :- TernaryBranch(toks, s1, SEMICOLON, "Expect ';' after expression.");
    Ok(Ternary(condition, ifTrue, ifFalse), s2)
  }

  /** One branch of the statement ternary: a print, or an expression closed by `terminator`. */
  function TernaryBranch(toks: seq<Token>, st: PState, terminator: TokenType, message: string): (r: Parsed<Stmt>)
    requires Valid(toks, st)
    ensures Consumes(toks, st, r)
    ensures r.Ok? ==> r.value.Print? || r.value.Expression?
    ensures r.Ok? && r.value.Expression? ==> Previous(toks, r.st).kind == terminator
    decreases |toks| - st.pos, 32
  {
    if Matches(toks, st, [PRINT]) then PrintStatement(toks, Advance(toks, st))
    else BranchExpression(toks, st, terminator, message)
  }

  function ExpressionStatement(toks: seq<Token>, st: PState): (r: Parsed<Stmt>)
    requires Valid(toks, st)
    ensures Consumes(toks, st, r)
    decreases |toks| - st.pos, 33
  {
    var (expr, s1) :- ExpressionRule(toks, st);
    if Matches(toks, s1, [TERNARY]) then TernaryStatement(toks, Advance(toks, s1), expr)
    else
      var (_, s2) :- Consume(toks, s1, SEMICOLON, "Expect ';' after expression.");
      Ok(Expression(expr), s2)
  }

  /** `var name [= initializer];` after `var`. */
  function VarDeclaration(toks: seq<Token>, st: PState): (r: Parsed<Stmt>)
    requires Valid(toks, st)
    ensures Consumes(toks, st, r)
    decreases |toks| - st.pos, 34
  {
    var (name, s1) :- Consume(toks, st, IDENTIFIER, "Expect variable name.");
    var (initializer, s2) :- VarInitializer(toks, s1);
    var (_, s3) :- Consume(toks, s2, SEMICOLON, "Expect ';' after variable declaration.");
    Ok(Var(name, initializer), s3)
  }

  /** The optional `= value` of a variable declaration. */
  function VarInitializer(toks: seq<Token>, st: PState): (r: Parsed<Option<Expr>>)
    requires Valid(toks, st)
    ensures Moves(toks, st, r)
    ensures r.Ok? && r.value.None? ==> r.st == st
    decreases |toks| - st.pos, 20
  {
    if Matches(toks, st, [EQUAL]) then AsSome(ExpressionRule(toks, Advance(toks, st))) else Ok(None, st)
  }

  /** An expression unless the next token is `terminator` (which is not consumed). */
  function OptionalExpression(toks: seq<Token>, st: PState, terminator: TokenType): (r: Parsed<Option<Expr>>)
    requires Valid(toks, st)
    ensures Moves(toks, st, r)
    ensures r.Ok? && r.value.None? ==> r.st == st
    decreases |toks| - st.pos, 20
  {
    if !Check(toks, st, terminator) then AsSome(ExpressionRule(toks, st)) else Ok(None, st)
  }

  /** Wraps a successful result in `Some`. */
  function AsSome<T>(r: Parsed<T>): (o: Parsed<Option<T>>)
    ensures o.st == r.st && o.Ok? == r.Ok? && (r.Ok? ==> o.value == Some(r.value))
  {
    match r
    case Ok(v, s) => Ok(Some(v), s)
    case Fail(s) => Fail(s)
  }

  /** `return [value];` after `return`, whose token is `keyword`. */
  function ReturnStatement(toks: seq<Token>, st: PState, keyword: Token): (r: Parsed<Stmt>)
    requires Valid(toks, st)
    ensures Consumes(toks, st, r)
    decreases |toks| - st.pos, 34
  {
    var (value, s1) :- OptionalExpression(toks, st, SEMICOLON);
    var (_, s2) :- Consume(toks, s1, SEMICOLON, "Expect ';' after return value.");
    Ok(Return(keyword, value), s2)
  }

  /** `do body while (condition);` after `do`. */
  function DoWhileStatement(toks: seq<Token>, st: PState): (r: Parsed<Stmt>)
    requires Valid(toks, st)
    ensures Consumes(toks, st, r)
    decreases |toks| - st.pos, 41
  {
    var (body, s1) :- Statement(toks, st);
    var (_, s2) :- Consume(toks, s1, WHILE, "Expected 'while' after do.");
    var (_, s3) :- Consume(toks, s2, LEFT_PAREN, "Expected '(' after while.");
    var (condition, s4) :- ExpressionRule(toks, s3);
    var (_, s5) :- Consume(toks, s4, RIGHT_PAREN, "Expected ')' after condition.");
    var (_, s6) :- Consume(toks, s5, SEMICOLON, "Expected ';' after condition.");
    Ok(DoWhile(condition, body), s6)
  }

  /** The tree a `for` loop becomes: the body followed by the increment, looped while the
      condition (`true` when absent) holds, after the initializer. A missing initializer or
      increment drops its enclosing block. */
  function ForLoop(initializer: Option<Stmt>, condition: Option<Expr>, increment: Option<Expr>, body: Stmt): Stmt
  {
    var body1 := if increment.Some? then Block([Some(body), Some(Expression(increment.value))]) else body;
    var condition1 := if condition.Some? then condition.value else Literal(BoolLiteral(true));
    var loop := While(condition1, body1);
    if initializer.Some? then Block([initializer, Some(loop)]) else loop
  }

  /** `for (initializer; condition; increment) body` after `for`, desugared by `ForLoop`. */
  function ForStatement(toks: seq<Token>, st: PState): (r: Parsed<Stmt>)
    requires Valid(toks, st)
    ensures Consumes(toks, st, r)
    decreases |toks| - st.pos, 41
  {
    var (_, s1) :- Consume(toks, st, LEFT_PAREN, "Expect '(' after 'for'.");
    var (initializer, s2) :- ForInitializer(toks, s1);
    ForClauses(toks, s2, initializer)
  }

  /** The first clause of a `for`: nothing, a variable declaration or an expression statement,
      each closed by its `;`. */
  function ForInitializer(toks: seq<Token>, st: PState): (r: Parsed<Option<Stmt>>)
    requires Valid(toks, st)
    ensures Consumes(toks, st, r)
    decreases |toks| - st.pos, 35
  {
    if Matches(toks, st, [SEMICOLON]) then Ok(None, Advance(toks, st))
    else if Matches(toks, st, [VAR]) then AsSome(VarDeclaration(toks, Advance(toks, st)))
    else AsSome(ExpressionStatement(toks, st))
  }

  /** The condition, the increment and the body of a `for`, after its initializer. */
  function ForClauses(toks: seq<Token>, st: PState, initializer: Option<Stmt>): (r: Parsed<Stmt>)
    requires Valid(toks, st)
    ensures Consumes(toks, st, r)
    decreases |toks| - st.pos, 41
  {
    var (condition, s1) :- OptionalExpression(toks, st, SEMICOLON);
    var (_, s2) :- Consume(toks, s1, SEMICOLON, "Expect ';' after loop condition.");
    ForIncrement(toks, s2, initializer, condition)
  }

  /** The increment clause and the body of a `for`, once its condition is read. */
  function ForIncrement(toks: seq<Token>, st: PState, initializer: Option<Stmt>, condition: Option<Expr>): (r: Parsed<Stmt>)
    requires Valid(toks, st)
    ensures Consumes(toks, st, r)
    decreases |toks| - st.pos, 41
  {
    var (increment, s1) :- OptionalExpression(toks, st, RIGHT_PAREN);
    var (_, s2) :- Consume(toks, s1, RIGHT_PAREN, "Expect ')' after for clauses.");
    var (body, s3) :- Statement(toks, s2);
    Ok(ForLoop(initializer, condition, increment, body), s3)
  }

  /** `while (condition) body` after `while`. */
  function WhileStatement(toks: seq<Token>, st: PState): (r: Parsed<Stmt>)
    requires Valid(toks, st)
    ensures Consumes(toks, st, r)
    decreases |toks| - st.pos, 41
  {
    var (_, s1) :- Consume(toks, st, LEFT_PAREN, "Expect '(' after 'while'.");
    var (condition, s2) :- ExpressionRule(toks, s1);
    var (_, s3) :- Consume(toks, s2, RIGHT_PAREN, "Expect ')' after condition.");
    var (body, s4) :- Statement(toks, s3);
    Ok(While(condition, body), s4)
  }

  /** `if (condition) then [else otherwise]` after `if`. */
  function IfStatement(toks: seq<Token>, st: PState): (r: Parsed<Stmt>)
    requires Valid(toks, st)
    ensures Consumes(toks, st, r)
    decreases |toks| - st.pos, 41
  {
    var (_, s1) :- Consume(toks, st, LEFT_PAREN, "Expect '(' after 'if'.");
    var (condition, s2) :- ExpressionRule(toks, s1);
    var (_, s3) :- Consume(toks, s2, RIGHT_PAREN, "Expect ')' after if condition.");
    var (thenBranch, s4) :- Statement(toks, s3);
    var (elseBranch, s5) :-
      if Matches(toks, s4, [ELSE]) then AsSome(Statement(toks, Advance(toks, s4))) else Ok(None, s4);
    Ok(If(condition, thenBranch, elseBranch), s5)
  }

  /** The declarations of a block after `{`, up to and including `}`. */
  function BlockRule(toks: seq<Token>, st: PState): (r: Parsed<seq<Option<Stmt>>>)
    requires Valid(toks, st)
    ensures Consumes(toks, st, r)
    decreases |toks| - st.pos, 45
  {
    var body := BlockBody(toks, st, []);
    var (_, s1) :- Consume(toks, body.st, RIGHT_BRACE, "Expect '}' after block.");
    Ok(body.value, s1)
  }

  /** The loop of `block`: declarations until `}` or `EOF`. It never fails. */
  function BlockBody(toks: seq<Token>, st: PState, done: seq<Option<Stmt>>): (r: Parsed<seq<Option<Stmt>>>)
    requires Valid(toks, st)
    ensures Moves(toks, st, r) && r.Ok?
    decreases |toks| - st.pos, 44
  {
    if !Check(toks, st, RIGHT_BRACE) && !IsAtEnd(toks, st) then
      var d := Declaration(toks, st);
      BlockBody(toks, d.st, done + [d.value])
    else Ok(done, st)
  }

  function Statement(toks: seq<Token>, st: PState): (r: Parsed<Stmt>)
    requires Valid(toks, st)
    ensures Consumes(toks, st, r)
    decreases |toks| - st.pos, 40
  {
    if Matches(toks, st, [FOR]) then ForStatement(toks, Advance(toks, st))
    else if Matches(toks, st, [IF]) then IfStatement(toks, Advance(toks, st))
    else if Matches(toks, st, [PRINT]) then PrintStatement(toks, Advance(toks, st))
    else if Matches(toks, st, [RETURN]) then ReturnStatement(toks, Advance(toks, st), Peek(toks, st))
    else if Matches(toks, st, [LEFT_BRACE]) then
      var (statements, s1) :- BlockRule(toks, Advance(toks, st));
      Ok(Block(statements), s1)
    else if Matches(toks, st, [WHILE]) then WhileStatement(toks, Advance(toks, st))
    else if Matches(toks, st, [DO]) then DoWhileStatement(toks, Advance(toks, st))
    else ExpressionStatement(toks, st)
  }

  /** `fun name(parameters) { body }` after `fun`; `kind` names the construct in messages. */
  function FunctionDeclaration(toks: seq<Token>, st: PState, kind: string): (r: Parsed<Stmt>)
    requires Valid(toks, st)
    ensures Consumes(toks, st, r)
    decreases |toks| - st.pos, 45
  {
    var (name, s1) :- Consume(toks, st, IDENTIFIER, "Expect " + kind + " name.");
    var (_, s2) :- Consume(toks, s1, LEFT_PAREN, "Expect '(' after " + kind + " name.");
    FunctionParameters(toks, s2, kind, name)
  }

  /** The parameter list of a function declaration after `(`, then its body. */
  function FunctionParameters(toks: seq<Token>, st: PState, kind: string, name: Token): (r: Parsed<Stmt>)
    requires Valid(toks, st)
    ensures Consumes(toks, st, r)
    ensures r.Ok? ==> r.value.Function? && r.value.name == name
    decreases |toks| - st.pos, 45
  {
    var (parameters, s1) :- ParameterList(toks, st);
    var (_, s2) :- Consume(toks, s1, RIGHT_PAREN, "Expect ')' after parameters.");
    FunctionBody(toks, s2, kind, name, parameters)
  }

  /** The parameter names before `)`: none when `)` comes at once. */
  function ParameterList(toks: seq<Token>, st: PState): (r: Parsed<seq<Token>>)
    requires Valid(toks, st)
    ensures Moves(toks, st, r)
  {
    if !Check(toks, st, RIGHT_PAREN) then Parameters(toks, st, []) else Ok([], st)
  }

  /** The braced body of a function declaration, after its parameter list. */
  function FunctionBody(toks: seq<Token>, st: PState, kind: string, name: Token, parameters: seq<Token>): (r: Parsed<Stmt>)
    requires Valid(toks, st)
    ensures Consumes(toks, st, r)
    ensures r.Ok? ==> r.value.Function? && r.value.name == name && r.value.params == parameters
    decreases |toks| - st.pos, 45
  {
    var (_, s1) :- Consume(toks, st, LEFT_BRACE, "Expect '{' before " + kind + " body.");
    var (body, s2) :- BlockRule(toks, s1);
    Ok(Function(name, parameters, body), s2)
  }

  /** The `do ... while (match(COMMA))` loop over parameter names. More than 255 parameters
      is reported but not thrown. */
  function Parameters(toks: seq<Token>, st: PState, done: seq<Token>): (r: Parsed<seq<Token>>)
    requires Valid(toks, st)
    ensures Consumes(toks, st, r)
    decreases |toks| - st.pos
  {
    var s0 := if |done| >= 255 then Report(st, Peek(toks, st), "Cannot have more than 255 parameters.") else st;
    var (name, s1) :- Consume(toks, s0, IDENTIFIER, "Expect parameter name.");
    if Matches(toks, s1, [COMMA]) then Parameters(toks, Advance(toks, s1), done + [name])
    else Ok(done + [name], s1)
  }

  /** A declaration: a failed one is recovered by `Synchronize` and yields `None` (the Java
      `null`). From a token that is not `EOF` it always consumes at least one token. */
  function Declaration(toks: seq<Token>, st: PState): (r: Parsed<Option<Stmt>>)
    requires Valid(toks, st)
    ensures Moves(toks, st, r) && r.Ok?
    ensures !IsAtEnd(toks, st) ==> st.pos < r.st.pos
    decreases |toks| - st.pos, 43
  {
    Recover(toks, DeclarationAttempt(toks, st))
  }

  /** The `try` of `declaration`: a variable or function declaration, or else a statement. */
  function DeclarationAttempt(toks: seq<Token>, st: PState): (r: Parsed<Stmt>)
    requires Valid(toks, st)
    ensures Consumes(toks, st, r)
    decreases |toks| - st.pos, 42
  {
    if Matches(toks, st, [VAR]) then VarDeclaration(toks, Advance(toks, st))
    else if Matches(toks, st, [FUN]) then FunctionDeclaration(toks, Advance(toks, st), "function")
    else Statement(toks, st)
  }

  /** The `catch` of `declaration`: a failed attempt yields no statement and resynchronises
      from the state where the error was thrown. */
  function Recover(toks: seq<Token>, attempt: Parsed<Stmt>): (r: Parsed<Option<Stmt>>)
    requires Valid(toks, attempt.st)
    ensures r.Ok? && Valid(toks, r.st) && attempt.st.pos <= r.st.pos
    ensures attempt.Fail? && !IsAtEnd(toks, attempt.st) ==> attempt.st.pos < r.st.pos
    ensures attempt.Ok? ==> r == Ok(Some(attempt.value), attempt.st)
    ensures attempt.Fail? ==> r == Ok(None, Synchronize(toks, attempt.st))
  {
    match attempt
    case Ok(declaration, s1) => Ok(Some(declaration), s1)
    case Fail(s1) => Ok(None, Synchronize(toks, s1))
  }

  /** Error recovery: skip one token, then tokens up to a statement boundary, which is just
      after a `;`, just before a statement keyword, or at `EOF`. */
  function Synchronize(toks: seq<Token>, st: PState): (r: PState)
    requires Valid(toks, st)
    ensures Valid(toks, r) && r.diagnostics == st.diagnostics && st.pos <= r.pos
    ensures !IsAtEnd(toks, st) ==> st.pos < r.pos
  {
    SkipToBoundary(toks, Advance(toks, st))
  }

  /** The recovery loop: stops at the first boundary. */
  function SkipToBoundary(toks: seq<Token>, st: PState): (r: PState)
    requires Valid(toks, st) && (st.pos > 0 || IsAtEnd(toks, st))
    ensures Valid(toks, r) && r.diagnostics == st.diagnostics && st.pos <= r.pos
    decreases |toks| - st.pos
  {
    if IsAtEnd(toks, st) then st
    else if Previous(toks, st).kind == SEMICOLON then st
    else if Peek(toks, st).kind in StatementStarters then st
    else SkipToBoundary(toks, Advance(toks, st))
  }

  /** `parse`: declarations until `EOF`. */
  function Parse(toks: seq<Token>): (r: (seq<Option<Stmt>>, PState))
    requires ValidTokens(toks)
  {
    ParseFrom(toks, PState(0, []), [])
  }

  /** The loop of `parse`, with the declarations parsed so far. */
  function ParseFrom(toks: seq<Token>, st: PState, done: seq<Option<Stmt>>): (r: (seq<Option<Stmt>>, PState))
    requires Valid(toks, st)
    ensures Valid(toks, r.1) && IsAtEnd(toks, r.1)
    decreases |toks| - st.pos
  {
    if IsAtEnd(toks, st) then (done, st)
    else
      var d := Declaration(toks, st);
      ParseFrom(toks, d.st, done + [d.value])
  }
}
