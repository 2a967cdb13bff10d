/** Properties of the reference parser: how the cursor moves, how error recovery resynchronises,
    that parsing consumes the whole stream, and the shapes of the trees the grammar builds. */
module GrammarFacts {
  import opened Tokens
  import opened Ast
  import opened Grammar

  // ---------------------------------------------------------------------------------------
  // The cursor.

  /** `advance` moves by exactly one token except at `EOF`, where it stays; `match` moves by
      exactly one token when one of its kinds fits and leaves the state alone otherwise;
      `consume` moves by exactly one token and yields it when the kind fits, and otherwise
      reports its message at the current token without moving. */
  lemma CursorSteps(toks: seq<Token>, st: PState, kinds: seq<TokenType>, kind: TokenType, message: string)
    requires Valid(toks, st)
    ensures Advance(toks, st).pos == if IsAtEnd(toks, st) then st.pos else st.pos + 1
    ensures Matches(toks, st, kinds) <==> exists i | 0 <= i < |kinds| :: Check(toks, st, kinds[i])
    ensures Match(toks, st, kinds) == if Matches(toks, st, kinds) then st.(pos := st.pos + 1) else st
    ensures var r := Consume(toks, st, kind, message);
      && (r.Ok? <==> Check(toks, st, kind))
      && (r.Ok? ==> r.value.kind == kind && r.value == toks[st.pos] && r.st == st.(pos := st.pos + 1))
      && (r.Fail? ==> r.st == st.(diagnostics := st.diagnostics + [Diagnostic(toks[st.pos], message)]))
  {
  }

  /** The cursor only rests on `EOF` at the end of the stream. */
  lemma AtEndIsLast(toks: seq<Token>, st: PState)
    requires Valid(toks, st)
    ensures IsAtEnd(toks, st) <==> st.pos == |toks| - 1
  {
  }

  // ---------------------------------------------------------------------------------------
  // Error recovery.

  /** A statement boundary: `EOF`, just after a `;`, or at a keyword that starts a statement. */
  predicate BoundaryAt(toks: seq<Token>, j: nat)
    requires ValidTokens(toks) && j < |toks|
  {
    toks[j].kind == EOF || (j > 0 && toks[j - 1].kind == SEMICOLON) || toks[j].kind in StatementStarters
  }

  /** The recovery loop stops at the first boundary at or after its start. */
  lemma {:induction false} SkipToBoundaryStopsAtFirst(toks: seq<Token>, st: PState)
    requires Valid(toks, st) && (st.pos > 0 || IsAtEnd(toks, st))
    ensures var r := SkipToBoundary(toks, st);
      BoundaryAt(toks, r.pos) && forall j | st.pos <= j < r.pos :: !BoundaryAt(toks, j)
    decreases |toks| - st.pos
  {
    if IsAtEnd(toks, st) || Previous(toks, st).kind == SEMICOLON || Peek(toks, st).kind in StatementStarters {
    } else {
      SkipToBoundaryStopsAtFirst(toks, Advance(toks, st));
    }
  }

  /** `synchronize` always discards the token it starts on (unless it is `EOF`) and then stops
      at the first statement boundary after it, reporting nothing. */
  lemma SynchronizeStopsAtNextBoundary(toks: seq<Token>, st: PState)
    requires Valid(toks, st)
    ensures var r := Synchronize(toks, st);
      && r.diagnostics == st.diagnostics
      && (IsAtEnd(toks, st) ==> r == st)
      && (!IsAtEnd(toks, st) ==>
            st.pos < r.pos && BoundaryAt(toks, r.pos) && forall j | st.pos < j < r.pos :: !BoundaryAt(toks, j))
  {
    SkipToBoundaryStopsAtFirst(toks, Advance(toks, st));
  }

  /** A declaration that fails to parse yields no statement: the parser resynchronises from
      the state where the error was thrown. */
  lemma FailedStatementRecovers(toks: seq<Token>, st: PState, s1: PState)
    requires Valid(toks, st) && !Check(toks, st, VAR) && !Check(toks, st, FUN)
    requires Statement(toks, st) == Fail(s1)
    ensures Declaration(toks, st) == Ok(None, Synchronize(toks, s1))
  {
    StatementIsTheFallback(toks, st);
    FailedAttemptRecovers(toks, st, s1);
  }

  /** What is neither `var` nor `fun` is parsed as a statement. */
  lemma StatementIsTheFallback(toks: seq<Token>, st: PState)
    requires Valid(toks, st) && !Check(toks, st, VAR) && !Check(toks, st, FUN)
    ensures DeclarationAttempt(toks, st) == Statement(toks, st)
  {
    assert !Matches(toks, st, [VAR]) && !Matches(toks, st, [FUN]);
  }

  /** A failed attempt yields no declaration and resynchronises from where it failed. */
  lemma FailedAttemptRecovers(toks: seq<Token>, st: PState, s1: PState)
    requires Valid(toks, st) && DeclarationAttempt(toks, st) == Fail(s1)
    ensures Declaration(toks, st) == Ok(None, Synchronize(toks, s1))
  {
  }

  // ---------------------------------------------------------------------------------------
  // The parse loop.

  /** Every round of the parse loop consumes at least one token, so the loop yields at most one
      declaration per token and keeps the declarations already parsed. */
  lemma {:induction false} ParseFromProgress(toks: seq<Token>, st: PState, done: seq<Option<Stmt>>)
    requires Valid(toks, st)
    ensures var r := ParseFrom(toks, st, done);
      |done| <= |r.0| && r.0[..|done|] == done && |r.0| - |done| <= r.1.pos - st.pos
    decreases |toks| - st.pos
  {
    if !IsAtEnd(toks, st) {
      var d := Declaration(toks, st);
      ParseFromProgress(toks, d.st, done + [d.value]);
      var r := ParseFrom(toks, d.st, done + [d.value]);
      assert r.0[..|done|] == (r.0[..|done| + 1])[..|done|];
    }
  }

  /** `parse` reads the whole stream up to `EOF` and yields at most one declaration (or `None`
      for a failed one) per token before `EOF`. */
  lemma ParseConsumesAll(toks: seq<Token>)
    requires ValidTokens(toks)
    ensures Parse(toks).1.pos == |toks| - 1
    ensures |Parse(toks).0| <= |toks| - 1
  {
    ParseFromProgress(toks, PState(0, []), []);
  }

  // ---------------------------------------------------------------------------------------
  // Precedence and associativity.

  /** Each binary level is left-associative: `a op b op c` is `(a op b) op c`. */
  lemma {:induction false} LeftAssociative(toks: seq<Token>, st: PState, level: Level,
                                           a: Expr, s1: PState, b: Expr, s2: PState, c: Expr, s3: PState)
    requires Valid(toks, st)
    requires Operand(toks, st, level) == Ok(a, s1) && Matches(toks, s1, Operators(level))
    requires Operand(toks, Advance(toks, s1), level) == Ok(b, s2) && Matches(toks, s2, Operators(level))
    requires Operand(toks, Advance(toks, s2), level) == Ok(c, s3)
    ensures BinaryRule(toks, st, level)
         == BinaryTail(toks, s3, level, Combine(level, Combine(level, a, toks[s1.pos], b), toks[s2.pos], c))
  {
    var ab := Combine(level, a, toks[s1.pos], b);
    assert BinaryTail(toks, s1, level, a) == BinaryTail(toks, s2, level, ab);
    assert BinaryTail(toks, s2, level, ab) == BinaryTail(toks, s3, level, Combine(level, ab, toks[s2.pos], c));
  }

  /** One round of a level's loop: the operator and the operand after it are folded into the
      left operand. */
  lemma BinaryTailStep(toks: seq<Token>, st: PState, level: Level, left: Expr, right: Expr, s1: PState)
    requires Valid(toks, st) && Matches(toks, st, Operators(level))
    requires Operand(toks, Advance(toks, st), level) == Ok(right, s1)
    ensures BinaryTail(toks, st, level, left) == BinaryTail(toks, s1, level, Combine(level, left, toks[st.pos], right))
  {
  }

  /** When a level's loop ends, no operator of that level follows; so the operand of the
      multiplication level is never followed by `**`, and the `**` listed among the
      multiplication operators is never matched there. */
  lemma ExponentBindsTighter(toks: seq<Token>, st: PState)
    requires Valid(toks, st)
    ensures var r := Operand(toks, st, MultiplicationLevel);
      r.Ok? ==> !Check(toks, r.st, STAR_STAR)
  {
    assert Operand(toks, st, MultiplicationLevel) == BinaryRule(toks, st, ExponentLevel);
  }

  /** `**` is itself left-nested: `a ** b ** c` is `(a ** b) ** c`, where `b` and `c` are the
      unary operands of the exponent level. Here `st` is at the first `**`, after `a`. */
  lemma ExponentLeftNested(toks: seq<Token>, st: PState, a: Expr, b: Expr, s2: PState, c: Expr, s3: PState)
    requires Valid(toks, st) && Check(toks, st, STAR_STAR)
    requires Operand(toks, Advance(toks, st), ExponentLevel) == Ok(b, s2) && Check(toks, s2, STAR_STAR)
    requires Operand(toks, Advance(toks, s2), ExponentLevel) == Ok(c, s3) && !Check(toks, s3, STAR_STAR)
    ensures BinaryTail(toks, st, ExponentLevel, a)
         == Ok(Binary(Binary(a, toks[st.pos], b), toks[s2.pos], c), s3)
  {
    var ab := Binary(a, toks[st.pos], b);
    var abc := Binary(ab, toks[s2.pos], c);
    assert Operators(ExponentLevel) == [STAR_STAR];
    assert BinaryTail(toks, st, ExponentLevel, a) == BinaryTail(toks, s2, ExponentLevel, ab);
    assert BinaryTail(toks, s2, ExponentLevel, ab) == BinaryTail(toks, s3, ExponentLevel, abc);
  }

  // ---------------------------------------------------------------------------------------
  // Assignment.

  /** An assignment is its left-hand side at the `or` level followed by what comes after it. */
  lemma AssignmentSplits(toks: seq<Token>, st: PState, e: Expr, s1: PState)
    requires Valid(toks, st)
    requires BinaryRule(toks, st, OrLevel) == Ok(e, s1)
    ensures Assignment(toks, st) == AssignmentTail(toks, s1, e)
  {
  }

  /** Assignment is right-associative: `a = b = c` is `a = (b = c)`. Here `st` is at the first
      `=`, after the target `a`. */
  lemma AssignmentRightAssociative(toks: seq<Token>, st: PState, a: Token, b: Token, s2: PState, c: Expr, s3: PState)
    requires Valid(toks, st) && Check(toks, st, EQUAL)
    requires BinaryRule(toks, Advance(toks, st), OrLevel) == Ok(Variable(b), s2) && Check(toks, s2, EQUAL)
    requires Assignment(toks, Advance(toks, s2)) == Ok(c, s3)
    ensures AssignmentTail(toks, st, Variable(a)) == Ok(Assign(a, Assign(b, c)), s3)
  {
    AssignmentSplits(toks, Advance(toks, st), Variable(b), s2);
  }

  /** `x++` is the compound assignment of the literal `1.0` to `x`, keeping the `++` token as
      its operator. */
  lemma PostfixIncrement(toks: seq<Token>, st: PState, x: Token)
    requires Valid(toks, st) && Check(toks, st, PLUS_PLUS)
    ensures AssignmentTail(toks, st, Variable(x))
         == Ok(AssignShorthand(x, toks[st.pos], Literal(NumberLiteral(1.0))), st.(pos := st.pos + 1))
  {
  }

  /** `x--` is the compound assignment of the literal `-1.0` to `x`. */
  lemma PostfixDecrement(toks: seq<Token>, st: PState, x: Token)
    requires Valid(toks, st) && Check(toks, st, MINUS_MINUS)
    ensures AssignmentTail(toks, st, Variable(x))
         == Ok(AssignShorthand(x, toks[st.pos], Literal(NumberLiteral(-1.0))), st.(pos := st.pos + 1))
  {
  }

  /** `x op= e` keeps the variable, the operator token and the whole right-hand side. */
  lemma CompoundAssignment(toks: seq<Token>, st: PState, x: Token, e: Expr, s2: PState)
    requires Valid(toks, st) && Matches(toks, st, CompoundOperators)
    requires Assignment(toks, Advance(toks, st)) == Ok(e, s2)
    ensures AssignmentTail(toks, st, Variable(x)) == Ok(AssignShorthand(x, toks[st.pos], e), s2)
  {
  }

  /** An `=` after anything but a variable is reported at the `=` and does not abort the parse:
      the right-hand side is parsed and dropped, and the left-hand side is the result. */
  lemma InvalidAssignmentTarget(toks: seq<Token>, st: PState, e: Expr, v: Expr, s2: PState)
    requires Valid(toks, st) && !e.Variable? && Check(toks, st, EQUAL)
    requires Assignment(toks, Advance(toks, st)) == Ok(v, s2)
    ensures AssignmentTail(toks, st, e)
         == Ok(e, s2.(diagnostics := s2.diagnostics + [Diagnostic(toks[st.pos], "Invalid assignment target.")]))
  {
  }

  // ---------------------------------------------------------------------------------------
  // Calls.

  /** A call keeps its callee, the closing `)` token and the arguments in source order. */
  lemma CallKeepsArguments(toks: seq<Token>, st: PState, callee: Expr, args: seq<Expr>, s1: PState)
    requires Valid(toks, st) && !Check(toks, st, RIGHT_PAREN)
    requires Arguments(toks, st, []) == Ok(args, s1) && Check(toks, s1, RIGHT_PAREN)
    ensures FinishCall(toks, st, callee) == Ok(Call(callee, toks[s1.pos], args), s1.(pos := s1.pos + 1))
    ensures |args| > 0
  {
    assert Consume(toks, s1, RIGHT_PAREN, "Expect ')' after arguments.") == Ok(toks[s1.pos], Advance(toks, s1));
  }

  // ---------------------------------------------------------------------------------------
  // The `for` loop.

  /** `for (var i = ...; cond; incr) body` becomes
      `{ var i = ...; while (cond) { body; incr; } }`. */
  lemma {:induction false} ForDesugarsToWhile(toks: seq<Token>, st: PState,
      init: Stmt, s2: PState, cond: Expr, s3: PState, incr: Expr, s5: PState, body: Stmt, s7: PState)
    requires Valid(toks, st) && Check(toks, st, LEFT_PAREN)
    requires Check(toks, Advance(toks, st), VAR)
    requires VarDeclaration(toks, Advance(toks, Advance(toks, st))) == Ok(init, s2)
    requires !Check(toks, s2, SEMICOLON) && ExpressionRule(toks, s2) == Ok(cond, s3) && Check(toks, s3, SEMICOLON)
    requires !Check(toks, Advance(toks, s3), RIGHT_PAREN)
    requires ExpressionRule(toks, Advance(toks, s3)) == Ok(incr, s5) && Check(toks, s5, RIGHT_PAREN)
    requires Statement(toks, Advance(toks, s5)) == Ok(body, s7)
    ensures ForStatement(toks, st)
         == Ok(Block([Some(init), Some(While(cond, Block([Some(body), Some(Expression(incr))])))]), s7)
  {
    ForOpensWithDeclaration(toks, st, init, s2);
    ForReadsCondition(toks, s2, Some(init), cond, s3);
    assert OptionalExpression(toks, Advance(toks, s3), RIGHT_PAREN) == Ok(Some(incr), s5);
    ForIncrementFollowsBody(toks, Advance(toks, s3), Some(init), Some(cond), Some(incr), s5, body, s7);
  }

  /** A `for` whose initializer is a variable declaration continues with its condition. */
  lemma ForOpensWithDeclaration(toks: seq<Token>, st: PState, init: Stmt, s2: PState)
    requires Valid(toks, st) && Check(toks, st, LEFT_PAREN)
    requires Check(toks, Advance(toks, st), VAR)
    requires VarDeclaration(toks, Advance(toks, Advance(toks, st))) == Ok(init, s2)
    ensures ForStatement(toks, st) == ForClauses(toks, s2, Some(init))
  {
    var s1 := Advance(toks, st);
    assert !Matches(toks, s1, [SEMICOLON]) && Matches(toks, s1, [VAR]);
    assert Consume(toks, st, LEFT_PAREN, "Expect '(' after 'for'.") == Ok(toks[st.pos], s1);
  }

  /** A present loop condition is read up to its `;`. */
  lemma ForReadsCondition(toks: seq<Token>, st: PState, init: Option<Stmt>, cond: Expr, s1: PState)
    requires Valid(toks, st) && !Check(toks, st, SEMICOLON)
    requires ExpressionRule(toks, st) == Ok(cond, s1) && Check(toks, s1, SEMICOLON)
    ensures ForClauses(toks, st, init) == ForIncrement(toks, s1.(pos := s1.pos + 1), init, Some(cond))
  {
    assert OptionalExpression(toks, st, SEMICOLON) == Ok(Some(cond), s1);
    assert Consume(toks, s1, SEMICOLON, "Expect ';' after loop condition.") == Ok(toks[s1.pos], Advance(toks, s1));
  }

  /** The increment clause, `)` and the body, for any initializer and condition read before
      them and whether or not the increment is present: the loop `ForLoop` builds from them. */
  lemma ForIncrementFollowsBody(toks: seq<Token>, st: PState, init: Option<Stmt>, cond: Option<Expr>,
      incr: Option<Expr>, s1: PState, body: Stmt, s2: PState)
    requires Valid(toks, st)
    requires OptionalExpression(toks, st, RIGHT_PAREN) == Ok(incr, s1) && Check(toks, s1, RIGHT_PAREN)
    requires Statement(toks, Advance(toks, s1)) == Ok(body, s2)
    ensures ForIncrement(toks, st, init, cond) == Ok(ForLoop(init, cond, incr, body), s2)
  {
    assert Consume(toks, s1, RIGHT_PAREN, "Expect ')' after for clauses.") == Ok(toks[s1.pos], Advance(toks, s1));
  }

  /** Every shape of `for` is read in the order of its clauses — the initializer, the optional
      condition up to `;`, the optional increment up to `)`, the body — and desugared by
      `ForLoop`. */
  lemma {:induction false} ForDesugars(toks: seq<Token>, st: PState, init: Option<Stmt>, s2: PState,
      cond: Option<Expr>, s3: PState, incr: Option<Expr>, s5: PState, body: Stmt, s7: PState)
    requires Valid(toks, st) && Check(toks, st, LEFT_PAREN)
    requires ForInitializer(toks, Advance(toks, st)) == Ok(init, s2)
    requires OptionalExpression(toks, s2, SEMICOLON) == Ok(cond, s3) && Check(toks, s3, SEMICOLON)
    requires OptionalExpression(toks, Advance(toks, s3), RIGHT_PAREN) == Ok(incr, s5) && Check(toks, s5, RIGHT_PAREN)
    requires Statement(toks, Advance(toks, s5)) == Ok(body, s7)
    ensures ForStatement(toks, st) == Ok(ForLoop(init, cond, incr, body), s7)
  {
    assert Consume(toks, st, LEFT_PAREN, "Expect '(' after 'for'.") == Ok(toks[st.pos], Advance(toks, st));
    assert Consume(toks, s3, SEMICOLON, "Expect ';' after loop condition.") == Ok(toks[s3.pos], Advance(toks, s3));
    assert ForClauses(toks, s2, init) == ForIncrement(toks, Advance(toks, s3), init, cond);
    ForIncrementFollowsBody(toks, Advance(toks, s3), init, cond, incr, s5, body, s7);
  }

  /** A `for` initializer that starts with neither `;` nor `var` is an expression statement:
      whatever that statement's parse gives, wrapped in `Some` on success. */
  lemma ForExpressionInitializer(toks: seq<Token>, st: PState)
    requires Valid(toks, st) && !Check(toks, st, SEMICOLON) && !Check(toks, st, VAR)
    ensures ForInitializer(toks, st) == AsSome(ExpressionStatement(toks, st))
  {
    assert !Matches(toks, st, [SEMICOLON]) && !Matches(toks, st, [VAR]);
  }

  /** A missing condition loops on `true`; a present one is the loop's test. */
  lemma ForConditionDefaultsToTrue(cond: Option<Expr>, incr: Option<Expr>, body: Stmt)
    ensures ForLoop(None, cond, incr, body).While?
    ensures cond.None? ==> ForLoop(None, cond, incr, body).condition == Literal(BoolLiteral(true))
    ensures cond.Some? ==> ForLoop(None, cond, incr, body).condition == cond.value
  {
  }

  /** A present increment runs after the body in a block of the two; a missing one leaves the
      body alone as the loop's body. */
  lemma ForIncrementEndsBody(cond: Option<Expr>, incr: Option<Expr>, body: Stmt)
    ensures incr.Some? ==> ForLoop(None, cond, incr, body).body == Block([Some(body), Some(Expression(incr.value))])
    ensures incr.None? ==> ForLoop(None, cond, incr, body).body == body
  {
  }

  /** A present initializer runs once before the loop, in a block of the two; a missing one
      leaves the loop without an enclosing block. */
  lemma ForInitializerOpensBlock(init: Option<Stmt>, cond: Option<Expr>, incr: Option<Expr>, body: Stmt)
    ensures init.Some? ==> ForLoop(init, cond, incr, body) == Block([init, Some(ForLoop(None, cond, incr, body))])
    ensures init.None? ==> ForLoop(init, cond, incr, body) == ForLoop(None, cond, incr, body)
  {
  }

  /** `for (;;) body` becomes `while (true) body`, with no enclosing block. */
  lemma {:induction false} EmptyForLoopsForever(toks: seq<Token>, st: PState, body: Stmt, s: PState)
    requires Valid(toks, st) && Check(toks, st, LEFT_PAREN)
    requires Check(toks, Advance(toks, st), SEMICOLON)
    requires Check(toks, Advance(toks, Advance(toks, st)), SEMICOLON)
    requires Check(toks, Advance(toks, Advance(toks, Advance(toks, st))), RIGHT_PAREN)
    requires Statement(toks, Advance(toks, Advance(toks, Advance(toks, Advance(toks, st))))) == Ok(body, s)
    ensures ForStatement(toks, st) == Ok(While(Literal(BoolLiteral(true)), body), s)
  {
    var s1 := Advance(toks, st);
    var s2 := Advance(toks, s1);
    var s3 := Advance(toks, s2);
    assert Consume(toks, st, LEFT_PAREN, "Expect '(' after 'for'.") == Ok(toks[st.pos], s1);
    assert Matches(toks, s1, [SEMICOLON]);
    assert Consume(toks, s2, SEMICOLON, "Expect ';' after loop condition.") == Ok(toks[s2.pos], s3);
    assert ForClauses(toks, s2, None) == ForIncrement(toks, s3, None, None);
  }

  // ---------------------------------------------------------------------------------------
  // The statement ternary.

  /** An expression followed by `?` starts a statement ternary. */
  lemma QuestionStartsTernary(toks: seq<Token>, st: PState, cond: Expr, s1: PState)
    requires Valid(toks, st)
    requires ExpressionRule(toks, st) == Ok(cond, s1) && Check(toks, s1, TERNARY)
    ensures ExpressionStatement(toks, st) == TernaryStatement(toks, Advance(toks, s1), cond)
  {
  }

  /** A ternary branch that does not start with `print` is an expression closed by `terminator`,
      and a parse error reported at the first token after the expression when it is not. */
  lemma ExpressionBranch(toks: seq<Token>, st: PState, terminator: TokenType, message: string, a: Expr, s2: PState)
    requires Valid(toks, st) && !Check(toks, st, PRINT)
    requires ExpressionRule(toks, st) == Ok(a, s2)
    ensures Check(toks, s2, terminator) ==>
      TernaryBranch(toks, st, terminator, message) == Ok(Expression(a), s2.(pos := s2.pos + 1))
    ensures !Check(toks, s2, terminator) ==>
      TernaryBranch(toks, st, terminator, message)
      == Fail(s2.(diagnostics := s2.diagnostics + [Diagnostic(toks[s2.pos], message)]))
  {
    assert !Matches(toks, st, [PRINT]);
  }

  /** `cond ? print a : print b;` is a ternary of two print statements; `st` is after `?`. */
  lemma TernaryOfPrints(toks: seq<Token>, st: PState, cond: Expr, t: Stmt, s2: PState, f: Stmt, s3: PState)
    requires Valid(toks, st) && Check(toks, st, PRINT)
    requires PrintStatement(toks, Advance(toks, st)) == Ok(t, s2)
    requires Check(toks, s2, PRINT) && PrintStatement(toks, Advance(toks, s2)) == Ok(f, s3)
    ensures TernaryStatement(toks, st, cond) == Ok(Ternary(cond, t, f), s3)
    ensures t.Print? && f.Print?
  {
    assert TernaryBranch(toks, st, TERNARY_ELSE, "Expected ':' after statement.") == Ok(t, s2);
    assert TernaryBranch(toks, s2, SEMICOLON, "Expect ';' after expression.") == Ok(f, s3);
  }

  /** `cond ? a : b;` is a ternary of two expression statements; `st` is after `?`. */
  lemma TernaryOfExpressions(toks: seq<Token>, st: PState, cond: Expr, a: Expr, s2: PState, b: Expr, s3: PState)
    requires Valid(toks, st) && !Check(toks, st, PRINT)
    requires ExpressionRule(toks, st) == Ok(a, s2) && Check(toks, s2, TERNARY_ELSE)
    requires !Check(toks, Advance(toks, s2), PRINT)
    requires ExpressionRule(toks, Advance(toks, s2)) == Ok(b, s3) && Check(toks, s3, SEMICOLON)
    ensures TernaryStatement(toks, st, cond)
         == Ok(Ternary(cond, Expression(a), Expression(b)), s3.(pos := s3.pos + 1))
  {
    ExpressionBranch(toks, st, TERNARY_ELSE, "Expected ':' after statement.", a, s2);
    ExpressionBranch(toks, Advance(toks, s2), SEMICOLON, "Expect ';' after expression.", b, s3);
  }

  /** A true branch that is not followed by `:` is a parse error reported at that token. */
  lemma TernaryNeedsElse(toks: seq<Token>, st: PState, cond: Expr, a: Expr, s2: PState)
    requires Valid(toks, st) && !Check(toks, st, PRINT)
    requires ExpressionRule(toks, st) == Ok(a, s2) && !Check(toks, s2, TERNARY_ELSE)
    ensures TernaryStatement(toks, st, cond)
         == Fail(s2.(diagnostics := s2.diagnostics + [Diagnostic(toks[s2.pos], "Expected ':' after statement.")]))
  {
    ExpressionBranch(toks, st, TERNARY_ELSE, "Expected ':' after statement.", a, s2);
  }
}
