/** The recursive-descent parser as a class over a cursor into the token list. Every method is
    proved to compute the matching `Grammar` function: its result, paired with the parser's
    new state, is what the function returns for the state the method started in. A method
    returns `None` exactly where the Java parser throws its `ParseError`. */
module Parsing {
  import opened Tokens
  import opened Ast
  import G = Grammar
  import GrammarFacts

  /** A method's result and the parser state after it, as a grammar outcome. */
  function Join<T>(r: Option<T>, st: G.PState): (p: G.Parsed<T>)
    ensures p.st == st && (p.Ok? <==> r.Some?)
    ensures r.Some? ==> p.value == r.value
  {
    if r.Some? then G.Ok(r.value, st) else G.Fail(st)
  }

  class Parser {
    const tokens: seq<Token>
    /** The index of the next token to read. */
    var current: nat
    /** The diagnostics reported so far (the Java parser hands them to `Lox.error`). */
    var diagnostics: seq<G.Diagnostic>

    function State(): G.PState
      reads this
    {
      G.PState(current, diagnostics)
    }

    predicate Valid()
      reads this
    {
      G.Valid(tokens, State())
    }

    constructor(tokens: seq<Token>)
      requires ValidTokens(tokens)
      ensures this.tokens == tokens && State() == G.PState(0, []) && Valid()
    {
      this.tokens := tokens;
      current := 0;
      diagnostics := [];
    }

    // -------------------------------------------------------------------------------------
    // Cursor operations.

    method Advance()
      requires Valid()
      modifies this
      ensures Valid() && State() == G.Advance(tokens, old(State()))
    {
      if tokens[current].kind != EOF {
        current := current + 1;
      }
    }

    method Match(kinds: seq<TokenType>) returns (matched: bool)
      requires Valid()
      modifies this
      ensures Valid() && matched == G.Matches(tokens, old(State()), kinds)
      ensures State() == G.Match(tokens, old(State()), kinds)
    {
      for i := 0 to |kinds|
        invariant State() == old(State())
        invariant forall j | 0 <= j < i :: !G.Check(tokens, State(), kinds[j])
      {
        if G.Check(tokens, State(), kinds[i]) {
          Advance();
          return true;
        }
      }
      return false;
    }

    method Consume(kind: TokenType, message: string) returns (r: Option<Token>)
      requires Valid()
      modifies this
      ensures Valid() && Join(r, State()) == G.Consume(tokens, old(State()), kind, message)
    {
      if G.Check(tokens, State(), kind) {
        Advance();
        return Some(tokens[current - 1]);
      }
      Error(tokens[current], message);
      return None;
    }

    /** Reports a syntax error; the caller decides whether to abandon the rule. */
    method Error(token: Token, message: string)
      modifies this
      ensures State() == G.Report(old(State()), token, message)
    {
      diagnostics := diagnostics + [G.Diagnostic(token, message)];
    }

    /** Error recovery: discards tokens up to the next statement boundary. */
    method Synchronize()
      requires Valid()
      modifies this
      ensures Valid() && State() == G.Synchronize(tokens, old(State()))
    {
      Advance();
      while tokens[current].kind != EOF
        invariant Valid() && (current > 0 || G.IsAtEnd(tokens, State()))
        invariant G.SkipToBoundary(tokens, State()) == G.Synchronize(tokens, old(State()))
        decreases |tokens| - current
      {
        if tokens[current - 1].kind == SEMICOLON {
          return;
        }
        if tokens[current].kind in StatementStarters {
          return;
        }
        Advance();
      }
    }

    // -------------------------------------------------------------------------------------
    // The parse loop and declarations.

    method Parse() returns (statements: seq<Option<Stmt>>)
      requires Valid()
      modifies this
      ensures Valid() && (statements, State()) == G.ParseFrom(tokens, old(State()), [])
    {
      statements := [];
      while tokens[current].kind != EOF
        invariant Valid()
        invariant G.ParseFrom(tokens, State(), statements) == G.ParseFrom(tokens, old(State()), [])
        decreases |tokens| - current
      {
        var declaration := Declaration();
        statements := statements + [declaration];
      }
    }

    method Declaration() returns (d: Option<Stmt>)
      requires Valid()
      modifies this
      ensures Valid() && G.Ok(d, State()) == G.Declaration(tokens, old(State()))
      decreases |tokens| - current, 43
    {
      var attempt: Option<Stmt>;
      var isVar := Match([VAR]);
      if isVar {
        attempt := VarDeclaration();
      } else {
        var isFun := Match([FUN]);
        if isFun {
          attempt := FunctionDeclaration("function");
        } else {
          attempt := Statement();
        }
      }
      if attempt.None? {
        Synchronize();
      }
      return attempt;
    }

    method FunctionDeclaration(kind: string) returns (r: Option<Stmt>)
      requires Valid()
      modifies this
      ensures Valid() && Join(r, State()) == G.FunctionDeclaration(tokens, old(State()), kind)
      decreases |tokens| - current, 45
    {
      var name :- Consume(IDENTIFIER, "Expect " + kind + " name.");
      var leftParen :- Consume(LEFT_PAREN, "Expect '(' after " + kind + " name.");
      r := FunctionParameters(kind, name);
    }

    /** The parameter list of a function declaration after `(`, then its body. */
    method FunctionParameters(kind: string, name: Token) returns (r: Option<Stmt>)
      requires Valid()
      modifies this
      ensures Valid() && Join(r, State()) == G.FunctionParameters(tokens, old(State()), kind, name)
      decreases |tokens| - current, 45
    {
      var parameters :- ParameterList();
      var rightParen :- Consume(RIGHT_PAREN, "Expect ')' after parameters.");
      r := FunctionBody(kind, name, parameters);
    }

    /** The braced body of a function declaration, after its parameter list. */
    method FunctionBody(kind: string, name: Token, parameters: seq<Token>) returns (r: Option<Stmt>)
      requires Valid()
      modifies this
      ensures Valid() && Join(r, State()) == G.FunctionBody(tokens, old(State()), kind, name, parameters)
      decreases |tokens| - current, 45
    {
      var leftBrace :- Consume(LEFT_BRACE, "Expect '{' before " + kind + " body.");
      var body :- BlockRule();
      return Some(Function(name, parameters, body));
    }

    /** The parameter names before `)`: the `do ... while (match(COMMA))` loop unless `)` comes
        at once. */
    method ParameterList() returns (r: Option<seq<Token>>)
      requires Valid()
      modifies this
      ensures Valid() && Join(r, State()) == G.ParameterList(tokens, old(State()))
    {
      if G.Check(tokens, State(), RIGHT_PAREN) {
        return Some([]);
      }
      var parameters: seq<Token> := [];
      var more := true;
      while more
        invariant Valid() && old(current) <= current
        invariant more ==> G.Parameters(tokens, old(State()), []) == G.Parameters(tokens, State(), parameters)
        invariant !more ==> G.Parameters(tokens, old(State()), []) == G.Ok(parameters, State())
        decreases |tokens| - current, if more then 1 else 0
      {
        if |parameters| >= 255 {
          Error(tokens[current], "Cannot have more than 255 parameters.");
        }
        var parameter :- Consume(IDENTIFIER, "Expect parameter name.");
        parameters := parameters + [parameter];
        more := Match([COMMA]);
      }
      return Some(parameters);
    }

    method VarDeclaration() returns (r: Option<Stmt>)
      requires Valid()
      modifies this
      ensures Valid() && Join(r, State()) == G.VarDeclaration(tokens, old(State()))
      decreases |tokens| - current, 34
    {
      var name :- Consume(IDENTIFIER, "Expect variable name.");
      var initializer :- VarInitializer();
      var semicolon :- Consume(SEMICOLON, "Expect ';' after variable declaration.");
      return Some(Var(name, initializer));
    }

    /** The optional `= value` of a variable declaration. */
    method VarInitializer() returns (r: Option<Option<Expr>>)
      requires Valid()
      modifies this
      ensures Valid() && Join(r, State()) == G.VarInitializer(tokens, old(State()))
      decreases |tokens| - current, 20
    {
      var hasInitializer := Match([EQUAL]);
      if !hasInitializer {
        return Some(None);
      }
      var value :- ExpressionRule();
      return Some(Some(value));
    }

    // -------------------------------------------------------------------------------------
    // Statements.

    method Statement() returns (r: Option<Stmt>)
      requires Valid()
      modifies this
      ensures Valid() && Join(r, State()) == G.Statement(tokens, old(State()))
      decreases |tokens| - current, 40
    {
      var m := Match([FOR]);
      if m { r := ForStatement(); return; }
      m := Match([IF]);
      if m { r := IfStatement(); return; }
      m := Match([PRINT]);
      if m { r := PrintStatement(); return; }
      m := Match([RETURN]);
      if m { r := ReturnStatement(); return; }
      m := Match([LEFT_BRACE]);
      if m {
        var statements :- BlockRule();
        return Some(Block(statements));
      }
      m := Match([WHILE]);
      if m { r := WhileStatement(); return; }
      m := Match([DO]);
      if m { r := DoWhileStatement(); return; }
      r := ExpressionStatement();
    }

    /** `return [value];`, just after the `return` keyword. */
    method ReturnStatement() returns (r: Option<Stmt>)
      requires Valid() && current > 0
      modifies this
      ensures Valid() && Join(r, State()) == G.ReturnStatement(tokens, old(State()), tokens[old(current) - 1])
      decreases |tokens| - current, 34
    {
      var keyword := tokens[current - 1];
      var value :- OptionalExpression(SEMICOLON);
      var semicolon :- Consume(SEMICOLON, "Expect ';' after return value.");
      return Some(Return(keyword, value));
    }

    method DoWhileStatement() returns (r: Option<Stmt>)
      requires Valid()
      modifies this
      ensures Valid() && Join(r, State()) == G.DoWhileStatement(tokens, old(State()))
      decreases |tokens| - current, 41
    {
      var body :- Statement();
      var keyword :- Consume(WHILE, "Expected 'while' after do.");
      var leftParen :- Consume(LEFT_PAREN, "Expected '(' after while.");
      var condition :- ExpressionRule();
      var rightParen :- Consume(RIGHT_PAREN, "Expected ')' after condition.");
      var semicolon :- Consume(SEMICOLON, "Expected ';' after condition.");
      return Some(DoWhile(condition, body));
    }

    method ForStatement() returns (r: Option<Stmt>)
      requires Valid()
      modifies this
      ensures Valid() && Join(r, State()) == G.ForStatement(tokens, old(State()))
      decreases |tokens| - current, 41
    {
      var leftParen :- Consume(LEFT_PAREN, "Expect '(' after 'for'.");
      var initializer :- ForInitializer();
      r := ForClauses(initializer);
    }

    /** The first clause of a `for`, with its `;`. */
    method ForInitializer() returns (r: Option<Option<Stmt>>)
      requires Valid()
      modifies this
      ensures Valid() && Join(r, State()) == G.ForInitializer(tokens, old(State()))
      decreases |tokens| - current, 35
    {
      var m := Match([SEMICOLON]);
      if m {
        return Some(None);
      }
      m := Match([VAR]);
      if m {
        var declaration :- VarDeclaration();
        return Some(Some(declaration));
      }
      var statement :- ExpressionStatement();
      return Some(Some(statement));
    }

    /** The rest of a `for` after its initializer, desugared into a `while` loop. */
    method ForClauses(initializer: Option<Stmt>) returns (r: Option<Stmt>)
      requires Valid()
      modifies this
      ensures Valid() && Join(r, State()) == G.ForClauses(tokens, old(State()), initializer)
      decreases |tokens| - current, 41
    {
      var condition :- OptionalExpression(SEMICOLON);
      var semicolon :- Consume(SEMICOLON, "Expect ';' after loop condition.");
      r := ForIncrement(initializer, condition);
    }

    /** The increment clause and the body of a `for`, then the desugaring into `while`. */
    method ForIncrement(initializer: Option<Stmt>, condition: Option<Expr>) returns (r: Option<Stmt>)
      requires Valid()
      modifies this
      ensures Valid() && Join(r, State()) == G.ForIncrement(tokens, old(State()), initializer, condition)
      decreases |tokens| - current, 41
    {
      var increment :- OptionalExpression(RIGHT_PAREN);
      var rightParen :- Consume(RIGHT_PAREN, "Expect ')' after for clauses.");
      var body :- Statement();
      return Some(G.ForLoop(initializer, condition, increment, body));
    }

    /** An expression unless the next token is `terminator`, which is left for the caller. */
    method OptionalExpression(terminator: TokenType) returns (r: Option<Option<Expr>>)
      requires Valid()
      modifies this
      ensures Valid() && Join(r, State()) == G.OptionalExpression(tokens, old(State()), terminator)
      decreases |tokens| - current, 20
    {
      if G.Check(tokens, State(), terminator) {
        return Some(None);
      }
      var e :- ExpressionRule();
      return Some(Some(e));
    }

    method WhileStatement() returns (r: Option<Stmt>)
      requires Valid()
      modifies this
      ensures Valid() && Join(r, State()) == G.WhileStatement(tokens, old(State()))
      decreases |tokens| - current, 41
    {
      var leftParen :- Consume(LEFT_PAREN, "Expect '(' after 'while'.");
      var condition :- ExpressionRule();
      var rightParen :- Consume(RIGHT_PAREN, "Expect ')' after condition.");
      var body :- Statement();
      return Some(While(condition, body));
    }

    method IfStatement() returns (r: Option<Stmt>)
      requires Valid()
      modifies this
      ensures Valid() && Join(r, State()) == G.IfStatement(tokens, old(State()))
      decreases |tokens| - current, 41
    {
      var leftParen :- Consume(LEFT_PAREN, "Expect '(' after 'if'.");
      var condition :- ExpressionRule();
      var rightParen :- Consume(RIGHT_PAREN, "Expect ')' after if condition.");
      var thenBranch :- Statement();
      var elseBranch: Option<Stmt> := None;
      var hasElse := Match([ELSE]);
      if hasElse {
        var otherwise :- Statement();
        elseBranch := Some(otherwise);
      }
      return Some(If(condition, thenBranch, elseBranch));
    }

    /** The declarations of a block, after `{`, and the closing `}`. */
    method BlockRule() returns (r: Option<seq<Option<Stmt>>>)
      requires Valid()
      modifies this
      ensures Valid() && Join(r, State()) == G.BlockRule(tokens, old(State()))
      decreases |tokens| - current, 45
    {
      var statements: seq<Option<Stmt>> := [];
      while !G.Check(tokens, State(), RIGHT_BRACE) && tokens[current].kind != EOF
        invariant Valid() && old(current) <= current
        invariant G.BlockBody(tokens, State(), statements) == G.BlockBody(tokens, old(State()), [])
        decreases |tokens| - current
      {
        var declaration := Declaration();
        statements := statements + [declaration];
      }
      var rightBrace :- Consume(RIGHT_BRACE, "Expect '}' after block.");
      return Some(statements);
    }

    method ExpressionStatement() returns (r: Option<Stmt>)
      requires Valid()
      modifies this
      ensures Valid() && Join(r, State()) == G.ExpressionStatement(tokens, old(State()))
      decreases |tokens| - current, 33
    {
      var expr :- ExpressionRule();
      var isTernary := Match([TERNARY]);
      if isTernary {
        r := TernaryStatement(expr);
        return;
      }
      var semicolon :- Consume(SEMICOLON, "Expect ';' after expression.");
      return Some(Expression(expr));
    }

    /** The statement ternary, after `condition ?`. */
    method TernaryStatement(condition: Expr) returns (r: Option<Stmt>)
      requires Valid()
      modifies this
      ensures Valid() && Join(r, State()) == G.TernaryStatement(tokens, old(State()), condition)
      decreases |tokens| - current, 33
    {
      var ifTrue :- TernaryBranch(TERNARY_ELSE, "Expected ':' after statement.");
      var ifFalse :- TernaryBranch(SEMICOLON, "Expect ';' after expression.");
      return Some(Ternary(condition, ifTrue, ifFalse));
    }

    /** A branch of the statement ternary: a print, or an expression closed by `terminator`. */
    method TernaryBranch(terminator: TokenType, message: string) returns (r: Option<Stmt>)
      requires Valid()
      modifies this
      ensures Valid() && Join(r, State()) == G.TernaryBranch(tokens, old(State()), terminator, message)
      decreases |tokens| - current, 32
    {
      var m := Match([PRINT]);
      if m {
        r := PrintStatement();
        return;
      }
      r := BranchExpression(terminator, message);
    }

    /** An expression statement closed by `terminator`. */
    method BranchExpression(terminator: TokenType, message: string) returns (r: Option<Stmt>)
      requires Valid()
      modifies this
      ensures Valid() && Join(r, State()) == G.BranchExpression(tokens, old(State()), terminator, message)
      decreases |tokens| - current, 31
    {
      var e :- ExpressionRule();
      var closing :- Consume(terminator, message);
      return Some(Expression(e));
    }

    method PrintStatement() returns (r: Option<Stmt>)
      requires Valid()
      modifies this
      ensures Valid() && Join(r, State()) == G.PrintStatement(tokens, old(State()))
      decreases |tokens| - current, 30
    {
      var value :- ExpressionRule();
      var m := Match([TERNARY_ELSE]);
      if m {
        return Some(Print(value));
      }
      var semicolon :- Consume(SEMICOLON, "Expect ';' after value.");
      return Some(Print(value));
    }

    // -------------------------------------------------------------------------------------
    // Expressions.

    method ExpressionRule() returns (r: Option<Expr>)
      requires Valid()
      modifies this
      ensures Valid() && Join(r, State()) == G.ExpressionRule(tokens, old(State()))
      decreases |tokens| - current, 19
    {
      r := Assignment();
    }

    method Assignment() returns (r: Option<Expr>)
      requires Valid()
      modifies this
      ensures Valid() && Join(r, State()) == G.Assignment(tokens, old(State()))
      decreases |tokens| - current, 18
    {
      ghost var s0 := State();
      var expr :- BinaryRule(G.OrLevel);
      ghost var s1 := State();
      GrammarFacts.AssignmentSplits(tokens, s0, expr, s1);
      var m := Match([EQUAL]);
      if m {
        var equals := tokens[current - 1];
        var value :- Assignment();
        if expr.Variable? {
          return Some(Assign(expr.name, value));
        }
        Error(equals, "Invalid assignment target.");
        return Some(expr);
      }
      m := Match(CompoundOperators);
      if m {
        var operator := tokens[current - 1];
        var value :- Assignment();
        if expr.Variable? {
          return Some(AssignShorthand(expr.name, operator, value));
        }
        Error(operator, "Invalid assignment target.");
        return Some(expr);
      }
      m := Match([PLUS_PLUS]);
      if m {
        var operator := tokens[current - 1];
        if expr.Variable? {
          return Some(AssignShorthand(expr.name, operator, Literal(NumberLiteral(1.0))));
        }
        Error(operator, "Invalid assignment target.");
        return Some(expr);
      }
      m := Match([MINUS_MINUS]);
      if m {
        var operator := tokens[current - 1];
        if expr.Variable? {
          return Some(AssignShorthand(expr.name, operator, Literal(NumberLiteral(-1.0))));
        }
        Error(operator, "Invalid assignment target.");
        return Some(expr);
      }
      return Some(expr);
    }

    /** The operand of a binary level: the next level, or `unary` below `**`. */
    method Operand(level: G.Level) returns (r: Option<Expr>)
      requires Valid()
      modifies this
      ensures Valid() && Join(r, State()) == G.Operand(tokens, old(State()), level)
      decreases |tokens| - current, G.Rank(level) - 1
    {
      if level == G.ExponentLevel {
        r := UnaryRule();
      } else {
        r := BinaryRule(G.Tighter(level));
      }
    }

    /** One of `or`, `and`, `equality`, `comparison`, `addition`, `multiplication` and
        `exponent`: an operand, then the loop that folds further operands to the left. */
    method BinaryRule(level: G.Level) returns (r: Option<Expr>)
      requires Valid()
      modifies this
      ensures Valid() && Join(r, State()) == G.BinaryRule(tokens, old(State()), level)
      decreases |tokens| - current, G.Rank(level)
    {
      var expr :- Operand(level);
      r := BinaryLoop(level, expr);
    }

    /** The `while (match(...))` loop of a binary level, with `expr` the tree built so far. */
    method BinaryLoop(level: G.Level, expr: Expr) returns (r: Option<Expr>)
      requires Valid()
      modifies this
      ensures Valid() && Join(r, State()) == G.BinaryTail(tokens, old(State()), level, expr)
      decreases |tokens| - current, G.Rank(level) - 2
    {
      var left := expr;
      while true
        invariant Valid() && old(current) <= current
        invariant G.BinaryTail(tokens, State(), level, left) == G.BinaryTail(tokens, old(State()), level, expr)
        decreases |tokens| - current
      {
        ghost var before := State();
        var m := Match(G.Operators(level));
        if !m {
          assert G.BinaryTail(tokens, before, level, left) == G.Ok(left, State());
          break;
        }
        var operator := tokens[current - 1];
        assert operator == G.Peek(tokens, before) && State() == G.Advance(tokens, before);
        var right := Operand(level);
        if right.None? {
          assert G.BinaryTail(tokens, before, level, left) == G.Fail(State());
          return None;
        }
        GrammarFacts.BinaryTailStep(tokens, before, level, left, right.value, State());
        left := G.Combine(level, left, operator, right.value);
      }
      return Some(left);
    }

    method UnaryRule() returns (r: Option<Expr>)
      requires Valid()
      modifies this
      ensures Valid() && Join(r, State()) == G.UnaryRule(tokens, old(State()))
      decreases |tokens| - current, 3
    {
      var m := Match([BANG, MINUS]);
      if m {
        var operator := tokens[current - 1];
        var right :- UnaryRule();
        return Some(Unary(operator, right));
      }
      r := CallRule();
    }

    method CallRule() returns (r: Option<Expr>)
      requires Valid()
      modifies this
      ensures Valid() && Join(r, State()) == G.CallRule(tokens, old(State()))
      decreases |tokens| - current, 2
    {
      var expr :- Primary();
      while true
        invariant Valid() && old(current) < current
        invariant G.CallTail(tokens, State(), expr) == G.CallRule(tokens, old(State()))
        decreases |tokens| - current
      {
        var m := Match([LEFT_PAREN]);
        if !m {
          break;
        }
        expr :- FinishCall(expr);
      }
      return Some(expr);
    }

    /** The arguments of a call, after `(`, and the closing `)`. */
    method FinishCall(callee: Expr) returns (r: Option<Expr>)
      requires Valid()
      modifies this
      ensures Valid() && Join(r, State()) == G.FinishCall(tokens, old(State()), callee)
      decreases |tokens| - current, 22
    {
      var arguments :- ArgumentList();
      var paren :- Consume(RIGHT_PAREN, "Expect ')' after arguments.");
      return Some(Call(callee, paren, arguments));
    }

    /** The arguments before `)`: the `do ... while (match(COMMA))` loop unless `)` comes at once. */
    method ArgumentList() returns (r: Option<seq<Expr>>)
      requires Valid()
      modifies this
      ensures Valid() && Join(r, State()) == G.ArgumentList(tokens, old(State()))
      decreases |tokens| - current, 21
    {
      if G.Check(tokens, State(), RIGHT_PAREN) {
        return Some([]);
      }
      var arguments: seq<Expr> := [];
      var more := true;
      while more
        invariant Valid() && old(current) <= current
        invariant more && arguments != [] ==> old(current) < current
        invariant more ==> G.Arguments(tokens, old(State()), []) == G.Arguments(tokens, State(), arguments)
        invariant !more ==> G.Arguments(tokens, old(State()), []) == G.Ok(arguments, State())
        decreases |tokens| - current, if more then 1 else 0
      {
        if |arguments| >= 255 {
          Error(tokens[current], "Cannot have more than 255 arguments.");
        }
        var argument :- ExpressionRule();
        arguments := arguments + [argument];
        more := Match([COMMA]);
      }
      return Some(arguments);
    }

    method Primary() returns (r: Option<Expr>)
      requires Valid()
      modifies this
      ensures Valid() && Join(r, State()) == G.Primary(tokens, old(State()))
      decreases |tokens| - current, 0
    {
      var m := Match([FALSE]);
      if m { return Some(Literal(BoolLiteral(false))); }
      m := Match([TRUE]);
      if m { return Some(Literal(BoolLiteral(true))); }
      m := Match([NIL]);
      if m { return Some(Literal(NilLiteral)); }
      m := Match([NUMBER, STRING]);
      if m { return Some(Literal(tokens[current - 1].literal)); }
      m := Match([LEFT_PAREN]);
      if m {
        var expr :- ExpressionRule();
        var rightParen :- Consume(RIGHT_PAREN, "Expect ')' after expression.");
        return Some(Grouping(expr));
      }
      m := Match([IDENTIFIER]);
      if m { return Some(Variable(tokens[current - 1])); }
      Error(tokens[current], "Expect expression.");
      return None;
    }
  }
}
