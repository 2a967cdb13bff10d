/** Properties of the evaluator and of statement execution. */
module SemanticsFacts {
  import opened Tokens
  import opened Ast
  import opened Values
  import opened Environments
  import opened Semantics
  import Grammar

  // ---------------------------------------------------------------------------------------
  // Expressions.

  /** `or` and `and` yield the operand that decides them: the left one when it settles the
      outcome (truthy for `or`, falsy for `and`), and otherwise the right one, which is then
      evaluated in the state the left one left behind. */
  lemma LogicalYieldsDecidingOperand(cfg: Config, e: Expr, st: State)
    requires e.Logical? && st.Valid()
    ensures var left := Eval(cfg, e.left, st);
      && (left.result.Err? ==> Eval(cfg, e, st) == left)
      && (left.result.Ok? && (e.operator.kind == OR <==> IsTruthy(left.result.value)) ==> Eval(cfg, e, st) == left)
      && (left.result.Ok? && (e.operator.kind == OR <==> !IsTruthy(left.result.value)) ==>
            Eval(cfg, e, st) == Eval(cfg, e.right, left.state))
  {
  }

  /** A left operand that evaluates to a truthy value short-circuits `or`, and one that
      evaluates to a falsy value short-circuits `and`: the result is the left operand's, and the
      right operand is never evaluated, whatever it would do. */
  lemma ShortCircuit(cfg: Config, left: Expr, operator: Token, right: Expr, st: State)
    requires st.Valid()
    requires Eval(cfg, left, st).result.Ok?
    requires operator.kind == OR <==> IsTruthy(Eval(cfg, left, st).result.value)
    ensures Eval(cfg, Logical(left, operator, right), st) == Eval(cfg, left, st)
  {
    assert Logical(left, operator, right).left == left;
  }

  /** An assignment expression yields the assigned value, which the name then reads back as;
      assigning to a name that is not declared raises "Undefined variable" and changes nothing
      beyond what evaluating the value changed. */
  lemma AssignmentReadsBack(cfg: Config, e: Expr, st: State)
    requires e.Assign? && st.Valid()
    ensures var value := Eval(cfg, e.value, st);
      var r := Eval(cfg, e, st);
      && (value.result.Ok? && Get(value.state.frames, st.env, e.name).Ok? ==>
            r.result == value.result && Get(r.state.frames, st.env, e.name) == value.result)
      && (value.result.Ok? && Get(value.state.frames, st.env, e.name).Err? ==>
            r == Evaluated(Err(RuntimeError(e.name, UndefinedVariable(e.name.lexeme))), value.state))
  {
    var value := Eval(cfg, e.value, st);
    if value.result.Ok? {
      GetAfterAssign(value.state.frames, st.env, e.name, value.result.value);
    }
  }

  /** A compound assignment on two numbers with one of the six compound operators stores the
      combined number and yields it; with another operator it yields `nil` and stores nothing;
      a non-number on either side raises "Types must match." at the name. */
  lemma ShorthandWritesBack(cfg: Config, e: Expr, st: State)
    requires e.AssignShorthand? && st.Valid()
    requires Eval(cfg, e.value, st).result.Ok?
    ensures var rhs := Eval(cfg, e.value, st);
      var current := Get(rhs.state.frames, st.env, e.name);
      var r := Eval(cfg, e, st);
      && (current.Err? ==> r == Evaluated(Err(current.failure), rhs.state))
      && (current.Ok? && !(current.value.Num? && rhs.result.value.Num?) ==>
            r == Evaluated(Err(RuntimeError(e.name, TypesMustMatch)), rhs.state))
      && (current.Ok? && current.value.Num? && rhs.result.value.Num? ==>
            var n := ShorthandValue(cfg.host, e.operator.kind, current.value.n, rhs.result.value.n);
            && (n.None? ==> r == Evaluated(Ok(Nil), rhs.state))
            && (n.Some? ==> r.result == Ok(Num(n.value)) && Get(r.state.frames, st.env, e.name) == Ok(Num(n.value))))
  {
    var rhs := Eval(cfg, e.value, st);
    GetAfterAssign(rhs.state.frames, st.env, e.name, Num(0.0));
    var current := Get(rhs.state.frames, st.env, e.name);
    if current.Ok? && current.value.Num? && rhs.result.value.Num? {
      var n := ShorthandValue(cfg.host, e.operator.kind, current.value.n, rhs.result.value.n);
      if n.Some? {
        GetAfterAssign(rhs.state.frames, st.env, e.name, Num(n.value));
      }
    }
  }

  /** `x++`, as the parser builds it, adds one and stores the result; on a variable that does
      not hold a number it raises "Types must match." and changes nothing. */
  lemma Increment(cfg: Config, name: Token, plusPlus: Token, st: State)
    requires st.Valid() && plusPlus.kind == PLUS_PLUS
    requires Get(st.frames, st.env, name).Ok?
    ensures var before := Get(st.frames, st.env, name).value;
      var r := Eval(cfg, AssignShorthand(name, plusPlus, Grammar.One), st);
      && (before.Num? ==> r.result == Ok(Num(before.n + 1.0)) && Get(r.state.frames, st.env, name) == r.result)
      && (!before.Num? ==> r == Evaluated(Err(RuntimeError(name, TypesMustMatch)), st))
  {
    assert Eval(cfg, Grammar.One, st) == Evaluated(Ok(Num(1.0)), st);
    ShorthandWritesBack(cfg, AssignShorthand(name, plusPlus, Grammar.One), st);
  }

  /** `x--`, as the parser builds it (adding the literal `-1`), subtracts one and stores the
      result; on a variable that does not hold a number it raises "Types must match.". */
  lemma Decrement(cfg: Config, name: Token, minusMinus: Token, st: State)
    requires st.Valid() && minusMinus.kind == MINUS_MINUS
    requires Get(st.frames, st.env, name).Ok?
    ensures var before := Get(st.frames, st.env, name).value;
      var r := Eval(cfg, AssignShorthand(name, minusMinus, Grammar.MinusOne), st);
      && (before.Num? ==> r.result == Ok(Num(before.n - 1.0)) && Get(r.state.frames, st.env, name) == r.result)
      && (!before.Num? ==> r == Evaluated(Err(RuntimeError(name, TypesMustMatch)), st))
  {
    assert Eval(cfg, Grammar.MinusOne, st) == Evaluated(Ok(Num(-1.0)), st);
    ShorthandWritesBack(cfg, AssignShorthand(name, minusMinus, Grammar.MinusOne), st);
  }

  /** A call evaluates the callee and then every argument, in order, each in the state the
      previous one left behind; the first exception ends it, and otherwise the checks and the
      call happen in the state the arguments left behind. */
  lemma CallProtocol(cfg: Config, e: Expr, st: State)
    requires e.Call? && st.Valid()
    ensures var callee := Eval(cfg, e.callee, st);
      var arguments := EvalArguments(cfg, e, 0, [], callee.state);
      var r := Eval(cfg, e, st);
      && (callee.result.Err? ==> r == callee)
      && (callee.result.Ok? && arguments.result.Err? ==> r == Evaluated(Err(arguments.result.failure), arguments.state))
      && (callee.result.Ok? && arguments.result.Ok? ==>
            && |arguments.result.value| == |e.arguments|
            && r == CallValue(cfg, e.paren, callee.result.value, arguments.result.value, arguments.state))
  {
  }

  /** The checks before a call: it raises at the closing parenthesis when the callee is not a
      function or the argument count differs from its arity, overflows the stack when no more
      calls may be nested, and otherwise runs the function one level deeper. */
  lemma CallChecks(cfg: Config, paren: Token, callee: Value, arguments: seq<Value>, st: State)
    requires st.Valid() && Within(callee, |st.frames|)
    requires forall v | v in arguments :: Within(v, |st.frames|)
    ensures var r := CallValue(cfg, paren, callee, arguments, st);
      && (!callee.Fun? ==> r == Evaluated(Err(RuntimeError(paren, NotCallable)), st))
      && (callee.Fun? && |arguments| != callee.callee.Arity() ==>
            r == Evaluated(Err(RuntimeError(paren, ArityMismatch(callee.callee.Arity(), |arguments|))), st))
      && (callee.Fun? && |arguments| == callee.callee.Arity() && cfg.depth == 0 ==>
            r == Evaluated(Err(StackOverflow), st))
      && (callee.Fun? && |arguments| == callee.callee.Arity() && cfg.depth > 0 ==>
            r == CallFunction(cfg.(depth := cfg.depth - 1), callee.callee, arguments, st))
  {
  }

  /** A call runs its body in a fresh environment that the function's closure encloses, not
      the caller's: each parameter reads as its argument (the last one, for a repeated name),
      and every other name reads as it does in the closure. */
  lemma CallScopesLexically(f: Callable, arguments: seq<Value>, st: State, i: nat, other: Token)
    requires st.Valid() && f.closure < |st.frames| && |arguments| == f.Arity()
    requires i < |f.params| && forall j | i < j < |f.params| :: f.params[j].lexeme != f.params[i].lexeme
    requires forall j | 0 <= j < |f.params| :: f.params[j].lexeme != other.lexeme
    ensures var frames := Bind(Push(st.frames, f.closure), |st.frames|, f.params, arguments);
      && frames[|st.frames|].enclosing == Some(f.closure)
      && Get(frames, |st.frames|, f.params[i]) == Ok(arguments[i])
      && Get(frames, |st.frames|, other) == Get(st.frames, f.closure, other)
  {
    var pushed := Push(st.frames, f.closure);
    BindBindsParameters(pushed, |st.frames|, f.params, arguments, i);
    BindKeepsOtherNames(pushed, |st.frames|, f.params, arguments, other);
    PushedFrameSeesEnclosing(st.frames, f.closure, other, other.lexeme, Nil);
  }

  /** A function sees and changes the variables it closed over, and the change outlives the
      call: a counter function whose body is `return n++;` yields one more on each call. */
  lemma CounterCallsCount(cfg: Config, f: Callable, st: State, n: Token, plusPlus: Token, keyword: Token, count: real)
    requires st.Valid() && f.closure < |st.frames| && f.params == [] && plusPlus.kind == PLUS_PLUS
    requires f.body == [Some(Return(keyword, Some(AssignShorthand(n, plusPlus, Grammar.One))))]
    requires Get(st.frames, f.closure, n) == Ok(Num(count))
    ensures var first := CallFunction(cfg, f, [], st);
      && first.result == Ok(Num(count + 1.0))
      && Get(first.state.frames, f.closure, n) == Ok(Num(count + 1.0))
      && CallFunction(cfg, f, [], first.state).result == Ok(Num(count + 2.0))
  {
    CounterCallOnce(cfg, f, st, n, plusPlus, keyword, count);
    var first := CallFunction(cfg, f, [], st);
    CounterCallOnce(cfg, f, first.state, n, plusPlus, keyword, count + 1.0);
    assert count + 1.0 + 1.0 == count + 2.0;
  }

  /** A function whose body is `return e;` yields the value of `e`, evaluated in the call's
      own environment; an exception `e` raises passes out of the call. */
  lemma CallOfReturn(cfg: Config, f: Callable, arguments: seq<Value>, st: State, keyword: Token, e: Expr)
    requires st.Valid() && f.closure < |st.frames| && |arguments| == f.Arity()
    requires forall v | v in arguments :: Within(v, |st.frames|)
    requires f.body == [Some(Return(keyword, Some(e)))]
    ensures var inner := st.(frames := Bind(Push(st.frames, f.closure), |st.frames|, f.params, arguments), env := |st.frames|);
      inner.Valid() &&
      var v := Eval(cfg, e, inner);
      CallFunction(cfg, f, arguments, st) == Evaluated(v.result, v.state.(env := st.env))
  {
    var scope := |st.frames|;
    forall v | v in arguments
      ensures Within(v, scope + 1)
    {
      assert Within(v, scope);
    }
    var inner := st.(frames := Bind(Push(st.frames, f.closure), scope, f.params, arguments), env := scope);
    var v := Eval(cfg, e, inner);
    var c := if v.result.Ok? then Returned(v.result.value) else Raised(v.result.failure);
    assert Exec(cfg, Return(keyword, Some(e)), inner) == Executed(c, v.state);
    assert ExecList(cfg, f.body, inner) == Executed(c, v.state);
  }

  /** One call of the counter function: `n` goes up by one in the closure, and the call
      yields the new count. */
  lemma CounterCallOnce(cfg: Config, f: Callable, st: State, n: Token, plusPlus: Token, keyword: Token, count: real)
    requires st.Valid() && f.closure < |st.frames| && f.params == [] && plusPlus.kind == PLUS_PLUS
    requires f.body == [Some(Return(keyword, Some(AssignShorthand(n, plusPlus, Grammar.One))))]
    requires Get(st.frames, f.closure, n) == Ok(Num(count))
    ensures var r := CallFunction(cfg, f, [], st);
      r.result == Ok(Num(count + 1.0)) && Get(r.state.frames, f.closure, n) == Ok(Num(count + 1.0))
  {
    var scope := |st.frames|;
    var pushed := Push(st.frames, f.closure);
    assert Bind(pushed, scope, f.params, []) == pushed;
    var e := AssignShorthand(n, plusPlus, Grammar.One);
    CallOfReturn(cfg, f, [], st, keyword, e);
    var inner := st.(frames := pushed, env := scope);
    PushedFrameSeesEnclosing(st.frames, f.closure, n, n.lexeme, Nil);
    IncrementThroughEnclosing(cfg, n, plusPlus, inner, f.closure, count);
  }

  /** `n++` in a frame that does not declare `n` changes the `n` its enclosing frame sees. */
  lemma IncrementThroughEnclosing(cfg: Config, n: Token, plusPlus: Token, st: State, outer: nat, count: real)
    requires st.Valid() && plusPlus.kind == PLUS_PLUS
    requires n.lexeme !in st.frames[st.env].values && st.frames[st.env].enclosing == Some(outer)
    requires Get(st.frames, outer, n) == Ok(Num(count))
    ensures var r := Eval(cfg, AssignShorthand(n, plusPlus, Grammar.One), st);
      r.result == Ok(Num(count + 1.0)) && Get(r.state.frames, outer, n) == Ok(Num(count + 1.0))
  {
    assert Resolve(st.frames, st.env, n.lexeme) == Resolve(st.frames, outer, n.lexeme);
    Increment(cfg, n, plusPlus, st);
    var r := Eval(cfg, AssignShorthand(n, plusPlus, Grammar.One), st);
    assert Eval(cfg, Grammar.One, st) == Evaluated(Ok(Num(1.0)), st);
    assert r.state.frames == Environments.Assign(st.frames, outer, n, Num(count + 1.0)).value;
    GetAfterAssign(st.frames, outer, n, Num(count + 1.0));
  }

  // ---------------------------------------------------------------------------------------
  // Statements.

  /** `print` writes exactly one line, the text of the value; an expression statement writes
      that line only in the REPL. */
  lemma PrintWritesOneLine(cfg: Config, e: Expr, st: State)
    requires st.Valid()
    requires Eval(cfg, e, st).result.Ok?
    ensures var v := Eval(cfg, e, st);
      && Exec(cfg, Print(e), st) == Executed(Normal, v.state.(output := v.state.output + [Stringify(cfg.host, v.result.value)]))
      && Exec(cfg, Expression(e), st).state.output == (if cfg.repl then v.state.output + [Stringify(cfg.host, v.result.value)] else v.state.output)
  {
  }

  /** A variable declared without an initializer holds `nil`. */
  lemma VarWithoutInitializerIsNil(cfg: Config, name: Token, st: State)
    requires st.Valid()
    ensures var r := Exec(cfg, Var(name, None), st);
      r.completion == Normal && Get(r.state.frames, st.env, name) == Ok(Nil)
  {
    GetAfterDefine(st.frames, st.env, name, Nil);
  }

  /** A function declaration binds its name to a new function object that closes over the
      current environment; two declarations in a row make two objects that are not equal,
      even when the declarations are the same. */
  lemma FunctionDeclarationsAreFresh(cfg: Config, name: Token, params: seq<Token>, body: seq<Option<Stmt>>, st: State)
    requires st.Valid()
    ensures var f := Fun(LoxFunction(st.nextId, name, params, body, st.env));
      var first := Exec(cfg, Function(name, params, body), st);
      var second := Exec(cfg, Function(name, params, body), first.state);
      && first.completion == Normal
      && Get(first.state.frames, st.env, name) == Ok(f)
      && Get(second.state.frames, st.env, name).Ok?
      && !IsEqual(Get(second.state.frames, st.env, name).value, f)
      && IsEqual(f, f)
  {
    var f := Fun(LoxFunction(st.nextId, name, params, body, st.env));
    GetAfterDefine(st.frames, st.env, name, f);
    var first := Exec(cfg, Function(name, params, body), st);
    var g := Fun(LoxFunction(first.state.nextId, name, params, body, st.env));
    GetAfterDefine(first.state.frames, st.env, name, g);
  }

  /** A declaration inside a block is not visible once the block has ended: from the
      environment the block started in, every name reads as it did after the initializer ran
      (which may itself have called functions that changed variables), and as it did before
      the block when there is nothing to run; the block's own frame keeps the declared value,
      for the closures created in it. */
  lemma BlockDeclarationsAreLocal(cfg: Config, name: Token, init: Option<Expr>, st: State, other: Token)
    requires st.Valid()
    ensures var inner := st.(frames := Push(st.frames, st.env), env := |st.frames|);
      var v := if init.None? then Evaluated(Ok(Nil), inner) else Eval(cfg, init.value, inner);
      var r := Exec(cfg, Block([Some(Var(name, init))]), st);
      && r.state.env == st.env
      && (v.result.Err? ==> r.completion == Raised(v.result.failure))
      && (v.result.Ok? ==>
            && r.completion == Normal
            && Get(r.state.frames, st.env, other) == Get(v.state.frames, st.env, other)
            && Get(r.state.frames, |st.frames|, name) == v.result)
      && (init.None? || init.value.Literal? ==> Get(r.state.frames, st.env, other) == Get(st.frames, st.env, other))
  {
    var inner := st.(frames := Push(st.frames, st.env), env := |st.frames|);
    var v := if init.None? then Evaluated(Ok(Nil), inner) else Eval(cfg, init.value, inner);
    assert ExecList(cfg, [Some(Var(name, init))], inner) == ExecVar(cfg, Var(name, init), inner);
    if v.result.Ok? {
      DefineInNewerFrame(v.state.frames, |st.frames|, st.env, name.lexeme, v.result.value, other);
      GetAfterDefine(v.state.frames, |st.frames|, name, v.result.value);
    }
    if init.None? || init.value.Literal? {
      assert v.state == inner;
      PushedFrameSeesEnclosing(st.frames, st.env, other, name.lexeme, v.result.value);
    }
  }

  /** Running `before` and then `after` is running `before`, and then `after` only when
      `before` completed normally. */
  lemma {:induction false} ExecListAppend(cfg: Config, before: seq<Option<Stmt>>, after: seq<Option<Stmt>>, st: State)
    requires st.Valid()
    ensures var first := ExecList(cfg, before, st);
      ExecList(cfg, before + after, st) == if first.completion.Normal? then ExecList(cfg, after, first.state) else first
    decreases |before|
  {
    if before == [] {
      assert before + after == after;
    } else {
      assert (before + after)[0] == before[0] && (before + after)[1..] == before[1..] + after;
      if before[0].Some? {
        var head := Exec(cfg, before[0].value, st);
        if head.completion.Normal? {
          ExecListAppend(cfg, before[1..], after, head.state);
        }
      }
    }
  }

  /** A `return` inside a block ends the block at once: once the statements before it have
      completed normally, its value is evaluated, the statements after it never run, and the
      value (or the exception evaluating it raised) travels outwards with the environment
      restored. */
  lemma ReturnLeavesBlock(cfg: Config, before: seq<Option<Stmt>>, keyword: Token, value: Expr, rest: seq<Option<Stmt>>, st: State)
    requires st.Valid()
    requires ExecList(cfg, before, st.(frames := Push(st.frames, st.env), env := |st.frames|)).completion.Normal?
    ensures var prefix := ExecList(cfg, before, st.(frames := Push(st.frames, st.env), env := |st.frames|));
      var v := Eval(cfg, value, prefix.state);
      var r := Exec(cfg, Block(before + [Some(Return(keyword, Some(value)))] + rest), st);
      && (v.result.Ok? ==> r == Executed(Returned(v.result.value), v.state.(env := st.env)))
      && (v.result.Err? ==> r == Executed(Raised(v.result.failure), v.state.(env := st.env)))
  {
    var inner := st.(frames := Push(st.frames, st.env), env := |st.frames|);
    var ret := Some(Return(keyword, Some(value)));
    assert before + [ret] + rest == before + ([ret] + rest);
    ExecListAppend(cfg, before, [ret] + rest, inner);
    var prefix := ExecList(cfg, before, inner);
    var v := Eval(cfg, value, prefix.state);
    assert ([ret] + rest)[0] == ret;
    var c := if v.result.Ok? then Returned(v.result.value) else Raised(v.result.failure);
    assert Exec(cfg, ret.value, prefix.state) == Executed(c, v.state);
  }

  /** An `if` statement runs the then-branch after a truthy condition and otherwise the
      else-branch, or nothing when there is none; the branch that is not chosen never runs. */
  lemma IfRunsOneBranch(cfg: Config, condition: Expr, thenBranch: Stmt, elseBranch: Option<Stmt>, st: State)
    requires st.Valid()
    ensures var c := Eval(cfg, condition, st);
      var r := Exec(cfg, If(condition, thenBranch, elseBranch), st);
      && (c.result.Err? ==> r == Executed(Raised(c.result.failure), c.state))
      && (c.result.Ok? && IsTruthy(c.result.value) ==> r == Exec(cfg, thenBranch, c.state))
      && (c.result.Ok? && !IsTruthy(c.result.value) && elseBranch.Some? ==> r == Exec(cfg, elseBranch.value, c.state))
      && (c.result.Ok? && !IsTruthy(c.result.value) && elseBranch.None? ==> r == Executed(Normal, c.state))
  {
  }

  /** A statement ternary runs exactly one of its branches, chosen by the condition's
      truthiness, in the state the condition left. */
  lemma TernaryRunsOneBranch(cfg: Config, condition: Expr, ifTrue: Stmt, ifFalse: Stmt, st: State)
    requires st.Valid()
    ensures var c := Eval(cfg, condition, st);
      var r := Exec(cfg, Ternary(condition, ifTrue, ifFalse), st);
      && (c.result.Err? ==> r == Executed(Raised(c.result.failure), c.state))
      && (c.result.Ok? && IsTruthy(c.result.value) ==> r == Exec(cfg, ifTrue, c.state))
      && (c.result.Ok? && !IsTruthy(c.result.value) ==> r == Exec(cfg, ifFalse, c.state))
  {
  }

  /** A `while` whose condition is falsy completes at once without running its body. */
  lemma FalseWhileSkipsBody(cfg: Config, s: Stmt, st: State)
    requires s.While? && st.Valid()
    requires Eval(cfg, s.condition, st).result.Ok? && !IsTruthy(Eval(cfg, s.condition, st).result.value)
    ensures Exec(cfg, s, st) == Executed(Normal, Eval(cfg, s.condition, st).state)
  {
    ExecOfLoop(cfg, s, st);
    WhileStopsWhenFalse(cfg, s, st, cfg.fuel);
  }

  /** A loop test that is falsy ends `ExecWhile`, whatever the fuel. */
  lemma WhileStopsWhenFalse(cfg: Config, s: Stmt, st: State, fuel: nat)
    requires s.While? && st.Valid()
    requires Eval(cfg, s.condition, st).result.Ok? && !IsTruthy(Eval(cfg, s.condition, st).result.value)
    ensures ExecWhile(cfg, s, st, fuel) == Executed(Normal, Eval(cfg, s.condition, st).state)
  {
  }

  /** A loop statement runs with the configured fuel. */
  lemma ExecOfLoop(cfg: Config, s: Stmt, st: State)
    requires st.Valid() && (s.While? || s.DoWhile?)
    ensures s.While? ==> Exec(cfg, s, st) == ExecWhile(cfg, s, st, cfg.fuel)
    ensures s.DoWhile? ==> Exec(cfg, s, st) == ExecDoWhile(cfg, s, st, cfg.fuel)
  {
  }

  /** A `do`-`while` runs its body before the first test: with a falsy condition the body runs
      exactly once, and whatever the body raises or returns escapes. */
  lemma DoWhileRunsBodyFirst(cfg: Config, condition: Expr, body: Stmt, st: State)
    requires st.Valid()
    ensures var first := Exec(cfg, body, st);
      && (!first.completion.Normal? ==> Exec(cfg, DoWhile(condition, body), st) == first)
      && (first.completion.Normal? && Eval(cfg, condition, first.state).result == Ok(Bool(false)) ==>
            Exec(cfg, DoWhile(condition, body), st) == Executed(Normal, Eval(cfg, condition, first.state).state))
  {
    var s := DoWhile(condition, body);
    ExecOfLoop(cfg, s, st);
  }

  /** More fuel does not change the outcome of a loop that finished within less: the bound
      only cuts off loops that would otherwise still be running. */
  lemma {:induction false} WhileFuelIsOnlyABound(cfg: Config, s: Stmt, st: State, fuel: nat, more: nat)
    requires s.While? && st.Valid() && fuel <= more
    requires ExecWhile(cfg, s, st, fuel).completion != Raised(OutOfFuel)
    ensures ExecWhile(cfg, s, st, more) == ExecWhile(cfg, s, st, fuel)
    decreases fuel
  {
    var condition := Eval(cfg, s.condition, st);
    if condition.result.Ok? && IsTruthy(condition.result.value) {
      var body := Exec(cfg, s.body, condition.state);
      if body.completion.Normal? {
        WhileFuelIsOnlyABound(cfg, s, body.state, fuel - 1, more - 1);
      }
    }
  }

  /** The same holds for `do`-`while`. */
  lemma {:induction false} DoWhileFuelIsOnlyABound(cfg: Config, s: Stmt, st: State, fuel: nat, more: nat)
    requires s.DoWhile? && st.Valid() && fuel <= more
    requires ExecDoWhile(cfg, s, st, fuel).completion != Raised(OutOfFuel)
    ensures ExecDoWhile(cfg, s, st, more) == ExecDoWhile(cfg, s, st, fuel)
    decreases fuel
  {
    var body := Exec(cfg, s.body, st);
    if body.completion.Normal? {
      var condition := Eval(cfg, s.condition, body.state);
      if condition.result.Ok? && IsTruthy(condition.result.value) {
        DoWhileFuelIsOnlyABound(cfg, s, condition.state, fuel - 1, more - 1);
      }
    }
  }

  /** `interpret` stops at the first statement that raises a runtime error, reports the error,
      and completes normally; the statements after it do not run. */
  lemma InterpretReportsFirstError(cfg: Config, first: Stmt, rest: seq<Option<Stmt>>, st: State)
    requires st.Valid()
    requires Exec(cfg, first, st).completion.Raised? && Exec(cfg, first, st).completion.failure.RuntimeError?
    ensures var r := Exec(cfg, first, st);
      Interpret(cfg, [Some(first)] + rest, st) ==
        Executed(Normal, r.state.(errors := st.errors + [r.completion.failure]))
  {
    assert ([Some(first)] + rest)[0] == Some(first);
  }

  /** A `return` outside any function is not caught by `interpret`: it escapes with its value,
      and nothing is reported. */
  lemma StrayReturnEscapes(cfg: Config, keyword: Token, rest: seq<Option<Stmt>>, st: State)
    requires st.Valid()
    ensures Interpret(cfg, [Some(Return(keyword, None))] + rest, st) == Executed(Returned(Nil), st)
  {
    var statements := [Some(Return(keyword, None))] + rest;
    assert statements[0] == Some(Return(keyword, None));
    assert Exec(cfg, Return(keyword, None), st) == Executed(Returned(Nil), st);
    assert ExecList(cfg, statements, st) == Executed(Returned(Nil), st);
  }
}
