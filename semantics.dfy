/** The meaning of programs: what `Interpreter` computes, as functions of the interpreter's
    state. Expressions evaluate to a value or an exception; statements complete normally, by a
    `return`, or by an exception. A call runs the function's body, so evaluation and execution
    are one mutual recursion, bounded by the depth of calls the Java stack allows. */
module Semantics {
  import opened Tokens
  import opened Ast
  import opened Values
  import opened Environments

  /** The interpreter's mutable state: the frames, the current environment, the lines written
      to the console, the runtime errors reported, and the identity the next function object
      receives. Every function value in the frames closes over one of them. */
  datatype State = State(frames: seq<Frame>, env: nat, output: seq<string>, errors: seq<Failure>, nextId: nat)
  {
    predicate Valid() { Handle(frames, env) && Closed(frames) }
  }

  /** What does not change while a statement runs: the platform, the bound on loop
      iterations, whether expression statements echo their value (`setREPL`), and how many
      calls may still be nested before the Java stack overflows. */
  datatype Config = Config(host: Host, fuel: nat, repl: bool, depth: nat)

  datatype Evaluated<T> = Evaluated(result: Result<T>, state: State)

  /** How a statement finished: normally, by `return` (the Java `Return` exception), or by an
      exception. */
  datatype Completion = Normal | Returned(value: Value) | Raised(failure: Failure)

  datatype Executed = Executed(completion: Completion, state: State)

  /** What running code may change: it may add frames, declare names in existing frames,
      rebind names, write lines and use up identities; every existing frame keeps its place in
      the scope chains and the names it declares, the environment it started in is current
      again, and no error is reported. */
  predicate Extends(st: State, r: State)
  {
    && r.Valid()
    && r.env == st.env
    && |st.frames| <= |r.frames|
    && (forall i | 0 <= i < |st.frames| ::
          r.frames[i].enclosing == st.frames[i].enclosing && st.frames[i].values.Keys <= r.frames[i].values.Keys)
    && st.output <= r.output
    && r.errors == st.errors
    && st.nextId <= r.nextId
  }

  /** A value that code hands back closes, if it is a function, over a frame of the state it
      leaves behind. */
  predicate Yields(r: Evaluated<Value>)
  {
    r.result.Ok? ==> Within(r.result.value, |r.state.frames|)
  }

  /** A value that a `return` carries out of a statement closes, if it is a function, over a
      frame of the state the statement leaves behind. */
  predicate Returns(r: Executed)
  {
    r.completion.Returned? ==> Within(r.completion.value, |r.state.frames|)
  }

  // ---------------------------------------------------------------------------------------
  // Expressions.

  /** `evaluate`: the visitor's dispatch on the node. */
  function Eval(cfg: Config, e: Expr, st: State): (r: Evaluated<Value>)
    requires st.Valid()
    ensures Extends(st, r.state) && Yields(r)
    decreases cfg.depth, 1, e, 2
  {
    match e
    case Literal(lit) => Evaluated(Ok(FromLiteral(lit)), st)
    case Grouping(inner) => Eval(cfg, inner, st)
    case Variable(name) => Evaluated(Get(st.frames, st.env, name), st)
    case Binary(_, _, _) => EvalBinary(cfg, e, st)
    case Unary(_, _) => EvalUnary(cfg, e, st)
    case Assign(_, _) => EvalAssign(cfg, e, st)
    case AssignShorthand(_, _, _) => EvalShorthand(cfg, e, st)
    case Logical(_, _, _) => EvalLogical(cfg, e, st)
    case Call(_, _, _) => EvalCall(cfg, e, st)
  }

  /** `visitBinaryExpr`: both operands, left first, then the operator. */
  function EvalBinary(cfg: Config, e: Expr, st: State): (r: Evaluated<Value>)
    requires e.Binary? && st.Valid()
    ensures Extends(st, r.state) && Yields(r)
    decreases cfg.depth, 1, e, 1
  {
    var left := Eval(cfg, e.left, st);
    if left.result.Err? then left
    else
      var right := Eval(cfg, e.right, left.state);
      if right.result.Err? then right
      else Evaluated(BinaryOperation(cfg.host, e.operator, left.result.value, right.result.value), right.state)
  }

  /** `visitUnaryExpr`. */
  function EvalUnary(cfg: Config, e: Expr, st: State): (r: Evaluated<Value>)
    requires e.Unary? && st.Valid()
    ensures Extends(st, r.state) && Yields(r)
    decreases cfg.depth, 1, e, 1
  {
    var right := Eval(cfg, e.right, st);
    if right.result.Err? then right
    else Evaluated(UnaryOperation(e.operator, right.result.value), right.state)
  }

  /** `visitAssignExpr`: the value, then the assignment, whose value is the expression's. */
  function EvalAssign(cfg: Config, e: Expr, st: State): (r: Evaluated<Value>)
    requires e.Assign? && st.Valid()
    ensures Extends(st, r.state) && Yields(r)
    decreases cfg.depth, 1, e, 1
  {
    var value := Eval(cfg, e.value, st);
    if value.result.Err? then value
    else
      var s1 := value.state;
      match Environments.Assign(s1.frames, s1.env, e.name, value.result.value)
      case Err(failure) => Evaluated(Err(failure), s1)
      case Ok(frames) => Evaluated(value.result, s1.(frames := frames))
  }

  /** `visitAssignShorthandExpr`: the right-hand side, then the variable's current value; two
      numbers are combined and written back, anything else is "Types must match.". */
  function EvalShorthand(cfg: Config, e: Expr, st: State): (r: Evaluated<Value>)
    requires e.AssignShorthand? && st.Valid()
    ensures Extends(st, r.state) && Yields(r)
    decreases cfg.depth, 1, e, 1
  {
    var rhs := Eval(cfg, e.value, st);
    if rhs.result.Err? then rhs
    else
      var s1 := rhs.state;
      var current := Get(s1.frames, s1.env, e.name);
      if current.Err? then Evaluated(Err(current.failure), s1)
      else if !(current.value.Num? && rhs.result.value.Num?) then
        Evaluated(Err(RuntimeError(e.name, TypesMustMatch)), s1)
      else
        match ShorthandValue(cfg.host, e.operator.kind, current.value.n, rhs.result.value.n)
        case None => Evaluated(Ok(Nil), s1)
        case Some(n) => Evaluated(Ok(Num(n)), s1.(frames := Environments.Assign(s1.frames, s1.env, e.name, Num(n)).value))
  }

  /** `visitLogicalExpr`: `or` stops at a truthy left operand, `and` at a falsy one, and the
      operand that decides is the result. */
  function EvalLogical(cfg: Config, e: Expr, st: State): (r: Evaluated<Value>)
    requires e.Logical? && st.Valid()
    ensures Extends(st, r.state) && Yields(r)
    decreases cfg.depth, 1, e, 1
  {
    var left := Eval(cfg, e.left, st);
    if left.result.Err? then left
    else if e.operator.kind == OR && IsTruthy(left.result.value) then left
    else if e.operator.kind != OR && !IsTruthy(left.result.value) then left
    else Eval(cfg, e.right, left.state)
  }

  /** `visitCallExpr`: the callee, the arguments in order, then the checks and the call. */
  function EvalCall(cfg: Config, e: Expr, st: State): (r: Evaluated<Value>)
    requires e.Call? && st.Valid()
    ensures Extends(st, r.state) && Yields(r)
    decreases cfg.depth, 1, e, 1
  {
    var callee := Eval(cfg, e.callee, st);
    if callee.result.Err? then callee
    else
      var arguments := EvalArguments(cfg, e, 0, [], callee.state);
      if arguments.result.Err? then Evaluated(Err(arguments.result.failure), arguments.state)
      else CallValue(cfg, e.paren, callee.result.value, arguments.result.value, arguments.state)
  }

  /** The arguments of a call from the `i`-th on, appended to the values `done` already holds. */
  function EvalArguments(cfg: Config, e: Expr, i: nat, done: seq<Value>, st: State): (r: Evaluated<seq<Value>>)
    requires e.Call? && i <= |e.arguments| && st.Valid()
    requires forall v | v in done :: Within(v, |st.frames|)
    ensures Extends(st, r.state)
    ensures r.result.Ok? ==> |r.result.value| == |done| + |e.arguments| - i && r.result.value[..|done|] == done
    ensures r.result.Ok? ==> forall v | v in r.result.value :: Within(v, |r.state.frames|)
    decreases cfg.depth, 1, e, 0, |e.arguments| - i
  {
    if i == |e.arguments| then Evaluated(Ok(done), st)
    else
      var argument := Eval(cfg, e.arguments[i], st);
      if argument.result.Err? then Evaluated(Err(argument.result.failure), argument.state)
      else
        forall v | v in done + [argument.result.value]
          ensures Within(v, |argument.state.frames|)
        {
          if v in done {
            assert Within(v, |st.frames|);
          }
        }
        var r := EvalArguments(cfg, e, i + 1, done + [argument.result.value], argument.state);
        assert r.result.Ok? ==> r.result.value[..|done|] == (done + [argument.result.value])[..|done|];
        r
  }

  /** The checks `visitCallExpr` makes before it calls: the callee must be a function and take
      as many arguments as were passed. */
  function CheckCall(paren: Token, callee: Value, arguments: seq<Value>): (r: Result<Callable>)
    ensures r.Ok? <==> callee.Fun? && |arguments| == callee.callee.Arity()
    ensures r.Ok? ==> r.value == callee.callee
    ensures !callee.Fun? ==> r == Err(RuntimeError(paren, NotCallable))
    ensures callee.Fun? && |arguments| != callee.callee.Arity() ==>
              r == Err(RuntimeError(paren, ArityMismatch(callee.callee.Arity(), |arguments|)))
  {
    if !callee.Fun? then Err(RuntimeError(paren, NotCallable))
    else if |arguments| != callee.callee.Arity() then
      Err(RuntimeError(paren, ArityMismatch(callee.callee.Arity(), |arguments|)))
    else Ok(callee.callee)
  }

  /** The end of `visitCallExpr`, once the callee and the arguments are evaluated: the checks,
      then the call, which overflows the stack when no more calls may be nested. */
  function CallValue(cfg: Config, paren: Token, callee: Value, arguments: seq<Value>, st: State): (r: Evaluated<Value>)
    requires st.Valid() && Within(callee, |st.frames|)
    requires forall v | v in arguments :: Within(v, |st.frames|)
    ensures Extends(st, r.state) && Yields(r)
    decreases cfg.depth, 0
  {
    var checked := CheckCall(paren, callee, arguments);
    if checked.Err? then Evaluated(Err(checked.failure), st)
    else if cfg.depth == 0 then Evaluated(Err(StackOverflow), st)
    else CallFunction(cfg.(depth := cfg.depth - 1), checked.value, arguments, st)
  }

  /** `LoxFunction.call`: a fresh environment enclosed by the function's closure, each
      parameter defined there as its argument, then the body run as a block in it; a `return`
      gives the call its value, a body that runs to its end gives `nil`, and an exception
      passes through. */
  function CallFunction(cfg: Config, f: Callable, arguments: seq<Value>, st: State): (r: Evaluated<Value>)
    requires st.Valid() && f.closure < |st.frames| && |arguments| == f.Arity()
    requires forall v | v in arguments :: Within(v, |st.frames|)
    ensures Extends(st, r.state) && Yields(r)
    decreases cfg.depth, 3
  {
    var scope := |st.frames|;
    forall v | v in arguments
      ensures Within(v, scope + 1)
    {
      assert Within(v, scope);
    }
    var frames := Bind(Push(st.frames, f.closure), scope, f.params, arguments);
    var body := ExecuteBlock(cfg, f.body, st.(frames := frames), scope);
    match body.completion
    case Normal => Evaluated(Ok(Nil), body.state)
    case Returned(v) => Evaluated(Ok(v), body.state)
    case Raised(failure) => Evaluated(Err(failure), body.state)
  }

  // ---------------------------------------------------------------------------------------
  // Statements.

  /** A measure that decreases from a statement to the statements inside it. */
  function Size(s: Stmt): nat
  {
    match s
    case Block(statements) => 1 + ListSize(statements)
    case If(_, thenBranch, elseBranch) => 1 + Size(thenBranch) + OptionalSize(elseBranch)
    case Ternary(_, ifTrue, ifFalse) => 1 + Size(ifTrue) + Size(ifFalse)
    case While(_, body) => 1 + Size(body)
    case DoWhile(_, body) => 1 + Size(body)
    case _ => 1
  }

  function OptionalSize(s: Option<Stmt>): nat
  {
    match s
    case None => 0
    case Some(inner) => Size(inner)
  }

  function ListSize(statements: seq<Option<Stmt>>): nat
  {
    if statements == [] then 0 else 1 + OptionalSize(statements[0]) + ListSize(statements[1..])
  }

  /** Each statement of a list measures less than the list. */
  lemma {:induction false} ListSizeBoundsElements(statements: seq<Option<Stmt>>, i: nat)
    requires i < |statements| && statements[i].Some?
    ensures Size(statements[i].value) < ListSize(statements)
  {
    if i > 0 {
      ListSizeBoundsElements(statements[1..], i - 1);
      assert statements[1..][i - 1] == statements[i];
    }
  }

  /** `execute`: the visitor's dispatch on the node. */
  function Exec(cfg: Config, s: Stmt, st: State): (r: Executed)
    requires st.Valid()
    ensures Extends(st, r.state) && Returns(r)
    decreases cfg.depth, 2, Size(s), 1
  {
    match s
    case Expression(e) =>
      var v := Eval(cfg, e, st);
      if v.result.Err? then Executed(Raised(v.result.failure), v.state)
      else if cfg.repl then Executed(Normal, v.state.(output := v.state.output + [Stringify(cfg.host, v.result.value)]))
      else Executed(Normal, v.state)
    case Print(e) =>
      var v := Eval(cfg, e, st);
      if v.result.Err? then Executed(Raised(v.result.failure), v.state)
      else Executed(Normal, v.state.(output := v.state.output + [Stringify(cfg.host, v.result.value)]))
    case Var(name, initializer) => ExecVar(cfg, s, st)
    case Block(statements) => ExecuteBlock(cfg, statements, st.(frames := Push(st.frames, st.env)), |st.frames|)
    case If(_, _, _) => ExecIf(cfg, s, st)
    case Ternary(_, _, _) => ExecTernary(cfg, s, st)
    case While(_, _) => ExecWhile(cfg, s, st, cfg.fuel)
    case DoWhile(_, _) => ExecDoWhile(cfg, s, st, cfg.fuel)
    case Function(name, params, body) =>
      var callable := LoxFunction(st.nextId, name, params, body, st.env);
      Executed(Normal, st.(frames := Define(st.frames, st.env, name.lexeme, Fun(callable)), nextId := st.nextId + 1))
    case Return(_, value) =>
      if value.None? then Executed(Returned(Nil), st)
      else
        var v := Eval(cfg, value.value, st);
        if v.result.Err? then Executed(Raised(v.result.failure), v.state)
        else Executed(Returned(v.result.value), v.state)
  }

  /** `visitVarStmt`: the initializer's value, or `nil` without one, defined in the current
      environment. */
  function ExecVar(cfg: Config, s: Stmt, st: State): (r: Executed)
    requires s.Var? && st.Valid()
    ensures Extends(st, r.state) && Returns(r)
    decreases cfg.depth, 2, Size(s), 0
  {
    var v := if s.initializer.None? then Evaluated(Ok(Nil), st) else Eval(cfg, s.initializer.value, st);
    if v.result.Err? then Executed(Raised(v.result.failure), v.state)
    else Executed(Normal, v.state.(frames := Define(v.state.frames, v.state.env, s.name.lexeme, v.result.value)))
  }

  /** `visitIfStmt`. */
  function ExecIf(cfg: Config, s: Stmt, st: State): (r: Executed)
    requires s.If? && st.Valid()
    ensures Extends(st, r.state) && Returns(r)
    decreases cfg.depth, 2, Size(s), 0
  {
    var condition := Eval(cfg, s.condition, st);
    if condition.result.Err? then Executed(Raised(condition.result.failure), condition.state)
    else if IsTruthy(condition.result.value) then Exec(cfg, s.thenBranch, condition.state)
    else if s.elseBranch.Some? then
      assert OptionalSize(s.elseBranch) == Size(s.elseBranch.value);
      Exec(cfg, s.elseBranch.value, condition.state)
    else Executed(Normal, condition.state)
  }

  /** `visitTernaryStmt`: exactly one of the two branches runs (`SemanticsFacts.TernaryRunsOneBranch`). */
  function ExecTernary(cfg: Config, s: Stmt, st: State): (r: Executed)
    requires s.Ternary? && st.Valid()
    ensures Extends(st, r.state) && Returns(r)
    decreases cfg.depth, 2, Size(s), 0
  {
    var condition := Eval(cfg, s.condition, st);
    if condition.result.Err? then Executed(Raised(condition.result.failure), condition.state)
    else if IsTruthy(condition.result.value) then Exec(cfg, s.ifTrue, condition.state)
    else Exec(cfg, s.ifFalse, condition.state)
  }

  /** `visitWhileStmt`, with at most `fuel` more runs of the body. */
  function ExecWhile(cfg: Config, s: Stmt, st: State, fuel: nat): (r: Executed)
    requires s.While? && st.Valid()
    ensures Extends(st, r.state) && Returns(r)
    decreases cfg.depth, 2, Size(s), 0, fuel
  {
    var condition := Eval(cfg, s.condition, st);
    if condition.result.Err? then Executed(Raised(condition.result.failure), condition.state)
    else if !IsTruthy(condition.result.value) then Executed(Normal, condition.state)
    else if fuel == 0 then Executed(Raised(OutOfFuel), condition.state)
    else
      var body := Exec(cfg, s.body, condition.state);
      if !body.completion.Normal? then body
      else ExecWhile(cfg, s, body.state, fuel - 1)
  }

  /** `visitDoWhileStmt`: the body first, then the test, with at most `fuel` more runs of the
      body after the first. */
  function ExecDoWhile(cfg: Config, s: Stmt, st: State, fuel: nat): (r: Executed)
    requires s.DoWhile? && st.Valid()
    ensures Extends(st, r.state) && Returns(r)
    decreases cfg.depth, 2, Size(s), 0, fuel
  {
    var body := Exec(cfg, s.body, st);
    if !body.completion.Normal? then body
    else
      var condition := Eval(cfg, s.condition, body.state);
      if condition.result.Err? then Executed(Raised(condition.result.failure), condition.state)
      else if !IsTruthy(condition.result.value) then Executed(Normal, condition.state)
      else if fuel == 0 then Executed(Raised(OutOfFuel), condition.state)
      else ExecDoWhile(cfg, s, condition.state, fuel - 1)
  }

  /** The statements of a list in order, up to the first that does not complete normally; a
      missing statement (a declaration that failed to parse) dereferences `null`. */
  function ExecList(cfg: Config, statements: seq<Option<Stmt>>, st: State): (r: Executed)
    requires st.Valid()
    ensures Extends(st, r.state) && Returns(r)
    decreases cfg.depth, 2, ListSize(statements), 2
  {
    if statements == [] then Executed(Normal, st)
    else if statements[0].None? then Executed(Raised(NullPointer), st)
    else
      assert OptionalSize(statements[0]) == Size(statements[0].value);
      var first := Exec(cfg, statements[0].value, st);
      if !first.completion.Normal? then first
      else ExecList(cfg, statements[1..], first.state)
  }

  /** `executeBlock`: the statements run in `environment`, and the previous environment is
      current again afterwards however they completed. */
  function ExecuteBlock(cfg: Config, statements: seq<Option<Stmt>>, st: State, environment: nat): (r: Executed)
    requires st.Valid() && environment < |st.frames|
    ensures Extends(st, r.state) && Returns(r)
    decreases cfg.depth, 2, ListSize(statements), 3
  {
    var body := ExecList(cfg, statements, st.(env := environment));
    Executed(body.completion, body.state.(env := st.env))
  }

  /** `interpret`: the statements in order; a runtime error stops them and is reported, while
      anything else that ends them early (a stray `return`, a null dereference, a stack
      overflow, a loop out of fuel) escapes. */
  function Interpret(cfg: Config, statements: seq<Option<Stmt>>, st: State): (r: Executed)
    requires st.Valid()
    ensures r.state.Valid() && r.state.env == st.env && st.output <= r.state.output
    ensures r.completion.Raised? ==> !r.completion.failure.RuntimeError?
    ensures !r.completion.Normal? ==> r.state.errors == st.errors
  {
    var run := ExecList(cfg, statements, st);
    if run.completion.Raised? && run.completion.failure.RuntimeError? then
      Executed(Normal, run.state.(errors := run.state.errors + [run.completion.failure]))
    else run
  }
}
