/** The tree-walking interpreter. Its state is the current environment, which blocks and
    calls swap and restore, the frames that environments are, the console, and the runtime
    errors reported. Every method is proved to compute what the corresponding function of
    `Semantics` says, and leaves the configuration (`isInREPL` and the call depth still
    available) as it was. */
module Interpreting {
  import opened Tokens
  import opened Ast
  import opened Values
  import opened Environments
  import Sem = Semantics

  class Interpreter {
    /** The platform the interpreter runs on, and the bound on iterations of a loop. */
    const host: Host
    const fuel: nat
    /** The outermost environment. */
    const globals: nat
    var frames: seq<Frame>
    var environment: nat
    var isInREPL: bool
    var output: seq<string>
    var errors: seq<Failure>
    var nextId: nat
    /** How many more calls may be nested before the Java stack overflows. */
    var stack: nat

    /** The state the semantics speaks about. */
    function State(): Sem.State
      reads this
    {
      Sem.State(frames, environment, output, errors, nextId)
    }

    function Config(): Sem.Config
      reads this
    {
      Sem.Config(host, fuel, isInREPL, stack)
    }

    predicate Valid()
      reads this
    {
      State().Valid()
    }

    /** A fresh interpreter: one empty global environment, which is current, outside the REPL,
        with room for `depth` nested calls. */
    constructor(host: Host, fuel: nat, depth: nat)
      ensures Valid() && environment == globals
      ensures frames == [Frame(map[], None)] && output == [] && errors == [] && !isInREPL
      ensures this.host == host && this.fuel == fuel && stack == depth
    {
      this.host := host;
      this.fuel := fuel;
      globals := 0;
      frames := [Frame(map[], None)];
      environment := 0;
      isInREPL := false;
      output := [];
      errors := [];
      nextId := 0;
      stack := depth;
    }

    /** `setREPL`. */
    method SetREPL(isInREPL: bool)
      modifies this
      ensures this.isInREPL == isInREPL && stack == old(stack) && State() == old(State())
    {
      this.isInREPL := isInREPL;
    }

    /** `interpret`: runs the statements until one does not complete normally; a runtime error
        is reported and ends the run, anything else escapes and is returned. */
    method Interpret(statements: seq<Option<Stmt>>) returns (escaped: Sem.Completion)
      requires Valid()
      modifies this
      ensures Sem.Executed(escaped, State()) == Sem.Interpret(old(Config()), statements, old(State()))
      ensures Config() == old(Config())
    {
      ghost var total := Sem.ExecList(Config(), statements, State());
      var i := 0;
      escaped := Sem.Normal;
      while i < |statements| && escaped.Normal?
        invariant 0 <= i <= |statements| && Valid() && Config() == old(Config())
        invariant escaped.Normal? ==> total == Sem.ExecList(Config(), statements[i..], State())
        invariant !escaped.Normal? ==> total == Sem.Executed(escaped, State())
        decreases |statements| - i, if escaped.Normal? then 1 else 0
      {
        assert statements[i..][0] == statements[i] && statements[i..][1..] == statements[i + 1..];
        if statements[i].None? {
          escaped := Sem.Raised(NullPointer);
        } else {
          escaped := Execute(statements[i].value);
          if escaped.Normal? {
            i := i + 1;
          }
        }
      }
      if escaped.Raised? && escaped.failure.RuntimeError? {
        errors := errors + [escaped.failure];
        escaped := Sem.Normal;
      }
    }

    // -------------------------------------------------------------------------------------
    // Expressions.

    /** `evaluate`. */
    method Evaluate(e: Expr) returns (r: Result<Value>)
      requires Valid()
      modifies this
      ensures Sem.Evaluated(r, State()) == Sem.Eval(old(Config()), e, old(State()))
      ensures Config() == old(Config())
      decreases stack, 1, e, 2
    {
      match e
      case Literal(lit) => r := Ok(FromLiteral(lit));
      case Grouping(inner) => r := Evaluate(inner);
      case Variable(name) => r := Get(frames, environment, name);
      case Binary(_, _, _) => r := VisitBinaryExpr(e);
      case Unary(_, _) => r := VisitUnaryExpr(e);
      case Assign(_, _) => r := VisitAssignExpr(e);
      case AssignShorthand(_, _, _) => r := VisitAssignShorthandExpr(e);
      case Logical(_, _, _) => r := VisitLogicalExpr(e);
      case Call(_, _, _) => r := VisitCallExpr(e);
    }

    method VisitBinaryExpr(e: Expr) returns (r: Result<Value>)
      requires e.Binary? && Valid()
      modifies this
      ensures Sem.Evaluated(r, State()) == Sem.EvalBinary(old(Config()), e, old(State()))
      ensures Config() == old(Config())
      decreases stack, 1, e, 1
    {
      var left := Evaluate(e.left);
      if left.Err? {
        return left;
      }
      var right := Evaluate(e.right);
      if right.Err? {
        return right;
      }
      r := BinaryOperation(host, e.operator, left.value, right.value);
    }

    method VisitUnaryExpr(e: Expr) returns (r: Result<Value>)
      requires e.Unary? && Valid()
      modifies this
      ensures Sem.Evaluated(r, State()) == Sem.EvalUnary(old(Config()), e, old(State()))
      ensures Config() == old(Config())
      decreases stack, 1, e, 1
    {
      var right := Evaluate(e.right);
      if right.Err? {
        return right;
      }
      r := UnaryOperation(e.operator, right.value);
    }

    method VisitAssignExpr(e: Expr) returns (r: Result<Value>)
      requires e.Assign? && Valid()
      modifies this
      ensures Sem.Evaluated(r, State()) == Sem.EvalAssign(old(Config()), e, old(State()))
      ensures Config() == old(Config())
      decreases stack, 1, e, 1
    {
      var value := Evaluate(e.value);
      if value.Err? {
        return value;
      }
      var rebound := Environments.Assign(frames, environment, e.name, value.value);
      if rebound.Err? {
        return Err(rebound.failure);
      }
      frames := rebound.value;
      r := value;
    }

    method VisitAssignShorthandExpr(e: Expr) returns (r: Result<Value>)
      requires e.AssignShorthand? && Valid()
      modifies this
      ensures Sem.Evaluated(r, State()) == Sem.EvalShorthand(old(Config()), e, old(State()))
      ensures Config() == old(Config())
      decreases stack, 1, e, 1
    {
      var rightHandSide := Evaluate(e.value);
      if rightHandSide.Err? {
        return rightHandSide;
      }
      var value := Get(frames, environment, e.name);
      if value.Err? {
        return value;
      }
      if !(value.value.Num? && rightHandSide.value.Num?) {
        return Err(RuntimeError(e.name, TypesMustMatch));
      }
      var finalValue := ShorthandValue(host, e.operator.kind, value.value.n, rightHandSide.value.n);
      if finalValue.None? {
        return Ok(Nil);
      }
      frames := Environments.Assign(frames, environment, e.name, Num(finalValue.value)).value;
      r := Ok(Num(finalValue.value));
    }

    method VisitLogicalExpr(e: Expr) returns (r: Result<Value>)
      requires e.Logical? && Valid()
      modifies this
      ensures Sem.Evaluated(r, State()) == Sem.EvalLogical(old(Config()), e, old(State()))
      ensures Config() == old(Config())
      decreases stack, 1, e, 1
    {
      var left := Evaluate(e.left);
      if left.Err? {
        return left;
      }
      if e.operator.kind == OR {
        if IsTruthy(left.value) {
          return left;
        }
      } else {
        if !IsTruthy(left.value) {
          return left;
        }
      }
      r := Evaluate(e.right);
    }

    /** `visitCallExpr`: the callee, then the argument list filled in order, then the checks
        and the call. */
    method VisitCallExpr(e: Expr) returns (r: Result<Value>)
      requires e.Call? && Valid()
      modifies this
      ensures Sem.Evaluated(r, State()) == Sem.EvalCall(old(Config()), e, old(State()))
      ensures Config() == old(Config())
      decreases stack, 1, e, 1
    {
      var callee := Evaluate(e.callee);
      if callee.Err? {
        return callee;
      }
      var arguments := EvaluateArguments(e);
      if arguments.Err? {
        return Err(arguments.failure);
      }
      r := CallValue(e.paren, callee.value, arguments.value);
    }

    /** The checks that end `visitCallExpr`, then the call one level deeper. */
    method CallValue(paren: Token, callee: Value, arguments: seq<Value>) returns (r: Result<Value>)
      requires Valid() && Within(callee, |frames|)
      requires forall v | v in arguments :: Within(v, |frames|)
      modifies this
      ensures Sem.Evaluated(r, State()) == Sem.CallValue(old(Config()), paren, callee, arguments, old(State()))
      ensures Config() == old(Config())
      decreases stack, 0
    {
      if !callee.Fun? {
        return Err(RuntimeError(paren, NotCallable));
      }
      var callable := callee.callee;
      if |arguments| != callable.Arity() {
        return Err(RuntimeError(paren, ArityMismatch(callable.Arity(), |arguments|)));
      }
      if stack == 0 {
        return Err(StackOverflow);
      }
      stack := stack - 1;
      r := CallFunction(callable, arguments);
      stack := stack + 1;
    }

    /** The argument list of `visitCallExpr`, filled in order; the first exception stops it. */
    method EvaluateArguments(e: Expr) returns (r: Result<seq<Value>>)
      requires e.Call? && Valid()
      modifies this
      ensures Sem.Evaluated(r, State()) == Sem.EvalArguments(old(Config()), e, 0, [], old(State()))
      ensures Config() == old(Config())
      decreases stack, 1, e, 0
    {
      ghost var total := Sem.EvalArguments(Config(), e, 0, [], State());
      var arguments: seq<Value> := [];
      var i := 0;
      while i < |e.arguments|
        invariant i <= |e.arguments| && Valid() && Config() == old(Config())
        invariant forall v | v in arguments :: Within(v, |frames|)
        invariant total == Sem.EvalArguments(Config(), e, i, arguments, State())
      {
        var argument := Evaluate(e.arguments[i]);
        if argument.Err? {
          return Err(argument.failure);
        }
        arguments := arguments + [argument.value];
        i := i + 1;
      }
      r := Ok(arguments);
    }

    /** `LoxFunction.call`: a fresh environment enclosed by the closure, the parameters defined
        there one by one, the body run as a block in it, and the `Return` caught. */
    method CallFunction(f: Callable, arguments: seq<Value>) returns (r: Result<Value>)
      requires Valid() && f.closure < |frames| && |arguments| == f.Arity()
      requires forall v | v in arguments :: Within(v, |frames|)
      modifies this
      ensures Sem.Evaluated(r, State()) == Sem.CallFunction(old(Config()), f, arguments, old(State()))
      ensures Config() == old(Config())
      decreases stack, 3
    {
      var scope := |frames|;
      frames := Push(frames, f.closure);
      ghost var pushed := frames;
      var i := 0;
      while i < |f.params|
        invariant i <= |f.params| && Config() == old(Config()) && environment == old(environment)
        invariant frames == Bind(pushed, scope, f.params[..i], arguments[..i])
        invariant output == old(output) && errors == old(errors) && nextId == old(nextId)
      {
        assert f.params[..i + 1][..i] == f.params[..i] && arguments[..i + 1][..i] == arguments[..i];
        frames := Define(frames, scope, f.params[i].lexeme, arguments[i]);
        i := i + 1;
      }
      assert f.params[..i] == f.params && arguments[..i] == arguments;
      forall v | v in arguments
        ensures Within(v, scope + 1)
      {
        assert Within(v, scope);
      }
      var c := ExecuteBlock(f.body, scope);
      match c
      case Normal => r := Ok(Nil);
      case Returned(v) => r := Ok(v);
      case Raised(failure) => r := Err(failure);
    }

    // -------------------------------------------------------------------------------------
    // Statements.

    /** `execute`. */
    method Execute(s: Stmt) returns (c: Sem.Completion)
      requires Valid()
      modifies this
      ensures Sem.Executed(c, State()) == Sem.Exec(old(Config()), s, old(State()))
      ensures Config() == old(Config())
      decreases stack, 2, Sem.Size(s), 1
    {
      match s
      case Expression(_) => c := VisitExpressionStmt(s);
      case Print(_) => c := VisitPrintStmt(s);
      case Var(_, _) => c := VisitVarStmt(s);
      case Block(_) => c := VisitBlockStmt(s);
      case If(_, _, _) => c := VisitIfStmt(s);
      case Ternary(_, _, _) => c := VisitTernaryStmt(s);
      case While(_, _) => c := VisitWhileStmt(s);
      case DoWhile(_, _) => c := VisitDoWhileStmt(s);
      case Function(_, _, _) => c := VisitFunctionStmt(s);
      case Return(_, _) => c := VisitReturnStmt(s);
    }

    method VisitExpressionStmt(s: Stmt) returns (c: Sem.Completion)
      requires s.Expression? && Valid()
      modifies this
      ensures Sem.Executed(c, State()) == Sem.Exec(old(Config()), s, old(State()))
      ensures Config() == old(Config())
      decreases stack, 2, Sem.Size(s), 0
    {
      var result := Evaluate(s.expression);
      if result.Err? {
        return Sem.Raised(result.failure);
      }
      if isInREPL {
        output := output + [Stringify(host, result.value)];
      }
      c := Sem.Normal;
    }

    method VisitPrintStmt(s: Stmt) returns (c: Sem.Completion)
      requires s.Print? && Valid()
      modifies this
      ensures Sem.Executed(c, State()) == Sem.Exec(old(Config()), s, old(State()))
      ensures Config() == old(Config())
      decreases stack, 2, Sem.Size(s), 0
    {
      var value := Evaluate(s.expression);
      if value.Err? {
        return Sem.Raised(value.failure);
      }
      output := output + [Stringify(host, value.value)];
      c := Sem.Normal;
    }

    method VisitVarStmt(s: Stmt) returns (c: Sem.Completion)
      requires s.Var? && Valid()
      modifies this
      ensures Sem.Executed(c, State()) == Sem.ExecVar(old(Config()), s, old(State()))
      ensures Config() == old(Config())
      decreases stack, 2, Sem.Size(s), 0
    {
      var value := Nil;
      if s.initializer.Some? {
        var initial := Evaluate(s.initializer.value);
        if initial.Err? {
          return Sem.Raised(initial.failure);
        }
        value := initial.value;
      }
      frames := Define(frames, environment, s.name.lexeme, value);
      c := Sem.Normal;
    }

    /** `visitBlockStmt`: the block's statements in a new environment enclosed by the current one. */
    method VisitBlockStmt(s: Stmt) returns (c: Sem.Completion)
      requires s.Block? && Valid()
      modifies this
      ensures Sem.Executed(c, State()) == Sem.Exec(old(Config()), s, old(State()))
      ensures Config() == old(Config())
      decreases stack, 2, Sem.Size(s), 0
    {
      var scope := |frames|;
      frames := Push(frames, environment);
      c := ExecuteBlock(s.statements, scope);
    }

    /** `executeBlock`: makes `scope` current, runs the statements until one does not complete
        normally, and makes the previous environment current again whatever happened. */
    method ExecuteBlock(statements: seq<Option<Stmt>>, scope: nat) returns (c: Sem.Completion)
      requires Valid() && scope < |frames|
      modifies this
      ensures Sem.Executed(c, State()) == Sem.ExecuteBlock(old(Config()), statements, old(State()), scope)
      ensures Config() == old(Config())
      decreases stack, 2, Sem.ListSize(statements), 3
    {
      var previous := environment;
      environment := scope;
      ghost var total := Sem.ExecList(Config(), statements, State());
      var i := 0;
      c := Sem.Normal;
      while i < |statements| && c.Normal?
        invariant 0 <= i <= |statements| && Valid() && Config() == old(Config()) && environment == scope
        invariant c.Normal? ==> total == Sem.ExecList(Config(), statements[i..], State())
        invariant !c.Normal? ==> total == Sem.Executed(c, State())
        decreases |statements| - i, if c.Normal? then 1 else 0
      {
        assert statements[i..][0] == statements[i] && statements[i..][1..] == statements[i + 1..];
        if statements[i].None? {
          c := Sem.Raised(NullPointer);
        } else {
          Sem.ListSizeBoundsElements(statements, i);
          c := Execute(statements[i].value);
          if c.Normal? {
            i := i + 1;
          }
        }
      }
      environment := previous;
    }

    method VisitIfStmt(s: Stmt) returns (c: Sem.Completion)
      requires s.If? && Valid()
      modifies this
      ensures Sem.Executed(c, State()) == Sem.ExecIf(old(Config()), s, old(State()))
      ensures Config() == old(Config())
      decreases stack, 2, Sem.Size(s), 0
    {
      var condition := Evaluate(s.condition);
      if condition.Err? {
        return Sem.Raised(condition.failure);
      }
      if IsTruthy(condition.value) {
        c := Execute(s.thenBranch);
      } else if s.elseBranch.Some? {
        assert Sem.OptionalSize(s.elseBranch) == Sem.Size(s.elseBranch.value);
        c := Execute(s.elseBranch.value);
      } else {
        c := Sem.Normal;
      }
    }

    method VisitTernaryStmt(s: Stmt) returns (c: Sem.Completion)
      requires s.Ternary? && Valid()
      modifies this
      ensures Sem.Executed(c, State()) == Sem.ExecTernary(old(Config()), s, old(State()))
      ensures Config() == old(Config())
      decreases stack, 2, Sem.Size(s), 0
    {
      var condition := Evaluate(s.condition);
      if condition.Err? {
        return Sem.Raised(condition.failure);
      }
      if IsTruthy(condition.value) {
        c := Execute(s.ifTrue);
      } else {
        c := Execute(s.ifFalse);
      }
    }

    /** `visitWhileStmt`, stopping with `OutOfFuel` rather than running the body more than
        `fuel` times. */
    method VisitWhileStmt(s: Stmt) returns (c: Sem.Completion)
      requires s.While? && Valid()
      modifies this
      ensures Sem.Executed(c, State()) == Sem.ExecWhile(old(Config()), s, old(State()), fuel)
      ensures Config() == old(Config())
      decreases stack, 2, Sem.Size(s), 0
    {
      var remaining := fuel;
      while true
        invariant Valid() && Config() == old(Config())
        invariant Sem.ExecWhile(Config(), s, old(State()), fuel) == Sem.ExecWhile(Config(), s, State(), remaining)
        decreases remaining
      {
        var condition := Evaluate(s.condition);
        if condition.Err? {
          return Sem.Raised(condition.failure);
        }
        if !IsTruthy(condition.value) {
          return Sem.Normal;
        }
        if remaining == 0 {
          return Sem.Raised(OutOfFuel);
        }
        c := Execute(s.body);
        if !c.Normal? {
          return;
        }
        remaining := remaining - 1;
      }
    }

    /** `visitDoWhileStmt`, stopping with `OutOfFuel` rather than repeating the body more than
        `fuel` times. */
    method VisitDoWhileStmt(s: Stmt) returns (c: Sem.Completion)
      requires s.DoWhile? && Valid()
      modifies this
      ensures Sem.Executed(c, State()) == Sem.ExecDoWhile(old(Config()), s, old(State()), fuel)
      ensures Config() == old(Config())
      decreases stack, 2, Sem.Size(s), 0
    {
      var remaining := fuel;
      while true
        invariant Valid() && Config() == old(Config())
        invariant Sem.ExecDoWhile(Config(), s, old(State()), fuel) == Sem.ExecDoWhile(Config(), s, State(), remaining)
        decreases remaining
      {
        c := Execute(s.body);
        if !c.Normal? {
          return;
        }
        var condition := Evaluate(s.condition);
        if condition.Err? {
          return Sem.Raised(condition.failure);
        }
        if !IsTruthy(condition.value) {
          return Sem.Normal;
        }
        if remaining == 0 {
          return Sem.Raised(OutOfFuel);
        }
        remaining := remaining - 1;
      }
    }

    /** `visitFunctionStmt`: a new function object closing over the current environment, bound
        to the function's name there. */
    method VisitFunctionStmt(s: Stmt) returns (c: Sem.Completion)
      requires s.Function? && Valid()
      modifies this
      ensures Sem.Executed(c, State()) == Sem.Exec(old(Config()), s, old(State()))
      ensures Config() == old(Config())
      decreases stack, 2, Sem.Size(s), 0
    {
      var callable := LoxFunction(nextId, s.name, s.params, s.statements, environment);
      nextId := nextId + 1;
      frames := Define(frames, environment, s.name.lexeme, Fun(callable));
      c := Sem.Normal;
    }

    /** `visitReturnStmt`: the value, or `nil`, leaves as a `Return`. */
    method VisitReturnStmt(s: Stmt) returns (c: Sem.Completion)
      requires s.Return? && Valid()
      modifies this
      ensures Sem.Executed(c, State()) == Sem.Exec(old(Config()), s, old(State()))
      ensures Config() == old(Config())
      decreases stack, 2, Sem.Size(s), 0
    {
      var value := Nil;
      if s.value.Some? {
        var result := Evaluate(s.value.value);
        if result.Err? {
          return Sem.Raised(result.failure);
        }
        value := result.value;
      }
      c := Sem.Returned(value);
    }
  }
}
