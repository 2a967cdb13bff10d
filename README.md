# A tree-walking interpreter, modelled in Dafny

This project models the core of a small Lox-style scripting language implemented in Java.
The core has three parts:

- a recursive-descent parser (`Parser.java`) that turns a token list (`TokenType.java`) into
  statement and expression trees (`Expr.java` and its statement counterpart);
- a tree-walking evaluator (`Interpreter.java`) that runs those trees over lexically nested
  environments;
- the environments themselves: frames of variables, each with an optional enclosing frame.

The parser is modelled twice:

- `Grammar` describes every parsing method as a pure function of the token list and the
  parser state. The state is the cursor plus the diagnostics reported so far.
- `Parsing.Parser` is a class with the Java parser's cursor. Each of its methods is proved
  to compute exactly what the matching `Grammar` function says.
- A thrown `ParseError` becomes a failed `Parsed` outcome. `declaration` catches it and
  resynchronises, just as in the Java code.

The evaluator is modelled the same way:

- `Semantics` gives the meaning of expressions and statements as functions over the
  interpreter state. The state is the frames, the current environment, the console lines,
  the reported runtime errors and a counter for fresh function identities.
- `Interpreting.Interpreter` is a class whose fields are that state. Each visitor method is
  proved to compute what `Semantics` says.
- The `Return` exception becomes a `Returned` completion and a `RuntimeError` becomes a
  `Raised` completion. Both propagate through blocks and loops exactly as the exceptions do.
- A call runs the function's body (`LoxFunction.call`), so evaluation and execution are one
  mutual recursion. It is bounded by the depth of calls the Java stack allows: past it a
  call raises `StackOverflow`.

Environments live in an arena: a sequence of frames that refer to their enclosing frame by
index. A frame captured by a closure therefore stays reachable after its block ends.

Modules:

- `Tokens`: token kinds, literal values and tokens.
- `Ast`: the expression and statement trees.
- `Grammar` and `GrammarFacts`: the reference parser and its properties.
- `Parsing`: the parser class.
- `Values`: runtime values, truthiness, equality, `stringify` and the operator tables. The
  lemmas `DivideThenMultiply` and `MultiplyThenDivide` are real-arithmetic helpers, and
  `DigitsThenRest`, `MessageInitial` and `UndefinedMessageNamesVariable` are steps of the
  proof that the runtime-error messages tell the errors apart.
- `Environments`: frames, lookup, definition, assignment and the binding of parameters.
  `Within` and `Closed` say that every function value closes over a frame that exists.
- `Semantics` and `SemanticsFacts`: the evaluator and its properties. `Size`, `ListSize`
  and the lemma `ListSizeBoundsElements` are the termination measure for statements.
  The lemmas `WhileStopsWhenFalse` and `ExecOfLoop` are steps of the loop proofs, and
  `CounterCallOnce` and `IncrementThroughEnclosing` are steps of the counter proof.
- `Interpreting`: the interpreter class.

The platform's number formatting and IEEE operations come in through a `Host` parameter
(see "Left out").

The native functions are not modelled (see "Left out"), so the only callable value is a
user function. Its identity is a counter that the interpreter state carries, so two functions
compare equal exactly when they come from the same execution of a declaration.

## Model

| member | source | states |
|---|---|---|
| Tokens.OrdinalRoundTrip | TokenType.java:1-21 | each of the 51 kinds is recovered from its ordinal, so the enumeration is closed and its members are distinct |
| Tokens.EofIsLast | TokenType.java:20 | `EOF` is the last kind; every other kind has a smaller ordinal and no kind lies beyond it |
| Tokens.OrdinalInjective | TokenType.java:1-21 | two kinds are equal exactly when their ordinals are |
| Grammar.Advance | Parser.java:447-450 | the cursor stays on the stream, moves one token on and never passes `EOF`; diagnostics are untouched |
| Grammar.Consume | Parser.java:384-388 | never moves the cursor back; on success it has consumed a token |
| Grammar.ExpressionRule | Parser.java:191-193 | an expression that parses consumes at least one token and never moves the cursor back |
| Grammar.Assignment | Parser.java:195-235 | an assignment that parses consumes at least one token |
| Grammar.AssignmentTail | Parser.java:198-234 | what follows the left-hand side never moves the cursor back or off the stream |
| Grammar.Operand | Parser.java:237-319 | an operand of a binary level consumes at least one token |
| Grammar.BinaryRule | Parser.java:237-319 | a binary level consumes at least one token, and on success no operator of its own level follows |
| Grammar.BinaryTail | Parser.java:240-245 | the loop of a level stops only where no operator of that level follows |
| Grammar.UnaryRule | Parser.java:321-329 | a unary expression consumes at least one token |
| Grammar.CallRule | Parser.java:331-343 | a call expression consumes at least one token |
| Grammar.CallTail | Parser.java:334-340 | the postfix-call loop never moves the cursor back |
| Grammar.FinishCall | Parser.java:345-359 | the argument list and its `)` consume at least one token |
| Grammar.ArgumentList | Parser.java:347-354 | reading the arguments never moves the cursor back |
| Grammar.Arguments | Parser.java:348-353 | the `do`-`while` adds at least one argument and keeps those already read, in order |
| Grammar.Primary | Parser.java:361-382 | a primary expression consumes at least one token |
| Grammar.PrintStatement | Parser.java:182-189 | a print statement consumes tokens and yields a `Print` node |
| Grammar.BranchExpression | Parser.java:174 | a non-print ternary branch is an expression statement, and the token just consumed is its terminator |
| Grammar.TernaryStatement | Parser.java:171-180 | the ternary keeps its condition; each branch is a print or an expression statement, and an expression false branch ends at `;` |
| Grammar.TernaryBranch | Parser.java:173-177 | a branch is a print or an expression closed by the given terminator |
| Grammar.ExpressionStatement | Parser.java:162-169 | an expression statement consumes at least one token |
| Grammar.VarDeclaration | Parser.java:57-67 | a variable declaration consumes at least one token |
| Grammar.VarInitializer | Parser.java:60-63 | a missing initializer consumes nothing |
| Grammar.OptionalExpression | Parser.java:84-86 | an omitted expression consumes nothing, and the terminator is left for the caller |
| Grammar.ReturnStatement | Parser.java:81-90 | a return statement consumes at least one token |
| Grammar.DoWhileStatement | Parser.java:92-100 | a do-while statement consumes at least one token |
| Grammar.ForStatement | Parser.java:102-140 | a for statement consumes at least one token |
| Grammar.ForInitializer | Parser.java:103-112 | the initializer clause consumes at least one token |
| Grammar.ForClauses | Parser.java:114-139 | the condition, the increment and the body consume at least one token |
| Grammar.ForIncrement | Parser.java:120-139 | the increment clause and the body consume at least one token |
| Grammar.WhileStatement | Parser.java:142-149 | a while statement consumes at least one token |
| Grammar.IfStatement | Parser.java:417-429 | an if statement consumes at least one token |
| Grammar.BlockRule | Parser.java:151-160 | a block consumes at least one token |
| Grammar.BlockBody | Parser.java:154-156 | the loop over a block's declarations never fails and never moves back |
| Grammar.Statement | Parser.java:69-79 | a statement consumes at least one token |
| Grammar.FunctionDeclaration | Parser.java:37-55 | a function declaration consumes at least one token |
| Grammar.FunctionParameters | Parser.java:39-55 | on success the result is a `Function` node with the declared name |
| Grammar.ParameterList | Parser.java:41-49 | reading the parameter names never moves the cursor back |
| Grammar.FunctionBody | Parser.java:50-54 | on success the result is a `Function` node with the given name and parameters |
| Grammar.Parameters | Parser.java:42-48 | the parameter loop consumes at least one token and never moves back |
| Grammar.Declaration | Parser.java:26-35 | a declaration never fails; unless the cursor is at `EOF`, it consumes at least one token |
| Grammar.DeclarationAttempt | Parser.java:27-30 | the `try` part of a declaration consumes at least one token |
| Grammar.Recover | Parser.java:31-34 | a successful attempt is kept; a failed one yields no statement and resumes after `synchronize`, strictly further on |
| Grammar.Synchronize | Parser.java:395-415 | recovery keeps the diagnostics and never moves back; unless at `EOF` it discards at least one token |
| Grammar.SkipToBoundary | Parser.java:398-414 | the recovery loop keeps the diagnostics and never moves back |
| Grammar.ParseFrom | Parser.java:14-24 | the parse loop ends exactly at `EOF` |
| GrammarFacts.CursorSteps | Parser.java:431-450 | `advance` moves one token except at `EOF`; `match` succeeds exactly when one listed kind is current, and then moves one token; `consume` yields the current token or reports the message at it |
| GrammarFacts.AtEndIsLast | Parser.java:452-454 | the cursor is at the end exactly when it rests on the last token |
| GrammarFacts.SkipToBoundaryStopsAtFirst | Parser.java:398-414 | the recovery loop stops at the first statement boundary (after a `;`, before a statement keyword, or at `EOF`) |
| GrammarFacts.SynchronizeStopsAtNextBoundary | Parser.java:395-415 | `synchronize` always discards the current token and then stops at the next boundary |
| GrammarFacts.FailedStatementRecovers | Parser.java:26-35 | a statement that fails to parse yields a null declaration and resynchronises from where it failed |
| GrammarFacts.StatementIsTheFallback | Parser.java:26-35 | anything that does not start with `var` or `fun` is parsed as a statement |
| GrammarFacts.FailedAttemptRecovers | Parser.java:26-35 | any failed declaration attempt yields a null declaration and resynchronises from where it failed |
| GrammarFacts.ParseFromProgress | Parser.java:14-24 | each round of the parse loop consumes a token, so the loop ends at `EOF` with at most one declaration per token |
| GrammarFacts.ParseConsumesAll | Parser.java:14-24 | `parse` reads the whole stream up to `EOF` and yields fewer declarations than there are tokens |
| GrammarFacts.LeftAssociative | Parser.java:237-319 | every binary level is left-associative: `a op b op c` is `(a op b) op c` |
| GrammarFacts.BinaryTailStep | Parser.java:240-245 | one round of a level's loop folds the operator and the next operand into the tree built so far |
| GrammarFacts.ExponentBindsTighter | Parser.java:297-319 | the operand of the multiplication level ends where no `**` follows, so `**` binds tighter than `*` |
| GrammarFacts.ExponentLeftNested | Parser.java:309-319 | `a ** b ** c` parses as `(a ** b) ** c` |
| GrammarFacts.AssignmentSplits | Parser.java:195-197 | an assignment is its left-hand side at the `or` level followed by what comes after it |
| GrammarFacts.AssignmentRightAssociative | Parser.java:198-205 | `a = b = c` parses as `a = (b = c)` |
| GrammarFacts.PostfixIncrement | Parser.java:217-222 | `x++` is a compound assignment of the literal `1.0`, keeping the `++` token |
| GrammarFacts.PostfixDecrement | Parser.java:225-230 | `x--` is a compound assignment of the literal `-1.0`, keeping the `--` token |
| GrammarFacts.CompoundAssignment | Parser.java:208-214 | `x op= e` keeps the variable, the operator token and the whole right-hand side |
| GrammarFacts.InvalidAssignmentTarget | Parser.java:198-207 | `=` after a non-variable is reported at the `=`, the right-hand side is dropped and the parse goes on with the left-hand side |
| GrammarFacts.CallKeepsArguments | Parser.java:345-359 | a call keeps its callee, its closing `)` and its arguments in source order |
| GrammarFacts.ForDesugarsToWhile | Parser.java:102-140 | a full `for` becomes `{ init; while (cond) { body; incr; } }` |
| GrammarFacts.ForOpensWithDeclaration | Parser.java:105-112 | a `var` initializer is parsed as a declaration, and the condition follows |
| GrammarFacts.ForReadsCondition | Parser.java:114-118 | a present condition is read up to its `;` |
| GrammarFacts.ForIncrementFollowsBody | Parser.java:120-139 | for any initializer and condition already read, an optional increment up to `)` and then the body give the loop `ForLoop` builds from all four |
| GrammarFacts.ForDesugars | Parser.java:102-140 | every shape of `for` (no initializer, a declaration or an expression statement; condition and increment each present or not) is read clause by clause and becomes `ForLoop` of its clauses and body |
| GrammarFacts.ForExpressionInitializer | Parser.java:105-112 | an initializer that starts with neither `;` nor `var` is parsed as an expression statement |
| GrammarFacts.ForConditionDefaultsToTrue | Parser.java:132-133 | the desugared loop tests the condition, or `true` when the condition is missing |
| GrammarFacts.ForIncrementEndsBody | Parser.java:128-130 | a present increment runs after the body in a block of the two; without one the body is the loop's body, with no block |
| GrammarFacts.ForInitializerOpensBlock | Parser.java:135-137 | a present initializer runs once before the loop in a block of the two; without one the loop stands alone |
| GrammarFacts.EmptyForLoopsForever | Parser.java:128-139 | `for (;;) body` becomes `while (true) body` with no enclosing block |
| GrammarFacts.QuestionStartsTernary | Parser.java:162-166 | an expression followed by `?` starts a statement ternary |
| GrammarFacts.ExpressionBranch | Parser.java:174-177 | a non-print branch is an expression statement when its terminator follows, and a parse error at the next token otherwise |
| GrammarFacts.TernaryOfPrints | Parser.java:171-189 | `c ? print a : print b;` is a ternary of two print statements |
| GrammarFacts.TernaryOfExpressions | Parser.java:171-180 | `c ? a : b;` is a ternary of two expression statements |
| GrammarFacts.TernaryNeedsElse | Parser.java:174 | a true branch not followed by `:` is a parse error reported at that token |
| Parsing.Parser.constructor | Parser.java:10-12 | the parser starts at the first token with no diagnostics |
| Parsing.Parser.Advance | Parser.java:447-450 | moves the cursor as `Grammar.Advance` says |
| Parsing.Parser.Match | Parser.java:431-440 | answers and moves exactly as `Grammar.Matches` and `Grammar.Match` say |
| Parsing.Parser.Consume | Parser.java:384-388 | returns the token or fails, with the state `Grammar.Consume` gives |
| Parsing.Parser.Error | Parser.java:390-393 | appends one diagnostic and leaves the cursor alone |
| Parsing.Parser.Synchronize | Parser.java:395-415 | moves the cursor to where `Grammar.Synchronize` says |
| Parsing.Parser.Parse | Parser.java:14-24 | returns the declarations `Grammar.ParseFrom` gives and ends in its state |
| Parsing.Parser.Declaration | Parser.java:26-35 | computes `Grammar.Declaration`: never fails, and recovers from a failed attempt |
| Parsing.Parser.FunctionDeclaration | Parser.java:37-55 | computes `Grammar.FunctionDeclaration` |
| Parsing.Parser.FunctionParameters | Parser.java:39-55 | computes `Grammar.FunctionParameters` |
| Parsing.Parser.ParameterList | Parser.java:41-49 | computes `Grammar.ParameterList`, reporting more than 255 parameters without aborting |
| Parsing.Parser.FunctionBody | Parser.java:50-54 | computes `Grammar.FunctionBody` |
| Parsing.Parser.VarDeclaration | Parser.java:57-67 | computes `Grammar.VarDeclaration` |
| Parsing.Parser.VarInitializer | Parser.java:60-63 | computes `Grammar.VarInitializer` |
| Parsing.Parser.Statement | Parser.java:69-79 | computes `Grammar.Statement` |
| Parsing.Parser.ReturnStatement | Parser.java:81-90 | computes `Grammar.ReturnStatement`, with the `return` token as keyword |
| Parsing.Parser.DoWhileStatement | Parser.java:92-100 | computes `Grammar.DoWhileStatement` |
| Parsing.Parser.ForStatement | Parser.java:102-140 | computes `Grammar.ForStatement`, the desugared loop |
| Parsing.Parser.ForInitializer | Parser.java:103-112 | computes `Grammar.ForInitializer` |
| Parsing.Parser.ForClauses | Parser.java:114-139 | computes `Grammar.ForClauses` |
| Parsing.Parser.ForIncrement | Parser.java:120-139 | computes `Grammar.ForIncrement` |
| Parsing.Parser.OptionalExpression | Parser.java:84-86 | computes `Grammar.OptionalExpression` |
| Parsing.Parser.WhileStatement | Parser.java:142-149 | computes `Grammar.WhileStatement` |
| Parsing.Parser.IfStatement | Parser.java:417-429 | computes `Grammar.IfStatement` |
| Parsing.Parser.BlockRule | Parser.java:151-160 | computes `Grammar.BlockRule` |
| Parsing.Parser.ExpressionStatement | Parser.java:162-169 | computes `Grammar.ExpressionStatement` |
| Parsing.Parser.TernaryStatement | Parser.java:171-180 | computes `Grammar.TernaryStatement` |
| Parsing.Parser.TernaryBranch | Parser.java:173-177 | computes `Grammar.TernaryBranch` |
| Parsing.Parser.BranchExpression | Parser.java:174 | computes `Grammar.BranchExpression` |
| Parsing.Parser.PrintStatement | Parser.java:182-189 | computes `Grammar.PrintStatement` |
| Parsing.Parser.ExpressionRule | Parser.java:191-193 | computes `Grammar.ExpressionRule` |
| Parsing.Parser.Assignment | Parser.java:195-235 | computes `Grammar.Assignment` |
| Parsing.Parser.Operand | Parser.java:237-319 | computes `Grammar.Operand` |
| Parsing.Parser.BinaryRule | Parser.java:237-319 | computes `Grammar.BinaryRule` for each of the seven levels |
| Parsing.Parser.BinaryLoop | Parser.java:240-245 | computes `Grammar.BinaryTail` from the tree built so far |
| Parsing.Parser.UnaryRule | Parser.java:321-329 | computes `Grammar.UnaryRule` |
| Parsing.Parser.CallRule | Parser.java:331-343 | computes `Grammar.CallRule` |
| Parsing.Parser.FinishCall | Parser.java:345-359 | computes `Grammar.FinishCall` |
| Parsing.Parser.ArgumentList | Parser.java:347-354 | computes `Grammar.ArgumentList`, reporting more than 255 arguments without aborting |
| Parsing.Parser.Primary | Parser.java:361-382 | computes `Grammar.Primary` |
| Values.FromLiteral | Interpreter.java:363-365 | a literal evaluates to the value it holds; only the null literal gives `nil` |
| Values.FalsyValues | Interpreter.java:396-403 | the falsy values are exactly `nil`, `false` and zero |
| Values.NilEqualsOnlyNil | Interpreter.java:350-355 | `nil` equals only `nil`, from either side |
| Values.IsEqualIsValueEquality | Interpreter.java:350-355 | equality is value equality, except that functions compare by identity |
| Values.IsEqualIsEquivalence | Interpreter.java:350-355 | equality is reflexive, symmetric and transitive |
| Values.StripPointZeroRoundTrip | Interpreter.java:274-280 | `stringify` removes exactly a trailing `.0` and nothing else |
| Values.NatText | Interpreter.java:560-563 | the count in the arity message is a non-empty string of decimal digits |
| Values.NatTextRoundTrip | Interpreter.java:560-563 | the digits in the arity message read back as the count |
| Values.ArityMessageNamesCounts | Interpreter.java:560-563 | the arity message determines both the expected and the passed count |
| Values.MessageIdentifiesKind | Interpreter.java:553-563 | two runtime errors carry the same message exactly when they are the same error, the two call errors and the counts in the arity message included |
| Values.CheckNumberOperand | Interpreter.java:384-387 | succeeds exactly on a number, returns that number, and otherwise raises "Operand must be a number." at the operator |
| Values.CheckNumberOperands | Interpreter.java:389-394 | succeeds exactly when both operands are numbers, returns them, and otherwise raises "Operands must be numbers." at the operator |
| Values.PlusAddsOrConcatenates | Interpreter.java:304-312 | `+` adds two numbers, joins two strings, and raises at the operator for every other pair |
| Values.NumericOperatorsCheckOperands | Interpreter.java:292-340 | `-`, `/`, `*`, `**`, `%` and the four comparisons raise exactly when an operand is not a number |
| Values.DivisionByZeroIsNil | Interpreter.java:295-300 | dividing by zero gives `nil`; otherwise `/` is real division, undone by `*` |
| Values.ComparisonsAgree | Interpreter.java:329-340 | `a > b` is `b < a`, and `a >= b` is the negation of `a < b` |
| Values.EqualityOperatorsComplement | Interpreter.java:341-342 | `==` and `!=` never raise and always give opposite answers |
| Values.DotPlusJoinsTexts | Interpreter.java:319-328 | `+.` joins the printed texts of its operands and dereferences null when either is `nil` |
| Values.BinaryOperation | Interpreter.java:287-347 | a binary operator never yields a function, and raises only at the operator or, for `+.`, by dereferencing null |
| Values.UnaryOperation | Interpreter.java:369-381 | a unary operator never yields a function, and raises only "Operand must be a number." at the operator |
| Values.UnaryOperators | Interpreter.java:369-381 | `!` never raises and `!!v` is the truthiness of `v`; `-` raises exactly on a non-number, and `- -n` is `n` |
| Values.ShorthandSteps | Interpreter.java:490-514 | `++` adds one and `--` subtracts one; `-=` undoes `+=`, and `/=` undoes `*=` for a non-zero divisor |
| Values.ShorthandOperators | Interpreter.java:490-514 | exactly the six compound operators produce a new value |
| Environments.Resolve | Interpreter.java:477-479 | a lookup finds a frame on the scope chain, at or outside the current one, that declares the name; the innermost one wins |
| Environments.Get | Interpreter.java:477-479 | reading a variable fails exactly when no frame on the chain declares it, and then with "Undefined variable" at its token; a function read closes over an existing frame |
| Environments.Define | Interpreter.java:445-453 | a definition keeps the arena well formed, keeps every frame's nesting and declared names, and keeps every closure pointing at an existing frame |
| Environments.Assign | Interpreter.java:482-487 | an assignment changes only values, never which names are declared or how frames nest |
| Environments.Push | Interpreter.java:419-422 | a new block frame is added after every existing frame and leaves them unchanged |
| Environments.Bind | Interpreter.java:567 | the parameter loop of a call changes only the call's frame and keeps every name declared and every closure pointing at an existing frame |
| Environments.BindBindsParameters | Interpreter.java:567 | after the parameter loop each parameter reads as its argument, the last one for a repeated name |
| Environments.BindKeepsOtherNames | Interpreter.java:567 | the parameter loop changes no lookup of a name that is not a parameter |
| Environments.DefineInNewerFrame | Interpreter.java:419-453 | a definition in a block's frame changes no lookup from an older frame |
| Environments.ResolveDependsOnShape | Interpreter.java:477-487 | lookups depend only on how frames nest and which names they declare |
| Environments.ResolveInPrefix | Interpreter.java:419-422 | a lookup from an older frame ignores frames created later |
| Environments.GetAfterDefine | Interpreter.java:445-453 | a name just defined reads back as the defined value |
| Environments.DefineKeepsOtherNames | Interpreter.java:445-453 | defining a name changes no lookup of any other name from any frame |
| Environments.ResolveUnaffected | Interpreter.java:445-487 | changing one name's binding in one frame changes no lookup of another name |
| Environments.GetAfterAssign | Interpreter.java:482-487 | an assignment succeeds exactly when the name is visible and then reads back as the new value; otherwise it fails as the lookup does |
| Environments.AssignKeepsOtherNames | Interpreter.java:482-487 | an assignment changes no lookup of any other name from any frame |
| Environments.PushedFrameSeesEnclosing | Interpreter.java:419-435 | a block sees every binding of its enclosing scope, and what it declares is invisible outside it |
| Semantics.Eval | Interpreter.java:405-407 | evaluating an expression keeps the current environment, keeps every existing frame's nesting and declared names, only appends output, reports no error and never lowers the function counter; a function it yields closes over an existing frame |
| Semantics.EvalBinary | Interpreter.java:287-347 | a binary expression keeps those invariants |
| Semantics.EvalUnary | Interpreter.java:369-381 | a unary expression keeps those invariants |
| Semantics.EvalAssign | Interpreter.java:482-487 | an assignment expression keeps those invariants |
| Semantics.EvalShorthand | Interpreter.java:490-514 | a compound assignment keeps those invariants |
| Semantics.EvalLogical | Interpreter.java:517-527 | a logical expression keeps those invariants |
| Semantics.EvalCall | Interpreter.java:546-568 | a call expression keeps those invariants, although the call may add frames, declare names in them, write output and make functions |
| Semantics.EvalArguments | Interpreter.java:549-552 | evaluating the arguments yields one value per argument, appended in order, each closing over an existing frame |
| Semantics.CheckCall | Interpreter.java:553-563 | succeeds exactly on a function given as many arguments as it has parameters; otherwise raises "Can only call functions and classes." or the arity message at `)` |
| Semantics.CallValue | Interpreter.java:553-567 | the checks and the call keep the invariants of evaluation |
| Semantics.CallFunction | Interpreter.java:567 | a call of a user function keeps the caller's environment and the invariants of evaluation, and a function it returns closes over an existing frame |
| Semantics.Exec | Interpreter.java:267-269 | executing a statement keeps the environment and every existing frame's nesting and declared names, only appends output and never lowers the function counter; a function it returns closes over an existing frame |
| Semantics.ExecVar | Interpreter.java:445-453 | a variable declaration keeps those invariants |
| Semantics.ExecIf | Interpreter.java:456-463 | an if statement keeps those invariants |
| Semantics.ExecTernary | Interpreter.java:466-474 | a ternary statement keeps those invariants |
| Semantics.ExecWhile | Interpreter.java:530-535 | a while loop keeps those invariants |
| Semantics.ExecDoWhile | Interpreter.java:538-543 | a do-while loop keeps those invariants |
| Semantics.ExecList | Interpreter.java:429-431 | a statement list keeps those invariants |
| Semantics.ExecuteBlock | Interpreter.java:424-435 | a block restores the environment it started with, whatever way it ends |
| Semantics.Interpret | Interpreter.java:257-265 | `interpret` keeps the environment and only appends output; no runtime error escapes it, and whatever does escape reports nothing |
| SemanticsFacts.LogicalYieldsDecidingOperand | Interpreter.java:517-527 | `or` and `and` yield the deciding operand itself, and the right operand only runs when the left one does not decide |
| SemanticsFacts.ShortCircuit | Interpreter.java:517-527 | when the left operand evaluates to a truthy value under `or`, or a falsy one under `and`, that evaluation is the whole result, whatever the right operand is |
| SemanticsFacts.AssignmentReadsBack | Interpreter.java:482-487 | an assignment yields the assigned value, and the name then reads back as it |
| SemanticsFacts.ShorthandWritesBack | Interpreter.java:490-514 | a compound assignment on two numbers stores the new value and yields it; a non-number on either side raises "Types must match." at the name |
| SemanticsFacts.Increment | Interpreter.java:490-514 | `x++` as parsed adds one to `x`, stores and yields it |
| SemanticsFacts.Decrement | Interpreter.java:490-514 | `x--` as parsed subtracts one from `x`, stores and yields it |
| SemanticsFacts.CallProtocol | Interpreter.java:546-568 | a call evaluates the callee and then the arguments in order, stops at the first exception, and then checks and calls in the state the arguments left |
| SemanticsFacts.CallChecks | Interpreter.java:553-567 | a call raises "Can only call functions and classes." or the arity message at `)`, overflows the stack when no depth is left, and otherwise runs the function one level deeper |
| SemanticsFacts.CallScopesLexically | Interpreter.java:567 | a call's environment is enclosed by the function's closure, not by the caller: each parameter reads as its argument, and every other name as in the closure |
| SemanticsFacts.CallOfReturn | Interpreter.java:578-583 | a function whose body is `return e;` yields the value of `e` evaluated in the call's own environment; the unwinding stops at the call |
| SemanticsFacts.CounterCallsCount | Interpreter.java:567-575 | a function changes a variable it closed over and the change outlives the call: two calls of a counter yield two successive counts |
| SemanticsFacts.IncrementThroughEnclosing | Interpreter.java:490-514 | `n++` in a frame that does not declare `n` updates the `n` its enclosing frame sees |
| SemanticsFacts.ExecListAppend | Interpreter.java:429-431 | running two statement lists in a row runs the second only when the first completed normally |
| SemanticsFacts.PrintWritesOneLine | Interpreter.java:438-442 | `print` writes exactly one line, the text of the value; an expression statement writes only in the REPL |
| SemanticsFacts.VarWithoutInitializerIsNil | Interpreter.java:445-453 | a variable declared without an initializer holds `nil` |
| SemanticsFacts.FunctionDeclarationsAreFresh | Interpreter.java:571-575 | a function declaration binds its name to a new function that closes over the current environment |
| SemanticsFacts.BlockDeclarationsAreLocal | Interpreter.java:419-435 | after a block holding one declaration ends, every name reads from the starting environment as it did after the initializer ran, or as before the block when there was nothing to run; the block's frame keeps the declared value |
| SemanticsFacts.ReturnLeavesBlock | Interpreter.java:578-583 | a `return` after statements that completed normally ends the block at once with its value, or with the exception evaluating it raised; later statements never run and the environment is restored |
| SemanticsFacts.IfRunsOneBranch | Interpreter.java:456-463 | after a truthy condition only the then-branch runs, after a falsy one only the else-branch or nothing, each in the state the condition left; a raising condition runs neither |
| SemanticsFacts.TernaryRunsOneBranch | Interpreter.java:466-474 | exactly one branch runs, chosen by the condition's truthiness in the state it left; a raising condition runs neither |
| SemanticsFacts.FalseWhileSkipsBody | Interpreter.java:530-535 | a while loop with a falsy condition ends at once without running its body |
| SemanticsFacts.DoWhileRunsBodyFirst | Interpreter.java:538-543 | a do-while loop runs its body once before its first test |
| SemanticsFacts.WhileFuelIsOnlyABound | Interpreter.java:530-535 | more fuel does not change a while loop that finished with less |
| SemanticsFacts.DoWhileFuelIsOnlyABound | Interpreter.java:538-543 | more fuel does not change a do-while loop that finished with less |
| SemanticsFacts.InterpretReportsFirstError | Interpreter.java:257-265 | the first runtime error ends the run and is reported once; no further statement runs |
| SemanticsFacts.StrayReturnEscapes | Interpreter.java:257-265 | a `return` outside any function escapes `interpret` with its value and nothing is reported |
| Interpreting.Interpreter.constructor | Interpreter.java:13-17 | a fresh interpreter has one empty global environment, which is current, is not in the REPL, and has room for the given depth of calls |
| Interpreting.Interpreter.SetREPL | Interpreter.java:254-256 | sets the REPL flag and changes nothing else |
| Interpreting.Interpreter.Interpret | Interpreter.java:257-265 | runs the statements to the new state that `Semantics.Interpret` gives |
| Interpreting.Interpreter.Evaluate | Interpreter.java:405-407 | yields the value or error and the new state that `Semantics.Eval` gives |
| Interpreting.Interpreter.VisitBinaryExpr | Interpreter.java:287-347 | computes `Semantics.EvalBinary` |
| Interpreting.Interpreter.VisitUnaryExpr | Interpreter.java:369-381 | computes `Semantics.EvalUnary` |
| Interpreting.Interpreter.VisitAssignExpr | Interpreter.java:482-487 | computes `Semantics.EvalAssign` |
| Interpreting.Interpreter.VisitAssignShorthandExpr | Interpreter.java:490-514 | computes `Semantics.EvalShorthand` |
| Interpreting.Interpreter.VisitLogicalExpr | Interpreter.java:517-527 | computes `Semantics.EvalLogical` |
| Interpreting.Interpreter.VisitCallExpr | Interpreter.java:546-568 | computes `Semantics.EvalCall` |
| Interpreting.Interpreter.EvaluateArguments | Interpreter.java:549-552 | the argument loop computes `Semantics.EvalArguments` |
| Interpreting.Interpreter.CallValue | Interpreter.java:553-567 | the checks and the call compute `Semantics.CallValue`, with the call one level deeper |
| Interpreting.Interpreter.CallFunction | Interpreter.java:567 | computes `Semantics.CallFunction`: a frame enclosed by the closure, the parameter loop, the body as a block, and the caught `return` |
| Interpreting.Interpreter.Execute | Interpreter.java:267-269 | yields the completion and state that `Semantics.Exec` gives |
| Interpreting.Interpreter.VisitExpressionStmt | Interpreter.java:410-416 | computes `Semantics.Exec` on an expression statement |
| Interpreting.Interpreter.VisitPrintStmt | Interpreter.java:438-442 | computes `Semantics.Exec` on a print statement |
| Interpreting.Interpreter.VisitVarStmt | Interpreter.java:445-453 | computes `Semantics.ExecVar` |
| Interpreting.Interpreter.VisitBlockStmt | Interpreter.java:419-422 | computes `Semantics.Exec` on a block: a new frame enclosed by the current one |
| Interpreting.Interpreter.ExecuteBlock | Interpreter.java:424-435 | computes `Semantics.ExecuteBlock`, restoring the previous environment on every exit |
| Interpreting.Interpreter.VisitIfStmt | Interpreter.java:456-463 | computes `Semantics.ExecIf` |
| Interpreting.Interpreter.VisitTernaryStmt | Interpreter.java:466-474 | computes `Semantics.ExecTernary` |
| Interpreting.Interpreter.VisitWhileStmt | Interpreter.java:530-535 | computes `Semantics.ExecWhile` with the configured fuel |
| Interpreting.Interpreter.VisitDoWhileStmt | Interpreter.java:538-543 | computes `Semantics.ExecDoWhile` with the configured fuel |
| Interpreting.Interpreter.VisitFunctionStmt | Interpreter.java:571-575 | computes `Semantics.Exec` on a function declaration |
| Interpreting.Interpreter.VisitReturnStmt | Interpreter.java:578-583 | computes `Semantics.Exec` on a return statement: a `Returned` completion carrying the value, or `nil` |

## Left out

- The twelve native functions registered in the constructor (Interpreter.java:17-252) are not modelled, and the global environment starts empty. They are `newFile`, `getFile`, `deleteFile` and `writeFile`, which create, read, delete and write files; `runCommand`, which ignores its argument, runs a fixed shell command, prints the first line of its output and returns the remaining lines; `time`, which reads the clock; `input`, which reads a line of standard input; `type`, which names the kind of its argument from Java's runtime class and `toString`; `number`, `string` and `bool`, which convert through Java's parsers and `stringify`; and `sleep`, which blocks for a number of seconds. They are Java objects rather than Lox functions, so the only callable value in the model is a user function.
- `LoxFunction.java` is not part of this model. `Semantics.CallFunction` follows the calling convention the interpreter is built for, since `executeBlock` is what a call runs and `Return` is what it catches: a new environment enclosed by the closure, the parameters defined there in order, the body run as a block, the value of a caught `return`, and `nil` when the body runs to its end.
- The Java stack is modelled as a number of calls that may still be nested (`Config.depth`, the interpreter's `stack` field), fixed when the interpreter is made. A call past it raises `StackOverflow`, which `interpret` does not catch, as it does not catch `StackOverflowError`. How deep the JVM actually lets calls nest is not modelled.
- Number arithmetic is on reals rather than IEEE doubles: no rounding, no `-0.0`, no NaN. `**`, `%`, the result of `/=` by zero and `Double.toString` come from `Host` parameters.
- The printed text of a function (`LoxFunction.toString`, which `stringify` uses) comes from the `Host` parameter `callableText`, since `LoxFunction.java` is not part of this model.
- `Environment.java` is not part of this model. Its `get`, `define` and `assign` are modelled as the source uses them. That a lookup or assignment of an undeclared name raises an undefined-variable error comes from the language's design; the exact text `Values.Message` gives that error is assumed.
- `Lox.error` and `Lox.runtimeError` are modelled as sequences of diagnostics and reported errors. The console is a sequence of lines. No text formatting or exit codes are modelled.
- Semantics.ExecWhile: runs at most `fuel` iterations and then raises `OutOfFuel`, which nothing catches; a loop that never ends is not modelled. The fuel lemmas show that the bound does not change the outcome of a loop that ends.
- Semantics.ExecDoWhile: bounded by fuel in the same way.
- The lexer and the statement classes (`Stmt.java`, `Token.java`, `RuntimeError.java`) are not part of this model. Their shapes are taken from their uses in the parser and the interpreter.
- The visitor interfaces and `accept` methods (Expr.java:149) become matches on the datatypes.
- The `catch` in `parse` (Parser.java:20-21) can never fire, because `declaration` catches every `ParseError`. It is left out.
- `advance` returns the previous token in Java; `Parsing.Parser.Advance` only moves the cursor, and callers read the token.
- The `switch` in `synchronize` is modelled as membership in a set of statement keywords.
- `Parsing.Parser.BinaryRule` and `Parsing.Parser.BinaryLoop` stand for the seven Java level methods `or` through `exponent`, which differ only in their operators and their operand level.
- Some Java methods are split into several members so that each loop gets its own member. The split members are `ForInitializer`, `ForClauses`, `ForIncrement`, `Operand`, `TernaryBranch`, `ParameterList`, `ArgumentList`, `DeclarationAttempt`, `Recover`, `FunctionParameters` and `FunctionBody`.
- Field finality and aliasing of syntax-tree objects are not modelled: the trees are immutable datatypes.
