# Eva interpreter, modelled in Dafny

Eva is a small tree-walking interpreter for a Lisp-like expression
language. Programs are JavaScript arrays of numbers, strings and nested
arrays. This project models the interpreter's three parts and proves what
each part promises.

- **Environment** (`Environment.js`) is a chained lexical scope: a mutable
  record of bindings and a link to the enclosing environment. It is modelled
  as the class `Environments.Environment`. `define`, `_resolve`, `lookup`
  and `assign` become methods over the heap. A ghost sequence of ancestors
  makes the parent chain finite, so `_resolve` terminates.
- **Scope** states the resolution rule once: the nearest owner on a chain of
  records. Two models are proved against it, the class and the store the
  evaluator works on.
- **Transformer** (`transform/Transformer.js`) holds the desugaring
  rewrites of `def`, `switch`, `--`, `++` and `for`.
  - The four array constructions are functions.
  - `transformSwitchToIf`'s cursor loop is the method `SwitchToIf`. It is
    proved equal to the recursive definition `TransformSwitchToIf`.
- **Runtime** holds the values, the built-ins of the global environment,
  and a store of environments.
  - The store is an arena: environments are referred to by position.
  - Closures keep a position, so writes through any holder are seen by all.
- **Evaluator** (`Eva.js`) is `eval` with its dispatch order kept: number,
  string, `var`, name, `begin`, `set`, `if`, `while`, `def`, `lambda`,
  `switch`, `--`, `++`, `for`, application.
  - Evaluation need not terminate, so every evaluation function takes fuel
    and reports `OutOfFuel` when the fuel runs out.
  - The loops of the source (`_evalBlock`'s `forEach`, the `while` form's
    loop, the `forEach` that fills an activation record) are methods proved
    equal to the recursive definitions.

Behaviour of the code worth noting:

- Conditions use JavaScript truthiness. `false`, `null`, `undefined`, `0`
  and `""` are all falsy, not only `false`.
- An empty `begin` evaluates to `undefined`; it is not rejected.
- Applying a value that is neither a built-in nor a closure is a
  `TypeError` (`Eva.js` line 118). For null and undefined, reading
  `fn.params` throws. For a number, string or boolean, `fn.params` is
  undefined and calling `forEach` on it throws.

## Model

| member | source | states |
|---|---|---|
| Scope.Owner | Environment.js:22-31 | the position found is the nearest record that owns the name; there is none exactly when no record on the chain owns it |
| Scope.OwnerDependsOnKeysOnly | Environment.js:22-31 | resolution depends only on which names each record owns, not on the values bound |
| Scope.LookupFindsNearest | Environment.js:13-31 | lookup yields the value in the nearest owning record |
| Scope.LookupFailsIffUnowned | Environment.js:26-28 | lookup fails, with a ReferenceError, exactly when no record on the chain owns the name |
| Scope.AssignKeepsKeys | Environment.js:17-31 | assignment fails exactly when lookup fails; it never adds or removes a key in any record, and it changes only the nearest owner |
| Scope.LookupAfterAssign | Environment.js:13-20 | after an assignment the name looks up to the new value, and every other name looks up as before |
| Scope.LookupThroughNonOwner | Environment.js:22-30 | a record that does not own the name is looked through to the rest of the chain |
| Scope.LookupAfterDefine | Environment.js:8-15 | after defining in the innermost record, the name looks up to the value and every other name is unchanged |
| Environments.Environment.constructor | Environment.js:3-6 | the new environment holds the given record and parent; its chain is its record in front of the parent's chain |
| Environments.Environment.AncestorsNest | Environment.js:3-6 | each ancestor's own ancestors are the rest of the line, so the chain is finite |
| Environments.Environment.LineDistinct | Environment.js:22-31 | no environment occurs twice on a parent chain |
| Environments.Environment.Resolve | Environment.js:22-31 | returns the nearest environment on the chain whose own record has the name, or a ReferenceError when none has it |
| Environments.Environment.Lookup | Environment.js:13-15 | the value bound in the nearest owner, or a ReferenceError |
| Environments.Environment.Define | Environment.js:8-11 | writes into this environment's own record only, overwriting any binding there, and returns the value; ancestors' records are unchanged and the name then looks up to the value |
| Environments.Environment.Assign | Environment.js:17-20 | overwrites only the binding in the nearest owner and returns the value; with no owner it fails with a ReferenceError and changes no record |
| Environments.Environment.LookupThroughParent | Environment.js:22-30 | when this environment does not own a name, looking it up here equals looking it up in the parent |
| Transformer.TransformDefToVarLambda | transform/Transformer.js:2-5 | no contract; `Transformer.DefRewriteInjective` states what the rewrite keeps and `Evaluator.DefBindsClosure` what it means |
| Transformer.TransformDecToSet | transform/Transformer.js:33-37 | no contract; its meaning is `Evaluator.DecrementSubtractsOne`, and `Transformer.StepRewritesDistinct` states what it keeps |
| Transformer.TransformIncToSet | transform/Transformer.js:39-43 | no contract; its meaning is `Evaluator.IncrementAddsOne`, and `Transformer.StepRewritesDistinct` states what it keeps |
| Transformer.TransformForToWhile | transform/Transformer.js:45-49 | no contract; `Transformer.ForRewriteInjective` states its shape and `Evaluator.ForEvaluatesAsRewrite` what it means |
| Transformer.TransformSwitchToIf | transform/Transformer.js:7-31 | no contract; the recursive definition that `Transformer.SwitchToIf` is proved equal to, and that `Transformer.SwitchElseLast` proves is the right-nested `if` chain |
| Transformer.SwitchFrom | transform/Transformer.js:14-28 | no contract; the rest of the loop from one pass on, stated by `Transformer.SwitchPass` and `Transformer.SwitchFromIsChain` |
| Transformer.DefRewriteInjective | transform/Transformer.js:2-5 | a property of the `def` rewrite: it keeps the name, parameters and body, so two `def` forms rewrite alike exactly when they are equal; what the rewrite means is `Evaluator.DefBindsClosure` |
| Transformer.StepRewritesDistinct | transform/Transformer.js:33-43 | a property of the `--` and `++` rewrites: they never produce the same `set`, and each rewrites two forms alike exactly when they name the same variable; what they mean is `Evaluator.IncrementAddsOne` and `Evaluator.DecrementSubtractsOne` |
| Transformer.ForRewriteInjective | transform/Transformer.js:45-49 | a property of the `for` rewrite: the mutation step is the last item of the loop body, and two `for` forms rewrite alike exactly when they are equal; what it means is `Evaluator.ForEvaluatesAsRewrite` |
| Transformer.SwitchToIf | transform/Transformer.js:7-31 | the in-place cursor loop builds exactly the `if` node of the recursive definition, or fails where destructuring or a slot write would throw |
| Transformer.SwitchPass | transform/Transformer.js:14-28 | a pass that does not throw moves the filled node above the cursor and the cursor to the node in its slot 3, without changing the final result |
| Transformer.SwitchFromIsChain | transform/Transformer.js:14-28 | from any pass on, with `else` last, the loop yields the rest of the right-nested `if` chain |
| Transformer.SwitchElseLast | transform/Transformer.js:7-31 | with `else` last, `switch` yields the right-nested `if` chain; the i-th `if` holds case i's condition and block unchanged, and the `else` block is the deepest alternate |
| Transformer.SwitchSingleCase | transform/Transformer.js:10-14 | with one case or none the loop does not run, and the result is `['if', null, null, null]` |
| Syntax.SetAt | transform/Transformer.js:17-23 | writing a slot of an array sets that slot, keeps the others, and fills any gap with undefined |
| Syntax.Unquote | Eva.js:21-23 | the text between the delimiting quotes of a string literal |
| Syntax.IsQuoted | Eva.js:155-157 | no contract; `Evaluator.EvalAtomic` states that such an atom evaluates to the text between its quotes |
| Syntax.IsVariableName | Eva.js:159-161 | no contract; `Evaluator.EvalAtomic` states that such an atom evaluates to its lookup, and `Evaluator.BuiltinName` applies it to the built-in names |
| Syntax.ToKey | Environment.js:8-23 | no contract; the string key a name is coerced to by `record[name]`, used by `Evaluator.VarBinds` and `Evaluator.SetAssigns` |
| Runtime.NativeArithmetic | Eva.js:169-198 | on numbers: `+` adds; `-` subtracts, and negates when the second operand is missing or null; `*` multiplies; `/` is defined exactly when the division is exact; `=` holds of a value and itself |
| Runtime.NativeConcatenation | Eva.js:169-171 | `+` concatenates once an operand is a string, writing numbers in decimal and a missing operand as `undefined` |
| Runtime.ApplyNative | Eva.js:169-202 | no contract; `Runtime.NativeArithmetic` states it on numbers and `Runtime.NativeConcatenation` on strings; the built-ins are bound to their names in the constant `GlobalRecord`, the global frame of `Runtime.InitialStoreValid` |
| Runtime.Truthy | Eva.js:44-59 | no contract; `Evaluator.IfChoosesOneBranch`, `Evaluator.WhileAgain` and `Evaluator.WhileStops` state how it chooses the branch and ends the loop |
| Runtime.InitialStoreValid | Eva.js:164-202 | the global environment alone forms a well-formed store |
| Runtime.Alloc | Environment.js:3-6 | a new environment with the given record and parent; existing environments and parent links are unchanged |
| Runtime.Ancestry | Environment.js:22-31 | the line walked up from an environment starts at that environment, and each environment on it is older than the one before, so the walk ends |
| Runtime.AncestryFollowsParents | Environment.js:26-30 | each environment on the line is the parent of the one before, and the last has no parent |
| Runtime.Lookup | Environment.js:13-15 | a name found on the store yields a value that refers only to existing environments and closures |
| Runtime.Resolve | Environment.js:22-31 | the environment found is on the line and owns the name, and no environment newer than it on the line owns the name, so it is the nearest owner; none is found exactly when nothing on the line owns it |
| Runtime.Write | Environment.js:9 | a write changes one record of one environment and nothing else |
| Runtime.Define | Environment.js:8-11 | no contract; it is `Runtime.Write` into the given environment, and `Runtime.LookupAfterDefine` states what it binds |
| Runtime.Assign | Environment.js:17-20 | a successful assignment keeps the store well-formed and changes no parent link |
| Runtime.AncestryStable | Environment.js:3-6 | parent links never change, so an environment's line of ancestors never changes |
| Runtime.ChainOfChild | Environment.js:22-30 | a child's chain is its own record in front of its parent's chain |
| Runtime.ChainAfterAlloc | Eva.js:35 | creating an environment changes no existing environment's chain |
| Runtime.ChainOfNew | Eva.js:122-125 | the chain of a new environment is its record in front of its parent's current chain |
| Runtime.ChainAfterWrite | Environment.js:8-20 | a write changes, on any chain, exactly the written environment's record where it occurs |
| Runtime.LookupAfterDefine | Environment.js:8-15 | after `define` the name looks up to the value from the same environment, and other names are unchanged |
| Runtime.WriteOffLineInvisible | Environment.js:8-11 | a write into an environment not on a line is invisible from that line |
| Runtime.AssignAgreesWithScope | Environment.js:17-31 | assignment on the store is the resolution rule's assignment on the chain, failing with a ReferenceError exactly when the rule does |
| Runtime.AssignWritesOwner | Environment.js:17-20 | with an owner, `assign` succeeds and the chain changes at the owner's position only, where the name is rebound |
| Runtime.LookupAfterAssign | Environment.js:13-20 | after `assign` the name looks up to the value, and other names are unchanged |
| Runtime.AssignOkIffBound | Environment.js:13-28 | assignment succeeds exactly when lookup does |
| Runtime.ThroughChild | Environment.js:22-30 | a child that does not own a name passes both lookup and assignment of it to its parent |
| Evaluator.Eval | Eva.js:16-130 | evaluation keeps the store well-formed and only growing; a value produced refers to existing environments and closures |
| Evaluator.EvalList | Eva.js:25-128 | the same for a list, dispatched on its first item in the order `eval` tries the forms |
| Evaluator.FormOf | Eva.js:25-103 | no contract; the tag tests in the order `eval` tries them, stated form by form by the step and rewrite lemmas and `Evaluator.BuiltinName` |
| Evaluator.EvalVar | Eva.js:25-28 | the same for `var` |
| Evaluator.EvalSet | Eva.js:39-42 | the same for `set` |
| Evaluator.EvalIf | Eva.js:44-50 | the same for `if` |
| Evaluator.EvalWhile | Eva.js:52-59 | the same for `while` |
| Evaluator.EvalBlock | Eva.js:139-149 | the same for a block |
| Evaluator.EvalArgs | Eva.js:108-110 | the arguments yield one value per argument expression |
| Evaluator.EvalArgsOne | Eva.js:108-110 | a single argument yields its own value, or its error, in the store its evaluation left |
| Evaluator.EvalArgsAppendErr | Eva.js:108-110 | when an argument of `a` fails, the arguments `a + b` fail with that error in that store, and nothing of `b` is evaluated |
| Evaluator.EvalArgsAppend | Eva.js:108-110 | when the arguments `a` succeed, the arguments `a + b` are `b` evaluated from the store `a` left, with `a`'s values in front; an error in `b` is the error of the whole |
| Evaluator.EvalCall | Eva.js:105-128 | the same for an application |
| Evaluator.ActivationRecord | Eva.js:116-120 | every value in the activation record is an argument or undefined |
| Evaluator.Apply | Eva.js:112-127 | the same for calling a built-in or a closure |
| Evaluator.EvalBody | Eva.js:132-137 | the same for a body |
| Evaluator.EvalGlobal | Eva.js:12-14 | the same for a program run in the global environment |
| Evaluator.RunBlock | Eva.js:139-149 | `_evalBlock`'s loop yields exactly the block's defined outcome: the last value, undefined when empty, stopping at the first error |
| Evaluator.RunWhile | Eva.js:52-59 | the `while` form's loop yields exactly the defined outcome of `while` |
| Evaluator.WhilePass | Eva.js:55-57 | one pass either ends the loop with its outcome, or continues it from the body's store and value |
| Evaluator.BindParams | Eva.js:116-120 | the `forEach` builds exactly the activation record |
| Evaluator.NameStep | Eva.js:30-32 | a name evaluates to its lookup and leaves the store unchanged |
| Evaluator.BuiltinName | Eva.js:159-161 | `+`, `-` and `<=` are names and are not form tags |
| Evaluator.EvalAtomic | Eva.js:17-32 | a number evaluates to itself, a quoted atom to the text between its quotes, and a name to its lookup; any other atom is unimplemented; none of them changes the store |
| Evaluator.VarBinds | Eva.js:25-28 | `var` evaluates its value once, binds it in the current environment and returns it; it then looks up to that value, other names are unchanged, and an environment off the current line sees no change |
| Evaluator.DefineSeenFrom | Eva.js:25-28 | a definition is seen from the defining environment and not from environments off its line |
| Evaluator.SetAssigns | Eva.js:39-42 | `set` fails with a ReferenceError, leaving the store unchanged, exactly when the name is unbound on the chain; otherwise it returns the value, the name looks up to it, and other names are unchanged |
| Evaluator.BeginOpensScope | Eva.js:34-37 | `begin` runs its items in a fresh child whose chain is an empty record in front of the current chain; a body headed by `begin` runs in the given environment |
| Evaluator.BlockScoping | Eva.js:230-257 | a `var` inside a block leaves the outer binding intact; a `set` there updates the outer binding, and succeeds exactly when that binding exists |
| Evaluator.IfChoosesOneBranch | Eva.js:44-50 | `if` evaluates the condition, then exactly one branch, chosen by truthiness |
| Evaluator.DefEvaluatesAsRewrite | Eva.js:61-66 | `def` evaluates exactly as its rewrite |
| Evaluator.StepEvaluatesAsRewrite | Eva.js:84-96 | `--` and `++` evaluate exactly as their rewrites |
| Evaluator.ForEvaluatesAsRewrite | Eva.js:98-103 | `for` evaluates exactly as its rewrite |
| Evaluator.SwitchEvaluatesAsRewrite | Eva.js:77-82 | `switch` evaluates exactly as its rewrite; a rewrite that throws changes nothing |
| Evaluator.SwitchEvaluatesAsIfChain | Eva.js:339-351 | a `switch` ending in `else` evaluates as the nested `if` chain of its cases |
| Evaluator.LambdaMakesClosure | Eva.js:68-75 | `lambda` evaluates nothing and returns a new closure over the current environment, distinct under `=` from every earlier closure |
| Evaluator.VarOfLambda | Eva.js:68-75 | `(var n (lambda ps b))` binds a new closure over the current environment |
| Evaluator.DefBindsClosure | Eva.js:61-66 | `def` binds a new closure over the current environment to the name there and returns it |
| Evaluator.ActivationBindsPositionally | Eva.js:116-120 | each parameter is bound to the argument at its position (the last such position for a repeated name), and to undefined when the argument is missing |
| Evaluator.ActivationKeys | Eva.js:116-120 | the activation record binds exactly the parameters' names, so extra arguments are ignored |
| Evaluator.CallEnvironment | Eva.js:116-127 | a closure's body runs in a new environment whose parent is the captured one; parameters are found in the record and every other name in the captured environment as it is at the call |
| Evaluator.CallNative | Eva.js:105-114 | when the operator evaluates to a built-in and the arguments then evaluate from the store it left, the application applies the built-in to those values, in the store the arguments left |
| Evaluator.ArgsOfTwo | Eva.js:108-110 | two arguments: the second is evaluated in the store the first left, and the values come in order |
| Evaluator.CallOfTwo | Eva.js:105-114 | `(op a1 a2)` with a built-in operator evaluates the operator, a1 and a2 in turn, each from the store the previous one left, then applies the built-in |
| Evaluator.CallOnVariable | Eva.js:105-114 | `(op x c)` applies the built-in to x's value and c |
| Evaluator.UpdateByOneAssigns | Eva.js:39-42 | `(set x (op x 1))` assigns x op 1 to x and returns it |
| Evaluator.RewrittenUpdate | Eva.js:84-96 | a form that evaluates as `(set x (op x 1))` assigns x op 1 to x and returns it |
| Evaluator.IncrementAddsOne | Eva.js:91-96 | `(++ x)` leaves x bound to one more and returns it |
| Evaluator.DecrementSubtractsOne | Eva.js:84-89 | `(-- x)` leaves x bound to one less and returns it |
| Evaluator.WhileAgain | Eva.js:55-57 | a truthy condition runs the body once, from the store the condition left, and the loop continues from the body's store and value |
| Evaluator.WhileStops | Eva.js:55-58 | a falsy condition ends the loop with the last body value, in the store the condition left |
| Evaluator.CountCondValue | Eva.js:193-195 | `(<= x bound)` evaluates to whether x's value is at most bound |
| Evaluator.CountingStops | Eva.js:52-59 | the counting loop started above the bound stops at once |
| Evaluator.CountingPass | Eva.js:52-59 | one pass of the counting loop moves the counter up by one and keeps the built-ins |
| Evaluator.LoopCounts | Eva.js:52-59 | a loop each of whose passes stops above the bound or moves the counter up by one ends at bound + 1 |
| Evaluator.CountingPassOrStop | Eva.js:52-59 | each pass of the counting loop either stops or moves the counter up by one |
| Evaluator.CountingSteps | Eva.js:52-59 | every pass of the counting loop meets the step rule of `LoopCounts` |
| Evaluator.CountingLoop | Eva.js:52-59 | with enough fuel the counting loop ends with x at bound + 1, returning bound + 1 when the body ran and the incoming value otherwise |
| Evaluator.CountToEleven | Eva.js:269-277 | counting while `x <= 10` from 0 ends with x bound to 11 and returns 11 |

## Left out

- `print` writes to the console. It is the built-in `Print`, which returns `undefined`; the output is not modelled.
- JavaScript numbers are floating point; here they are integers.
  - Some results are reported as `HostArithmetic`: a fraction, a division by zero (`Infinity` or `NaN` in JavaScript), and arithmetic on non-numbers other than string `+`.
  - Numbers are unbounded integers. JavaScript's doubles overflow to `Infinity` beyond about 1.8e308 and lose precision above 2^53. Here `+`, `-` and `*` stay exact and those results are not flagged.
  - Syntax.ToKey and Runtime.Text write every integer in plain decimal. JavaScript writes magnitudes of 10^21 and above in exponent notation, such as `1e+21`.
  - `VERSION` (0.1) is the opaque value `VersionValue`.
  - `/` is defined only when the division is exact.
  - The comparisons `>`, `>=`, `<` and `<=` are modelled on numbers only. The string comparisons JavaScript would perform are `HostArithmetic`.
- The text of a built-in, which `+` would produce by concatenating one with a string, is its JavaScript source. That is not modelled (`HostArithmetic`).
- The parser and the test helper (`testing/test-util`) are not part of this model. Programs are given as syntax trees.
- The global environment is not a module-level singleton. It is the first frame of the explicit `InitialStore`.
- Records are finite maps. Prototype properties that `hasOwnProperty` and plain objects would expose are not modelled.
- The host's stack depth and non-termination are replaced by fuel. A run that JavaScript would end with a stack overflow, or never end, ends here with `OutOfFuel`.
- `switch` whose `else` case is not last makes the cursor of `transformSwitchToIf` write into a user-supplied block, shared by reference with the input tree. The model writes into a copy of that block, so it does not capture that aliasing.
- Evaluator.Eval: its own contract states only that the store stays well-formed and only grows. What each form computes is stated by the lemmas of the table.
- Evaluator.EvalList: its contract states only store soundness; the dispatch is stated by the step and rewrite lemmas.
- Evaluator.EvalVar: its contract states only store soundness; `Evaluator.VarBinds` states what `var` does.
- Evaluator.EvalSet: its contract states only store soundness; `Evaluator.SetAssigns` states what `set` does.
- Evaluator.EvalIf: its contract states only store soundness; `Evaluator.IfChoosesOneBranch` states what `if` does.
- Evaluator.EvalWhile: its contract states only store soundness; `Evaluator.RunWhile` and the counting lemmas state what `while` does.
- Evaluator.EvalBlock: its contract states only store soundness; `Evaluator.RunBlock` and `Evaluator.BeginOpensScope` state what a block does.
- Evaluator.EvalArgs: its own contract states only store soundness and one value per argument. `Evaluator.EvalArgsOne`, `Evaluator.EvalArgsAppendErr` and `Evaluator.EvalArgsAppend` state the left-to-right order.
- Evaluator.EvalCall: its contract states only store soundness; `Evaluator.CallNative` and `Evaluator.CallEnvironment` state what a call does.
- Evaluator.Apply: its contract states only store soundness; `Evaluator.CallEnvironment` states what calling a closure does.
- Evaluator.EvalBody: its contract states only store soundness; `Evaluator.BeginOpensScope` states how a `begin` body runs.
- Evaluator.EvalGlobal: its contract states only store soundness.
- Runtime.Lookup: its own contract states only that a value found is well-formed. `Runtime.LookupAfterDefine`, `Runtime.LookupAfterAssign` and `Scope.LookupFindsNearest` state what it finds.
- Runtime.Assign: its own contract states only well-formedness. `Runtime.AssignAgreesWithScope` states what it changes.
- Evaluator.CountingLoop: it is proved for the counting loop of the example in `Eva.js`, not for every `while`. The general loop is `Evaluator.RunWhile` against `Evaluator.EvalWhile`.
