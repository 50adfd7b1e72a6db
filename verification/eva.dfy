/** The evaluator of Eva.js: `eval` dispatches on the shape of an expression
    in a fixed order (number, string, var, name, begin, set, if, while, def,
    lambda, switch, --, ++, for, application) and evaluates sub-expressions
    in the current environment of the store.

    Evaluation need not terminate (`while`, recursive closures), so every
    evaluation function takes a fuel argument. `Eval` needs fuel left for
    any expression; each evaluation of a list and each `while` iteration
    spends one unit, and running out yields OutOfFuel. */
module Evaluator {
  import opened Results
  import opened Syntax
  import opened Runtime
  import Transformer

  /** What an evaluation produced and the store it left. Writes made before
      an error stay in the store, as they stay in the shared environment
      objects of the source. */
  datatype Outcome<T> = Outcome(result: Result<T>, store: Store)

  /** The store stays valid and only grows, and a value produced refers to
      existing environments and closures. */
  ghost predicate Sound(st: Store, out: Outcome<Value>)
  {
    && Valid(out.store)
    && Extends(st, out.store)
    && (out.result.Ok? ==> ValidValue(out.result.value, out.store))
  }

  ghost predicate SoundAll(st: Store, out: Outcome<seq<Value>>)
  {
    && Valid(out.store)
    && Extends(st, out.store)
    && (out.result.Ok? ==> forall v :: v in out.result.value ==> ValidValue(v, out.store))
  }

  function Eval(exp: Expr, env: EnvId, st: Store, fuel: nat): (out: Outcome<Value>)
    requires Valid(st) && env < |st.frames|
    ensures Sound(st, out)
    decreases fuel, 0, 0
  {
    if fuel == 0 then Outcome(Err(OutOfFuel), st)
    else
      match exp
      case Num(n) => Outcome(Ok(Number(n)), st)
      case Atom(s) =>
        if IsQuoted(s) then Outcome(Ok(Str(Unquote(s))), st)
        else if IsVariableName(s) then Outcome(Lookup(st, env, s), st)
        else Outcome(Err(Unimplemented), st)
      case List(items) => EvalList(items, env, st, fuel - 1)
      case Null => Outcome(Err(TypeError), st)       // `exp[0]` of null
      case Undefined => Outcome(Err(TypeError), st)  // `exp[0]` of undefined
  }

  /** The forms `eval` recognises by the first item of a list, in the order
      it tries them; a list with any other first item is an application. */
  datatype Form =
    | VarForm | BeginForm | SetForm | IfForm | WhileForm | DefForm
    | LambdaForm | SwitchForm | DecForm | IncForm | ForForm | Application

  function FormOf(tag: Expr): Form
  {
    if !tag.Atom? then Application else FormOfName(tag.s)
  }

  function FormOfName(s: string): Form
  {
    if |s| == 2 then
      if s == "if" then IfForm else if s == "--" then DecForm else if s == "++" then IncForm else Application
    else if |s| == 3 then
      if s == "var" then VarForm else if s == "set" then SetForm
      else if s == "def" then DefForm else if s == "for" then ForForm else Application
    else if |s| == 5 then
      if s == "begin" then BeginForm else if s == "while" then WhileForm else Application
    else if |s| == 6 then
      if s == "lambda" then LambdaForm else if s == "switch" then SwitchForm else Application
    else Application
  }

  function EvalList(items: seq<Expr>, env: EnvId, st: Store, fuel: nat): (out: Outcome<Value>)
    requires Valid(st) && env < |st.frames|
    ensures Sound(st, out)
    decreases fuel, 6, 0
  {
    match FormOf(Nth(items, 0))
    case VarForm => EvalVar(items, env, st, fuel)
    case BeginForm =>
      var block := Alloc(st, map[], Some(env));
      EvalBlock(items[1..], block.1, block.0, fuel, UndefinedValue)
    case SetForm => EvalSet(items, env, st, fuel)
    case IfForm => EvalIf(items, env, st, fuel)
    case WhileForm => EvalWhile(Nth(items, 1), Nth(items, 2), env, st, fuel, UndefinedValue)
    case DefForm => Eval(Transformer.TransformDefToVarLambda(items), env, st, fuel)
    case LambdaForm =>
      Outcome(Ok(Closure(st.objects, Nth(items, 1), Nth(items, 2), env)), st.(objects := st.objects + 1))
    case SwitchForm =>
      (match Transformer.TransformSwitchToIf(items)
       case Err(e) => Outcome(Err(e), st)
       case Ok(ifExp) => Eval(ifExp, env, st, fuel))
    case DecForm => Eval(Transformer.TransformDecToSet(items), env, st, fuel)
    case IncForm => Eval(Transformer.TransformIncToSet(items), env, st, fuel)
    case ForForm => Eval(Transformer.TransformForToWhile(items), env, st, fuel)
    case Application => EvalCall(items, env, st, fuel)
  }

  /** `(var name value)`: evaluate the value, then bind it in this
      environment's own record. */
  function EvalVar(items: seq<Expr>, env: EnvId, st: Store, fuel: nat): (out: Outcome<Value>)
    requires Valid(st) && env < |st.frames|
    ensures Sound(st, out)
    decreases fuel, 1, 0
  {
    var v := Eval(Nth(items, 2), env, st, fuel);
    if v.result.Err? then v
    else Outcome(v.result, Define(v.store, env, ToKey(Nth(items, 1)), v.result.value))
  }

  /** `(set name value)`: evaluate the value, then overwrite the binding in
      the nearest owner. */
  function EvalSet(items: seq<Expr>, env: EnvId, st: Store, fuel: nat): (out: Outcome<Value>)
    requires Valid(st) && env < |st.frames|
    ensures Sound(st, out)
    decreases fuel, 1, 0
  {
    var v := Eval(Nth(items, 2), env, st, fuel);
    if v.result.Err? then v
    else
      match Assign(v.store, env, ToKey(Nth(items, 1)), v.result.value)
      case Err(e) => Outcome(Err(e), v.store)
      case Ok(st') => Outcome(v.result, st')
  }

  /** `(if condition consequent alternate)`. */
  function EvalIf(items: seq<Expr>, env: EnvId, st: Store, fuel: nat): (out: Outcome<Value>)
    requires Valid(st) && env < |st.frames|
    ensures Sound(st, out)
    decreases fuel, 1, 0
  {
    var c := Eval(Nth(items, 1), env, st, fuel);
    if c.result.Err? then c
    else if Truthy(c.result.value) then Eval(Nth(items, 2), env, c.store, fuel)
    else Eval(Nth(items, 3), env, c.store, fuel)
  }

  /** `(while condition body)` from the point where the last body value was
      `result` (undefined before the first iteration). */
  function EvalWhile(cond: Expr, body: Expr, env: EnvId, st: Store, fuel: nat, result: Value): (out: Outcome<Value>)
    requires Valid(st) && env < |st.frames| && ValidValue(result, st)
    ensures Sound(st, out)
    decreases fuel, 1, 0
  {
    var c := Eval(cond, env, st, fuel);
    if c.result.Err? then c
    else if !Truthy(c.result.value) then Outcome(Ok(result), c.store)
    else
      var b := Eval(body, env, c.store, fuel);
      if b.result.Err? then b
      else if fuel == 0 then Outcome(Err(OutOfFuel), b.store)
      else EvalWhile(cond, body, env, b.store, fuel - 1, b.result.value)
  }

  /** `_evalBlock`: the expressions in order in `env`; the value of the last
      one, or `result` when there are none left. */
  function EvalBlock(exps: seq<Expr>, env: EnvId, st: Store, fuel: nat, result: Value): (out: Outcome<Value>)
    requires Valid(st) && env < |st.frames| && ValidValue(result, st)
    ensures Sound(st, out)
    decreases fuel, 1, |exps|
  {
    if |exps| == 0 then Outcome(Ok(result), st)
    else
      var v := Eval(exps[0], env, st, fuel);
      if v.result.Err? then v
      else EvalBlock(exps[1..], env, v.store, fuel, v.result.value)
  }

  /** The arguments of an application, left to right. */
  function EvalArgs(exps: seq<Expr>, env: EnvId, st: Store, fuel: nat): (out: Outcome<seq<Value>>)
    requires Valid(st) && env < |st.frames|
    ensures SoundAll(st, out)
    ensures out.result.Ok? ==> |out.result.value| == |exps|
    decreases fuel, 1, |exps|
  {
    if |exps| == 0 then Outcome(Ok([]), st)
    else
      var v := Eval(exps[0], env, st, fuel);
      if v.result.Err? then Outcome(Err(v.result.error), v.store)
      else
        var rest := EvalArgs(exps[1..], env, v.store, fuel);
        if rest.result.Err? then rest
        else Outcome(Ok([v.result.value] + rest.result.value), rest.store)
  }

  /** An application: the operator, then the arguments, then the call. */
  function EvalCall(items: seq<Expr>, env: EnvId, st: Store, fuel: nat): (out: Outcome<Value>)
    requires Valid(st) && env < |st.frames|
    ensures Sound(st, out)
    decreases fuel, 5, 0
  {
    var f := Eval(Nth(items, 0), env, st, fuel);
    if f.result.Err? then f
    else
      var args := EvalArgs(if |items| > 0 then items[1..] else [], env, f.store, fuel);
      if args.result.Err? then Outcome(Err(args.result.error), args.store)
      else Apply(f.result.value, args.result.value, args.store, fuel)
  }

  /** The activation record: each parameter bound to the argument at its
      position (undefined when missing); a later parameter with the same
      name wins. */
  function ActivationRecord(params: seq<Expr>, args: seq<Value>): (rec: map<string, Value>)
    ensures forall n :: n in rec ==> rec[n] == UndefinedValue || rec[n] in args
  {
    if |params| == 0 then map[]
    else ActivationRecord(params[..|params| - 1], args)[ToKey(params[|params| - 1]) := Arg(args, |params| - 1)]
  }

  /** Calling a value: a built-in directly; a closure by running its body in
      a new environment whose parent is the captured one. Anything else is
      not callable. */
  function Apply(fn: Value, args: seq<Value>, st: Store, fuel: nat): (out: Outcome<Value>)
    requires Valid(st) && ValidValue(fn, st)
    requires forall v :: v in args ==> ValidValue(v, st)
    ensures Sound(st, out)
    decreases fuel, 3, 0
  {
    match fn
    case Native(op) => Outcome(ApplyNative(op, args), st)
    case Closure(_, params, body, captured) =>
      if !params.List? then Outcome(Err(TypeError), st)  // `params.forEach` of a non-array
      else
        var activation := Alloc(st, ActivationRecord(params.items, args), Some(captured));
        EvalBody(body, activation.1, activation.0, fuel)
    case _ => Outcome(Err(TypeError), st)
  }

  /** `_evalBody`: a body headed by `begin` runs as a block directly in
      `env`, without a scope of its own. */
  function EvalBody(body: Expr, env: EnvId, st: Store, fuel: nat): (out: Outcome<Value>)
    requires Valid(st) && env < |st.frames|
    ensures Sound(st, out)
    decreases fuel, 2, 0
  {
    if body.List? && Nth(body.items, 0) == Atom("begin") then
      EvalBlock(body.items[1..], env, st, fuel, UndefinedValue)
    else Eval(body, env, st, fuel)
  }

  /** `evalGlobal`: a program body run in the global environment. */
  function EvalGlobal(exp: Expr, st: Store, fuel: nat): (out: Outcome<Value>)
    requires Valid(st) && GlobalEnv < |st.frames|
    ensures Sound(st, out)
  {
    EvalBody(exp, GlobalEnv, st, fuel)
  }

  // -----------------------------------------------------------------------
  // The loops of the source, proved against the functions above
  // -----------------------------------------------------------------------

  /** `_evalBlock`'s `forEach`: each expression in turn, keeping the last
      value; an error leaves the loop at once. */
  method RunBlock(exps: seq<Expr>, env: EnvId, st: Store, fuel: nat) returns (out: Outcome<Value>)
    requires Valid(st) && env < |st.frames|
    ensures out == EvalBlock(exps, env, st, fuel, UndefinedValue)
  {
    var result := UndefinedValue;
    var store := st;
    var i := 0;
    while i < |exps|
      invariant 0 <= i <= |exps|
      invariant Valid(store) && env < |store.frames| && ValidValue(result, store)
      invariant EvalBlock(exps[i..], env, store, fuel, result) == EvalBlock(exps, env, st, fuel, UndefinedValue)
    {
      var v := Eval(exps[i], env, store, fuel);
      if v.result.Err? {
        return v;
      }
      assert exps[i..][1..] == exps[i + 1..];
      result, store, i := v.result.value, v.store, i + 1;
    }
    out := Outcome(Ok(result), store);
  }

  /** The `while` form's loop: the condition before every iteration, the
      body's value kept in `result`. */
  method RunWhile(cond: Expr, body: Expr, env: EnvId, st: Store, fuel: nat) returns (out: Outcome<Value>)
    requires Valid(st) && env < |st.frames|
    ensures out == EvalWhile(cond, body, env, st, fuel, UndefinedValue)
  {
    ghost var goal := EvalWhile(cond, body, env, st, fuel, UndefinedValue);
    var result := UndefinedValue;
    var store := st;
    var f := fuel;
    while true
      invariant Valid(store) && env < |store.frames| && ValidValue(result, store)
      invariant EvalWhile(cond, body, env, store, f, result) == goal
      decreases f
    {
      var done, pass := WhilePass(cond, body, env, store, f, result);
      if done {
        return pass;
      }
      var next, after := pass.result.value, pass.store;
      assert EvalWhile(cond, body, env, after, f - 1, next) == goal;
      result, store, f := next, after, f - 1;
    }
  }

  /** One pass of the `while` loop: the condition, then the body if the
      condition holds. Either the loop is over (`done`, with its outcome) or
      it goes on from the body's store and value with one unit of fuel
      less. */
  method WhilePass(cond: Expr, body: Expr, env: EnvId, st: Store, fuel: nat, acc: Value) returns (done: bool, out: Outcome<Value>)
    requires Valid(st) && env < |st.frames| && ValidValue(acc, st)
    ensures done ==> out == EvalWhile(cond, body, env, st, fuel, acc)
    ensures !done ==> fuel > 0 && out.result.Ok? && Valid(out.store) && env < |out.store.frames|
    ensures !done ==> ValidValue(out.result.value, out.store)
    ensures !done ==> EvalWhile(cond, body, env, st, fuel, acc) == EvalWhile(cond, body, env, out.store, fuel - 1, out.result.value)
  {
    var c := Eval(cond, env, st, fuel);
    if c.result.Err? {
      return true, c;
    }
    if !Truthy(c.result.value) {
      return true, Outcome(Ok(acc), c.store);
    }
    var b := Eval(body, env, c.store, fuel);
    if b.result.Err? {
      return true, b;
    }
    if fuel == 0 {
      return true, Outcome(Err(OutOfFuel), b.store);
    }
    return false, b;
  }

  /** The `forEach` that fills the activation record. */
  method BindParams(params: seq<Expr>, args: seq<Value>) returns (rec: map<string, Value>)
    ensures rec == ActivationRecord(params, args)
  {
    rec := map[];
    for i := 0 to |params|
      invariant rec == ActivationRecord(params[..i], args)
    {
      assert params[..i + 1][..i] == params[..i];
      rec := rec[ToKey(params[i]) := Arg(args, i)];
    }
    assert params[..|params|] == params;
  }

  // -----------------------------------------------------------------------
  // Single steps of evaluation, each proved on its own so that the proofs
  // below only chain them
  // -----------------------------------------------------------------------

  lemma NameStep(x: string, env: EnvId, st: Store, fuel: nat)
    requires Valid(st) && env < |st.frames| && fuel > 0 && IsVariableName(x)
    ensures Eval(Atom(x), env, st, fuel) == Outcome(Lookup(st, env, x), st)
  {
    assert !IsQuoted(x) by {
      assert IsNameStart(x[0]);
    }
  }

  lemma VarStep(items: seq<Expr>, env: EnvId, st: Store, fuel: nat)
    requires Valid(st) && env < |st.frames| && FormOf(Nth(items, 0)) == VarForm
    ensures Eval(List(items), env, st, fuel + 1) == EvalVar(items, env, st, fuel)
  {
    assert Eval(List(items), env, st, fuel + 1) == EvalList(items, env, st, fuel);
  }

  lemma SetStep(items: seq<Expr>, env: EnvId, st: Store, fuel: nat)
    requires Valid(st) && env < |st.frames| && FormOf(Nth(items, 0)) == SetForm
    ensures Eval(List(items), env, st, fuel + 1) == EvalSet(items, env, st, fuel)
  {
    assert Eval(List(items), env, st, fuel + 1) == EvalList(items, env, st, fuel);
  }

  lemma IfStep(items: seq<Expr>, env: EnvId, st: Store, fuel: nat)
    requires Valid(st) && env < |st.frames| && FormOf(Nth(items, 0)) == IfForm
    ensures Eval(List(items), env, st, fuel + 1) == EvalIf(items, env, st, fuel)
  {
    assert Eval(List(items), env, st, fuel + 1) == EvalList(items, env, st, fuel);
  }

  lemma WhileStep(items: seq<Expr>, env: EnvId, st: Store, fuel: nat)
    requires Valid(st) && env < |st.frames| && FormOf(Nth(items, 0)) == WhileForm
    ensures Eval(List(items), env, st, fuel + 1) == EvalWhile(Nth(items, 1), Nth(items, 2), env, st, fuel, UndefinedValue)
  {
    assert Eval(List(items), env, st, fuel + 1) == EvalList(items, env, st, fuel);
  }

  lemma CallStep(items: seq<Expr>, env: EnvId, st: Store, fuel: nat)
    requires Valid(st) && env < |st.frames| && FormOf(Nth(items, 0)) == Application
    ensures Eval(List(items), env, st, fuel + 1) == EvalCall(items, env, st, fuel)
  {
    assert Eval(List(items), env, st, fuel + 1) == EvalList(items, env, st, fuel);
  }

  /** The built-ins used below are named by identifiers that no form uses. */
  lemma BuiltinName(opName: string)
    requires opName == "+" || opName == "-" || opName == "<="
    ensures IsVariableName(opName) && FormOf(Atom(opName)) == Application
  {
  }

  // -----------------------------------------------------------------------
  // Properties of evaluation
  // -----------------------------------------------------------------------

  /** A number evaluates to itself and a quoted atom to the text between its
      quotes; a name evaluates to its lookup; any other atom is
      unimplemented. None of them changes the store. */
  lemma EvalAtomic(exp: Expr, env: EnvId, st: Store, fuel: nat)
    requires Valid(st) && env < |st.frames| && fuel > 0 && !exp.List?
    ensures Eval(exp, env, st, fuel).store == st
    ensures exp.Num? ==> Eval(exp, env, st, fuel).result == Ok(Number(exp.n))
    ensures exp.Atom? && IsQuoted(exp.s) ==> Eval(exp, env, st, fuel).result == Ok(Str(Unquote(exp.s)))
    ensures exp.Atom? && !IsQuoted(exp.s) && IsVariableName(exp.s) ==>
      Eval(exp, env, st, fuel).result == Lookup(st, env, exp.s)
    ensures exp.Atom? && !IsQuoted(exp.s) && !IsVariableName(exp.s) ==>
      Eval(exp, env, st, fuel).result == Err(Unimplemented)
  {
  }

  /** `(var name e)` evaluates `e` once, in the current environment, and
      returns its value; the value is then found by looking the name up from
      the current environment, other names resolve as they did after `e`,
      and an environment whose line does not pass through the current one
      (an enclosing scope, say) sees no change at all. */
  lemma VarBinds(items: seq<Expr>, env: EnvId, st: Store, fuel: nat, other: string, outer: EnvId)
    requires Valid(st) && env < |st.frames| && outer < |st.frames|
    requires Nth(items, 0) == Atom("var")
    ensures var v := Eval(Nth(items, 2), env, st, fuel);
      var out := Eval(List(items), env, st, fuel + 1);
      var name := ToKey(Nth(items, 1));
      && (v.result.Err? ==> out == v)
      && (v.result.Ok? ==>
        && out.result == v.result
        && Lookup(out.store, env, name) == v.result
        && (other != name ==> Lookup(out.store, env, other) == Lookup(v.store, env, other))
        && (env !in Ancestry(st, outer) ==> Lookup(out.store, outer, other) == Lookup(v.store, outer, other)))
  {
    VarStep(items, env, st, fuel);
    var v := Eval(Nth(items, 2), env, st, fuel);
    if v.result.Ok? {
      DefineSeenFrom(v.store, env, ToKey(Nth(items, 1)), v.result.value, other, outer);
      AncestryStable(st, v.store, outer);
    }
  }

  lemma DefineSeenFrom(st: Store, env: EnvId, name: string, v: Value, other: string, outer: EnvId)
    requires Valid(st) && env < |st.frames| && outer < |st.frames| && ValidValue(v, st)
    ensures Lookup(Define(st, env, name, v), env, name) == Ok(v)
    ensures other != name ==> Lookup(Define(st, env, name, v), env, other) == Lookup(st, env, other)
    ensures env !in Ancestry(st, outer) ==> Lookup(Define(st, env, name, v), outer, other) == Lookup(st, outer, other)
  {
    LookupAfterDefine(st, env, name, v, other);
    if env !in Ancestry(st, outer) {
      WriteOffLineInvisible(st, env, name, v, outer, other);
    }
  }

  /** `(set name e)` evaluates `e`, then fails with a ReferenceError, leaving
      the store as `e` left it, exactly when the name is bound nowhere on the
      chain; otherwise it returns the value, which a lookup of the name then
      yields, and other names resolve as before. */
  lemma SetAssigns(items: seq<Expr>, env: EnvId, st: Store, fuel: nat, other: string)
    requires Valid(st) && env < |st.frames|
    requires Nth(items, 0) == Atom("set")
    ensures var v := Eval(Nth(items, 2), env, st, fuel);
      var out := Eval(List(items), env, st, fuel + 1);
      var name := ToKey(Nth(items, 1));
      && (v.result.Err? ==> out == v)
      && (v.result.Ok? ==>
        && (out.result.Err? <==> Lookup(v.store, env, name).Err?)
        && (out.result.Err? ==> out.result == Err(ReferenceError(name)) && out.store == v.store)
        && (out.result.Ok? ==>
          && out.result == v.result
          && Lookup(out.store, env, name) == v.result
          && (other != name ==> Lookup(out.store, env, other) == Lookup(v.store, env, other))))
  {
    SetStep(items, env, st, fuel);
    var v := Eval(Nth(items, 2), env, st, fuel);
    if v.result.Ok? {
      var name := ToKey(Nth(items, 1));
      AssignAgreesWithScope(v.store, env, name, v.result.value);
      Scope.AssignKeepsKeys(ChainOf(v.store, env), name, v.result.value);
      if Assign(v.store, env, name, v.result.value).Ok? {
        LookupAfterAssign(v.store, env, name, v.result.value, other);
      }
    }
  }

  /** `begin` runs its items as a block in a fresh child of the current
      environment, whose chain is an empty record in front of the current
      chain; a body headed by `begin` runs in the given environment itself,
      with no scope of its own. */
  lemma BeginOpensScope(es: seq<Expr>, env: EnvId, st: Store, fuel: nat)
    requires Valid(st) && env < |st.frames|
    ensures var (st', b) := Alloc(st, map[], Some(env));
      && Eval(List([Atom("begin")] + es), env, st, fuel + 1) == EvalBlock(es, b, st', fuel, UndefinedValue)
      && ChainOf(st', b) == [map[]] + ChainOf(st, env)
    ensures EvalBody(List([Atom("begin")] + es), env, st, fuel) == EvalBlock(es, env, st, fuel, UndefinedValue)
  {
    ChainOfNew(st, map[], env);
    assert ([Atom("begin")] + es)[1..] == es;
  }

  /** A `var` in a block's own environment leaves the enclosing environment
      untouched, while a `set` there of a name the block does not own
      updates the enclosing binding (and fails exactly when that binding
      does not exist). */
  lemma BlockScoping(st: Store, env: EnvId, name: string, v: Value, other: string)
    requires Valid(st) && env < |st.frames| && ValidValue(v, st)
    ensures var (st1, b) := Alloc(st, map[], Some(env));
      && Lookup(Define(st1, b, name, v), env, other) == Lookup(st, env, other)
      && Lookup(Define(st1, b, name, v), b, name) == Ok(v)
      && (Assign(st1, b, name, v).Ok? <==> Lookup(st, env, name).Ok?)
      && (Assign(st1, b, name, v).Ok? ==> Lookup(Assign(st1, b, name, v).value, env, name) == Ok(v))
  {
    var (st1, b) := Alloc(st, map[], Some(env));
    ExtendsValue(st, st1, v);
    ChainAfterAlloc(st, map[], Some(env), env);
    WriteOffLineInvisible(st1, b, name, v, env, other);
    LookupAfterDefine(st1, b, name, v, name);
    ThroughChild(st1, b, env, name, v);
    AssignAgreesWithScope(st1, env, name, v);
    Scope.AssignKeepsKeys(ChainOf(st1, env), name, v);
    if Assign(st1, env, name, v).Ok? {
      LookupAfterAssign(st1, env, name, v, name);
    }
  }

  /** `if` evaluates its condition and then exactly one branch, the second
      item when the condition is truthy and the third otherwise. */
  lemma IfChoosesOneBranch(items: seq<Expr>, env: EnvId, st: Store, fuel: nat)
    requires Valid(st) && env < |st.frames| && Nth(items, 0) == Atom("if")
    ensures var c := Eval(Nth(items, 1), env, st, fuel);
      Eval(List(items), env, st, fuel + 1) ==
        if c.result.Err? then c
        else Eval(Nth(items, if Truthy(c.result.value) then 2 else 3), env, c.store, fuel)
  {
    IfStep(items, env, st, fuel);
  }

  /** `def` evaluates as its rewrite into `var` and `lambda`. */
  lemma DefEvaluatesAsRewrite(items: seq<Expr>, env: EnvId, st: Store, fuel: nat)
    requires Valid(st) && env < |st.frames| && Nth(items, 0) == Atom("def")
    ensures Eval(List(items), env, st, fuel + 1) == Eval(Transformer.TransformDefToVarLambda(items), env, st, fuel)
  {
    assert Eval(List(items), env, st, fuel + 1) == EvalList(items, env, st, fuel);
  }

  /** `--` and `++` evaluate as their rewrites into `set`. */
  lemma StepEvaluatesAsRewrite(items: seq<Expr>, env: EnvId, st: Store, fuel: nat)
    requires Valid(st) && env < |st.frames|
    ensures Nth(items, 0) == Atom("--") ==>
      Eval(List(items), env, st, fuel + 1) == Eval(Transformer.TransformDecToSet(items), env, st, fuel)
    ensures Nth(items, 0) == Atom("++") ==>
      Eval(List(items), env, st, fuel + 1) == Eval(Transformer.TransformIncToSet(items), env, st, fuel)
  {
    assert Eval(List(items), env, st, fuel + 1) == EvalList(items, env, st, fuel);
  }

  /** `for` evaluates as its rewrite into `begin` and `while`. */
  lemma ForEvaluatesAsRewrite(items: seq<Expr>, env: EnvId, st: Store, fuel: nat)
    requires Valid(st) && env < |st.frames| && Nth(items, 0) == Atom("for")
    ensures Eval(List(items), env, st, fuel + 1) == Eval(Transformer.TransformForToWhile(items), env, st, fuel)
  {
    assert Eval(List(items), env, st, fuel + 1) == EvalList(items, env, st, fuel);
  }

  /** `switch` evaluates as the `if` node its rewrite builds; a `switch` the
      rewrite rejects fails with the rewrite's error and changes nothing. */
  lemma SwitchEvaluatesAsRewrite(items: seq<Expr>, env: EnvId, st: Store, fuel: nat)
    requires Valid(st) && env < |st.frames| && Nth(items, 0) == Atom("switch")
    ensures Transformer.TransformSwitchToIf(items).Ok? ==>
      Eval(List(items), env, st, fuel + 1) == Eval(Transformer.TransformSwitchToIf(items).value, env, st, fuel)
    ensures Transformer.TransformSwitchToIf(items).Err? ==>
      Eval(List(items), env, st, fuel + 1) == Outcome(Err(Transformer.TransformSwitchToIf(items).error), st)
  {
    assert Eval(List(items), env, st, fuel + 1) == EvalList(items, env, st, fuel);
  }

  /** A `switch` whose cases end with the one `else` evaluates as the nested
      `if` chain of its conditions and blocks. */
  lemma SwitchEvaluatesAsIfChain(conds: seq<Expr>, blocks: seq<Expr>, elseBlock: Expr, env: EnvId, st: Store, fuel: nat)
    requires Valid(st) && env < |st.frames|
    requires |conds| == |blocks| && |conds| > 0
    requires forall j :: 1 <= j < |conds| ==> conds[j] != Transformer.ElseTag
    ensures Eval(List([Atom("switch")] + Transformer.Cases(conds, blocks, elseBlock)), env, st, fuel + 1)
      == Eval(Transformer.IfChain(conds, blocks, elseBlock), env, st, fuel)
  {
    Transformer.SwitchElseLast(Atom("switch"), conds, blocks, elseBlock);
    SwitchEvaluatesAsRewrite([Atom("switch")] + Transformer.Cases(conds, blocks, elseBlock), env, st, fuel);
  }

  /** `lambda` evaluates nothing: it yields a new closure object, distinct
      from every closure made before, holding the parameters, the body and
      the current environment itself. */
  lemma LambdaMakesClosure(params: Expr, body: Expr, env: EnvId, st: Store, fuel: nat)
    requires Valid(st) && env < |st.frames|
    ensures var f := Closure(st.objects, params, body, env);
      && Eval(List([Atom("lambda"), params, body]), env, st, fuel + 1) == Outcome(Ok(f), st.(objects := st.objects + 1))
      && forall g :: ValidValue(g, st) && g.Closure? ==> !StrictEquals(f, g)
  {
    assert Eval(List([Atom("lambda"), params, body]), env, st, fuel + 1)
      == EvalList([Atom("lambda"), params, body], env, st, fuel);
  }

  /** `(var name (lambda params body))` binds a new closure over the
      current environment. */
  lemma VarOfLambda(name: Expr, params: Expr, body: Expr, env: EnvId, st: Store, fuel: nat)
    requires Valid(st) && env < |st.frames|
    ensures var f := Closure(st.objects, params, body, env);
      Eval(List([Atom("var"), name, List([Atom("lambda"), params, body])]), env, st, fuel + 2)
        == Outcome(Ok(f), Define(st.(objects := st.objects + 1), env, ToKey(name), f))
  {
    var varItems := [Atom("var"), name, List([Atom("lambda"), params, body])];
    VarStep(varItems, env, st, fuel + 1);
    LambdaMakesClosure(params, body, env, st, fuel);
  }

  /** `def` binds a new closure over the current environment to the name in
      that environment and returns it. */
  lemma DefBindsClosure(name: Expr, params: Expr, body: Expr, env: EnvId, st: Store, fuel: nat)
    requires Valid(st) && env < |st.frames| && fuel >= 3
    ensures var out := Eval(List([Atom("def"), name, params, body]), env, st, fuel);
      var f := Closure(st.objects, params, body, env);
      && out.result == Ok(f)
      && out.store.objects == st.objects + 1
      && Lookup(out.store, env, ToKey(name)) == Ok(f)
  {
    var items := [Atom("def"), name, params, body];
    var f := Closure(st.objects, params, body, env);
    var grown := st.(objects := st.objects + 1);
    DefEvaluatesAsRewrite(items, env, st, fuel - 1);
    assert Transformer.TransformDefToVarLambda(items) == List([Atom("var"), name, List([Atom("lambda"), params, body])]);
    VarOfLambda(name, params, body, env, st, fuel - 3);
    assert Eval(List(items), env, st, fuel) == Outcome(Ok(f), Define(grown, env, ToKey(name), f));
    LookupAfterDefine(grown, env, ToKey(name), f, ToKey(name));
  }

  /** Parameters are bound by position: the record holds exactly the
      parameters' names, and each one is bound to the argument at the last
      position where it occurs, undefined when there is no such argument;
      arguments beyond the parameters are ignored. */
  lemma {:induction false} ActivationBindsPositionally(params: seq<Expr>, args: seq<Value>, i: nat)
    requires i < |params|
    requires forall j :: i < j < |params| ==> ToKey(params[j]) != ToKey(params[i])
    ensures ToKey(params[i]) in ActivationRecord(params, args)
    ensures ActivationRecord(params, args)[ToKey(params[i])] == Arg(args, i)
    decreases |params|
  {
    var last := |params| - 1;
    if i < last {
      ActivationBindsPositionally(params[..last], args, i);
    }
  }

  lemma {:induction false} ActivationKeys(params: seq<Expr>, args: seq<Value>, name: string)
    ensures name in ActivationRecord(params, args) <==> exists j :: 0 <= j < |params| && ToKey(params[j]) == name
    decreases |params|
  {
    if |params| > 0 {
      var last := |params| - 1;
      ActivationKeys(params[..last], args, name);
      if name != ToKey(params[last]) && name in ActivationRecord(params, args) {
        var j :| 0 <= j < last && ToKey(params[..last][j]) == name;
        assert ToKey(params[j]) == name;
      }
      if exists j :: 0 <= j < |params| && ToKey(params[j]) == name {
        var j :| 0 <= j < |params| && ToKey(params[j]) == name;
        if j < last {
          assert ToKey(params[..last][j]) == name;
        }
      }
    }
  }

  /** Calling a closure runs its body in a new environment whose record is
      the activation record and whose parent is the captured environment as
      it is at the time of the call: a parameter is found in the record, and
      every other name is looked up in the captured environment, including
      bindings made there after the closure was created. */
  lemma CallEnvironment(id: nat, params: seq<Expr>, body: Expr, captured: EnvId, args: seq<Value>, st: Store, fuel: nat, name: string)
    requires Valid(st) && ValidValue(Closure(id, List(params), body, captured), st)
    requires forall v :: v in args ==> ValidValue(v, st)
    ensures var rec := ActivationRecord(params, args);
      var (st', a) := Alloc(st, rec, Some(captured));
      && Apply(Closure(id, List(params), body, captured), args, st, fuel) == EvalBody(body, a, st', fuel)
      && st'.frames[a].parent == Some(captured)
      && (name in rec ==> Lookup(st', a, name) == Ok(rec[name]))
      && (name !in rec ==> Lookup(st', a, name) == Lookup(st, captured, name))
  {
    var rec := ActivationRecord(params, args);
    ChainOfNew(st, rec, captured);
    var (st', a) := Alloc(st, rec, Some(captured));
    if name !in rec {
      Scope.LookupThroughNonOwner(ChainOf(st', a), name);
      assert ChainOf(st', a)[1..] == ChainOf(st, captured);
    }
  }

  /** One argument: its value alone, or its error, in the store it left. */
  lemma EvalArgsOne(e: Expr, env: EnvId, st: Store, fuel: nat)
    requires Valid(st) && env < |st.frames|
    ensures Eval(e, env, st, fuel).result.Err? ==>
      EvalArgs([e], env, st, fuel) == Outcome(Err(Eval(e, env, st, fuel).result.error), Eval(e, env, st, fuel).store)
    ensures Eval(e, env, st, fuel).result.Ok? ==>
      EvalArgs([e], env, st, fuel) == Outcome(Ok([Eval(e, env, st, fuel).result.value]), Eval(e, env, st, fuel).store)
  {
    assert [e][1..] == [];
    if Eval(e, env, st, fuel).result.Ok? {
      assert [Eval(e, env, st, fuel).result.value] + [] == [Eval(e, env, st, fuel).result.value];
    }
  }

  /** Arguments are evaluated left to right: when an argument of `a` fails,
      the arguments `a + b` fail with the same error in the same store, and
      none of `b` is evaluated. */
  lemma {:induction false} EvalArgsAppendErr(a: seq<Expr>, b: seq<Expr>, env: EnvId, st: Store, fuel: nat)
    requires Valid(st) && env < |st.frames|
    requires EvalArgs(a, env, st, fuel).result.Err?
    ensures EvalArgs(a + b, env, st, fuel) == EvalArgs(a, env, st, fuel)
    decreases |a|
  {
    var ab := a + b;
    assert ab[0] == a[0];
    assert ab[1..] == a[1..] + b;
    var v := Eval(a[0], env, st, fuel);
    if v.result.Ok? {
      EvalArgsAppendErr(a[1..], b, env, v.store, fuel);
    }
  }

  /** Arguments are evaluated left to right: when the arguments `a` succeed,
      the arguments `a + b` are those of `b` evaluated in the store `a` left,
      with the values of `a` in front; an error in `b` is the error of the
      whole. */
  lemma {:induction false} EvalArgsAppend(a: seq<Expr>, b: seq<Expr>, env: EnvId, st: Store, fuel: nat)
    requires Valid(st) && env < |st.frames|
    requires EvalArgs(a, env, st, fuel).result.Ok?
    ensures var ra := EvalArgs(a, env, st, fuel);
      var rb := EvalArgs(b, env, ra.store, fuel);
      EvalArgs(a + b, env, st, fuel) == AfterArgs(ra.result.value, rb)
    decreases |a|
  {
    if |a| == 0 {
      assert a + b == b;
      var rb := EvalArgs(b, env, st, fuel);
      if rb.result.Ok? {
        assert [] + rb.result.value == rb.result.value;
      }
    } else {
      var ab := a + b;
      assert ab[0] == a[0];
      assert ab[1..] == a[1..] + b;
      var v := Eval(a[0], env, st, fuel);
      EvalArgsAppend(a[1..], b, env, v.store, fuel);
      var rest := EvalArgs(a[1..], env, v.store, fuel);
      var whole := EvalArgs(a[1..] + b, env, v.store, fuel);
      assert EvalArgs(ab, env, st, fuel) == AfterArgs([v.result.value], whole);
      AfterArgsAssociates([v.result.value], rest.result.value, EvalArgs(b, env, rest.store, fuel));
    }
  }

  /** The outcome of evaluating further arguments after values `vs`. */
  function AfterArgs(vs: seq<Value>, more: Outcome<seq<Value>>): (r: Outcome<seq<Value>>)
    ensures r.store == more.store
    ensures more.result.Err? ==> r == more
    ensures more.result.Ok? ==> r.result == Ok(vs + more.result.value)
  {
    if more.result.Err? then more else Outcome(Ok(vs + more.result.value), more.store)
  }

  lemma AfterArgsAssociates(xs: seq<Value>, ys: seq<Value>, more: Outcome<seq<Value>>)
    ensures AfterArgs(xs, AfterArgs(ys, more)) == AfterArgs(xs + ys, more)
  {
    if more.result.Ok? {
      assert xs + (ys + more.result.value) == (xs + ys) + more.result.value;
    }
  }

  // -----------------------------------------------------------------------
  // Counters
  // -----------------------------------------------------------------------

  /** Two arguments, the second evaluated in the store the first left. */
  lemma ArgsOfTwo(a1: Expr, a2: Expr, v1: Value, v2: Value, env: EnvId, st: Store, st1: Store, st2: Store, fuel: nat)
    requires Valid(st) && env < |st.frames|
    requires Eval(a1, env, st, fuel) == Outcome(Ok(v1), st1)
    requires Eval(a2, env, st1, fuel) == Outcome(Ok(v2), st2)
    ensures EvalArgs([a1, a2], env, st, fuel) == Outcome(Ok([v1, v2]), st2)
  {
    assert [a1, a2][1..] == [a2];
    assert [a2][1..] == [];
    assert EvalArgs([a2], env, st1, fuel) == Outcome(Ok([v2]), st2) by {
      assert [v2] + [] == [v2];
    }
    assert [v1] + [v2] == [v1, v2];
  }

  /** A call whose head evaluates to a built-in applies it to the argument
      values, the arguments evaluated in the store the head left; the call
      leaves the store the arguments left. */
  lemma CallNative(head: Expr, rest: seq<Expr>, op: Op, args: seq<Value>, env: EnvId, st: Store, st1: Store, st2: Store, fuel: nat)
    requires Valid(st) && env < |st.frames|
    requires Eval(head, env, st, fuel) == Outcome(Ok(Native(op)), st1)
    requires EvalArgs(rest, env, st1, fuel) == Outcome(Ok(args), st2)
    ensures EvalCall([head] + rest, env, st, fuel) == Outcome(ApplyNative(op, args), st2)
  {
    assert ([head] + rest)[1..] == rest;
  }

  /** `(head a1 a2)` where the head, not a form's tag, evaluates to a built-in
      and the two arguments to values, each in the store the previous one
      left. */
  lemma CallOfTwo(head: Expr, a1: Expr, a2: Expr, op: Op, v1: Value, v2: Value, env: EnvId,
                  st: Store, st1: Store, st2: Store, st3: Store, fuel: nat)
    requires Valid(st) && env < |st.frames| && FormOf(head) == Application
    requires Eval(head, env, st, fuel) == Outcome(Ok(Native(op)), st1)
    requires Eval(a1, env, st1, fuel) == Outcome(Ok(v1), st2)
    requires Eval(a2, env, st2, fuel) == Outcome(Ok(v2), st3)
    ensures Eval(List([head, a1, a2]), env, st, fuel + 1) == Outcome(ApplyNative(op, [v1, v2]), st3)
  {
    ArgsOfTwo(a1, a2, v1, v2, env, st1, st2, st3, fuel);
    CallNative(head, [a1, a2], op, [v1, v2], env, st, st1, st3, fuel);
    assert [head] + [a1, a2] == [head, a1, a2];
    CallStep([head, a1, a2], env, st, fuel);
  }

  /** `(op x c)` where `op` names a built-in and `x` a number. */
  lemma CallOnVariable(opName: string, op: Op, x: string, c: int, k: int, env: EnvId, st: Store, fuel: nat)
    requires Valid(st) && env < |st.frames| && fuel >= 2
    requires opName == "+" || opName == "-" || opName == "<="
    requires IsVariableName(x) && Lookup(st, env, x) == Ok(Number(k))
    requires Lookup(st, env, opName) == Ok(Native(op))
    ensures Eval(List([Atom(opName), Atom(x), Num(c)]), env, st, fuel)
      == Outcome(ApplyNative(op, [Number(k), Number(c)]), st)
  {
    BuiltinName(opName);
    NameStep(opName, env, st, fuel - 1);
    NameStep(x, env, st, fuel - 1);
    CallOfTwo(Atom(opName), Atom(x), Num(c), op, Number(k), Number(c), env, st, st, st, st, fuel - 1);
  }

  /** `(set x (op x 1))`, what `++` (op `+`) and `--` (op `-`) rewrite to. */
  function UpdateByOne(x: string, opName: string): Expr
  {
    List([Atom("set"), Atom(x), List([Atom(opName), Atom(x), Num(1)])])
  }

  /** `(set name e)` where `e` evaluates to `v` without touching the store
      and `name` is bound. */
  lemma SetOfValue(name: string, e: Expr, v: Value, env: EnvId, st: Store, fuel: nat)
    requires Valid(st) && env < |st.frames|
    requires Eval(e, env, st, fuel) == Outcome(Ok(v), st) && Assign(st, env, name, v).Ok?
    ensures Eval(List([Atom("set"), Atom(name), e]), env, st, fuel + 1) == Outcome(Ok(v), Assign(st, env, name, v).value)
  {
    SetStep([Atom("set"), Atom(name), e], env, st, fuel);
  }

  /** With `x` bound to the number k, `(set x (op x 1))` assigns r = k op 1
      to `x` and returns r. */
  lemma UpdateByOneAssigns(x: string, opName: string, op: Op, k: int, r: int, env: EnvId, st: Store, fuel: nat)
    requires Valid(st) && env < |st.frames| && fuel >= 3
    requires opName == "+" || opName == "-"
    requires IsVariableName(x) && Lookup(st, env, x) == Ok(Number(k))
    requires Lookup(st, env, opName) == Ok(Native(op)) && ApplyNative(op, [Number(k), Number(1)]) == Ok(Number(r))
    ensures Assign(st, env, x, Number(r)).Ok?
    ensures Eval(UpdateByOne(x, opName), env, st, fuel) == Outcome(Ok(Number(r)), Assign(st, env, x, Number(r)).value)
  {
    AssignOkIffBound(st, env, x, Number(r));
    CallOnVariable(opName, op, x, 1, k, env, st, fuel - 1);
    SetOfValue(x, List([Atom(opName), Atom(x), Num(1)]), Number(r), env, st, fuel - 1);
  }

  /** A form that evaluates as `(set x (op x 1))` one step later assigns
      r = k op 1 to `x` and returns r. */
  lemma RewrittenUpdate(items: seq<Expr>, x: string, opName: string, op: Op, k: int, r: int, env: EnvId, st: Store, fuel: nat)
    requires Valid(st) && env < |st.frames| && fuel >= 4
    requires opName == "+" || opName == "-"
    requires IsVariableName(x) && Lookup(st, env, x) == Ok(Number(k))
    requires Lookup(st, env, opName) == Ok(Native(op)) && ApplyNative(op, [Number(k), Number(1)]) == Ok(Number(r))
    requires Eval(List(items), env, st, fuel) == Eval(UpdateByOne(x, opName), env, st, fuel - 1)
    ensures Eval(List(items), env, st, fuel).result == Ok(Number(r))
    ensures Lookup(Eval(List(items), env, st, fuel).store, env, x) == Ok(Number(r))
  {
    UpdateByOneAssigns(x, opName, op, k, r, env, st, fuel - 1);
    LookupAfterAssign(st, env, x, Number(r), x);
  }

  /** `(++ x)` with `x` bound to the number k leaves it bound to k + 1 and
      returns k + 1. */
  lemma IncrementAddsOne(x: string, k: int, env: EnvId, st: Store, fuel: nat)
    requires Valid(st) && env < |st.frames| && fuel >= 4
    requires IsVariableName(x) && Lookup(st, env, x) == Ok(Number(k))
    requires Lookup(st, env, "+") == Ok(Native(Add))
    ensures Eval(List([Atom("++"), Atom(x)]), env, st, fuel).result == Ok(Number(k + 1))
    ensures Lookup(Eval(List([Atom("++"), Atom(x)]), env, st, fuel).store, env, x) == Ok(Number(k + 1))
  {
    var items := [Atom("++"), Atom(x)];
    StepEvaluatesAsRewrite(items, env, st, fuel - 1);
    assert Transformer.TransformIncToSet(items) == UpdateByOne(x, "+");
    RewrittenUpdate(items, x, "+", Add, k, k + 1, env, st, fuel);
  }

  /** `(-- x)` with `x` bound to the number k leaves it bound to k - 1 and
      returns k - 1. */
  lemma DecrementSubtractsOne(x: string, k: int, env: EnvId, st: Store, fuel: nat)
    requires Valid(st) && env < |st.frames| && fuel >= 4
    requires IsVariableName(x) && Lookup(st, env, x) == Ok(Number(k))
    requires Lookup(st, env, "-") == Ok(Native(Subtract))
    ensures Eval(List([Atom("--"), Atom(x)]), env, st, fuel).result == Ok(Number(k - 1))
    ensures Lookup(Eval(List([Atom("--"), Atom(x)]), env, st, fuel).store, env, x) == Ok(Number(k - 1))
  {
    var items := [Atom("--"), Atom(x)];
    StepEvaluatesAsRewrite(items, env, st, fuel - 1);
    assert Transformer.TransformDecToSet(items) == UpdateByOne(x, "-");
    RewrittenUpdate(items, x, "-", Subtract, k, k - 1, env, st, fuel);
  }

  /** The condition of the counting loop `(while (<= x bound) (set x (+ x 1)))`. */
  function CountCond(x: string, bound: int): Expr
  {
    List([Atom("<="), Atom(x), Num(bound)])
  }

  /** A pass of `while` whose condition is truthy runs the body from the
      store the condition left, and the loop continues from the body's store
      and value. */
  lemma WhileAgain(cond: Expr, body: Expr, env: EnvId, st: Store, fuel: nat, acc: Value, cv: Value, bv: Value, st1: Store, st2: Store)
    requires Valid(st) && env < |st.frames| && ValidValue(acc, st) && fuel > 0
    requires Eval(cond, env, st, fuel) == Outcome(Ok(cv), st1) && Truthy(cv)
    requires Eval(body, env, st1, fuel) == Outcome(Ok(bv), st2)
    ensures Valid(st2) && env < |st2.frames| && ValidValue(bv, st2)
    ensures EvalWhile(cond, body, env, st, fuel, acc) == EvalWhile(cond, body, env, st2, fuel - 1, bv)
  {
  }

  /** `while` whose condition is falsy returns the value it carries, in the
      store the condition left. */
  lemma WhileStops(cond: Expr, body: Expr, env: EnvId, st: Store, fuel: nat, acc: Value, cv: Value, st1: Store)
    requires Valid(st) && env < |st.frames| && ValidValue(acc, st)
    requires Eval(cond, env, st, fuel) == Outcome(Ok(cv), st1) && !Truthy(cv)
    ensures EvalWhile(cond, body, env, st, fuel, acc) == Outcome(Ok(acc), st1)
  {
  }

  /** The condition `(<= x bound)` with `x` bound to the number k. */
  lemma CountCondValue(x: string, bound: int, k: int, env: EnvId, st: Store, fuel: nat)
    requires Valid(st) && env < |st.frames| && fuel >= 2
    requires IsVariableName(x) && Lookup(st, env, x) == Ok(Number(k))
    requires Lookup(st, env, "<=") == Ok(Native(LessEq))
    ensures Eval(CountCond(x, bound), env, st, fuel) == Outcome(Ok(Bool(k <= bound)), st)
  {
    CallOnVariable("<=", LessEq, x, bound, k, env, st, fuel);
  }

  /** The counting loop from `x` bound to k > bound stops at once. */
  lemma CountingStops(x: string, bound: int, k: int, env: EnvId, st: Store, fuel: nat, acc: Value)
    requires Valid(st) && env < |st.frames| && ValidValue(acc, st) && fuel >= 2 && k > bound
    requires IsVariableName(x) && Lookup(st, env, x) == Ok(Number(k))
    requires Lookup(st, env, "<=") == Ok(Native(LessEq))
    ensures EvalWhile(CountCond(x, bound), UpdateByOne(x, "+"), env, st, fuel, acc) == Outcome(Ok(acc), st)
  {
    CountCondValue(x, bound, k, env, st, fuel);
    WhileStops(CountCond(x, bound), UpdateByOne(x, "+"), env, st, fuel, acc, Bool(false), st);
  }

  /** One pass of the counting loop from `x` bound to k <= bound: the body
      runs and the loop continues with `x` bound to k + 1, the built-ins
      unchanged. */
  lemma CountingPass(x: string, bound: int, k: int, env: EnvId, st: Store, fuel: nat, acc: Value)
    requires Valid(st) && env < |st.frames| && ValidValue(acc, st) && fuel >= 3 && k <= bound
    requires IsVariableName(x) && x != "+" && x != "<="
    requires Lookup(st, env, x) == Ok(Number(k))
    requires Lookup(st, env, "+") == Ok(Native(Add)) && Lookup(st, env, "<=") == Ok(Native(LessEq))
    ensures Assign(st, env, x, Number(k + 1)).Ok?
    ensures Valid(Assign(st, env, x, Number(k + 1)).value) && env < |Assign(st, env, x, Number(k + 1)).value.frames|
    ensures EvalWhile(CountCond(x, bound), UpdateByOne(x, "+"), env, st, fuel, acc)
      == EvalWhile(CountCond(x, bound), UpdateByOne(x, "+"), env, Assign(st, env, x, Number(k + 1)).value, fuel - 1, Number(k + 1))
    ensures Lookup(Assign(st, env, x, Number(k + 1)).value, env, x) == Ok(Number(k + 1))
    ensures Lookup(Assign(st, env, x, Number(k + 1)).value, env, "+") == Ok(Native(Add))
    ensures Lookup(Assign(st, env, x, Number(k + 1)).value, env, "<=") == Ok(Native(LessEq))
  {
    CountCondValue(x, bound, k, env, st, fuel);
    UpdateByOneAssigns(x, "+", Add, k, k + 1, env, st, fuel);
    var st' := Assign(st, env, x, Number(k + 1)).value;
    WhileAgain(CountCond(x, bound), UpdateByOne(x, "+"), env, st, fuel, acc, Bool(true), Number(k + 1), st, st');
    LookupAfterAssign(st, env, x, Number(k + 1), "+");
    LookupAfterAssign(st, env, x, Number(k + 1), "<=");
  }

  /** `x` is bound to the number j, and `+` and `<=` to their built-ins. */
  ghost predicate Counting(x: string, env: EnvId, s: Store, j: int)
  {
    && Valid(s) && env < |s.frames|
    && Lookup(s, env, x) == Ok(Number(j))
    && Lookup(s, env, "+") == Ok(Native(Add)) && Lookup(s, env, "<=") == Ok(Native(LessEq))
  }

  /** One pass of a loop, seen as a function `run` of the store, the fuel
      and the incoming value, from a state where the counter is j: when
      j > bound the loop stops at once; otherwise it continues, with one less
      unit of fuel, from the store `next(s, j)`, where the counter is j + 1
      and the incoming value is j + 1. */
  ghost predicate CountingStep(run: (Store, nat, Value) -> Outcome<Value>, inv: (Store, int, Value) -> bool,
                               next: (Store, int) -> Store, bound: int, s: Store, j: int, f: nat, a: Value)
    requires f >= 1
  {
    && (j > bound ==> run(s, f, a) == Outcome(Ok(a), s))
    && (j <= bound ==>
      && inv(next(s, j), j + 1, Number(j + 1))
      && run(s, f, a) == run(next(s, j), f - 1, Number(j + 1)))
  }

  /** A loop each of whose passes either stops (counter above bound) or
      moves the counter from j to j + 1 ends, given enough fuel, with the
      counter at bound + 1 and value bound + 1 if it ran at all. */
  lemma {:induction false} LoopCounts(run: (Store, nat, Value) -> Outcome<Value>, inv: (Store, int, Value) -> bool,
                                      next: (Store, int) -> Store, bound: int, k: int, st: Store, fuel: nat, acc: Value)
    requires inv(st, k, acc) && k <= bound + 1 && fuel >= bound - k + 4
    requires forall s, j, f: nat, a {:trigger CountingStep(run, inv, next, bound, s, j, f, a)} ::
      inv(s, j, a) && f >= 3 ==> CountingStep(run, inv, next, bound, s, j, f, a)
    ensures run(st, fuel, acc).result == if k <= bound then Ok(Number(bound + 1)) else Ok(acc)
    ensures inv(run(st, fuel, acc).store, bound + 1, if k <= bound then Number(bound + 1) else acc)
    decreases bound - k + 1
  {
    assert CountingStep(run, inv, next, bound, st, k, fuel, acc);
    if k <= bound {
      LoopCounts(run, inv, next, bound, k + 1, next(st, k), fuel - 1, Number(k + 1));
    }
  }

  /** The counting loop as a total function of the store, the fuel and the
      incoming value. */
  ghost function CountingRun(x: string, bound: int, env: EnvId, s: Store, f: nat, a: Value): Outcome<Value>
  {
    if Valid(s) && env < |s.frames| && ValidValue(a, s) then EvalWhile(CountCond(x, bound), UpdateByOne(x, "+"), env, s, f, a)
    else Outcome(Ok(a), s)
  }

  /** The store after one pass of the counting loop's body. */
  ghost function CountingNext(x: string, env: EnvId, s: Store, j: int): Store
  {
    if Valid(s) && env < |s.frames| && Assign(s, env, x, Number(j + 1)).Ok? then Assign(s, env, x, Number(j + 1)).value else s
  }

  /** One pass of the counting loop: above the bound it stops; within it,
      the loop continues from the store its body leaves, where the counter
      has moved up by one. */
  lemma CountingPassOrStop(x: string, bound: int, j: int, env: EnvId, s: Store, f: nat, a: Value)
    requires Counting(x, env, s, j) && ValidValue(a, s) && f >= 3
    requires IsVariableName(x) && x != "+" && x != "<="
    ensures j > bound ==> CountingRun(x, bound, env, s, f, a) == Outcome(Ok(a), s)
    ensures j <= bound ==>
      && Counting(x, env, CountingNext(x, env, s, j), j + 1)
      && CountingRun(x, bound, env, s, f, a) == CountingRun(x, bound, env, CountingNext(x, env, s, j), f - 1, Number(j + 1))
  {
    if j > bound {
      CountingStops(x, bound, j, env, s, f, a);
    } else {
      CountingPass(x, bound, j, env, s, f, a);
    }
  }

  /** Every pass of the counting loop either stops or moves the counter up
      by one, stated on functions that agree with the loop, its invariant and
      its body. */
  lemma CountingSteps(run: (Store, nat, Value) -> Outcome<Value>, inv: (Store, int, Value) -> bool,
                      next: (Store, int) -> Store, x: string, bound: int, env: EnvId)
    requires IsVariableName(x) && x != "+" && x != "<="
    requires forall s, f: nat, a :: run(s, f, a) == CountingRun(x, bound, env, s, f, a)
    requires forall s, j, a :: inv(s, j, a) == (Counting(x, env, s, j) && ValidValue(a, s))
    requires forall s, j :: next(s, j) == CountingNext(x, env, s, j)
    ensures forall s, j, f: nat, a {:trigger CountingStep(run, inv, next, bound, s, j, f, a)} ::
      inv(s, j, a) && f >= 3 ==> CountingStep(run, inv, next, bound, s, j, f, a)
  {
    forall s, j, f: nat, a | inv(s, j, a) && f >= 3
      ensures CountingStep(run, inv, next, bound, s, j, f, a)
    {
      CountingPassOrStop(x, bound, j, env, s, f, a);
    }
  }

  /** Started with `x` bound to k <= bound + 1 and enough fuel, the counting
      loop stops with `x` bound to bound + 1; its value is bound + 1 when the
      body ran at all and the incoming value otherwise. */
  lemma CountingLoop(x: string, bound: int, k: int, env: EnvId, st: Store, fuel: nat, acc: Value)
    requires Valid(st) && env < |st.frames| && ValidValue(acc, st)
    requires IsVariableName(x) && x != "+" && x != "<="
    requires Lookup(st, env, x) == Ok(Number(k)) && k <= bound + 1
    requires Lookup(st, env, "+") == Ok(Native(Add)) && Lookup(st, env, "<=") == Ok(Native(LessEq))
    requires fuel >= bound - k + 4
    ensures EvalWhile(CountCond(x, bound), UpdateByOne(x, "+"), env, st, fuel, acc).result
      == if k <= bound then Ok(Number(bound + 1)) else Ok(acc)
    ensures Lookup(EvalWhile(CountCond(x, bound), UpdateByOne(x, "+"), env, st, fuel, acc).store, env, x) == Ok(Number(bound + 1))
  {
    var run := (s: Store, f: nat, a: Value) => CountingRun(x, bound, env, s, f, a);
    var inv := (s: Store, j: int, a: Value) => Counting(x, env, s, j) && ValidValue(a, s);
    var next := (s: Store, j: int) => CountingNext(x, env, s, j);
    CountingSteps(run, inv, next, x, bound, env);
    LoopCounts(run, inv, next, bound, k, st, fuel, acc);
  }

  /** The loop of the example in Eva.js: counting from 0 while x <= 10
      ends with x bound to 11. */
  lemma CountToEleven(env: EnvId, st: Store, fuel: nat)
    requires Valid(st) && env < |st.frames| && fuel >= 14
    requires Lookup(st, env, "x") == Ok(Number(0))
    requires Lookup(st, env, "+") == Ok(Native(Add)) && Lookup(st, env, "<=") == Ok(Native(LessEq))
    ensures var out := Eval(List([Atom("while"), CountCond("x", 10), UpdateByOne("x", "+")]), env, st, fuel + 1);
      out.result == Ok(Number(11)) && Lookup(out.store, env, "x") == Ok(Number(11))
  {
    WhileStep([Atom("while"), CountCond("x", 10), UpdateByOne("x", "+")], env, st, fuel);
    CountingLoop("x", 10, 0, env, st, fuel, UndefinedValue);
  }
}
