/** Runtime values, the built-in operations of the global environment, and
    the store of environments the evaluator works on.

    Environments are shared heap objects in Eva.js: a `begin` block and every
    call create one, and closures keep a reference to the one they were made
    in. The evaluator here keeps all of them in one store and refers to them
    by position, so a closure's captured environment is an index into the
    store and writes through any holder are seen by all. Name resolution on
    the store is the rule of module Scope applied to the chain of records
    met walking up the parent links. */
module Runtime {
  import opened Results
  import opened Syntax
  import Scope

  type EnvId = nat

  /** The callable built-ins of the global environment. */
  datatype Op = Add | Subtract | Divide | Multiply | Greater | GreaterEq | Less | LessEq | StrictEq | Print

  datatype Value =
    | Number(n: int)
    | Str(s: string)
    | Bool(b: bool)
    | NullValue
    | UndefinedValue
    | VersionValue   // the non-integer constant bound to VERSION
    | Native(op: Op)
    | Closure(id: nat, params: Expr, body: Expr, env: EnvId)  // `id` is the object's identity

  /** JavaScript truthiness: false, null, undefined, 0 and "" are falsy. */
  predicate Truthy(v: Value)
  {
    !(v == Bool(false) || v == NullValue || v == UndefinedValue || v == Number(0) || v == Str(""))
  }

  /** `===`: primitives compare by value, objects by identity. */
  predicate StrictEquals(a: Value, b: Value)
  {
    if a.Closure? && b.Closure? then a.id == b.id else a == b
  }

  // -----------------------------------------------------------------------
  // Built-in operations
  // -----------------------------------------------------------------------

  /** A positional argument; a missing one is undefined. */
  function Arg(args: seq<Value>, i: nat): Value
  {
    if i < |args| then args[i] else UndefinedValue
  }

  predicate BothNumbers(a: Value, b: Value)
  {
    a.Number? && b.Number?
  }

  /** `String(v)`, which `+` applies to both operands once either is a
      string or an object. A built-in's text is its JavaScript source code,
      which is not part of this model. */
  function Text(v: Value): Option<string>
  {
    match v
    case Number(n) => Some(IntToDecimal(n))
    case Str(s) => Some(s)
    case Bool(b) => Some(if b then "true" else "false")
    case NullValue => Some("null")
    case UndefinedValue => Some("undefined")
    case VersionValue => Some("0.1")
    case Closure(_, _, _, _) => Some("[object Object]")
    case Native(_) => None
  }

  /** Calling a built-in. Extra arguments are ignored. Results that
      JavaScript would produce by coercing a non-number, as a fraction, or by
      dividing by zero are reported as HostArithmetic; numbers are exact
      integers, without the double's overflow or rounding. */
  function ApplyNative(op: Op, args: seq<Value>): Result<Value>
  {
    var a, b := Arg(args, 0), Arg(args, 1);
    match op
    case Add =>
      if BothNumbers(a, b) then Ok(Number(a.n + b.n))
      else if (a.Str? || a.Closure? || b.Str? || b.Closure?) && Text(a).Some? && Text(b).Some? then
        Ok(Str(Text(a).value + Text(b).value))
      else Err(HostArithmetic)
    case Subtract =>
      // the second operand defaults to null, and `op2 == null` also holds for undefined
      if b == NullValue || b == UndefinedValue then
        (if a.Number? then Ok(Number(-a.n)) else Err(HostArithmetic))
      else if BothNumbers(a, b) then Ok(Number(a.n - b.n))
      else Err(HostArithmetic)
    case Multiply =>
      if BothNumbers(a, b) then Ok(Number(a.n * b.n)) else Err(HostArithmetic)
    case Divide =>
      if BothNumbers(a, b) && b.n != 0 && a.n % b.n == 0 then Ok(Number(a.n / b.n))
      else Err(HostArithmetic)
    case Greater => if BothNumbers(a, b) then Ok(Bool(a.n > b.n)) else Err(HostArithmetic)
    case GreaterEq => if BothNumbers(a, b) then Ok(Bool(a.n >= b.n)) else Err(HostArithmetic)
    case Less => if BothNumbers(a, b) then Ok(Bool(a.n < b.n)) else Err(HostArithmetic)
    case LessEq => if BothNumbers(a, b) then Ok(Bool(a.n <= b.n)) else Err(HostArithmetic)
    case StrictEq => Ok(Bool(StrictEquals(a, b)))
    case Print => Ok(UndefinedValue)
  }

  /** What the arithmetic built-ins compute on numbers: `-` with one
      argument (or a null or undefined second one) negates, division is
      defined exactly when it is exact, and `=` is identity. */
  lemma NativeArithmetic(x: int, y: int, v: Value)
    ensures ApplyNative(Add, [Number(x), Number(y)]) == Ok(Number(x + y))
    ensures ApplyNative(Subtract, [Number(x)]) == Ok(Number(-x))
    ensures ApplyNative(Subtract, [Number(x), NullValue]) == Ok(Number(-x))
    ensures ApplyNative(Subtract, [Number(x), Number(y)]) == Ok(Number(x - y))
    ensures ApplyNative(Multiply, [Number(x), Number(y)]) == Ok(Number(x * y))
    ensures ApplyNative(Divide, [Number(x), Number(y)]).Ok? <==> y != 0 && x % y == 0
    ensures ApplyNative(Divide, [Number(x), Number(y)]).Ok? ==>
      ApplyNative(Divide, [Number(x), Number(y)]).value.n * y == x
    ensures ApplyNative(StrictEq, [v, v]) == Ok(Bool(true))
  {
    if y != 0 && x % y == 0 {
      assert x == y * (x / y) + x % y;
    }
  }

  /** `+` concatenates as soon as one operand is a string, writing a number
      in decimal and an object as `[object Object]`. */
  lemma NativeConcatenation(s: string, t: string, x: int)
    ensures ApplyNative(Add, [Str(s), Str(t)]) == Ok(Str(s + t))
    ensures ApplyNative(Add, [Str(s), Number(x)]) == Ok(Str(s + IntToDecimal(x)))
    ensures ApplyNative(Add, [Number(x), Str(s)]) == Ok(Str(IntToDecimal(x) + s))
    ensures ApplyNative(Add, [Str(s)]) == Ok(Str(s + "undefined"))
  {
  }

  /** The bindings of the global environment (`print` writes its arguments
      to the console and returns undefined; the output is not modelled). */
  const GlobalRecord: map<string, Value> := map[
    "null" := NullValue,
    "true" := Bool(true),
    "false" := Bool(false),
    "VERSION" := VersionValue,
    "+" := Native(Add),
    "-" := Native(Subtract),
    "/" := Native(Divide),
    "*" := Native(Multiply),
    ">" := Native(Greater),
    ">=" := Native(GreaterEq),
    "<" := Native(Less),
    "<=" := Native(LessEq),
    "=" := Native(StrictEq),
    "print" := Native(Print)
  ]

  // -----------------------------------------------------------------------
  // The store of environments
  // -----------------------------------------------------------------------

  /** One environment: its own record and the position of its parent. */
  datatype Frame = Frame(record: map<string, Value>, parent: Option<EnvId>)

  /** All environments created so far, and the number of closure objects
      created so far (the next closure's identity). */
  datatype Store = Store(frames: seq<Frame>, objects: nat)

  /** A value refers only to environments and closure identities that exist. */
  predicate ValidValue(v: Value, st: Store)
  {
    v.Closure? ==> v.env < |st.frames| && v.id < st.objects
  }

  /** Parents were created before their children, and every bound value is
      valid. */
  ghost predicate Valid(st: Store)
  {
    && (forall i :: 0 <= i < |st.frames| && st.frames[i].parent.Some? ==> st.frames[i].parent.value < i)
    && (forall i, n :: 0 <= i < |st.frames| && n in st.frames[i].record ==> ValidValue(st.frames[i].record[n], st))
  }

  /** `st'` is a later state of `st`: nothing is discarded and no parent link
      changes. */
  ghost predicate Extends(st: Store, st': Store)
  {
    && |st.frames| <= |st'.frames|
    && st.objects <= st'.objects
    && (forall i :: 0 <= i < |st.frames| ==> st'.frames[i].parent == st.frames[i].parent)
  }

  lemma ExtendsValue(st: Store, st': Store, v: Value)
    requires Extends(st, st') && ValidValue(v, st)
    ensures ValidValue(v, st')
  {
  }

  /** The store at program start: the global environment alone. */
  const InitialStore := Store([Frame(GlobalRecord, None)], 0)
  const GlobalEnv: EnvId := 0

  lemma InitialStoreValid()
    ensures Valid(InitialStore) && GlobalEnv < |InitialStore.frames|
  {
  }

  /** `new Environment(record, parent)`. */
  function Alloc(st: Store, record: map<string, Value>, parent: Option<EnvId>): (r: (Store, EnvId))
    requires Valid(st)
    requires parent.Some? ==> parent.value < |st.frames|
    requires forall n :: n in record ==> ValidValue(record[n], st)
    ensures Valid(r.0) && Extends(st, r.0)
    ensures r.1 == |st.frames| && |r.0.frames| == |st.frames| + 1
    ensures r.0.frames[r.1] == Frame(record, parent) && r.0.frames[..r.1] == st.frames
    ensures r.0.objects == st.objects
  {
    var st' := st.(frames := st.frames + [Frame(record, parent)]);
    assert Valid(st') by {
      forall i, n | 0 <= i < |st'.frames| && n in st'.frames[i].record
        ensures ValidValue(st'.frames[i].record[n], st')
      {
        if i < |st.frames| {
          assert st'.frames[i] == st.frames[i];
          assert ValidValue(st.frames[i].record[n], st);
        } else {
          assert ValidValue(record[n], st);
        }
      }
    }
    (st', |st.frames|)
  }

  /** The environments met walking up the parent links from `id`, `id`
      first and the global environment last. */
  function Ancestry(st: Store, id: EnvId): (line: seq<EnvId>)
    requires Valid(st) && id < |st.frames|
    ensures |line| > 0 && line[0] == id
    ensures forall k :: 0 < k < |line| ==> line[k] < id
    ensures forall i, j :: 0 <= i < j < |line| ==> line[j] < line[i]
    decreases id
  {
    match st.frames[id].parent
    case None => [id]
    case Some(p) => [id] + Ancestry(st, p)
  }

  /** The line follows the parent links: each environment on it is the
      parent of the one before, and the last one has no parent. */
  lemma {:induction false} AncestryFollowsParents(st: Store, id: EnvId)
    requires Valid(st) && id < |st.frames|
    ensures forall k :: 0 <= k < |Ancestry(st, id)| - 1 ==>
      st.frames[Ancestry(st, id)[k]].parent == Some(Ancestry(st, id)[k + 1])
    ensures st.frames[Ancestry(st, id)[|Ancestry(st, id)| - 1]].parent == None
    decreases id
  {
    match st.frames[id].parent
    case None =>
    case Some(p) =>
      AncestryFollowsParents(st, p);
      assert Ancestry(st, id)[1..] == Ancestry(st, p);
  }

  /** The records of `Ancestry(st, id)`: the chain name resolution walks. */
  function ChainOf(st: Store, id: EnvId): (c: seq<map<string, Value>>)
    requires Valid(st) && id < |st.frames|
    ensures |c| == |Ancestry(st, id)|
    ensures forall k :: 0 <= k < |c| ==> c[k] == st.frames[Ancestry(st, id)[k]].record
  {
    var line := Ancestry(st, id);
    seq(|line|, k requires 0 <= k < |line| => st.frames[line[k]].record)
  }

  /** `env.lookup(name)`. */
  function Lookup(st: Store, id: EnvId, name: string): (r: Result<Value>)
    requires Valid(st) && id < |st.frames|
    ensures r.Ok? ==> ValidValue(r.value, st)
  {
    Scope.LookupIn(ChainOf(st, id), name)
  }

  /** `env._resolve(name)`: the nearest environment on the chain whose own
      record has the name. The chain runs from newer to older environments,
      so no environment on it newer than the result owns the name. */
  function Resolve(st: Store, id: EnvId, name: string): (r: Option<EnvId>)
    requires Valid(st) && id < |st.frames|
    ensures r.Some? ==> r.value in Ancestry(st, id) && name in st.frames[r.value].record
    ensures r.Some? ==> forall k :: k in Ancestry(st, id) && r.value < k ==> name !in st.frames[k].record
    ensures r.None? ==> forall k :: k in Ancestry(st, id) ==> name !in st.frames[k].record
  {
    match Scope.Owner(ChainOf(st, id), name)
    case None => None
    case Some(k) =>
      NewerComesFirst(Ancestry(st, id), k);
      Some(Ancestry(st, id)[k])
  }

  /** On a strictly decreasing line, an entry larger than the one at `k`
      stands before position `k`. */
  lemma NewerComesFirst(line: seq<EnvId>, k: nat)
    requires k < |line|
    requires forall i, j :: 0 <= i < j < |line| ==> line[j] < line[i]
    ensures forall j :: 0 <= j < |line| && line[k] < line[j] ==> j < k
  {
  }

  /** Overwrite (or add) a binding in one environment's own record. */
  function Write(st: Store, id: EnvId, name: string, v: Value): (r: Store)
    requires Valid(st) && id < |st.frames| && ValidValue(v, st)
    ensures Valid(r) && Extends(st, r) && |r.frames| == |st.frames| && r.objects == st.objects
    ensures r.frames[id].record == st.frames[id].record[name := v]
    ensures forall i :: 0 <= i < |st.frames| && i != id ==> r.frames[i] == st.frames[i]
  {
    st.(frames := st.frames[id := st.frames[id].(record := st.frames[id].record[name := v])])
  }

  /** `env.define(name, v)`: always into the environment's own record. */
  function Define(st: Store, id: EnvId, name: string, v: Value): Store
    requires Valid(st) && id < |st.frames| && ValidValue(v, st)
  {
    Write(st, id, name, v)
  }

  /** `env.assign(name, v)`: into the nearest owner; a ReferenceError, and
      no change, when there is none. */
  function Assign(st: Store, id: EnvId, name: string, v: Value): (r: Result<Store>)
    requires Valid(st) && id < |st.frames| && ValidValue(v, st)
    ensures r.Ok? ==> Valid(r.value) && Extends(st, r.value)
  {
    match Resolve(st, id, name)
    case None => Err(ReferenceError(name))
    case Some(o) => Ok(Write(st, o, name, v))
  }

  // -----------------------------------------------------------------------
  // How writes and new environments show through name resolution
  // -----------------------------------------------------------------------

  /** Parent links never change once an environment exists, so neither does
      its line of ancestors. */
  lemma {:induction false} AncestryStable(st: Store, st': Store, id: EnvId)
    requires Valid(st) && Valid(st') && Extends(st, st') && id < |st.frames|
    ensures Ancestry(st', id) == Ancestry(st, id)
    decreases id
  {
    match st.frames[id].parent
    case None =>
    case Some(p) => AncestryStable(st, st', p);
  }

  /** A child's chain is its own record in front of its parent's chain. */
  lemma ChainOfChild(st: Store, c: EnvId, p: EnvId)
    requires Valid(st) && c < |st.frames| && st.frames[c].parent == Some(p)
    ensures Ancestry(st, c) == [c] + Ancestry(st, p)
    ensures ChainOf(st, c) == [st.frames[c].record] + ChainOf(st, p)
  {
  }

  /** Creating an environment changes no existing environment's chain. */
  lemma ChainAfterAlloc(st: Store, record: map<string, Value>, parent: Option<EnvId>, id: EnvId)
    requires Valid(st)
    requires parent.Some? ==> parent.value < |st.frames|
    requires forall n :: n in record ==> ValidValue(record[n], st)
    requires id < |st.frames|
    ensures ChainOf(Alloc(st, record, parent).0, id) == ChainOf(st, id)
  {
    var st' := Alloc(st, record, parent).0;
    AncestryStable(st, st', id);
    var line := Ancestry(st, id);
    forall k | 0 <= k < |line|
      ensures st'.frames[line[k]] == st.frames[line[k]]
    {
      assert st'.frames[..|st.frames|][line[k]] == st.frames[line[k]];
    }
  }

  /** `new Environment(record, parent)`: looking a name up in the new
      environment finds it in `record` if it is there, and otherwise in the
      parent as it is now. */
  lemma ChainOfNew(st: Store, record: map<string, Value>, p: EnvId)
    requires Valid(st) && p < |st.frames|
    requires forall n :: n in record ==> ValidValue(record[n], st)
    ensures var (st', e) := Alloc(st, record, Some(p));
      ChainOf(st', e) == [record] + ChainOf(st, p)
  {
    var (st', e) := Alloc(st, record, Some(p));
    ChainOfChild(st', e, p);
    ChainAfterAlloc(st, record, Some(p), p);
  }

  /** A write into environment `w` changes, on the chain of `id`, exactly the
      record of `w` if `w` is on `id`'s line, and nothing otherwise. */
  lemma ChainAfterWrite(st: Store, w: EnvId, name: string, v: Value, id: EnvId)
    requires Valid(st) && w < |st.frames| && ValidValue(v, st) && id < |st.frames|
    ensures |ChainOf(Write(st, w, name, v), id)| == |ChainOf(st, id)|
    ensures forall k :: 0 <= k < |ChainOf(st, id)| ==>
      ChainOf(Write(st, w, name, v), id)[k] ==
        if Ancestry(st, id)[k] == w then ChainOf(st, id)[k][name := v] else ChainOf(st, id)[k]
  {
    AncestryStable(st, Write(st, w, name, v), id);
  }

  /** After `define` in `id`, looking the name up from `id` yields the value,
      and every other name resolves as before. */
  lemma LookupAfterDefine(st: Store, id: EnvId, name: string, v: Value, other: string)
    requires Valid(st) && id < |st.frames| && ValidValue(v, st)
    ensures Lookup(Define(st, id, name, v), id, name) == Ok(v)
    ensures other != name ==> Lookup(Define(st, id, name, v), id, other) == Lookup(st, id, other)
  {
    var c := ChainOf(st, id);
    ChainAfterWrite(st, id, name, v, id);
    assert ChainOf(Define(st, id, name, v), id) == c[0 := c[0][name := v]];
    Scope.LookupAfterDefine(c, name, v, other);
  }

  /** A write into an environment that is not on `id`'s line is invisible
      from `id`: whatever a child binds in its own record never reaches its
      parent. */
  lemma WriteOffLineInvisible(st: Store, w: EnvId, name: string, v: Value, id: EnvId, other: string)
    requires Valid(st) && w < |st.frames| && ValidValue(v, st) && id < |st.frames|
    requires w !in Ancestry(st, id)
    ensures Lookup(Write(st, w, name, v), id, other) == Lookup(st, id, other)
  {
    ChainAfterWrite(st, w, name, v, id);
    assert ChainOf(Write(st, w, name, v), id) == ChainOf(st, id);
  }

  /** `assign` on the store is the resolution rule's assignment on the chain
      of `id`: it fails with a ReferenceError exactly when the rule does, and
      otherwise leaves exactly the chain the rule describes. */
  lemma AssignAgreesWithScope(st: Store, id: EnvId, name: string, v: Value)
    requires Valid(st) && id < |st.frames| && ValidValue(v, st)
    ensures Assign(st, id, name, v).Err? <==> Scope.AssignIn(ChainOf(st, id), name, v).Err?
    ensures Assign(st, id, name, v).Err? ==> Assign(st, id, name, v).error == ReferenceError(name)
    ensures Assign(st, id, name, v).Ok? ==>
      ChainOf(Assign(st, id, name, v).value, id) == Scope.AssignIn(ChainOf(st, id), name, v).value
  {
    var c := ChainOf(st, id);
    match Scope.Owner(c, name)
    case None =>
    case Some(k) => AssignWritesOwner(st, id, name, v, k);
  }

  /** With the nearest owner at position k of the chain, `assign` writes the
      environment at that position and the chain changes there only. */
  lemma AssignWritesOwner(st: Store, id: EnvId, name: string, v: Value, k: nat)
    requires Valid(st) && id < |st.frames| && ValidValue(v, st)
    requires Scope.Owner(ChainOf(st, id), name) == Some(k)
    ensures Assign(st, id, name, v).Ok?
    ensures ChainOf(Assign(st, id, name, v).value, id) == ChainOf(st, id)[k := ChainOf(st, id)[k][name := v]]
  {
    var line := Ancestry(st, id);
    assert Assign(st, id, name, v) == Ok(Write(st, line[k], name, v));
    ChainAfterWrite(st, line[k], name, v, id);
    UpdateAtOnePosition(ChainOf(st, id), ChainOf(Write(st, line[k], name, v), id), line, k, name, v);
  }

  /** A line of distinct environments meets the written one at one position
      only, so the chain changes at that position alone. */
  lemma UpdateAtOnePosition(c: seq<map<string, Value>>, c': seq<map<string, Value>>, line: seq<EnvId>, k: nat, name: string, v: Value)
    requires |c| == |line| == |c'| && k < |line|
    requires forall i, j :: 0 <= i < j < |line| ==> line[j] < line[i]
    requires forall j :: 0 <= j < |c| ==> c'[j] == if line[j] == line[k] then c[j][name := v] else c[j]
    ensures c' == c[k := c[k][name := v]]
  {
    forall j | 0 <= j < |c|
      ensures c'[j] == c[k := c[k][name := v]][j]
    {
      if j < k {
        assert line[k] < line[j];
      } else if k < j {
        assert line[j] < line[k];
      }
    }
  }

  /** After a successful `assign` a lookup from the same environment yields
      the new value, and lookups of other names are unchanged. */
  lemma LookupAfterAssign(st: Store, id: EnvId, name: string, v: Value, other: string)
    requires Valid(st) && id < |st.frames| && ValidValue(v, st)
    requires Assign(st, id, name, v).Ok?
    ensures Lookup(Assign(st, id, name, v).value, id, name) == Ok(v)
    ensures other != name ==> Lookup(Assign(st, id, name, v).value, id, other) == Lookup(st, id, other)
  {
    AssignAgreesWithScope(st, id, name, v);
    Scope.LookupAfterAssign(ChainOf(st, id), name, v, other);
  }

  /** Assignment succeeds exactly when lookup does. */
  lemma AssignOkIffBound(st: Store, id: EnvId, name: string, v: Value)
    requires Valid(st) && id < |st.frames| && ValidValue(v, st)
    ensures Assign(st, id, name, v).Ok? <==> Lookup(st, id, name).Ok?
  {
    AssignAgreesWithScope(st, id, name, v);
    Scope.AssignKeepsKeys(ChainOf(st, id), name, v);
  }

  /** A child that does not own a name passes both lookup and assignment of
      it on to its parent. */
  lemma ThroughChild(st: Store, c: EnvId, p: EnvId, name: string, v: Value)
    requires Valid(st) && c < |st.frames| && st.frames[c].parent == Some(p)
    requires name !in st.frames[c].record && ValidValue(v, st)
    ensures Lookup(st, c, name) == Lookup(st, p, name)
    ensures Assign(st, c, name, v) == Assign(st, p, name, v)
  {
    ChainOfChild(st, c, p);
    Scope.LookupThroughNonOwner(ChainOf(st, c), name);
    assert ChainOf(st, c)[1..] == ChainOf(st, p);
  }
}
