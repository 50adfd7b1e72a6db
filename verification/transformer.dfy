/** The desugaring rewrites of transform/Transformer.js. Each takes the
    elements of the sugar form (tag first) and builds the core form that the
    evaluator then evaluates in its place. */
module Transformer {
  import opened Results
  import opened Syntax

  const ElseTag := Atom("else")

  /** The node `switch` starts from: `['if', null, null, null]`. */
  const EmptyIf := List([Atom("if"), Null, Null, Null])

  /** `(def name params body)` becomes `(var name (lambda params body))`. */
  function TransformDefToVarLambda(defExp: seq<Expr>): Expr
  {
    List([Atom("var"), Nth(defExp, 1), List([Atom("lambda"), Nth(defExp, 2), Nth(defExp, 3)])])
  }

  /** `(-- name)` becomes `(set name (- name 1))`. */
  function TransformDecToSet(decExp: seq<Expr>): Expr
  {
    List([Atom("set"), Nth(decExp, 1), List([Atom("-"), Nth(decExp, 1), Num(1)])])
  }

  /** `(++ name)` becomes `(set name (+ name 1))`. */
  function TransformIncToSet(incExp: seq<Expr>): Expr
  {
    List([Atom("set"), Nth(incExp, 1), List([Atom("+"), Nth(incExp, 1), Num(1)])])
  }

  /** The body expressions of a `for`: everything after its fourth element. */
  function ForBody(forExp: seq<Expr>): seq<Expr>
  {
    if |forExp| > 4 then forExp[4..] else []
  }

  /** `(for decl cond mut b1 .. bk)` becomes
      `(begin decl (while cond (begin b1 .. bk mut)))`. */
  function TransformForToWhile(forExp: seq<Expr>): Expr
  {
    List([Atom("begin"), Nth(forExp, 1),
          List([Atom("while"), Nth(forExp, 2),
                List([Atom("begin")] + ForBody(forExp) + [Nth(forExp, 3)])])])
  }

  /** The `def` rewrite loses nothing: two four-item `def` forms rewrite to
      the same `var` form exactly when they are the same form. */
  lemma DefRewriteInjective(d1: seq<Expr>, d2: seq<Expr>)
    requires |d1| == 4 && |d2| == 4 && d1[0] == d2[0]
    ensures TransformDefToVarLambda(d1) == TransformDefToVarLambda(d2) <==> d1 == d2
  {
    if TransformDefToVarLambda(d1) == TransformDefToVarLambda(d2) {
      assert d1[1] == d2[1];
      assert d1[2] == d2[2] && d1[3] == d2[3];
      assert d1 == [d1[0], d1[1], d1[2], d1[3]];
      assert d2 == [d2[0], d2[1], d2[2], d2[3]];
    }
  }

  /** `--` and `++` rewrite a name to an update of that same name, never to
      each other's update, and distinct names to distinct updates. */
  lemma StepRewritesDistinct(e1: seq<Expr>, e2: seq<Expr>)
    requires |e1| == 2 && |e2| == 2
    ensures TransformDecToSet(e1) != TransformIncToSet(e2)
    ensures TransformDecToSet(e1) == TransformDecToSet(e2) <==> e1[1] == e2[1]
    ensures TransformIncToSet(e1) == TransformIncToSet(e2) <==> e1[1] == e2[1]
  {
    assert TransformDecToSet(e1).items[2].items[0] == Atom("-");
    assert TransformIncToSet(e2).items[2].items[0] == Atom("+");
  }

  /** The `for` rewrite loses nothing: the declaration, the condition, the
      mutation step and every body expression can be read back from it, so
      two `for` forms rewrite alike exactly when they are the same form. The
      mutation step is the last expression of the loop body. */
  lemma ForRewriteInjective(f1: seq<Expr>, f2: seq<Expr>)
    requires |f1| >= 4 && |f2| >= 4 && f1[0] == f2[0]
    ensures TransformForToWhile(f1).items[2].items[2].items[|f1| - 3] == f1[3]
    ensures TransformForToWhile(f1) == TransformForToWhile(f2) <==> f1 == f2
  {
    var b1 := [Atom("begin")] + ForBody(f1) + [f1[3]];
    var b2 := [Atom("begin")] + ForBody(f2) + [f2[3]];
    assert ForBody(f1) == f1[4..] && ForBody(f2) == f2[4..];
    if TransformForToWhile(f1) == TransformForToWhile(f2) {
      assert b1 == b2;
      assert |f1| == |f2|;
      assert f1[3] == b1[|b1| - 1] == b2[|b2| - 1] == f2[3];
      assert f1[4..] == b1[1..|b1| - 1] == b2[1..|b2| - 1] == f2[4..];
      assert f1[1] == f2[1] && f1[2] == f2[2];
      assert f1 == f1[..4] + f1[4..] && f2 == f2[..4] + f2[4..];
      assert f1[..4] == [f1[0], f1[1], f1[2], f1[3]] && f2[..4] == [f2[0], f2[1], f2[2], f2[3]];
    }
  }

  // -----------------------------------------------------------------------
  // switch
  // -----------------------------------------------------------------------

  /** `const [a, b] = x`: an array yields its first two slots, a string its
      first two characters; a number, null or undefined is not iterable. */
  function Pair(x: Expr): Result<(Expr, Expr)>
  {
    match x
    case List(items) => Ok((Nth(items, 0), Nth(items, 1)))
    case Atom(s) =>
      Ok((if |s| > 0 then Atom([s[0]]) else Undefined, if |s| > 1 then Atom([s[1]]) else Undefined))
    case _ => Err(TypeError)
  }

  /** The final value of the node the cursor reaches at pass `i` of the loop,
      when that node was `cur`. A pass that is not the last writes case i's
      condition and block into slots 1 and 2, and into slot 3 either the
      next case's block (when its condition is `else`) or a fresh `['if']`
      node, which the cursor then moves to. Writing a slot of a value that is
      not an array throws (class bodies are strict code). */
  function SwitchFrom(cases: seq<Expr>, i: nat, cur: Expr): Result<Expr>
    requires i < |cases|
    decreases |cases| - i
  {
    if i == |cases| - 1 then Ok(cur)
    else
      var p :- Pair(cases[i]);
      var q :- Pair(cases[i + 1]);
      if !cur.List? then Err(TypeError)
      else
        var next := if q.0 == ElseTag then q.1 else List([Atom("if")]);
        var child :- SwitchFrom(cases, i + 1, next);
        Ok(List(SetAt(SetAt(SetAt(cur.items, 1, p.0), 2, p.1), 3, child)))
  }

  function TransformSwitchToIf(switchExp: seq<Expr>): Result<Expr>
  {
    var cases := if |switchExp| > 0 then switchExp[1..] else [];
    if |cases| == 0 then Ok(EmptyIf) else SwitchFrom(cases, 0, EmptyIf)
  }

  /** The nodes above the cursor, outermost first, each still waiting for its
      slot 3, closed around the node at the cursor. */
  function Plug(above: seq<seq<Expr>>, e: Expr): Expr
    decreases |above|
  {
    if |above| == 0 then e
    else Plug(above[..|above| - 1], List(SetAt(above[|above| - 1], 3, e)))
  }

  function PlugResult(above: seq<seq<Expr>>, r: Result<Expr>): Result<Expr>
  {
    match r
    case Err(e) => Err(e)
    case Ok(e) => Ok(Plug(above, e))
  }

  /** `transformSwitchToIf`: the loop that advances a cursor through the
      `if` nodes it builds and fills them in place. The JavaScript nodes are
      linked by reference as they are written; here the nodes the cursor has
      left are kept in `above` and closed together when the loop ends. */
  method SwitchToIf(switchExp: seq<Expr>) returns (r: Result<Expr>)
    ensures r == TransformSwitchToIf(switchExp)
  {
    var cases := if |switchExp| > 0 then switchExp[1..] else [];
    var current := EmptyIf;
    var above: seq<seq<Expr>> := [];
    var i := 0;
    while i < |cases| - 1
      invariant 0 <= i <= |cases|
      invariant |cases| == 0 ==> above == [] && current == EmptyIf
      invariant |cases| > 0 ==> i < |cases|
      invariant |cases| > 0 ==>
        TransformSwitchToIf(switchExp) == PlugResult(above, SwitchFrom(cases, i, current))
    {
      var p :- Pair(cases[i]);
      if !current.List? {
        return Err(TypeError);
      }
      var written := SetAt(SetAt(current.items, 1, p.0), 2, p.1);
      var q :- Pair(cases[i + 1]);
      var next := if q.0 == ElseTag then q.1 else List([Atom("if")]);
      SwitchPass(cases, i, current, above);
      above := above + [written];
      current := next;
      i := i + 1;
    }
    r := Ok(Plug(above, current));
  }

  /** A pass of the loop that does not fail: the node at the cursor, with
      slots 1 and 2 written, joins the nodes above it and the cursor moves to
      its slot-3 child. */
  lemma SwitchPass(cases: seq<Expr>, i: nat, cur: Expr, above: seq<seq<Expr>>)
    requires i + 1 < |cases| && cur.List?
    requires Pair(cases[i]).Ok? && Pair(cases[i + 1]).Ok?
    ensures var p, q := Pair(cases[i]).value, Pair(cases[i + 1]).value;
      PlugResult(above, SwitchFrom(cases, i, cur)) ==
        PlugResult(above + [SetAt(SetAt(cur.items, 1, p.0), 2, p.1)],
                   SwitchFrom(cases, i + 1, if q.0 == ElseTag then q.1 else List([Atom("if")])))
  {
    var p := Pair(cases[i]).value;
    assert (above + [SetAt(SetAt(cur.items, 1, p.0), 2, p.1)])[..|above|] == above;
  }

  /** The right-nested chain `(if c1 b1 (if c2 b2 ... elseBlock))`. */
  function IfChain(conds: seq<Expr>, blocks: seq<Expr>, elseBlock: Expr): Expr
    requires |conds| == |blocks|
    decreases |conds|
  {
    if |conds| == 0 then elseBlock
    else List([Atom("if"), conds[0], blocks[0], IfChain(conds[1..], blocks[1..], elseBlock)])
  }

  /** The cases `(c1 b1) .. (ck bk) (else elseBlock)`. */
  function Cases(conds: seq<Expr>, blocks: seq<Expr>, elseBlock: Expr): (cases: seq<Expr>)
    requires |conds| == |blocks|
    ensures |cases| == |conds| + 1
  {
    seq(|conds|, j requires 0 <= j < |conds| => List([conds[j], blocks[j]])) + [List([ElseTag, elseBlock])]
  }

  /** Filling slots 1 to 3 of a node the loop created. */
  lemma FillIf(cur: Expr, c: Expr, b: Expr, child: Expr)
    requires cur == EmptyIf || cur == List([Atom("if")])
    ensures SetAt(SetAt(SetAt(cur.items, 1, c), 2, b), 3, child) == [Atom("if"), c, b, child]
  {
  }

  lemma {:induction false} SwitchFromIsChain(conds: seq<Expr>, blocks: seq<Expr>, elseBlock: Expr, i: nat, cur: Expr)
    requires |conds| == |blocks| && i < |conds|
    requires forall j :: 1 <= j < |conds| ==> conds[j] != ElseTag
    requires cur == EmptyIf || cur == List([Atom("if")])
    ensures SwitchFrom(Cases(conds, blocks, elseBlock), i, cur) == Ok(IfChain(conds[i..], blocks[i..], elseBlock))
    decreases |conds| - i
  {
    var cases := Cases(conds, blocks, elseBlock);
    assert Pair(cases[i]) == Ok((conds[i], blocks[i]));
    assert conds[i..][1..] == conds[i + 1..];
    assert blocks[i..][1..] == blocks[i + 1..];
    if i + 1 < |conds| {
      assert Pair(cases[i + 1]) == Ok((conds[i + 1], blocks[i + 1]));
      SwitchFromIsChain(conds, blocks, elseBlock, i + 1, List([Atom("if")]));
      FillIf(cur, conds[i], blocks[i], IfChain(conds[i + 1..], blocks[i + 1..], elseBlock));
    } else {
      assert Pair(cases[i + 1]) == Ok((ElseTag, elseBlock));
      assert SwitchFrom(cases, i + 1, elseBlock) == Ok(elseBlock);
      FillIf(cur, conds[i], blocks[i], elseBlock);
    }
  }

  /** With the `else` case last, `switch` yields the right-nested `if`
      chain: the i-th `if` holds case i's condition and block unchanged, and
      the `else` block is the deepest alternate. */
  lemma SwitchElseLast(tag: Expr, conds: seq<Expr>, blocks: seq<Expr>, elseBlock: Expr)
    requires |conds| == |blocks| && |conds| > 0
    requires forall j :: 1 <= j < |conds| ==> conds[j] != ElseTag
    ensures TransformSwitchToIf([tag] + Cases(conds, blocks, elseBlock)) == Ok(IfChain(conds, blocks, elseBlock))
  {
    assert ([tag] + Cases(conds, blocks, elseBlock))[1..] == Cases(conds, blocks, elseBlock);
    SwitchFromIsChain(conds, blocks, elseBlock, 0, EmptyIf);
    assert conds[0..] == conds && blocks[0..] == blocks;
  }

  /** With a single case (or none) the loop never runs: the result is the
      untouched `['if', null, null, null]`. */
  lemma SwitchSingleCase(switchExp: seq<Expr>)
    requires |switchExp| <= 2
    ensures TransformSwitchToIf(switchExp) == Ok(EmptyIf)
  {
  }
}
