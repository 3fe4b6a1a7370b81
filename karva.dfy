/**
 * The Karva (head/tail) expression of expbuilder/utils/karva.py: a token list read in prefix order
 * into a tree. The head may hold operators and terminals, the tail terminals only; the tail is long
 * enough that the builder never runs out of tokens.
 */
module Karva {

  import opened Wrappers
  import opened Text
  import opened Literals
  import opened RPN

  /**
   * Exceptions: `max()` of no arities, `IndexError` of the cursor, an unsupported token or unbound
   * variable, and `in None` when `evaluate_tree` is given no variables.
   */
  datatype KarvaError = EmptyOps | IndexOutOfRange | UnsupportedNode(token: Item) | NoVariables

  /** `token in self.ops`: only string tokens can be operator keys. */
  predicate IsOperator<V>(token: Item, ops: map<string, OpEntry<V>>) {
    token.Str? && token.s in ops
  }

  /** The number of children the builder gives a token: the arity of an operator, none for a terminal. */
  function ArityOf<V>(token: Item, ops: map<string, OpEntry<V>>): nat {
    if IsOperator(token, ops) then ops[token.s].arity else 0
  }

  /** `head_length * (max_arity - 1) + 1` */
  function TailLength(h: nat, maxArity: nat): int {
    h * (maxArity - 1) + 1
  }

  // ---------------------------------------------------------------------------------------------
  // validate_expression

  /** `m` is `max(arity for _, (_, arity) in ops.items())`. */
  ghost predicate IsMaxArity<V>(ops: map<string, OpEntry<V>>, m: nat) {
    (exists k :: k in ops && ops[k].arity == m) && forall k :: k in ops ==> ops[k].arity <= m
  }

  /** The largest arity in a non-empty table. */
  ghost function MaxArity<V>(ops: map<string, OpEntry<V>>): (m: nat)
    requires |ops| > 0
    ensures IsMaxArity(ops, m)
    decreases |ops|
  {
    var k :| k in ops;
    var rest := ops - {k};
    assert forall j :: j in ops ==> j == k || j in rest;
    if |rest| == 0 then
      ops[k].arity
    else
      var m := MaxArity(rest);
      if ops[k].arity > m then ops[k].arity else m
  }

  /** The maximum is unique: whatever satisfies the definition is `MaxArity`. */
  lemma MaxArityUnique<V>(ops: map<string, OpEntry<V>>, m: nat)
    requires |ops| > 0 && IsMaxArity(ops, m)
    ensures m == MaxArity(ops)
  {
    var k :| k in ops && ops[k].arity == m;
    var j :| j in ops && ops[j].arity == MaxArity(ops);
  }

  /** The tokens from index `h` on hold no operator. */
  ghost predicate TailTerminal<V>(expr: seq<Item>, ops: map<string, OpEntry<V>>, h: nat) {
    forall i :: h <= i < |expr| ==> !IsOperator(expr[i], ops)
  }

  /**
   * What `validate_expression` returns: too short for the head is False, an empty operator table
   * raises, shorter than head plus tail is False, and otherwise True exactly when the tail is free of
   * operators.
   */
  ghost function Validation<V>(expr: seq<Item>, ops: map<string, OpEntry<V>>, h: nat): Result<bool, KarvaError> {
    if |expr| <= h then Ok(false)
    else if |ops| == 0 then Err(EmptyOps)
    else Ok(|expr| >= h + TailLength(h, MaxArity(ops)) && TailTerminal(expr, ops, h))
  }

  /** `KEBase.validate_expression`: the length tests, the arity maximum, then the scan of the tail. */
  method ValidateExpression<V>(expr: seq<Item>, ops: map<string, OpEntry<V>>, h: nat) returns (r: Result<bool, KarvaError>)
    ensures r == Validation(expr, ops, h)
  {
    if |expr| <= h {
      return Ok(false);
    }
    if |ops| == 0 {
      return Err(EmptyOps);
    }
    var maxArity := MaxArityOf(ops);
    var tailLength := TailLength(h, maxArity);
    if |expr| < h + tailLength {
      return Ok(false);
    }
    var i := h;
    while i < |expr|
      invariant h <= i <= |expr|
      invariant forall j :: h <= j < i ==> !IsOperator(expr[j], ops)
    {
      if expr[i].Str? && expr[i].s in ops {
        return Ok(false);
      }
      i := i + 1;
    }
    return Ok(true);
  }

  /** `max(arity for _, (_, arity) in ops.items())`, one key at a time. */
  method MaxArityOf<V>(ops: map<string, OpEntry<V>>) returns (m: nat)
    requires |ops| > 0
    ensures m == MaxArity(ops)
  {
    var remaining := ops.Keys;
    var first :| first in remaining;
    m := ops[first].arity;
    remaining := remaining - {first};
    while remaining != {}
      invariant remaining <= ops.Keys
      invariant exists k :: k in ops && ops[k].arity == m
      invariant forall k :: k in ops && k !in remaining ==> ops[k].arity <= m
      decreases |remaining|
    {
      var k :| k in remaining;
      if ops[k].arity > m {
        m := ops[k].arity;
      }
      remaining := remaining - {k};
    }
    MaxArityUnique(ops, m);
  }

  // ---------------------------------------------------------------------------------------------
  // build_tree

  /**
   * `build_subtree()` with the cursor at `idx`: the subtree of the token there and the cursor after
   * it. An operator takes `arity` subtrees from the following tokens, anything else is a leaf, and
   * a cursor past the end raises `IndexError`.
   */
  function BuildSubtree<V>(expr: seq<Item>, ops: map<string, OpEntry<V>>, idx: nat): (r: Result<(Tree, nat), KarvaError>)
    requires idx <= |expr|
    ensures r.Ok? ==> idx < r.value.1 <= |expr|
    decreases |expr| - idx, 0, 0
  {
    if idx == |expr| then Err(IndexOutOfRange)
    else
      var token := expr[idx];
      if IsOperator(token, ops) then
        match BuildChildren(expr, ops, idx + 1, ops[token.s].arity)
        case Ok(p) => Ok((Node(token, p.0), p.1))
        case Err(e) => Err(e)
      else Ok((Node(token, []), idx + 1))
  }

  /** The `for _ in range(k)` loop of `build_subtree`: `k` successive subtrees from cursor `j`. */
  function BuildChildren<V>(expr: seq<Item>, ops: map<string, OpEntry<V>>, j: nat, k: nat): (r: Result<(seq<Tree>, nat), KarvaError>)
    requires j <= |expr|
    ensures r.Ok? ==> j <= r.value.1 <= |expr| && |r.value.0| == k
    decreases |expr| - j, 1, k
  {
    if k == 0 then Ok(([], j))
    else
      match BuildSubtree(expr, ops, j)
      case Err(e) => Err(e)
      case Ok(p) =>
        match BuildChildren(expr, ops, p.1, k - 1)
        case Ok(q) => Ok(([p.0] + q.0, q.1))
        case Err(e) => Err(e)
  }

  /** Children already built in front of the result of building the rest. */
  function Prepend(cs: seq<Tree>, r: Result<(seq<Tree>, nat), KarvaError>): Result<(seq<Tree>, nat), KarvaError> {
    match r
    case Ok(q) => Ok((cs + q.0, q.1))
    case Err(e) => Err(e)
  }

  lemma PrependNil(r: Result<(seq<Tree>, nat), KarvaError>)
    ensures Prepend([], r) == r
  {
    if r.Ok? {
      assert [] + r.value.0 == r.value.0;
    }
  }

  lemma PrependTwice(a: seq<Tree>, b: seq<Tree>, r: Result<(seq<Tree>, nat), KarvaError>)
    ensures Prepend(a, Prepend(b, r)) == Prepend(a + b, r)
  {
    if r.Ok? {
      assert a + (b + r.value.0) == (a + b) + r.value.0;
    }
  }

  /** `build_subtree`: reads the token under the cursor, advances it, and adds `arity` children in turn. */
  method BuildSubtreeAt<V>(expr: seq<Item>, ops: map<string, OpEntry<V>>, idx: nat) returns (r: Result<(Tree, nat), KarvaError>)
    requires idx <= |expr|
    ensures r == BuildSubtree(expr, ops, idx)
    decreases |expr| - idx
  {
    if idx == |expr| {
      return Err(IndexOutOfRange);
    }
    var token := expr[idx];
    var cursor := idx + 1;
    var children: seq<Tree> := [];
    if token.Str? && token.s in ops {
      var arity := ops[token.s].arity;
      var n := 0;
      PrependNil(BuildChildren(expr, ops, cursor, arity));
      while n < arity
        invariant 0 <= n <= arity
        invariant idx < cursor <= |expr|
        invariant BuildChildren(expr, ops, idx + 1, arity) == Prepend(children, BuildChildren(expr, ops, cursor, arity - n))
        decreases arity - n
      {
        var child := BuildSubtreeAt(expr, ops, cursor);
        if child.Err? {
          return Err(child.error);
        }
        var rest := BuildChildren(expr, ops, child.value.1, arity - n - 1);
        assert BuildChildren(expr, ops, cursor, arity - n) == Prepend([child.value.0], rest);
        PrependTwice(children, [child.value.0], rest);
        children := children + [child.value.0];
        cursor := child.value.1;
        n := n + 1;
      }
      assert children + [] == children;
    }
    return Ok((Node(token, children), cursor));
  }

  /** `build_tree()`: the subtree at cursor 0. Tokens after the first complete tree are ignored. */
  method BuildTree<V>(expr: seq<Item>, ops: map<string, OpEntry<V>>) returns (r: Result<Tree, KarvaError>)
    ensures r.Ok? <==> BuildSubtree(expr, ops, 0).Ok?
    ensures r.Ok? ==> r.value == BuildSubtree(expr, ops, 0).value.0
    ensures r.Err? ==> r.error == BuildSubtree(expr, ops, 0).error
  {
    var p := BuildSubtreeAt(expr, ops, 0);
    r := if p.Ok? then Ok(p.value.0) else Err(p.error);
  }

  // ---------------------------------------------------------------------------------------------
  // The shape of what build_tree builds

  /** The tokens of a tree in prefix order: the node, then its subtrees left to right. */
  function Preorder(t: Tree): seq<Item>
    decreases t
  {
    [t.value] + PreorderAll(t.children)
  }

  function PreorderAll(cs: seq<Tree>): seq<Item>
    decreases cs
  {
    if |cs| == 0 then [] else Preorder(cs[0]) + PreorderAll(cs[1..])
  }

  /** Every operator node has exactly `arity` children and every other node is a leaf. */
  predicate WellShaped<V>(t: Tree, ops: map<string, OpEntry<V>>)
    decreases t
  {
    |t.children| == ArityOf(t.value, ops) && AllWellShaped(t.children, ops)
  }

  predicate AllWellShaped<V>(cs: seq<Tree>, ops: map<string, OpEntry<V>>)
    decreases cs
  {
    |cs| == 0 || (WellShaped(cs[0], ops) && AllWellShaped(cs[1..], ops))
  }

  /** The number of nodes. */
  function Size(t: Tree): nat
    decreases t
  {
    1 + SizeAll(t.children)
  }

  function SizeAll(cs: seq<Tree>): nat
    decreases cs
  {
    if |cs| == 0 then 0 else Size(cs[0]) + SizeAll(cs[1..])
  }

  /** The sum of the arities of the operators among the tokens. */
  function SumArity<V>(s: seq<Item>, ops: map<string, OpEntry<V>>): nat {
    if |s| == 0 then 0 else ArityOf(s[0], ops) + SumArity(s[1..], ops)
  }

  lemma {:induction false} SumArityAppend<V>(a: seq<Item>, b: seq<Item>, ops: map<string, OpEntry<V>>)
    ensures SumArity(a + b, ops) == SumArity(a, ops) + SumArity(b, ops)
  {
    if |a| > 0 {
      assert (a + b)[1..] == a[1..] + b;
      SumArityAppend(a[1..], b, ops);
    } else {
      assert a + b == b;
    }
  }

  /**
   * What `build_subtree` returns spells out, in prefix order, exactly the tokens from `idx` to the
   * returned cursor, and every operator node got exactly `arity` children.
   */
  lemma {:induction false} SubtreeShape<V>(expr: seq<Item>, ops: map<string, OpEntry<V>>, idx: nat)
    requires idx <= |expr| && BuildSubtree(expr, ops, idx).Ok?
    ensures var p := BuildSubtree(expr, ops, idx).value;
      Preorder(p.0) == expr[idx..p.1] && WellShaped(p.0, ops)
    decreases |expr| - idx, 0, 0
  {
    var token := expr[idx];
    if IsOperator(token, ops) {
      ChildrenShape(expr, ops, idx + 1, ops[token.s].arity);
      var q := BuildChildren(expr, ops, idx + 1, ops[token.s].arity).value;
      assert [expr[idx]] + expr[idx + 1..q.1] == expr[idx..q.1];
    } else {
      assert expr[idx..idx + 1] == [token];
      assert PreorderAll([]) == [];
    }
  }

  lemma {:induction false} ChildrenShape<V>(expr: seq<Item>, ops: map<string, OpEntry<V>>, j: nat, k: nat)
    requires j <= |expr| && BuildChildren(expr, ops, j, k).Ok?
    ensures var q := BuildChildren(expr, ops, j, k).value;
      PreorderAll(q.0) == expr[j..q.1] && AllWellShaped(q.0, ops)
    decreases |expr| - j, 1, k
  {
    if k == 0 {
      assert expr[j..j] == [];
    } else {
      var p := BuildSubtree(expr, ops, j).value;
      SubtreeShape(expr, ops, j);
      ChildrenShape(expr, ops, p.1, k - 1);
      var q := BuildChildren(expr, ops, p.1, k - 1).value;
      var cs := [p.0] + q.0;
      assert cs[0] == p.0 && cs[1..] == q.0;
      assert expr[j..p.1] + expr[p.1..q.1] == expr[j..q.1];
    }
  }

  /** In a well-shaped tree the nodes are the prefix-order tokens, one more than the sum of their arities. */
  lemma {:induction false} NodeCount<V>(t: Tree, ops: map<string, OpEntry<V>>)
    requires WellShaped(t, ops)
    ensures |Preorder(t)| == Size(t) == 1 + SumArity(Preorder(t), ops)
    decreases t
  {
    NodeCountAll(t.children, ops);
    assert Preorder(t)[0] == t.value && Preorder(t)[1..] == PreorderAll(t.children);
  }

  lemma {:induction false} NodeCountAll<V>(cs: seq<Tree>, ops: map<string, OpEntry<V>>)
    requires AllWellShaped(cs, ops)
    ensures |PreorderAll(cs)| == SizeAll(cs) == |cs| + SumArity(PreorderAll(cs), ops)
    decreases cs
  {
    if |cs| > 0 {
      NodeCount(cs[0], ops);
      NodeCountAll(cs[1..], ops);
      SumArityAppend(Preorder(cs[0]), PreorderAll(cs[1..]), ops);
    }
  }

  /**
   * The tree `build_subtree` returns has one node per token it consumed, and it consumed one token
   * more than the sum of the arities of the operators among them.
   */
  lemma ConsumedTokens<V>(expr: seq<Item>, ops: map<string, OpEntry<V>>, idx: nat)
    requires idx <= |expr| && BuildSubtree(expr, ops, idx).Ok?
    ensures var p := BuildSubtree(expr, ops, idx).value;
      Size(p.0) == p.1 - idx == 1 + SumArity(expr[idx..p.1], ops)
  {
    SubtreeShape(expr, ops, idx);
    NodeCount(BuildSubtree(expr, ops, idx).value.0, ops);
  }

  /**
   * Building inverts the prefix-order listing: from the tokens of a well-shaped tree the builder
   * rebuilds that tree and stops right after them, whatever follows.
   */
  lemma {:induction false} BuildFromPreorder<V>(t: Tree, ops: map<string, OpEntry<V>>, expr: seq<Item>, idx: nat)
    requires WellShaped(t, ops)
    requires idx + |Preorder(t)| <= |expr| && expr[idx..idx + |Preorder(t)|] == Preorder(t)
    ensures BuildSubtree(expr, ops, idx) == Ok((t, idx + |Preorder(t)|))
    decreases t
  {
    var pre := Preorder(t);
    assert expr[idx] == pre[0] == t.value;
    assert expr[idx + 1..idx + |pre|] == pre[1..] == PreorderAll(t.children);
    BuildChildrenFromPreorder(t.children, ops, expr, idx + 1);
    if !IsOperator(t.value, ops) {
      assert t.children == [];
    }
  }

  /** A slice spelling `a + b` splits into a slice spelling `a` followed by one spelling `b`. */
  lemma SliceSplit<T>(s: seq<T>, j: nat, a: seq<T>, b: seq<T>)
    requires j + |a + b| <= |s| && s[j..j + |a + b|] == a + b
    ensures s[j..j + |a|] == a && s[j + |a|..j + |a| + |b|] == b
  {
    forall k | 0 <= k < |a| ensures s[j..j + |a|][k] == a[k] {
      assert s[j + k] == s[j..j + |a + b|][k] == (a + b)[k];
    }
    forall k | 0 <= k < |b| ensures s[j + |a|..j + |a| + |b|][k] == b[k] {
      assert s[j + |a| + k] == s[j..j + |a + b|][|a| + k] == (a + b)[|a| + k];
    }
  }

  lemma {:induction false} BuildChildrenFromPreorder<V>(cs: seq<Tree>, ops: map<string, OpEntry<V>>, expr: seq<Item>, j: nat)
    requires AllWellShaped(cs, ops)
    requires j + |PreorderAll(cs)| <= |expr| && expr[j..j + |PreorderAll(cs)|] == PreorderAll(cs)
    ensures BuildChildren(expr, ops, j, |cs|) == Ok((cs, j + |PreorderAll(cs)|))
    decreases cs
  {
    if |cs| > 0 {
      var first, rest := Preorder(cs[0]), PreorderAll(cs[1..]);
      var n := |first|;
      SliceSplit(expr, j, first, rest);
      BuildFromPreorder(cs[0], ops, expr, j);
      BuildChildrenFromPreorder(cs[1..], ops, expr, j + n);
      assert |cs[1..]| == |cs| - 1 && [cs[0]] + cs[1..] == cs;
      assert j + |PreorderAll(cs)| == j + n + |rest|;
    }
  }

  // ---------------------------------------------------------------------------------------------
  // The tail is long enough

  /**
   * A bound on where the builder stops when `k` subtrees are still to be built from cursor `j`:
   * each pending subtree needs a token, and each head position still ahead can add at most `m`.
   */
  function Budget(j: nat, k: nat, h: nat, m: nat): nat {
    j + k + m * (if j < h then h - j else 0)
  }

  /** No operator has more than `m` arguments. */
  ghost predicate ArityAtMost<V>(ops: map<string, OpEntry<V>>, m: nat) {
    forall name :: name in ops ==> ops[name].arity <= m
  }

  lemma BudgetCovers(j: nat, k: nat, h: nat, m: nat)
    ensures j + k <= Budget(j, k, h, m)
  {
    if j < h {
      assert m * (h - j) >= 0;
    }
  }

  lemma BudgetStep(j: nat, a: nat, h: nat, m: nat)
    requires j < h && a <= m
    ensures Budget(j + 1, a, h, m) <= Budget(j, 1, h, m)
  {
    assert m * (h - j) == m * (h - (j + 1)) + m;
  }

  lemma BudgetLeaf(j: nat, h: nat, m: nat)
    ensures Budget(j + 1, 0, h, m) <= Budget(j, 1, h, m)
  {
    if j < h {
      assert m * (h - j) == m * (h - (j + 1)) + m;
    }
  }

  /**
   * With operators confined to the head and arities at most `m`, a subtree started within the
   * budget is built without running out of tokens, and it ends within that budget.
   */
  lemma {:induction false} SubtreeWithinBudget<V>(expr: seq<Item>, ops: map<string, OpEntry<V>>, h: nat, m: nat, idx: nat)
    requires ArityAtMost(ops, m) && TailTerminal(expr, ops, h)
    requires Budget(idx, 1, h, m) <= |expr|
    ensures BuildSubtree(expr, ops, idx).Ok?
    ensures Budget(BuildSubtree(expr, ops, idx).value.1, 0, h, m) <= Budget(idx, 1, h, m)
    decreases |expr| - idx, 0, 0
  {
    var token := expr[idx];
    if IsOperator(token, ops) {
      var a := ops[token.s].arity;
      BudgetStep(idx, a, h, m);
      ChildrenWithinBudget(expr, ops, h, m, idx + 1, a);
    } else {
      BudgetLeaf(idx, h, m);
    }
  }

  lemma {:induction false} ChildrenWithinBudget<V>(expr: seq<Item>, ops: map<string, OpEntry<V>>, h: nat, m: nat, j: nat, k: nat)
    requires ArityAtMost(ops, m) && TailTerminal(expr, ops, h)
    requires Budget(j, k, h, m) <= |expr|
    ensures BuildChildren(expr, ops, j, k).Ok?
    ensures Budget(BuildChildren(expr, ops, j, k).value.1, 0, h, m) <= Budget(j, k, h, m)
    decreases |expr| - j, 1, k
  {
    if k > 0 {
      SubtreeWithinBudget(expr, ops, h, m, j);
      var c := BuildSubtree(expr, ops, j).value.1;
      ChildrenWithinBudget(expr, ops, h, m, c, k - 1);
    }
  }

  /** Head plus tail is the budget of the whole tree: `h * m + 1`. */
  lemma TailBudget(h: nat, m: nat)
    ensures h + TailLength(h, m) == Budget(0, 1, h, m)
  {
    assert h * ((m as int) - 1) == h * m - h;
    assert h * m == m * h;
  }

  /**
   * Tail sufficiency: on an expression `validate_expression` accepts, `build_tree` never reads past
   * the head and the `head_length * (max_arity - 1) + 1` tokens of the tail.
   */
  lemma TailSuffices<V>(expr: seq<Item>, ops: map<string, OpEntry<V>>, h: nat)
    requires Validation(expr, ops, h) == Ok(true)
    ensures BuildSubtree(expr, ops, 0).Ok?
    ensures BuildSubtree(expr, ops, 0).value.1 <= h + TailLength(h, MaxArity(ops))
  {
    var m := MaxArity(ops);
    assert ArityAtMost(ops, m);
    TailBudget(h, m);
    SubtreeWithinBudget(expr, ops, h, m, 0);
    BudgetCovers(BuildSubtree(expr, ops, 0).value.1, 0, h, m);
  }

  // ---------------------------------------------------------------------------------------------
  // evaluate_tree and to_string

  /**
   * `evaluate_tree(node, variables)`: a number is its own value; a string bound in `variables` is
   * its binding, tested before the operator table; an operator applies its function to its
   * children's values in order; anything else raises, and so does `in None` on a string node when
   * `evaluate` is called without variables.
   */
  function EvalTree<V>(t: Tree, ops: map<string, OpEntry<V>>, variables: Option<map<string, V>>, lit: Num -> V): Result<V, KarvaError>
    decreases t
  {
    match t.value
    case Number(n) => Ok(lit(n))
    case Str(s) =>
      if variables.None? then Err(NoVariables)
      else if s in variables.value then Ok(variables.value[s])
      else if s in ops then
        match EvalAll(t.children, ops, variables, lit)
        case Ok(args) => Ok(ops[s].func(args))
        case Err(e) => Err(e)
      else Err(UnsupportedNode(t.value))
  }

  /** `[self.evaluate_tree(child, variables) for child in node.children]`, stopping at the first error. */
  function EvalAll<V>(cs: seq<Tree>, ops: map<string, OpEntry<V>>, variables: Option<map<string, V>>, lit: Num -> V): Result<seq<V>, KarvaError>
    decreases cs
  {
    if |cs| == 0 then Ok([])
    else
      match EvalTree(cs[0], ops, variables, lit)
      case Err(e) => Err(e)
      case Ok(v) =>
        match EvalAll(cs[1..], ops, variables, lit)
        case Ok(vs) => Ok([v] + vs)
        case Err(e) => Err(e)
  }

  /** The children's values are computed one child at a time: all succeed, in order, or the list raises. */
  lemma {:induction false} EvalAllPointwise<V>(cs: seq<Tree>, ops: map<string, OpEntry<V>>, variables: Option<map<string, V>>, lit: Num -> V)
    ensures EvalAll(cs, ops, variables, lit).Ok? <==> forall i :: 0 <= i < |cs| ==> EvalTree(cs[i], ops, variables, lit).Ok?
    ensures EvalAll(cs, ops, variables, lit).Ok? ==>
      var vs := EvalAll(cs, ops, variables, lit).value;
      |vs| == |cs| && forall i :: 0 <= i < |cs| ==> vs[i] == EvalTree(cs[i], ops, variables, lit).value
  {
    if |cs| > 0 {
      EvalAllPointwise(cs[1..], ops, variables, lit);
      assert forall i :: 1 <= i < |cs| ==> cs[i] == cs[1..][i - 1];
    }
  }

  /** `tree_to_string(node)`: `str` of a number, `name(c1, ..., ck)` for an operator, a variable as it is. */
  function TreeToString<V>(t: Tree, ops: map<string, OpEntry<V>>): string
    decreases t
  {
    match t.value
    case Number(n) => RenderNum(n)
    case Str(s) => if s in ops then Applied(s, RenderAll(t.children, ops)) else s
  }

  /** `[tree_to_string(child) for child in node.children]` */
  function RenderAll<V>(cs: seq<Tree>, ops: map<string, OpEntry<V>>): (r: seq<string>)
    ensures |r| == |cs|
    decreases cs
  {
    if |cs| == 0 then [] else [TreeToString(cs[0], ops)] + RenderAll(cs[1..], ops)
  }

  /** `KEBase.evaluate(variables)`: build the tree, then evaluate it. */
  function EvaluateExpression<V>(expr: seq<Item>, ops: map<string, OpEntry<V>>, variables: Option<map<string, V>>, lit: Num -> V): Result<V, KarvaError> {
    match BuildSubtree(expr, ops, 0)
    case Ok(p) => EvalTree(p.0, ops, variables, lit)
    case Err(e) => Err(e)
  }

  /** `KEBase.to_string()`: build the tree, then render it. */
  function RenderExpression<V>(expr: seq<Item>, ops: map<string, OpEntry<V>>): Result<string, KarvaError> {
    match BuildSubtree(expr, ops, 0)
    case Ok(p) => Ok(TreeToString(p.0, ops))
    case Err(e) => Err(e)
  }

  // ---------------------------------------------------------------------------------------------
  // The tree read in postfix order is an RPN expression with the same meaning

  /** The tokens of a tree in postfix order: the subtrees left to right, then the node. */
  function Postorder(t: Tree): seq<Item>
    decreases t
  {
    PostorderAll(t.children) + [t.value]
  }

  function PostorderAll(cs: seq<Tree>): seq<Item>
    decreases cs
  {
    if |cs| == 0 then [] else Postorder(cs[0]) + PostorderAll(cs[1..])
  }

  /** No operator is named by a digit string (which the RPN reader would take for a number). */
  ghost predicate NoDigitOperators<V>(ops: map<string, OpEntry<V>>) {
    forall s :: s in ops ==> !IsDigits(s)
  }

  lemma ConcatAssoc<T>(a: seq<T>, b: seq<T>, c: seq<T>)
    ensures a + (b + c) == (a + b) + c
  {
  }

  /**
   * Rendering a well-shaped tree is the RPN rendering of its postfix listing: on top of any stack,
   * the listing pushes exactly the text `tree_to_string` gives.
   */
  lemma {:induction false} PostorderRenders<V>(t: Tree, ops: map<string, OpEntry<V>>, a: seq<Item>, st: seq<string>)
    requires WellShaped(t, ops) && NoDigitOperators(ops) && StrStack(a, ops) == Ok(st)
    ensures StrStack(a + Postorder(t), ops) == Ok(st + [TreeToString(t, ops)])
    decreases t
  {
    PostorderRendersAll(t.children, ops, a, st);
    var b := a + PostorderAll(t.children);
    var below := st + RenderAll(t.children, ops);
    assert a + Postorder(t) == b + [t.value];
    StrStackAppend(b, t.value, ops);
    if t.value.Str? && t.value.s in ops {
      StrStepOperator(below, t.value.s, ops);
      assert below[..|st|] == st && below[|st|..] == RenderAll(t.children, ops);
    }
  }

  lemma {:induction false} PostorderRendersAll<V>(cs: seq<Tree>, ops: map<string, OpEntry<V>>, a: seq<Item>, st: seq<string>)
    requires AllWellShaped(cs, ops) && NoDigitOperators(ops) && StrStack(a, ops) == Ok(st)
    ensures StrStack(a + PostorderAll(cs), ops) == Ok(st + RenderAll(cs, ops))
    decreases cs
  {
    if |cs| == 0 {
      assert a + [] == a && st + [] == st;
    } else {
      var text := TreeToString(cs[0], ops);
      PostorderRenders(cs[0], ops, a, st);
      var a1, st1 := a + Postorder(cs[0]), st + [text];
      PostorderRendersAll(cs[1..], ops, a1, st1);
      ConcatAssoc(a, Postorder(cs[0]), PostorderAll(cs[1..]));
      ConcatAssoc(st, [text], RenderAll(cs[1..], ops));
    }
  }

  /** Karva's `to_string` of a tree equals RPN's `to_string` of the tree's postfix listing. */
  lemma RenderingAgreesWithRPN<V>(t: Tree, ops: map<string, OpEntry<V>>)
    requires WellShaped(t, ops) && NoDigitOperators(ops)
    ensures Rendering(Postorder(t), ops) == Ok(TreeToString(t, ops))
  {
    var empty: seq<Item> := [];
    var none: seq<string> := [];
    PostorderRenders(t, ops, empty, none);
    assert empty + Postorder(t) == Postorder(t);
    assert none + [TreeToString(t, ops)] == [TreeToString(t, ops)];
  }

  /**
   * The readings of the two evaluators coincide on the tree's tokens: no digit strings (which RPN
   * turns into numbers) and no variable named like an operator (which the builder gave children).
   */
  predicate Unambiguous<V>(t: Tree, ops: map<string, OpEntry<V>>, variables: map<string, V>)
    decreases t
  {
    (t.value.Str? ==> !IsDigits(t.value.s) && !(t.value.s in ops && t.value.s in variables))
    && UnambiguousAll(t.children, ops, variables)
  }

  predicate UnambiguousAll<V>(cs: seq<Tree>, ops: map<string, OpEntry<V>>, variables: map<string, V>)
    decreases cs
  {
    |cs| == 0 || (Unambiguous(cs[0], ops, variables) && UnambiguousAll(cs[1..], ops, variables))
  }

  /** Evaluating a well-shaped tree is running its postfix listing: the listing pushes the tree's value. */
  lemma {:induction false} PostorderEvaluates<V>(t: Tree, ops: map<string, OpEntry<V>>, variables: map<string, V>, lit: Num -> V, a: seq<Item>, st: seq<V>)
    requires WellShaped(t, ops) && Unambiguous(t, ops, variables)
    requires EvalStack(a, ops, variables, lit) == Ok(st) && EvalTree(t, ops, Some(variables), lit).Ok?
    ensures EvalStack(a + Postorder(t), ops, variables, lit) == Ok(st + [EvalTree(t, ops, Some(variables), lit).value])
    decreases t
  {
    if t.value.Str? && t.value.s !in variables && t.value.s in ops {
      PostorderEvaluatesAll(t.children, ops, variables, lit, a, st);
      var args := EvalAll(t.children, ops, Some(variables), lit).value;
      var b := a + PostorderAll(t.children);
      assert a + Postorder(t) == b + [t.value];
      assert |args| == |t.children| by { EvalAllPointwise(t.children, ops, Some(variables), lit); }
      OperatorPushesResult(b, t.value.s, ops, variables, lit, st, args);
    } else {
      assert t.children == [];
      assert a + Postorder(t) == a + [t.value];
      EvalStackAppend(a, t.value, ops, variables, lit);
    }
  }

  /** An operator after a run that left its arguments on top replaces them with the call's result. */
  lemma OperatorPushesResult<V>(b: seq<Item>, s: string, ops: map<string, OpEntry<V>>, variables: map<string, V>, lit: Num -> V,
                                st: seq<V>, args: seq<V>)
    requires !IsDigits(s) && s !in variables && s in ops && ops[s].arity == |args|
    requires EvalStack(b, ops, variables, lit) == Ok(st + args)
    ensures EvalStack(b + [Str(s)], ops, variables, lit) == Ok(st + [ops[s].func(args)])
  {
    var below := st + args;
    EvalStackAppend(b, Str(s), ops, variables, lit);
    EvalStepOperator(below, s, ops, variables, lit);
    assert below[..|st|] == st && below[|st|..] == args;
  }

  lemma {:induction false} PostorderEvaluatesAll<V>(cs: seq<Tree>, ops: map<string, OpEntry<V>>, variables: map<string, V>, lit: Num -> V, a: seq<Item>, st: seq<V>)
    requires AllWellShaped(cs, ops) && UnambiguousAll(cs, ops, variables)
    requires EvalStack(a, ops, variables, lit) == Ok(st) && EvalAll(cs, ops, Some(variables), lit).Ok?
    ensures EvalStack(a + PostorderAll(cs), ops, variables, lit) == Ok(st + EvalAll(cs, ops, Some(variables), lit).value)
    decreases cs
  {
    if |cs| == 0 {
      assert a + [] == a && st + [] == st;
    } else {
      var v := EvalTree(cs[0], ops, Some(variables), lit).value;
      PostorderEvaluates(cs[0], ops, variables, lit, a, st);
      var a1, st1 := a + Postorder(cs[0]), st + [v];
      PostorderEvaluatesAll(cs[1..], ops, variables, lit, a1, st1);
      ConcatAssoc(a, Postorder(cs[0]), PostorderAll(cs[1..]));
      ConcatAssoc(st, [v], EvalAll(cs[1..], ops, Some(variables), lit).value);
    }
  }

  /** Karva's `evaluate_tree` of a tree equals RPN's `evaluate` of the tree's postfix listing. */
  lemma EvaluationAgreesWithRPN<V>(t: Tree, ops: map<string, OpEntry<V>>, variables: map<string, V>, lit: Num -> V)
    requires WellShaped(t, ops) && Unambiguous(t, ops, variables) && EvalTree(t, ops, Some(variables), lit).Ok?
    ensures Evaluation(Postorder(t), ops, Some(variables), lit) == Ok(EvalTree(t, ops, Some(variables), lit).value)
  {
    var empty: seq<Item> := [];
    var none: seq<V> := [];
    PostorderEvaluates(t, ops, variables, lit, empty, none);
    assert empty + Postorder(t) == Postorder(t);
    assert none + [EvalTree(t, ops, Some(variables), lit).value] == [EvalTree(t, ops, Some(variables), lit).value];
  }

  // ---------------------------------------------------------------------------------------------
  // The examples of the module's documentation

  function Leaf(s: string): Tree {
    Node(Str(s), [])
  }

  lemma LeafFacts<V>(x: string, ops: map<string, OpEntry<V>>)
    requires x !in ops
    ensures WellShaped(Leaf(x), ops) && Preorder(Leaf(x)) == [Str(x)]
  {
    assert PreorderAll([]) == [];
  }

  lemma BinaryFacts<V>(o: string, l: Tree, r: Tree, ops: map<string, OpEntry<V>>)
    requires o in ops && ops[o].arity == 2 && WellShaped(l, ops) && WellShaped(r, ops)
    ensures WellShaped(Node(Str(o), [l, r]), ops)
    ensures Preorder(Node(Str(o), [l, r])) == [Str(o)] + Preorder(l) + Preorder(r)
  {
    var cs := [l, r];
    assert cs[1..] == [r] && cs[1..][1..] == [];
    assert AllWellShaped(cs, ops);
    var none: seq<Item> := [];
    assert PreorderAll(cs[1..][1..]) == none;
    assert PreorderAll(cs[1..]) == Preorder(r) + none == Preorder(r);
    assert PreorderAll(cs) == Preorder(l) + Preorder(r);
    assert Preorder(Node(Str(o), cs)) == [Str(o)] + (Preorder(l) + Preorder(r));
  }

  /** `+ - * a b c d e f` is read operator first, depth first: `+(-(*(a, b), c), d)`, and `e f` stay unread. */
  lemma PrefixOrderExample<V>(ops: map<string, OpEntry<V>>)
    requires "+" in ops && "-" in ops && "*" in ops
    requires ops["+"].arity == 2 && ops["-"].arity == 2 && ops["*"].arity == 2
    requires "a" !in ops && "b" !in ops && "c" !in ops && "d" !in ops
    ensures var expr := [Str("+"), Str("-"), Str("*"), Str("a"), Str("b"), Str("c"), Str("d"), Str("e"), Str("f")];
      BuildSubtree(expr, ops, 0) == Ok((ExampleTree(), 7)) &&
      RenderExpression(expr, ops) == Ok("+(-(*(a, b), c), d)")
  {
    var expr := [Str("+"), Str("-"), Str("*"), Str("a"), Str("b"), Str("c"), Str("d"), Str("e"), Str("f")];
    ExampleTreeFacts(ops);
    ExampleTreeText(ops);
    assert Preorder(ExampleTree()) == expr[..7];
    BuildFromPreorder(ExampleTree(), ops, expr, 0);
  }

  /** The tree of `+(-(*(a, b), c), d)`. */
  function ExampleTree(): Tree {
    Node(Str("+"), [Node(Str("-"), [Node(Str("*"), [Leaf("a"), Leaf("b")]), Leaf("c")]), Leaf("d")])
  }

  lemma ExampleTreeFacts<V>(ops: map<string, OpEntry<V>>)
    requires "+" in ops && "-" in ops && "*" in ops
    requires ops["+"].arity == 2 && ops["-"].arity == 2 && ops["*"].arity == 2
    requires "a" !in ops && "b" !in ops && "c" !in ops && "d" !in ops
    ensures WellShaped(ExampleTree(), ops)
    ensures Preorder(ExampleTree()) == [Str("+"), Str("-"), Str("*"), Str("a"), Str("b"), Str("c"), Str("d")]
  {
    var times := Node(Str("*"), [Leaf("a"), Leaf("b")]);
    var minus := Node(Str("-"), [times, Leaf("c")]);
    LeafFacts("a", ops);
    LeafFacts("b", ops);
    LeafFacts("c", ops);
    LeafFacts("d", ops);
    BinaryFacts("*", Leaf("a"), Leaf("b"), ops);
    BinaryFacts("-", times, Leaf("c"), ops);
    BinaryFacts("+", minus, Leaf("d"), ops);
  }

  lemma ExampleTreeText<V>(ops: map<string, OpEntry<V>>)
    requires "+" in ops && "-" in ops && "*" in ops
    requires "a" !in ops && "b" !in ops && "c" !in ops && "d" !in ops
    ensures TreeToString(ExampleTree(), ops) == "+(-(*(a, b), c), d)"
  {
    var times := Node(Str("*"), [Leaf("a"), Leaf("b")]);
    var minus := Node(Str("-"), [times, Leaf("c")]);
    ExampleSpelling();
    BinaryText("*", Leaf("a"), Leaf("b"), "a", "b", ops);
    BinaryText("-", times, Leaf("c"), "*(a, b)", "c", ops);
    BinaryText("+", minus, Leaf("d"), "-(*(a, b), c)", "d", ops);
  }

  /** The pieces of the example's text spell `+(-(*(a, b), c), d)`. */
  lemma ExampleSpelling()
    ensures "*" + "(" + "a" + ", " + "b" + ")" == "*(a, b)"
    ensures "-" + "(" + "*(a, b)" + ", " + "c" + ")" == "-(*(a, b), c)"
    ensures "+" + "(" + "-(*(a, b), c)" + ", " + "d" + ")" == "+(-(*(a, b), c), d)"
  {
  }

  lemma BinaryText<V>(o: string, l: Tree, r: Tree, ls: string, rs: string, ops: map<string, OpEntry<V>>)
    requires o in ops && TreeToString(l, ops) == ls && TreeToString(r, ops) == rs
    ensures TreeToString(Node(Str(o), [l, r]), ops) == o + "(" + ls + ", " + rs + ")"
  {
    var cs := [l, r];
    assert cs[1..] == [r] && cs[1..][1..] == [];
    assert RenderAll(cs, ops) == [ls, rs];
    assert Join(RenderAll(cs, ops), ", ") == ls + ", " + rs;
  }



  /** The tokens of the module's demonstration: head `+ neg`, tail `x 2.2 3.1 4.8 5.2`. */
  function DemoExpression(): seq<Item> {
    [Str("+"), Str("neg"), Str("x"), Number(Float(22, 1)), Number(Float(31, 1)), Number(Float(48, 1)), Number(Float(52, 1))]
  }

  /** The tree of `+(neg(x), 2.2)`. */
  function DemoTree(): Tree {
    Node(Str("+"), [Node(Str("neg"), [Leaf("x")]), Node(Number(Float(22, 1)), [])])
  }

  /**
   * The demonstration with head length 2 over a table whose largest arity is 3 (the ternary `?`):
   * the tail needs 2 * (3 - 1) + 1 = 5 tokens, so all 7 are needed and the expression is accepted;
   * it renders as `+(neg(x), 2.2)`, and with x bound to v it evaluates to `+(neg(v), 2.2)`.
   */
  lemma DemoExample<V>(ops: map<string, OpEntry<V>>, v: V, lit: Num -> V)
    requires "+" in ops && ops["+"].arity == 2 && "neg" in ops && ops["neg"].arity == 1
    requires "?" in ops && ops["?"].arity == 3 && ArityAtMost(ops, 3) && "x" !in ops
    ensures Validation(DemoExpression(), ops, 2) == Ok(true)
    ensures RenderExpression(DemoExpression(), ops) == Ok("+(neg(x), 2.2)")
    ensures EvaluateExpression(DemoExpression(), ops, Some(map["x" := v]), lit)
      == Ok(ops["+"].func([ops["neg"].func([v]), lit(Float(22, 1))]))
  {
    var expr := DemoExpression();
    assert IsMaxArity(ops, 3);
    MaxArityUnique(ops, 3);
    assert TailTerminal(expr, ops, 2);
    DemoShape(ops);
    assert expr[..4] == Preorder(DemoTree());
    BuildFromPreorder(DemoTree(), ops, expr, 0);
    DemoText(ops);
    DemoValue(ops, v, lit);
  }

  lemma DemoShape<V>(ops: map<string, OpEntry<V>>)
    requires "+" in ops && ops["+"].arity == 2 && "neg" in ops && ops["neg"].arity == 1 && "x" !in ops
    ensures WellShaped(DemoTree(), ops)
    ensures Preorder(DemoTree()) == [Str("+"), Str("neg"), Str("x"), Number(Float(22, 1))]
  {
    var neg := Node(Str("neg"), [Leaf("x")]);
    var num := Node(Number(Float(22, 1)), []);
    var none: seq<Item> := [];
    LeafFacts("x", ops);
    assert [Leaf("x")][1..] == [];
    assert AllWellShaped([Leaf("x")], ops);
    assert PreorderAll([Leaf("x")]) == [Str("x")] + none;
    assert Preorder(num) == [Number(Float(22, 1))] + none;
    assert WellShaped(num, ops);
    BinaryFacts("+", neg, num, ops);
  }

  lemma DemoText<V>(ops: map<string, OpEntry<V>>)
    requires "+" in ops && "neg" in ops && "x" !in ops
    ensures TreeToString(DemoTree(), ops) == "+(neg(x), 2.2)"
  {
    NestedText("+", "neg", "x", Float(22, 1), ops);
    FloatTexts();
    DemoSpelling();
  }

  /** The pieces of the demo's text spell `+(neg(x), 2.2)`. */
  lemma DemoSpelling()
    ensures "+" + "(" + ("neg" + "(" + "x" + ")") + ", " + "2.2" + ")" == "+(neg(x), 2.2)"
  {
  }

  /** The text of `o(u(x), n)` for a binary `o`, a unary `u`, a variable `x` and a number `n`. */
  lemma NestedText<V>(o: string, u: string, x: string, n: Num, ops: map<string, OpEntry<V>>)
    requires o in ops && u in ops && x !in ops
    ensures TreeToString(Node(Str(o), [Node(Str(u), [Leaf(x)]), Node(Number(n), [])]), ops) ==
      o + "(" + (u + "(" + x + ")") + ", " + RenderNum(n) + ")"
  {
    UnaryText(u, Leaf(x), x, ops);
    BinaryText(o, Node(Str(u), [Leaf(x)]), Node(Number(n), []), u + "(" + x + ")", RenderNum(n), ops);
  }

  lemma UnaryText<V>(o: string, c: Tree, cs: string, ops: map<string, OpEntry<V>>)
    requires o in ops && TreeToString(c, ops) == cs
    ensures TreeToString(Node(Str(o), [c]), ops) == o + "(" + cs + ")"
  {
    var children := [c];
    assert children[1..] == [];
    assert RenderAll(children, ops) == [cs];
  }

  lemma DemoValue<V>(ops: map<string, OpEntry<V>>, v: V, lit: Num -> V)
    requires "+" in ops && "neg" in ops
    ensures EvalTree(DemoTree(), ops, Some(map["x" := v]), lit) == Ok(ops["+"].func([ops["neg"].func([v]), lit(Float(22, 1))]))
  {
    var vars := Some(map["x" := v]);
    assert "neg" != "x" && "+" != "x" by { assert |"x"| == 1; }
    var neg := Node(Str("neg"), [Leaf("x")]);
    var num := Node(Number(Float(22, 1)), []);
    var one: seq<Tree> := [Leaf("x")];
    var two: seq<Tree> := [neg, num];
    var none: seq<V> := [];
    assert one[1..] == [] && two[1..] == [num] && two[1..][1..] == [];
    assert EvalTree(Leaf("x"), ops, vars, lit) == Ok(v);
    assert "neg" !in vars.value && "+" !in vars.value;
    assert [v] + none == [v];
    assert EvalAll(neg.children, ops, vars, lit) == Ok([v]);
    assert EvalTree(neg, ops, vars, lit) == Ok(ops["neg"].func([v]));
    assert EvalTree(num, ops, vars, lit) == Ok(lit(Float(22, 1)));
    assert EvalAll(two[1..], ops, vars, lit) == Ok([lit(Float(22, 1))] + none);
    assert [lit(Float(22, 1))] + none == [lit(Float(22, 1))];
    assert EvalAll(two, ops, vars, lit) == Ok([ops["neg"].func([v])] + [lit(Float(22, 1))]);
    assert [ops["neg"].func([v])] + [lit(Float(22, 1))] == [ops["neg"].func([v]), lit(Float(22, 1))];
    assert DemoTree() == Node(Str("+"), two);
  }
}
