/**
 * The RPN (postfix) expression of expbuilder/utils/RPN.py: a list of numbers and strings run on a
 * stack. `evaluate` applies each operator's opaque function, `to_string` renders `name(a0, ..., ak-1)`,
 * `validate_expression` is the dry run. All three share one control flow: push an operand; for an
 * operator pop `arity` entries, restore their order and push one result.
 */
module RPN {

  import opened Wrappers
  import opened Text
  import opened Literals

  /** An entry of the `ops` dictionary: the operator's function and its arity. */
  datatype OpEntry<!V> = OpEntry(func: seq<V> -> V, arity: nat)

  /** Exceptions: `pop from empty list`, an unsupported token or unbound variable, `stack[0]` of an empty stack. */
  datatype RPNError = StackUnderflow | UnsupportedToken(token: Item) | EmptyStack

  /** `RPNBase.__init__`: `default_ops.copy()` updated with `custom_ops` when given, so custom entries win. */
  function MergeOps<V>(defaultOps: map<string, OpEntry<V>>, customOps: Option<map<string, OpEntry<V>>>): (ops: map<string, OpEntry<V>>)
    ensures customOps.None? ==> ops == defaultOps
    ensures customOps.Some? ==> ops.Keys == defaultOps.Keys + customOps.value.Keys
    ensures customOps.Some? ==> forall k :: k in customOps.value ==> ops[k] == customOps.value[k]
    ensures customOps.Some? ==> forall k :: k in defaultOps && k !in customOps.value ==> ops[k] == defaultOps[k]
  {
    if customOps.Some? then defaultOps + customOps.value else defaultOps
  }

  // ---------------------------------------------------------------------------------------------
  // Popping the arguments of an operator

  /** `[stack.pop() for _ in range(k)]`: the popped entries, top first, and the remaining stack. */
  function PopMany<T>(stack: seq<T>, k: nat): Result<(seq<T>, seq<T>), RPNError> {
    if k == 0 then Ok(([], stack))
    else if |stack| == 0 then Err(StackUnderflow)
    else
      match PopMany(stack[..|stack| - 1], k - 1)
      case Ok(p) => Ok(([stack[|stack| - 1]] + p.0, p.1))
      case Err(e) => Err(e)
  }

  /** `xs[::-1]` */
  function Reverse<T>(s: seq<T>): (r: seq<T>)
    ensures |r| == |s|
  {
    if |s| == 0 then [] else Reverse(s[1..]) + [s[0]]
  }

  /**
   * Popping k entries fails exactly when fewer than k are there; otherwise reversing the popped
   * entries gives the top k entries in their original, left-to-right order, and the rest stays below.
   */
  lemma {:induction false} PopArgsInOrder<T>(stack: seq<T>, k: nat)
    ensures k > |stack| ==> PopMany(stack, k) == Err(StackUnderflow)
    ensures k <= |stack| ==>
      PopMany(stack, k).Ok? &&
      Reverse(PopMany(stack, k).value.0) == stack[|stack| - k..] && PopMany(stack, k).value.1 == stack[..|stack| - k]
  {
    if k > 0 && |stack| > 0 {
      var n := |stack|;
      var init := stack[..n - 1];
      PopArgsInOrder(init, k - 1);
      if k <= n {
        var p := PopMany(init, k - 1).value;
        var popped := [stack[n - 1]] + p.0;
        assert popped[1..] == p.0;
        assert Reverse(popped) == Reverse(p.0) + [stack[n - 1]];
        assert init[n - 1 - (k - 1)..] + [stack[n - 1]] == stack[n - k..];
        assert init[..n - 1 - (k - 1)] == stack[..n - k];
      }
    }
  }

  /** The arguments an operator of arity k receives: the popped entries with their order restored. */
  function PopArgs<T>(stack: seq<T>, k: nat): Result<(seq<T>, seq<T>), RPNError> {
    match PopMany(stack, k)
    case Ok(p) => Ok((Reverse(p.0), p.1))
    case Err(e) => Err(e)
  }

  // ---------------------------------------------------------------------------------------------
  // evaluate

  /** One token of `evaluate`: number, digit string (as a float), bound variable, operator, or an error. */
  function EvalStep<V>(stack: seq<V>, token: Item, ops: map<string, OpEntry<V>>, variables: map<string, V>, lit: Num -> V)
    : Result<seq<V>, RPNError>
  {
    match token
    case Number(n) => Ok(stack + [lit(n)])
    case Str(s) =>
      if IsDigits(s) then Ok(stack + [lit(Float(DigitsValue(s), 0))])
      else if s in variables then Ok(stack + [variables[s]])
      else if s in ops then
        match PopArgs(stack, ops[s].arity)
        case Ok(p) => Ok(p.1 + [ops[s].func(p.0)])
        case Err(e) => Err(e)
      else Err(UnsupportedToken(token))
  }

  /** The stack `evaluate` holds after the given tokens (the first error ends the run). */
  function EvalStack<V>(expr: seq<Item>, ops: map<string, OpEntry<V>>, variables: map<string, V>, lit: Num -> V)
    : Result<seq<V>, RPNError>
  {
    if |expr| == 0 then Ok([])
    else
      match EvalStack(expr[..|expr| - 1], ops, variables, lit)
      case Ok(st) => EvalStep(st, expr[|expr| - 1], ops, variables, lit)
      case Err(e) => Err(e)
  }

  /** `return stack[0]`: the BOTTOM entry, whatever the final depth; an empty stack raises. */
  function Bottom<T>(r: Result<seq<T>, RPNError>): Result<T, RPNError> {
    match r
    case Err(e) => Err(e)
    case Ok(st) => if |st| == 0 then Err(EmptyStack) else Ok(st[0])
  }

  /** What `evaluate(variables)` returns; `variables or {}` makes None the empty binding. */
  function Evaluation<V>(expr: seq<Item>, ops: map<string, OpEntry<V>>, variables: Option<map<string, V>>, lit: Num -> V)
    : Result<V, RPNError>
  {
    Bottom(EvalStack(expr, ops, if variables.Some? then variables.value else map[], lit))
  }

  /** An error in a prefix is the error of every longer run. */
  lemma {:induction false} EvalErrorPersists<V>(expr: seq<Item>, i: nat, ops: map<string, OpEntry<V>>, variables: map<string, V>, lit: Num -> V)
    requires i <= |expr|
    requires EvalStack(expr[..i], ops, variables, lit).Err?
    ensures EvalStack(expr, ops, variables, lit) == EvalStack(expr[..i], ops, variables, lit)
    decreases |expr| - i
  {
    if i < |expr| {
      assert expr[..i + 1][..i] == expr[..i];
      EvalErrorPersists(expr, i + 1, ops, variables, lit);
    } else {
      assert expr[..i] == expr;
    }
  }

  lemma EvalStackNext<V>(expr: seq<Item>, i: nat, ops: map<string, OpEntry<V>>, variables: map<string, V>, lit: Num -> V)
    requires i < |expr| && EvalStack(expr[..i], ops, variables, lit).Ok?
    ensures EvalStack(expr[..i + 1], ops, variables, lit) == EvalStep(EvalStack(expr[..i], ops, variables, lit).value, expr[i], ops, variables, lit)
  {
    assert expr[..i + 1][..i] == expr[..i];
  }

  /** `to_function()(variables)` / `evaluate(variables)`: the stack machine over the tokens. */
  method Evaluate<V>(expr: seq<Item>, ops: map<string, OpEntry<V>>, variables: Option<map<string, V>>, lit: Num -> V)
    returns (r: Result<V, RPNError>)
    ensures r == Evaluation(expr, ops, variables, lit)
  {
    var vars := if variables.Some? then variables.value else map[];
    var stack: seq<V> := [];
    var i := 0;
    while i < |expr|
      invariant 0 <= i <= |expr|
      invariant EvalStack(expr[..i], ops, vars, lit) == Ok(stack)
    {
      var token := expr[i];
      ghost var next := EvalStep(stack, token, ops, vars, lit);
      assert EvalStack(expr[..i + 1], ops, vars, lit) == next by { EvalStackNext(expr, i, ops, vars, lit); }
      if token.Number? {
        stack := stack + [lit(token.n)];
      } else if IsDigits(token.s) {
        stack := stack + [lit(Float(DigitsValue(token.s), 0))];
      } else if token.s in vars {
        stack := stack + [vars[token.s]];
      } else if token.s in ops {
        var entry := ops[token.s];
        if |stack| < entry.arity {
          assert next == Err(StackUnderflow) by { EvalStepOperator(stack, token.s, ops, vars, lit); }
          EvalErrorPersists(expr, i + 1, ops, vars, lit);
          return Err(StackUnderflow);
        }
        var args := stack[|stack| - entry.arity..];
        assert next == Ok(stack[..|stack| - entry.arity] + [entry.func(args)]) by {
          EvalStepOperator(stack, token.s, ops, vars, lit);
        }
        stack := stack[..|stack| - entry.arity] + [entry.func(args)];
      } else {
        EvalErrorPersists(expr, i + 1, ops, vars, lit);
        return Err(UnsupportedToken(token));
      }
      i := i + 1;
    }
    assert expr[..i] == expr;
    r := if |stack| == 0 then Err(EmptyStack) else Ok(stack[0]);
  }

  /**
   * An operator token takes the top `arity` values, in order, and leaves exactly one result in
   * their place; with fewer values on the stack it raises.
   */
  lemma EvalStepOperator<V>(stack: seq<V>, s: string, ops: map<string, OpEntry<V>>, variables: map<string, V>, lit: Num -> V)
    requires !IsDigits(s) && s !in variables && s in ops
    ensures ops[s].arity > |stack| ==> EvalStep(stack, Str(s), ops, variables, lit) == Err(StackUnderflow)
    ensures ops[s].arity <= |stack| ==>
      var k := |stack| - ops[s].arity;
      EvalStep(stack, Str(s), ops, variables, lit) == Ok(stack[..k] + [ops[s].func(stack[k..])])
  {
    PopArgsInOrder(stack, ops[s].arity);
  }

  // ---------------------------------------------------------------------------------------------
  // to_string

  /** `f"{name}({', '.join(args)})"` */
  function Applied(name: string, args: seq<string>): string {
    name + "(" + Join(args, ", ") + ")"
  }

  /** One token of `to_string`: number, digit string, operator, and any other string as a variable. */
  function StrStep<V>(stack: seq<string>, token: Item, ops: map<string, OpEntry<V>>): Result<seq<string>, RPNError> {
    match token
    case Number(n) => Ok(stack + [RenderNum(n)])
    case Str(s) =>
      if IsDigits(s) then Ok(stack + [s])
      else if s in ops then
        match PopArgs(stack, ops[s].arity)
        case Ok(p) => Ok(p.1 + [Applied(s, p.0)])
        case Err(e) => Err(e)
      else Ok(stack + [s])
  }

  /** The stack of texts `to_string` holds after the given tokens. */
  function StrStack<V>(expr: seq<Item>, ops: map<string, OpEntry<V>>): Result<seq<string>, RPNError> {
    if |expr| == 0 then Ok([])
    else
      match StrStack(expr[..|expr| - 1], ops)
      case Ok(st) => StrStep(st, expr[|expr| - 1], ops)
      case Err(e) => Err(e)
  }

  /** What `to_string()` returns. */
  function Rendering<V>(expr: seq<Item>, ops: map<string, OpEntry<V>>): Result<string, RPNError> {
    Bottom(StrStack(expr, ops))
  }

  lemma {:induction false} StrErrorPersists<V>(expr: seq<Item>, i: nat, ops: map<string, OpEntry<V>>)
    requires i <= |expr|
    requires StrStack(expr[..i], ops).Err?
    ensures StrStack(expr, ops) == StrStack(expr[..i], ops)
    decreases |expr| - i
  {
    if i < |expr| {
      assert expr[..i + 1][..i] == expr[..i];
      StrErrorPersists(expr, i + 1, ops);
    } else {
      assert expr[..i] == expr;
    }
  }

  lemma StrStackNext<V>(expr: seq<Item>, i: nat, ops: map<string, OpEntry<V>>)
    requires i < |expr| && StrStack(expr[..i], ops).Ok?
    ensures StrStack(expr[..i + 1], ops) == StrStep(StrStack(expr[..i], ops).value, expr[i], ops)
  {
    assert expr[..i + 1][..i] == expr[..i];
  }

  /** An operator token renders the top `arity` texts, in order, as its arguments. */
  lemma StrStepOperator<V>(stack: seq<string>, s: string, ops: map<string, OpEntry<V>>)
    requires !IsDigits(s) && s in ops
    ensures ops[s].arity > |stack| ==> StrStep(stack, Str(s), ops) == Err(StackUnderflow)
    ensures ops[s].arity <= |stack| ==>
      var k := |stack| - ops[s].arity;
      StrStep(stack, Str(s), ops) == Ok(stack[..k] + [Applied(s, stack[k..])])
  {
    PopArgsInOrder(stack, ops[s].arity);
  }

  /** `to_string()`: the same stack machine pushing texts. */
  method ToString<V>(expr: seq<Item>, ops: map<string, OpEntry<V>>) returns (r: Result<string, RPNError>)
    ensures r == Rendering(expr, ops)
  {
    var stack: seq<string> := [];
    var i := 0;
    while i < |expr|
      invariant 0 <= i <= |expr|
      invariant StrStack(expr[..i], ops) == Ok(stack)
    {
      var token := expr[i];
      StrStackNext(expr, i, ops);
      if token.Number? {
        stack := stack + [RenderNum(token.n)];
      } else if IsDigits(token.s) {
        stack := stack + [token.s];
      } else if token.s in ops {
        var arity := ops[token.s].arity;
        StrStepOperator(stack, token.s, ops);
        if |stack| < arity {
          StrErrorPersists(expr, i + 1, ops);
          return Err(StackUnderflow);
        }
        stack := stack[..|stack| - arity] + [Applied(token.s, stack[|stack| - arity..])];
      } else {
        stack := stack + [token.s];
      }
      i := i + 1;
    }
    assert expr[..i] == expr;
    r := if |stack| == 0 then Err(EmptyStack) else Ok(stack[0]);
  }

  // ---------------------------------------------------------------------------------------------
  // evaluate and to_string agree on the shape of the run

  /** No string is read as a variable by `evaluate` but as an operator by `to_string`. */
  ghost predicate NoShadowing<V>(expr: seq<Item>, ops: map<string, OpEntry<V>>, variables: map<string, V>) {
    forall i :: 0 <= i < |expr| && expr[i].Str? && expr[i].s in variables ==> IsDigits(expr[i].s) || expr[i].s !in ops
  }

  /** Every string `evaluate` meets is a digit string, a bound variable or an operator. */
  ghost predicate Resolvable<V>(expr: seq<Item>, ops: map<string, OpEntry<V>>, variables: map<string, V>) {
    forall i :: 0 <= i < |expr| && expr[i].Str? ==> IsDigits(expr[i].s) || expr[i].s in variables || expr[i].s in ops
  }

  /**
   * With no variable shadowing an operator, `evaluate` runs through exactly when `to_string` does
   * and every string resolves; and then both stacks have the same depth.
   */
  lemma {:induction false} DepthTracesAgree<V>(expr: seq<Item>, ops: map<string, OpEntry<V>>, variables: map<string, V>, lit: Num -> V)
    requires NoShadowing(expr, ops, variables)
    ensures EvalStack(expr, ops, variables, lit).Ok? <==> StrStack(expr, ops).Ok? && Resolvable(expr, ops, variables)
    ensures EvalStack(expr, ops, variables, lit).Ok? ==>
      |EvalStack(expr, ops, variables, lit).value| == |StrStack(expr, ops).value|
  {
    if |expr| > 0 {
      var init := expr[..|expr| - 1];
      var token := expr[|expr| - 1];
      assert NoShadowing(init, ops, variables) by {
        forall i | 0 <= i < |init| ensures init[i] == expr[i] { }
      }
      DepthTracesAgree(init, ops, variables, lit);
      assert Resolvable(expr, ops, variables) ==> Resolvable(init, ops, variables) by {
        forall i | 0 <= i < |init| ensures init[i] == expr[i] { }
      }
      assert Resolvable(init, ops, variables) && (token.Str? ==> IsDigits(token.s) || token.s in variables || token.s in ops)
        ==> Resolvable(expr, ops, variables);
      var ev := EvalStack(init, ops, variables, lit);
      var sv := StrStack(init, ops);
      if ev.Ok? && sv.Ok? && token.Str? && !IsDigits(token.s) && token.s !in variables && token.s in ops {
        PopArgsInOrder(ev.value, ops[token.s].arity);
        PopArgsInOrder(sv.value, ops[token.s].arity);
      }
    }
  }

  /** A variable named like an operator breaks the agreement: `evaluate` pushes it, `to_string` pops for it. */
  lemma ShadowingDiverges(f: seq<int> -> int, lit: Num -> int)
    ensures var ops := map["x" := OpEntry(f, 2)];
      EvalStack([Str("x")], ops, map["x" := 3], lit) == Ok([3]) &&
      StrStack([Str("x")], ops) == Err(StackUnderflow)
  {
    var ops := map["x" := OpEntry(f, 2)];
    var vars := map["x" := 3];
    var e: seq<int> := [];
    var empty: seq<string> := [];
    assert !IsDigits("x") by { assert !IsDigit("x"[0]); }
    assert [Str("x")][..0] == [];
    assert EvalStep(e, Str("x"), ops, vars, lit) == Ok(e + [vars["x"]]);
    assert e + [3] == [3];
    PopArgsInOrder(empty, 2);
  }

  // ---------------------------------------------------------------------------------------------
  // validate_expression

  /**
   * `validate_expression` as written: its first test `isinstance(token, (int, float)) or
   * token.isdigit() or isinstance(token, str)` holds for every token, so every token is pushed, the
   * operator branch is never reached, and the verdict is the length test alone.
   */
  method ValidateExpression<V>(expr: seq<Item>, ops: map<string, OpEntry<V>>) returns (r: bool)
    ensures r <==> |expr| == 1
  {
    var stack: seq<Item> := [];
    var i := 0;
    while i < |expr|
      invariant 0 <= i <= |expr|
      invariant |stack| == i
    {
      // Every token passes the first test, so the operator and error branches are dead code.
      stack := stack + [expr[i]];
      i := i + 1;
    }
    r := |stack| == 1;
  }

  /**
   * The as-written verdict misjudges both ways: a lone binary operator is accepted although every
   * run of it underflows, and `x Neg 2 Add`, which renders as one expression, is rejected.
   */
  lemma AsWrittenValidationMisjudges(add: seq<int> -> int, neg: seq<int> -> int)
    ensures var ops := map["Add" := OpEntry(add, 2), "Neg" := OpEntry(neg, 1)];
      var lone := [Str("Add")];
      var good := [Str("x"), Str("Neg"), Number(Int(2)), Str("Add")];
      |lone| == 1 && StrStack(lone, ops) == Err(StackUnderflow) &&
      |good| != 1 && StrStack(good, ops) == Ok(["Add(Neg(x), 2)"])
  {
    var ops := map["Add" := OpEntry(add, 2), "Neg" := OpEntry(neg, 1)];
    var empty: seq<string> := [];
    var none: seq<Item> := [];
    assert !IsDigits("Add") by { assert !IsDigit("Add"[0]); }
    StrStackAppend(none, Str("Add"), ops);
    assert none + [Str("Add")] == [Str("Add")];
    StrStepOperator(empty, "Add", ops);
    NegSumRenders(ops);
  }

  lemma NegSumRenders<V>(ops: map<string, OpEntry<V>>)
    requires "Add" in ops && ops["Add"].arity == 2 && "Neg" in ops && ops["Neg"].arity == 1 && "x" !in ops
    ensures StrStack([Str("x"), Str("Neg"), Number(Int(2)), Str("Add")], ops) == Ok(["Add(Neg(x), 2)"])
  {
    var none: seq<Item> := [];
    var e1 := none + [Str("x")];
    var e2 := e1 + [Str("Neg")];
    var e3 := e2 + [Number(Int(2))];
    var e4 := e3 + [Str("Add")];
    StrStackAppend(none, Str("x"), ops);
    StepsOfNegSum(ops);
    StrStackAppend(e1, Str("Neg"), ops);
    StrStackAppend(e2, Number(Int(2)), ops);
    StrStackAppend(e3, Str("Add"), ops);
    assert e4 == [Str("x"), Str("Neg"), Number(Int(2)), Str("Add")];
  }

  lemma StepsOfNegSum<V>(ops: map<string, OpEntry<V>>)
    requires "Add" in ops && ops["Add"].arity == 2 && "Neg" in ops && ops["Neg"].arity == 1 && "x" !in ops
    ensures StrStep([], Str("x"), ops) == Ok(["x"])
    ensures StrStep(["x"], Str("Neg"), ops) == Ok(["Neg(x)"])
    ensures StrStep(["Neg(x)"], Number(Int(2)), ops) == Ok(["Neg(x)", "2"])
    ensures StrStep(["Neg(x)", "2"], Str("Add"), ops) == Ok(["Add(Neg(x), 2)"])
  {
    var empty: seq<string> := [];
    assert !IsDigits("x") by { assert !IsDigit("x"[0]); }
    assert empty + ["x"] == ["x"];
    StepNeg(ops);
    StepTwo(ops);
    StepAdd(ops);
  }

  lemma StepNeg<V>(ops: map<string, OpEntry<V>>)
    requires "Neg" in ops && ops["Neg"].arity == 1
    ensures StrStep(["x"], Str("Neg"), ops) == Ok(["Neg(x)"])
  {
    assert !IsDigits("Neg") by { assert !IsDigit("Neg"[0]); }
    StepUnary(ops, "Neg", "x");
    assert "Neg" + "(" + "x" + ")" == "Neg(x)";
  }

  lemma StepUnary<V>(ops: map<string, OpEntry<V>>, name: string, a: string)
    requires name in ops && ops[name].arity == 1 && !IsDigits(name)
    ensures StrStep([a], Str(name), ops) == Ok([name + "(" + a + ")"])
  {
    var empty: seq<string> := [];
    var x: seq<string> := [a];
    StrStepOperator(x, name, ops);
    assert x[..0] == [] && x[0..] == x;
    assert Join(x, ", ") == a;
    assert Applied(name, x) == name + "(" + a + ")";
    assert empty + [Applied(name, x)] == [Applied(name, x)];
  }

  lemma StepTwo<V>(ops: map<string, OpEntry<V>>)
    ensures StrStep(["Neg(x)"], Number(Int(2)), ops) == Ok(["Neg(x)", "2"])
  {
    RenderTwo();
    assert ["Neg(x)"] + [RenderNum(Int(2))] == ["Neg(x)", "2"];
  }

  lemma StepAdd<V>(ops: map<string, OpEntry<V>>)
    requires "Add" in ops && ops["Add"].arity == 2
    ensures StrStep(["Neg(x)", "2"], Str("Add"), ops) == Ok(["Add(Neg(x), 2)"])
  {
    assert !IsDigits("Add") by { assert !IsDigit("Add"[0]); }
    StepBinary(ops, "Add", "Neg(x)", "2");
    assert "Add" + "(" + "Neg(x)" + ", " + "2" + ")" == "Add(Neg(x), 2)";
  }

  lemma StepBinary<V>(ops: map<string, OpEntry<V>>, name: string, a: string, b: string)
    requires name in ops && ops[name].arity == 2 && !IsDigits(name)
    ensures StrStep([a, b], Str(name), ops) == Ok([name + "(" + a + ", " + b + ")"])
  {
    var empty: seq<string> := [];
    var y: seq<string> := [a, b];
    StrStepOperator(y, name, ops);
    assert y[..0] == [] && y[0..] == y && y[1..] == [b];
    assert Join(y, ", ") == a + ", " + b;
    assert Applied(name, y) == name + "(" + a + ", " + b + ")";
    assert empty + [Applied(name, y)] == [Applied(name, y)];
  }

  lemma RenderTwo()
    ensures RenderNum(Int(2)) == "2"
  {
    assert NatToString(2) == [DigitChar(2)];
  }

  /** Appending one token to a run of `evaluate` performs one more step (or keeps the earlier error). */
  lemma EvalStackAppend<V>(expr: seq<Item>, t: Item, ops: map<string, OpEntry<V>>, variables: map<string, V>, lit: Num -> V)
    ensures EvalStack(expr + [t], ops, variables, lit) ==
      if EvalStack(expr, ops, variables, lit).Ok? then EvalStep(EvalStack(expr, ops, variables, lit).value, t, ops, variables, lit)
      else EvalStack(expr, ops, variables, lit)
  {
    assert (expr + [t])[..|expr|] == expr;
  }

  /** Appending one token to a run performs one more step (or keeps the earlier error). */
  lemma StrStackAppend<V>(expr: seq<Item>, t: Item, ops: map<string, OpEntry<V>>)
    ensures StrStack(expr + [t], ops) ==
      if StrStack(expr, ops).Ok? then StrStep(StrStack(expr, ops).value, t, ops) else StrStack(expr, ops)
  {
    assert (expr + [t])[..|expr|] == expr;
  }

  /** The run `validate_expression` is evidently meant to be: the dry run of `to_string`, ending at depth 1. */
  ghost predicate WellFormed<V>(expr: seq<Item>, ops: map<string, OpEntry<V>>) {
    StrStack(expr, ops).Ok? && |StrStack(expr, ops).value| == 1
  }

  /** The corrected dry run: a depth counter, operators checked before variables, as `to_string` does. */
  method ValidateFormal<V>(expr: seq<Item>, ops: map<string, OpEntry<V>>) returns (r: bool)
    ensures r <==> WellFormed(expr, ops)
  {
    var depth := 0;
    var i := 0;
    while i < |expr|
      invariant 0 <= i <= |expr|
      invariant StrStack(expr[..i], ops).Ok? && |StrStack(expr[..i], ops).value| == depth
    {
      var token := expr[i];
      StrStackNext(expr, i, ops);
      if token.Str? && !IsDigits(token.s) && token.s in ops {
        var arity := ops[token.s].arity;
        StrStepOperator(StrStack(expr[..i], ops).value, token.s, ops);
        if depth < arity {
          StrErrorPersists(expr, i + 1, ops);
          return false;
        }
        depth := depth - arity + 1;
      } else {
        depth := depth + 1;
      }
      i := i + 1;
    }
    assert expr[..i] == expr;
    r := depth == 1;
  }

  /**
   * A well-formed expression whose strings all resolve, with no variable named like an operator,
   * evaluates without error, and its value is the single entry left on the stack.
   */
  lemma WellFormedEvaluates<V>(expr: seq<Item>, ops: map<string, OpEntry<V>>, variables: map<string, V>, lit: Num -> V)
    requires WellFormed(expr, ops) && NoShadowing(expr, ops, variables) && Resolvable(expr, ops, variables)
    ensures Evaluation(expr, ops, Some(variables), lit).Ok?
    ensures Evaluation(expr, ops, Some(variables), lit).value == EvalStack(expr, ops, variables, lit).value[0]
    ensures |EvalStack(expr, ops, variables, lit).value| == 1
  {
    DepthTracesAgree(expr, ops, variables, lit);
  }
}
