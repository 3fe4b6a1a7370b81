/**
 * The incremental builder of expbuilder/rpnBuilder.py: a token sequence, opened by BEG, grown one
 * token at a time. Before each addition the sequence is replayed on a stack and a legality record
 * says which kinds of token may come next. The replay here is formal: it counts the stack's depth
 * and remembers the kind of the last operand or operator, and never calls an operator.
 */
module Builder {

  import opened Wrappers
  import opened Text
  import opened Literals
  import opened Op
  import opened Tokens
  import opened RPN

  // ---------------------------------------------------------------------------------------------
  // The constructor's derived fields

  /** The constructor's `strexp`: the text of every token except the sequence indicators. */
  function Mirror<V>(ts: seq<Token<V>>): seq<string> {
    if |ts| == 0 then []
    else
      var t := ts[|ts| - 1];
      Mirror(ts[..|ts| - 1]) + (if t.SequenceIndicatorToken? then [] else [Render(t)])
  }

  lemma MirrorAppend<V>(ts: seq<Token<V>>, t: Token<V>)
    ensures Mirror(ts + [t]) == Mirror(ts) + (if t.SequenceIndicatorToken? then [] else [Render(t)])
  {
    assert (ts + [t])[..|ts|] == ts;
  }

  /** The mirror lists, in order, the text of exactly the tokens that are not indicators. */
  lemma {:induction false} MirrorContents<V>(ts: seq<Token<V>>)
    ensures |Mirror(ts)| == |ts| - CountIndicators(ts)
    ensures forall s :: s in Mirror(ts) <==> exists i :: 0 <= i < |ts| && !ts[i].SequenceIndicatorToken? && Render(ts[i]) == s
  {
    if |ts| > 0 {
      var init := ts[..|ts| - 1];
      MirrorContents(init);
      forall s ensures s in Mirror(ts) <==> exists i :: 0 <= i < |ts| && !ts[i].SequenceIndicatorToken? && Render(ts[i]) == s {
        if s in Mirror(init) {
          var i :| 0 <= i < |init| && !init[i].SequenceIndicatorToken? && Render(init[i]) == s;
          assert ts[i] == init[i];
        }
        if exists i :: 0 <= i < |ts| && !ts[i].SequenceIndicatorToken? && Render(ts[i]) == s {
          var i :| 0 <= i < |ts| && !ts[i].SequenceIndicatorToken? && Render(ts[i]) == s;
          if i < |init| {
            assert init[i] == ts[i];
          }
        }
      }
    }
  }

  function CountIndicators<V>(ts: seq<Token<V>>): (n: nat)
    ensures n <= |ts|
  {
    if |ts| == 0 then 0
    else CountIndicators(ts[..|ts| - 1]) + (if ts[|ts| - 1].SequenceIndicatorToken? then 1 else 0)
  }

  /** The operator at position i belongs to category `cat`, has arity `n` and is called `name`. */
  predicate OpAt<V>(ts: seq<Token<V>>, i: int, cat: OPType, n: nat, name: string) {
    0 <= i < |ts| && ts[i].OperatorToken? && ts[i].operator.optype == cat &&
    NArgs(ts[i].operator) == n && ts[i].operator.name == name
  }

  /** `CSops` / `TSops`: the names of the category's operators, grouped by arity. */
  function OpIndex<V>(ts: seq<Token<V>>, cat: OPType): map<nat, set<string>> {
    if |ts| == 0 then map[]
    else
      var m := OpIndex(ts[..|ts| - 1], cat);
      var t := ts[|ts| - 1];
      if t.OperatorToken? && t.operator.optype == cat then
        var n := NArgs(t.operator);
        m[n := (if n in m then m[n] else {}) + {t.operator.name}]
      else m
  }

  /** `name` is filed under arity `n` in the index. */
  predicate Indexed(m: map<nat, set<string>>, n: nat, name: string) {
    n in m && name in m[n]
  }

  /** An arity is a key exactly when some operator of the category has it. */
  lemma {:induction false} OpIndexKeys<V>(ts: seq<Token<V>>, cat: OPType)
    ensures forall n :: n in OpIndex(ts, cat) <==> exists i :: 0 <= i < |ts| && ts[i].OperatorToken? && ts[i].operator.optype == cat && NArgs(ts[i].operator) == n
  {
    if |ts| > 0 {
      var init := ts[..|ts| - 1];
      OpIndexKeys(init, cat);
      assert forall i :: 0 <= i < |init| ==> init[i] == ts[i];
      forall n ensures n in OpIndex(ts, cat) <==> exists i :: 0 <= i < |ts| && ts[i].OperatorToken? && ts[i].operator.optype == cat && NArgs(ts[i].operator) == n {
        if exists i :: 0 <= i < |ts| && ts[i].OperatorToken? && ts[i].operator.optype == cat && NArgs(ts[i].operator) == n {
          var i :| 0 <= i < |ts| && ts[i].OperatorToken? && ts[i].operator.optype == cat && NArgs(ts[i].operator) == n;
          if i < |init| {
            assert init[i] == ts[i];
          }
        }
      }
    }
  }

  /** Under each arity the index holds exactly the names of the category's operators of that arity. */
  lemma {:induction false} OpIndexContents<V>(ts: seq<Token<V>>, cat: OPType)
    ensures forall n, name :: Indexed(OpIndex(ts, cat), n, name) <==> exists i :: OpAt(ts, i, cat, n, name)
  {
    if |ts| > 0 {
      var init := ts[..|ts| - 1];
      OpIndexContents(init, cat);
      var last := |ts| - 1;
      forall n, name ensures Indexed(OpIndex(ts, cat), n, name) <==> exists i :: OpAt(ts, i, cat, n, name) {
        if exists i :: OpAt(ts, i, cat, n, name) {
          var i :| OpAt(ts, i, cat, n, name);
          if i < last {
            assert init[i] == ts[i];
            assert OpAt(init, i, cat, n, name);
            assert Indexed(OpIndex(init, cat), n, name);
          } else {
            assert OpIndex(ts, cat) == OpIndex(init, cat)[n := (if n in OpIndex(init, cat) then OpIndex(init, cat)[n] else {}) + {name}];
          }
          assert Indexed(OpIndex(ts, cat), n, name);
        }
        if Indexed(OpIndex(ts, cat), n, name) {
          if Indexed(OpIndex(init, cat), n, name) {
            var i :| OpAt(init, i, cat, n, name);
            assert init[i] == ts[i];
            assert OpAt(ts, i, cat, n, name);
          } else {
            assert OpAt(ts, last, cat, n, name);
          }
        }
      }
    }
  }

  /** `MaxArity`: the largest arity among the operator tokens, 0 when there are none. */
  function MaxTokenArity<V>(ts: seq<Token<V>>): nat {
    if |ts| == 0 then 0
    else
      var m := MaxTokenArity(ts[..|ts| - 1]);
      var t := ts[|ts| - 1];
      if t.OperatorToken? && NArgs(t.operator) > m then NArgs(t.operator) else m
  }

  /** `MaxArity` bounds every operator's arity and, unless it is 0, is the arity of one of them. */
  lemma {:induction false} MaxTokenArityIsMax<V>(ts: seq<Token<V>>)
    ensures forall i :: 0 <= i < |ts| && ts[i].OperatorToken? ==> NArgs(ts[i].operator) <= MaxTokenArity(ts)
    ensures MaxTokenArity(ts) > 0 ==> exists i :: 0 <= i < |ts| && ts[i].OperatorToken? && NArgs(ts[i].operator) == MaxTokenArity(ts)
  {
    if |ts| > 0 {
      var init := ts[..|ts| - 1];
      MaxTokenArityIsMax(init);
      assert forall i :: 0 <= i < |init| ==> init[i] == ts[i];
      if MaxTokenArity(ts) > 0 && MaxTokenArity(ts) == MaxTokenArity(init) {
        var i :| 0 <= i < |init| && init[i].OperatorToken? && NArgs(init[i].operator) == MaxTokenArity(init);
        assert ts[i] == init[i];
      }
    }
  }

  // ---------------------------------------------------------------------------------------------
  // The formal replay of valid_next_token

  /** The kind of the last operand or operator token seen (`last_token`), or none yet. */
  datatype LastKind = NoneYet | LastConstant | LastDeltaTime | LastFeature | LastOperator

  /** The replay raises: `pop from empty list`, or `self.ops[name]` without that name. */
  datatype ReplayError = Underflow | UnknownOperator(name: string)

  /** One token of the replay: indicators are skipped, operands push, an operator pops `arity` and pushes one. */
  function ReplayStep<V>(s: (nat, LastKind), t: Token<V>, ops: map<string, OpEntry<V>>): Result<(nat, LastKind), ReplayError> {
    match t
    case SequenceIndicatorToken(_) => Ok(s)
    case ConstantToken(_) => Ok((s.0 + 1, LastConstant))
    case DeltaTimeToken(_) => Ok((s.0 + 1, LastDeltaTime))
    case FeatureToken(_) => Ok((s.0 + 1, LastFeature))
    case OperatorToken(op) =>
      if op.name !in ops then Err(UnknownOperator(op.name))
      else if s.0 < ops[op.name].arity then Err(Underflow)
      else Ok((s.0 - ops[op.name].arity + 1, LastOperator))
  }

  /** The stack depth and last kind after replaying the tokens (the first error ends the replay). */
  function Replay<V>(ts: seq<Token<V>>, ops: map<string, OpEntry<V>>): Result<(nat, LastKind), ReplayError> {
    if |ts| == 0 then Ok((0, NoneYet))
    else
      match Replay(ts[..|ts| - 1], ops)
      case Ok(s) => ReplayStep(s, ts[|ts| - 1], ops)
      case Err(e) => Err(e)
  }

  lemma ReplayAppend<V>(ts: seq<Token<V>>, t: Token<V>, ops: map<string, OpEntry<V>>)
    ensures Replay(ts + [t], ops) == if Replay(ts, ops).Ok? then ReplayStep(Replay(ts, ops).value, t, ops) else Replay(ts, ops)
  {
    assert (ts + [t])[..|ts|] == ts;
  }

  /** What a token does to the depth: an operand adds one, an operator of arity a adds 1 - a. */
  function Effect<V>(t: Token<V>, ops: map<string, OpEntry<V>>): int {
    match t
    case SequenceIndicatorToken(_) => 0
    case OperatorToken(op) => if op.name in ops then 1 - ops[op.name].arity else 0
    case _ => 1
  }

  /** The number of operands minus the sum of (arity - 1) over the operators. */
  function Balance<V>(ts: seq<Token<V>>, ops: map<string, OpEntry<V>>): int {
    if |ts| == 0 then 0 else Balance(ts[..|ts| - 1], ops) + Effect(ts[|ts| - 1], ops)
  }

  /** Whether some operand or operator token occurs (whether `last_token` is set). */
  predicate SeenOperand<V>(ts: seq<Token<V>>) {
    exists i :: 0 <= i < |ts| && !ts[i].SequenceIndicatorToken?
  }

  /** Every operator is in the table and finds at least `arity` entries on the stack. */
  ghost predicate Replayable<V>(ts: seq<Token<V>>, ops: map<string, OpEntry<V>>) {
    forall i :: 0 <= i < |ts| && ts[i].OperatorToken? ==>
      ts[i].operator.name in ops && Balance(ts[..i], ops) >= ops[ts[i].operator.name].arity
  }

  /**
   * The replay succeeds exactly when every operator is known and finds enough entries; its depth
   * is then the balance of operands against operator arities, and `last_token` is unset exactly
   * when only indicators were seen, in which case the depth is 0.
   */
  lemma {:induction false} ReplayCharacterised<V>(ts: seq<Token<V>>, ops: map<string, OpEntry<V>>)
    ensures Replay(ts, ops).Ok? <==> Replayable(ts, ops)
    ensures Replay(ts, ops).Ok? ==> Replay(ts, ops).value.0 == Balance(ts, ops)
    ensures Replay(ts, ops).Ok? ==> (Replay(ts, ops).value.1 == NoneYet <==> !SeenOperand(ts))
    ensures Replay(ts, ops).Ok? && Replay(ts, ops).value.1 == NoneYet ==> Replay(ts, ops).value.0 == 0
  {
    if |ts| > 0 {
      var init := ts[..|ts| - 1];
      ReplayCharacterised(init, ops);
      ReplayableInit(ts, ops);
      if Replay(init, ops).Ok? {
        SeenOperandInit(ts);
      }
    }
  }

  lemma ReplayableInit<V>(ts: seq<Token<V>>, ops: map<string, OpEntry<V>>)
    requires |ts| > 0
    ensures var t := ts[|ts| - 1];
      Replayable(ts, ops) <==>
        Replayable(ts[..|ts| - 1], ops) &&
        (t.OperatorToken? ==> t.operator.name in ops && Balance(ts[..|ts| - 1], ops) >= ops[t.operator.name].arity)
  {
    var init := ts[..|ts| - 1];
    assert forall i :: 0 <= i < |init| ==> init[i] == ts[i] && init[..i] == ts[..i];
  }

  lemma SeenOperandInit<V>(ts: seq<Token<V>>)
    requires |ts| > 0
    ensures SeenOperand(ts) <==> SeenOperand(ts[..|ts| - 1]) || !ts[|ts| - 1].SequenceIndicatorToken?
  {
    var init := ts[..|ts| - 1];
    assert forall i :: 0 <= i < |init| ==> init[i] == ts[i];
  }

  // ---------------------------------------------------------------------------------------------
  // The legality record

  /**
   * The dictionary `valid_next_token` returns: may a constant, a lag or a feature come next; the
   * largest arity a CS or TS operator may have (None for no bound); may SEP come next. The "Min"
   * entries are always None and are not kept.
   */
  datatype Legality = Legality(constant: bool, deltaTime: bool, feature: bool, csMax: Option<nat>, tsMax: Option<nat>, sep: bool)

  /**
   * The decision after the replay: depth 1 first (a complete expression: anything, CS arity 1,
   * SEP); then by the last kind: nothing seen yet, constant/feature/operator (CS arity up to the
   * depth), or a lag (a TS operator of arity up to the depth, `len(stack)`, and nothing else).
   */
  function Record(depth: nat, last: LastKind): (r: Legality)
    ensures r.sep <==> depth == 1
    ensures r.csMax.Some? ==> r.csMax.value == depth
    ensures r.tsMax.Some? ==> r.tsMax.value == depth && last == LastDeltaTime
    ensures !(r.csMax.Some? && r.tsMax.Some?)
    ensures depth != 1 && last == LastDeltaTime ==> !r.constant && !r.deltaTime && !r.feature
  {
    if depth == 1 then Legality(true, true, true, Some(1), None, true)
    else
      match last
      case NoneYet => Legality(true, false, true, None, None, false)
      case LastConstant => Legality(true, true, true, Some(depth), None, false)
      case LastFeature => Legality(true, true, true, Some(depth), None, false)
      case LastOperator => Legality(true, true, true, Some(depth), None, false)
      case LastDeltaTime => Legality(false, false, false, None, Some(depth), false)
  }

  /**
   * `valid_next_token`: replay, then decide. `MinArity4Choose` divides by `maxLen - len(tokenexp)`,
   * so the call raises when the sequence is exactly full; callers must not ask then.
   */
  function ValidNext<V>(ts: seq<Token<V>>, maxLen: int, ops: map<string, OpEntry<V>>): Result<Legality, ReplayError>
    requires |ts| != maxLen
  {
    match Replay(ts, ops)
    case Ok(s) => Ok(Record(s.0, s.1))
    case Err(e) => Err(e)
  }

  /**
   * Before any operand or operator (only BEG so far) the replay succeeds with depth 0, so the record
   * allows a constant or a feature, no lag, no operator bound and no SEP.
   */
  lemma OnlyIndicatorsRecord<V>(ts: seq<Token<V>>, maxLen: int, ops: map<string, OpEntry<V>>)
    requires |ts| != maxLen && !SeenOperand(ts)
    ensures ValidNext(ts, maxLen, ops) == Ok(Legality(true, false, true, None, None, false))
  {
    ReplayCharacterised(ts, ops);
  }

  /**
   * `add_token`'s test as written: a literal needs its flag, an indicator the SEP flag, and an
   * operator is refused only when its category has a bound and the bound is below its arity (no
   * bound admits any arity).
   */
  predicate Admits<V>(leg: Legality, t: Token<V>) {
    match t
    case ConstantToken(_) => leg.constant
    case DeltaTimeToken(_) => leg.deltaTime
    case FeatureToken(_) => leg.feature
    case SequenceIndicatorToken(_) => leg.sep
    case OperatorToken(op) =>
      var bound := if op.optype == CS then leg.csMax else leg.tsMax;
      !(bound.Some? && bound.value < NArgs(op))
  }

  /**
   * The test the record is evidently meant for (and the one the action mask applies): an operator
   * needs a bound of at least its arity; no bound admits none.
   */
  predicate AdmitsIntended<V>(leg: Legality, t: Token<V>) {
    match t
    case OperatorToken(op) =>
      var bound := if op.optype == CS then leg.csMax else leg.tsMax;
      bound.Some? && NArgs(op) <= bound.value
    case _ => Admits(leg, t)
  }

  /** The intended test only refuses more: whatever it admits, the written test admits. */
  lemma IntendedIsStricter<V>(leg: Legality, t: Token<V>)
    ensures AdmitsIntended(leg, t) ==> Admits(leg, t)
    ensures !t.OperatorToken? ==> (AdmitsIntended(leg, t) <==> Admits(leg, t))
  {
  }

  /** The token's arity in `add_token` (`n_args()`) is the one the replay will look up (`self.ops[name]`). */
  predicate ArityAgrees<V>(t: Token<V>, ops: map<string, OpEntry<V>>) {
    t.OperatorToken? ==> t.operator.name in ops && ops[t.operator.name].arity == NArgs(t.operator)
  }

  /**
   * A token the intended test admits keeps the replay from underflowing; SEP and BEG leave a
   * complete expression (depth 1) complete.
   */
  lemma IntendedAdditionSafe<V>(ts: seq<Token<V>>, t: Token<V>, ops: map<string, OpEntry<V>>)
    requires Replay(ts, ops).Ok? && ArityAgrees(t, ops)
    requires AdmitsIntended(Record(Replay(ts, ops).value.0, Replay(ts, ops).value.1), t)
    ensures Replay(ts + [t], ops).Ok?
    ensures t.SequenceIndicatorToken? ==> Replay(ts + [t], ops).value.0 == 1
  {
    ReplayAppend(ts, t, ops);
  }

  /** The sequence was grown from nothing or from BEG, every token admitted by the intended test. */
  ghost predicate GrownSafely<V>(ts: seq<Token<V>>, ops: map<string, OpEntry<V>>) {
    |ts| == 0 || ts == [BegToken()] ||
    (var init := ts[..|ts| - 1];
     var t := ts[|ts| - 1];
     GrownSafely(init, ops) && Replay(init, ops).Ok? && ArityAgrees(t, ops) &&
     AdmitsIntended(Record(Replay(init, ops).value.0, Replay(init, ops).value.1), t))
  }

  /** Every prefix replays, and every indicator after the first position meets depth 1. */
  ghost predicate PrefixesComplete<V>(ts: seq<Token<V>>, ops: map<string, OpEntry<V>>) {
    (forall k :: 0 <= k <= |ts| ==> Replay(ts[..k], ops).Ok?) &&
    (forall k :: 0 < k < |ts| && ts[k].SequenceIndicatorToken? ==>
       Replay(ts[..k], ops).Ok? && Replay(ts[..k], ops).value.0 == 1)
  }

  /** Appending one token that replays keeps the prefix property, if an indicator meets depth 1. */
  lemma PrefixesExtend<V>(init: seq<Token<V>>, t: Token<V>, ops: map<string, OpEntry<V>>)
    requires PrefixesComplete(init, ops) && Replay(init + [t], ops).Ok?
    requires |init| > 0 && t.SequenceIndicatorToken? ==> Replay(init, ops).Ok? && Replay(init, ops).value.0 == 1
    ensures PrefixesComplete(init + [t], ops)
  {
    var ts := init + [t];
    forall k | 0 <= k <= |ts|
      ensures Replay(ts[..k], ops).Ok?
    {
      if k < |ts| {
        assert ts[..k] == init[..k];
      } else {
        assert ts[..k] == ts;
      }
    }
    forall k | 0 < k < |ts| && ts[k].SequenceIndicatorToken?
      ensures Replay(ts[..k], ops).Ok? && Replay(ts[..k], ops).value.0 == 1
    {
      if k < |init| {
        assert ts[..k] == init[..k] && ts[k] == init[k];
      } else {
        assert ts[..k] == init;
      }
    }
  }

  /**
   * A sequence grown under the intended test replays at every prefix: no operator ever underflows,
   * and every indicator after the first position was accepted at depth 1 (a complete expression).
   */
  lemma {:induction false} GrownSafelyReplays<V>(ts: seq<Token<V>>, ops: map<string, OpEntry<V>>)
    requires GrownSafely(ts, ops)
    ensures PrefixesComplete(ts, ops)
  {
    var none: seq<Token<V>> := [];
    assert PrefixesComplete(none, ops) by {
      assert forall k :: 0 <= k <= 0 ==> none[..k] == none;
    }
    if ts == [BegToken()] {
      ReplayAppend(none, BegToken(), ops);
      assert none + [BegToken()] == ts;
      PrefixesExtend(none, BegToken(), ops);
    } else if |ts| > 0 {
      var init := ts[..|ts| - 1];
      var t := ts[|ts| - 1];
      GrownSafelyReplays(init, ops);
      assert init + [t] == ts;
      IntendedAdditionSafe(init, t, ops);
      PrefixesExtend(init, t, ops);
    }
  }

  /**
   * As written, a CS operator is admitted right after BEG (nothing seen, so no CS bound), and the
   * next replay pops an empty stack; the intended test refuses it.
   */
  lemma OperatorAfterBegUnderflows<V>(f: seq<V> -> V)
    ensures var add := Operator("add", CS, f, [FloatArg, IntArg]);
      var ops := map["add" := OpEntry(f, 2)];
      var ts := [BegToken<V>()];
      ValidNext(ts, 9, ops) == Ok(Legality(true, false, true, None, None, false)) &&
      Admits(ValidNext(ts, 9, ops).value, OperatorToken(add)) &&
      !AdmitsIntended(ValidNext(ts, 9, ops).value, OperatorToken(add)) &&
      Replay(ts + [OperatorToken(add)], ops) == Err(Underflow)
  {
    var ops := map["add" := OpEntry(f, 2)];
    var ts := [BegToken<V>()];
    var none: seq<Token<V>> := [];
    ReplayAppend(none, BegToken<V>(), ops);
    assert none + [BegToken<V>()] == ts;
    ReplayAppend(ts, OperatorToken(Operator("add", CS, f, [FloatArg, IntArg])), ops);
  }

  /** One admitted token extends a safely grown sequence. */
  lemma GrownSafelyAppend<V>(ts: seq<Token<V>>, t: Token<V>, ops: map<string, OpEntry<V>>)
    requires GrownSafely(ts, ops) && Replay(ts, ops).Ok? && ArityAgrees(t, ops)
    requires AdmitsIntended(Record(Replay(ts, ops).value.0, Replay(ts, ops).value.1), t)
    ensures GrownSafely(ts + [t], ops)
  {
    assert (ts + [t])[..|ts|] == ts;
  }

  /** The tokens of the module's demonstration: `BEG 3 $close add 1 ref`. */
  function DemoTokens<V>(add: seq<V> -> V, ref: seq<V> -> V): seq<Token<V>> {
    [BegToken(), ConstantToken(Int(3)), FeatureToken("close"),
     OperatorToken(Operator("add", CS, add, [FloatArg, IntArg])), DeltaTimeToken(1),
     OperatorToken(Operator("ref", TS, ref, [FloatArg, IntArg]))]
  }

  /**
   * The demonstration sequence could have been grown token by token under the intended test. Its
   * lag step relies on the TS bound being the whole depth (2 after `1`), not one less. The sequence
   * is a complete expression, so the formal replay admits the demo's final
   * `add_token(ConstantToken(3))`; the source's value-mode replay raises `KeyError` there instead,
   * because `FeatureToken("close").Val({'$close': 6})` looks up `close`.
   */
  lemma DemoBuilds<V>(add: seq<V> -> V, ref: seq<V> -> V)
    ensures var ops := map["add" := OpEntry(add, 2), "ref" := OpEntry(ref, 2)];
      GrownSafely(DemoTokens(add, ref), ops) &&
      Replay(DemoTokens(add, ref)[..5], ops) == Ok((2, LastDeltaTime)) &&
      Record(2, LastDeltaTime).tsMax == Some(2) &&
      Replay(DemoTokens(add, ref), ops) == Ok((1, LastOperator)) &&
      AddOutcomeOf(DemoTokens(add, ref), 9, ops, ConstantToken(Int(3))) == Appended
  {
    var ops := map["add" := OpEntry(add, 2), "ref" := OpEntry(ref, 2)];
    var ts := DemoTokens(add, ref);
    var e3 := ts[..3];
    DemoOperands(add, ref);
    var e4 := e3 + [ts[3]];
    ReplayAppend(e3, ts[3], ops);
    GrownSafelyAppend(e3, ts[3], ops);
    var e5 := e4 + [ts[4]];
    ReplayAppend(e4, ts[4], ops);
    GrownSafelyAppend(e4, ts[4], ops);
    ReplayAppend(e5, ts[5], ops);
    GrownSafelyAppend(e5, ts[5], ops);
    assert e5 + [ts[5]] == ts;
    assert ts[..5] == e5;
  }

  /** The demonstration's first three tokens `BEG 3 $close` grow safely and leave two operands. */
  lemma DemoOperands<V>(add: seq<V> -> V, ref: seq<V> -> V)
    ensures var ops := map["add" := OpEntry(add, 2), "ref" := OpEntry(ref, 2)];
      GrownSafely(DemoTokens(add, ref)[..3], ops) && Replay(DemoTokens(add, ref)[..3], ops) == Ok((2, LastFeature))
  {
    var ops := map["add" := OpEntry(add, 2), "ref" := OpEntry(ref, 2)];
    var ts := DemoTokens(add, ref);
    var e1 := [ts[0]];
    assert GrownSafely(e1, ops);
    var none: seq<Token<V>> := [];
    ReplayAppend(none, ts[0], ops);
    assert none + [ts[0]] == e1;
    var e2 := e1 + [ts[1]];
    ReplayAppend(e1, ts[1], ops);
    GrownSafelyAppend(e1, ts[1], ops);
    ReplayAppend(e2, ts[2], ops);
    GrownSafelyAppend(e2, ts[2], ops);
    assert e2 + [ts[2]] == ts[..3];
  }

  // ---------------------------------------------------------------------------------------------
  // Operator records and feature values on the stack machine

  /**
   * An `ops` entry built from an operator record (`(op.eval, op.n_args())`) makes the stack
   * machine's operator step an `eval` call: too few entries underflow; otherwise the top
   * `n_args()` entries, in their original order, are passed to `eval` and replaced by its result.
   * The premise is the caller's: the constructor merges the `default_ops`/`custom_ops` it is given,
   * and the demo supplies `"add": (add, 2)` beside `Operator(name="add", callable=add, ...)`.
   */
  lemma EvalStepCallsEval<V>(op: Operator<V>, stack: seq<V>, ops: map<string, OpEntry<V>>, variables: map<string, V>, lit: Num -> V)
    requires !IsDigits(op.name) && op.name !in variables
    requires op.name in ops && ops[op.name] == OpEntry(op.callable, NArgs(op))
    ensures |stack| < |op.argTypeList| ==> EvalStep(stack, Str(op.name), ops, variables, lit) == Err(StackUnderflow)
    ensures |op.argTypeList| <= |stack| ==>
      var k := |stack| - |op.argTypeList|;
      EvalStep(stack, Str(op.name), ops, variables, lit) == Ok(stack[..k] + [Eval(op, stack[k..])])
  {
    EvalStepOperator(stack, op.name, ops, variables, lit);
  }

  /**
   * The written `FeatureToken.Val` never reads the key the rendered expression uses: a feature's
   * text is never its raw name, so a binding keyed by that text is missed. The keyed lookup is the
   * one the stack machine performs on the mirror entry of the token: when no operator shares that
   * text, evaluating it succeeds exactly when the keyed lookup does, with the same value.
   */
  lemma FeatureKeyMatchesEvaluation<V>(t: Token<V>, kwargs: map<string, V>, ops: map<string, OpEntry<V>>, lit: Num -> V)
    requires t.FeatureToken? && Render(t) !in ops
    ensures Render(t) != t.feature
    ensures Render(t) in kwargs ==> FeatureVal(t, map[Render(t) := kwargs[Render(t)]]) == None
    ensures FeatureValByKey(t, kwargs).Some? <==> Evaluation([Str(Render(t))], ops, Some(kwargs), lit).Ok?
    ensures FeatureValByKey(t, kwargs).Some? ==>
      Evaluation([Str(Render(t))], ops, Some(kwargs), lit) == Ok(FeatureValByKey(t, kwargs).value)
  {
    RenderFeature<V>(t.feature);
    var none: seq<Item> := [];
    EvalStackAppend(none, Str(Render(t)), ops, kwargs, lit);
    assert none + [Str(Render(t))] == [Str(Render(t))];
  }

  // ---------------------------------------------------------------------------------------------
  // The builder

  /** `add_token` raises: the sequence is full, the replay raised, or the token is not admitted. */
  datatype AddError = Full | ReplayFailed(cause: ReplayError) | Invalid

  /** What `add_token` does with a token: append it, or raise. */
  datatype AddOutcome = Appended | Rejected(error: AddError)

  /** The outcome of `add_token(token)` on a sequence: full first, then the replay, then the test. */
  function AddOutcomeOf<V>(ts: seq<Token<V>>, maxLen: int, ops: map<string, OpEntry<V>>, t: Token<V>): AddOutcome {
    if |ts| >= maxLen then Rejected(Full)
    else
      match ValidNext(ts, maxLen, ops)
      case Err(e) => Rejected(ReplayFailed(e))
      case Ok(leg) => if Admits(leg, t) then Appended else Rejected(Invalid)
  }

  class RPNBuilder<V> {
    /** `tokenexp`: the tokens, indicators included. */
    var tokenexp: seq<Token<V>>
    /** `expression`: the texts of the non-indicator tokens, the list the RPN base class reads. */
    var expression: seq<string>
    var maxLen: int
    /** `CSops` / `TSops`: operator names by arity, from the initial tokens. */
    var csOps: map<nat, set<string>>
    var tsOps: map<nat, set<string>>
    var maxArity: nat
    /** `self.ops`: the operator table of the base class. */
    var ops: map<string, OpEntry<V>>

    /** The mirror is the text of the non-indicator tokens. */
    ghost predicate Valid()
      reads this
    {
      expression == Mirror(tokenexp)
    }

    /** `RPNBuilder.__init__`: one pass over the tokens fills the mirror, the operator index and the arity maximum. */
    constructor (tokens: seq<Token<V>>, defaultOps: map<string, OpEntry<V>>, maxLength: int, customOps: Option<map<string, OpEntry<V>>>)
      ensures Valid()
      ensures tokenexp == tokens && maxLen == maxLength
      ensures csOps == OpIndex(tokens, CS) && tsOps == OpIndex(tokens, TS)
      ensures maxArity == MaxTokenArity(tokens)
      ensures ops == MergeOps(defaultOps, customOps)
    {
      var strexp: seq<string> := [];
      var cs: map<nat, set<string>> := map[];
      var tsm: map<nat, set<string>> := map[];
      var m: nat := 0;
      var i := 0;
      while i < |tokens|
        invariant 0 <= i <= |tokens|
        invariant strexp == Mirror(tokens[..i])
        invariant cs == OpIndex(tokens[..i], CS) && tsm == OpIndex(tokens[..i], TS)
        invariant m == MaxTokenArity(tokens[..i])
      {
        var t := tokens[i];
        assert tokens[..i + 1][..i] == tokens[..i];
        if !t.SequenceIndicatorToken? {
          strexp := strexp + [Render(t)];
        }
        if t.OperatorToken? {
          var n := NArgs(t.operator);
          if t.operator.optype == CS {
            if n !in cs {
              cs := cs[n := {}];
            }
            cs := cs[n := cs[n] + {t.operator.name}];
          } else {
            if n !in tsm {
              tsm := tsm[n := {}];
            }
            tsm := tsm[n := tsm[n] + {t.operator.name}];
          }
          if n > m {
            m := n;
          }
        }
        i := i + 1;
      }
      assert tokens[..i] == tokens;
      tokenexp := tokens;
      expression := strexp;
      maxLen := maxLength;
      csOps := cs;
      tsOps := tsm;
      maxArity := m;
      ops := MergeOps(defaultOps, customOps);
    }

    /** `valid_next_token`: the replay loop over `tokenexp`, then the record. */
    method ValidNextToken() returns (r: Result<Legality, ReplayError>)
      requires |tokenexp| != maxLen
      ensures r == ValidNext(tokenexp, maxLen, ops)
    {
      var depth: nat := 0;
      var last := NoneYet;
      var i := 0;
      while i < |tokenexp|
        invariant 0 <= i <= |tokenexp|
        invariant Replay(tokenexp[..i], ops) == Ok((depth, last))
      {
        var t := tokenexp[i];
        assert tokenexp[..i + 1] == tokenexp[..i] + [t];
        ReplayAppend(tokenexp[..i], t, ops);
        match t {
          case SequenceIndicatorToken(_) =>
          case ConstantToken(_) =>
            depth, last := depth + 1, LastConstant;
          case DeltaTimeToken(_) =>
            depth, last := depth + 1, LastDeltaTime;
          case FeatureToken(_) =>
            depth, last := depth + 1, LastFeature;
          case OperatorToken(op) =>
            if op.name !in ops {
              ReplayErrorPersists(tokenexp, i + 1, ops);
              return Err(UnknownOperator(op.name));
            }
            var arity := ops[op.name].arity;
            if depth < arity {
              ReplayErrorPersists(tokenexp, i + 1, ops);
              return Err(Underflow);
            }
            depth, last := depth - arity + 1, LastOperator;
        }
        i := i + 1;
      }
      assert tokenexp[..i] == tokenexp;
      r := Ok(Record(depth, last));
    }

    /**
     * `add_token(token)`: refuses when full, otherwise consults the record; an admitted token is
     * appended to `tokenexp`, and its text to `expression` unless it is an indicator; a refused
     * token changes nothing.
     */
    method AddToken(t: Token<V>) returns (r: AddOutcome)
      modifies this
      ensures r == AddOutcomeOf(old(tokenexp), old(maxLen), old(ops), t)
      ensures r == Appended ==> tokenexp == old(tokenexp) + [t]
      ensures r == Appended ==> expression == old(expression) + (if t.SequenceIndicatorToken? then [] else [Render(t)])
      ensures r != Appended ==> tokenexp == old(tokenexp) && expression == old(expression)
      ensures maxLen == old(maxLen) && ops == old(ops) && maxArity == old(maxArity)
      ensures csOps == old(csOps) && tsOps == old(tsOps)
      ensures old(Valid()) ==> Valid()
    {
      if |tokenexp| >= maxLen {
        return Rejected(Full);
      }
      var vnt := ValidNextToken();
      if vnt.Err? {
        return Rejected(ReplayFailed(vnt.error));
      }
      var leg := vnt.value;
      var admitted: bool;
      match t {
        case ConstantToken(_) => admitted := leg.constant;
        case DeltaTimeToken(_) => admitted := leg.deltaTime;
        case FeatureToken(_) => admitted := leg.feature;
        case OperatorToken(op) =>
          if op.optype == CS {
            admitted := !(leg.csMax.Some? && leg.csMax.value < NArgs(op));
          } else {
            admitted := !(leg.tsMax.Some? && leg.tsMax.value < NArgs(op));
          }
        case SequenceIndicatorToken(_) => admitted := leg.sep;
      }
      if !admitted {
        return Rejected(Invalid);
      }
      MirrorAppend(tokenexp, t);
      tokenexp := tokenexp + [t];
      if !t.SequenceIndicatorToken? {
        expression := expression + [Render(t)];
      }
      return Appended;
    }
  }

  lemma {:induction false} ReplayErrorPersists<V>(ts: seq<Token<V>>, i: nat, ops: map<string, OpEntry<V>>)
    requires i <= |ts| && Replay(ts[..i], ops).Err?
    ensures Replay(ts, ops) == Replay(ts[..i], ops)
    decreases |ts| - i
  {
    if i < |ts| {
      assert ts[..i + 1][..i] == ts[..i];
      ReplayErrorPersists(ts, i + 1, ops);
    } else {
      assert ts[..i] == ts;
    }
  }
}
