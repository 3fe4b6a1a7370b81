/**
 * The action catalog of the builder's environment and its mask: the helpers `GetArityDict`,
 * `GetActionSpace`, `MaskOPSpace` and `MaskActionSpace`. expbuilder/test_rpnBuilder.py imports
 * them from expbuilder/rpnBuilder.py, which does not define them; they are specified here by what
 * those tests assert.
 */
module ActionSpace {

  import opened Wrappers
  import opened Text
  import opened Literals
  import opened Op
  import opened Tokens
  import opened RPN
  import opened Builder

  // ---------------------------------------------------------------------------------------------
  // GetArityDict

  /** The names of the operators with arity `a`, in table order. */
  function NamesOfArity(ops: seq<(string, nat)>, a: nat): seq<string> {
    if |ops| == 0 then []
    else NamesOfArity(ops[..|ops| - 1], a) + (if ops[|ops| - 1].1 == a then [ops[|ops| - 1].0] else [])
  }

  /** `GetArityDict`: operator names grouped by arity; the table is given as its (name, arity) items in order. */
  function GetArityDict(ops: seq<(string, nat)>): map<nat, seq<string>> {
    if |ops| == 0 then map[]
    else
      var m := GetArityDict(ops[..|ops| - 1]);
      var a := ops[|ops| - 1].1;
      m[a := (if a in m then m[a] else []) + [ops[|ops| - 1].0]]
  }

  /**
   * An arity is a key exactly when some operator has it, and its group lists that arity's
   * operators in the order of the table.
   */
  lemma {:induction false} GetArityDictGroups(ops: seq<(string, nat)>)
    ensures forall a :: a in GetArityDict(ops) <==> NamesOfArity(ops, a) != []
    ensures forall a :: a in GetArityDict(ops) ==> GetArityDict(ops)[a] == NamesOfArity(ops, a)
  {
    if |ops| > 0 {
      GetArityDictGroups(ops[..|ops| - 1]);
    }
  }

  /** Every name of the table is filed under its own arity. */
  lemma {:induction false} NamesOfArityContents(ops: seq<(string, nat)>, a: nat)
    ensures forall name :: name in NamesOfArity(ops, a) <==> exists i :: 0 <= i < |ops| && ops[i] == (name, a)
  {
    if |ops| > 0 {
      var init := ops[..|ops| - 1];
      NamesOfArityContents(init, a);
      forall name ensures name in NamesOfArity(ops, a) <==> exists i :: 0 <= i < |ops| && ops[i] == (name, a) {
        if name in NamesOfArity(init, a) {
          var i :| 0 <= i < |init| && init[i] == (name, a);
          assert ops[i] == init[i];
        }
        if exists i :: 0 <= i < |ops| && ops[i] == (name, a) {
          var i :| 0 <= i < |ops| && ops[i] == (name, a);
          if i < |init| {
            assert init[i] == ops[i];
          }
        }
      }
    }
  }

  /** The tests' tables: `{}` gives `{}`; `+`, `neg`, `sum3`, `-` give `{2: [+, -], 1: [neg], 3: [sum3]}`. */
  lemma ArityDictExamples()
    ensures GetArityDict([]) == map[]
    ensures GetArityDict([("+", 2), ("neg", 1), ("sum3", 3), ("-", 2)]) == map[2 := ["+", "-"], 1 := ["neg"], 3 := ["sum3"]]
  {
    var ops: seq<(string, nat)> := [("+", 2), ("neg", 1), ("sum3", 3), ("-", 2)];
    var e0: seq<(string, nat)> := [];
    var e1, e2, e3 := ops[..1], ops[..2], ops[..3];
    assert e3[..2] == e2 && e2[..1] == e1 && e1[..0] == e0;
    var none: seq<string> := [];
    var m0: map<nat, seq<string>> := map[];
    assert GetArityDict(e0) == m0;
    var m1 := m0[2 := ["+"]];
    assert e1[0] == ("+", 2) && none + ["+"] == ["+"];
    assert GetArityDict(e1) == m1;
    var m2 := m1[1 := ["neg"]];
    assert e2[1] == ("neg", 1) && 1 !in m1 && none + ["neg"] == ["neg"];
    assert GetArityDict(e2) == m2;
    var m3 := m2[3 := ["sum3"]];
    assert e3[2] == ("sum3", 3) && 3 !in m2 && none + ["sum3"] == ["sum3"];
    assert GetArityDict(e3) == m3;
    assert ops[3] == ("-", 2) && ops[..3] == e3 && 2 in m3 && m3[2] + ["-"] == ["+", "-"];
  }

  // ---------------------------------------------------------------------------------------------
  // The catalog

  /** One entry of the catalog. */
  datatype Action =
    | ConstantAction(c: Num)
    | FeatureAction(f: string)
    | DeltaTimeAction(d: int)
    | CSAction(cs: string)
    | TSAction(ts: string)
    | SepAction

  /** A group that may be `None`, which counts as empty. */
  function Group<T>(g: Option<seq<T>>): seq<T> {
    if g.Some? then g.value else []
  }

  function ConstantActions(c: seq<Num>): (r: seq<Action>)
    ensures |r| == |c|
  {
    if |c| == 0 then [] else [ConstantAction(c[0])] + ConstantActions(c[1..])
  }

  function FeatureActions(f: seq<string>): (r: seq<Action>)
    ensures |r| == |f|
  {
    if |f| == 0 then [] else [FeatureAction(f[0])] + FeatureActions(f[1..])
  }

  function DeltaTimeActions(d: seq<int>): (r: seq<Action>)
    ensures |r| == |d|
  {
    if |d| == 0 then [] else [DeltaTimeAction(d[0])] + DeltaTimeActions(d[1..])
  }

  function CSActions(names: seq<string>): (r: seq<Action>)
    ensures |r| == |names|
  {
    if |names| == 0 then [] else [CSAction(names[0])] + CSActions(names[1..])
  }

  function TSActions(names: seq<string>): (r: seq<Action>)
    ensures |r| == |names|
  {
    if |names| == 0 then [] else [TSAction(names[0])] + TSActions(names[1..])
  }

  /** The catalog in order: constants, features, lags, CS operators, TS operators, then SEP. */
  function Catalog(constants: Option<seq<Num>>, features: Option<seq<string>>, deltaTimes: Option<seq<int>>,
                   csOperators: Option<seq<string>>, tsOperators: Option<seq<string>>): seq<Action> {
    ConstantActions(Group(constants)) + FeatureActions(Group(features)) + DeltaTimeActions(Group(deltaTimes)) +
    CSActions(Group(csOperators)) + TSActions(Group(tsOperators)) + [SepAction]
  }

  /** The text of a catalog entry: numbers as `str()` writes them, names unchanged. */
  function ActionText(a: Action): string {
    match a
    case ConstantAction(c) => RenderNum(c)
    case FeatureAction(f) => f
    case DeltaTimeAction(d) => IntToString(d)
    case CSAction(name) => name
    case TSAction(name) => name
    case SepAction => "SEP"
  }

  /** The text of each catalog entry. */
  function Texts(cat: seq<Action>): (r: seq<string>)
    ensures |r| == |cat|
  {
    if |cat| == 0 then [] else [ActionText(cat[0])] + Texts(cat[1..])
  }

  lemma {:induction false} TextsConcat(a: seq<Action>, b: seq<Action>)
    ensures Texts(a + b) == Texts(a) + Texts(b)
  {
    if |a| > 0 {
      assert (a + b)[1..] == a[1..] + b && (a + b)[0] == a[0];
      TextsConcat(a[1..], b);
    } else {
      assert a + b == b;
    }
  }

  /** The text of each constant. */
  function ConstantTexts(c: seq<Num>): (r: seq<string>)
    ensures |r| == |c|
  {
    if |c| == 0 then [] else [RenderNum(c[0])] + ConstantTexts(c[1..])
  }

  /** The text of each lag. */
  function DeltaTimeTexts(d: seq<int>): (r: seq<string>)
    ensures |r| == |d|
  {
    if |d| == 0 then [] else [IntToString(d[0])] + DeltaTimeTexts(d[1..])
  }

  /** Constants enter the catalog as their text. */
  lemma {:induction false} ConstantGroupTexts(c: seq<Num>)
    ensures Texts(ConstantActions(c)) == ConstantTexts(c)
  {
    if |c| > 0 {
      ConstantGroupTexts(c[1..]);
    }
  }

  /** Lags enter the catalog as their text. */
  lemma {:induction false} DeltaTimeGroupTexts(d: seq<int>)
    ensures Texts(DeltaTimeActions(d)) == DeltaTimeTexts(d)
  {
    if |d| > 0 {
      DeltaTimeGroupTexts(d[1..]);
    }
  }

  /** Feature and operator names enter the catalog unchanged. */
  lemma {:induction false} NameGroupTexts(names: seq<string>)
    ensures Texts(FeatureActions(names)) == names
    ensures Texts(CSActions(names)) == names
    ensures Texts(TSActions(names)) == names
  {
    if |names| > 0 {
      NameGroupTexts(names[1..]);
      assert names == [names[0]] + names[1..];
    }
  }

  /**
   * `GetActionSpace`: each group's entries in turn (a `None` group counts as empty), then "SEP";
   * constants and lags as their text, feature and operator names as given.
   */
  function GetActionSpace(constants: Option<seq<Num>>, features: Option<seq<string>>, deltaTimes: Option<seq<int>>,
                          csOperators: Option<seq<string>>, tsOperators: Option<seq<string>>): (r: seq<string>)
    ensures r == ConstantTexts(Group(constants)) + Group(features) + DeltaTimeTexts(Group(deltaTimes)) +
                 Group(csOperators) + Group(tsOperators) + ["SEP"]
    ensures |r| == |Group(constants)| + |Group(features)| + |Group(deltaTimes)| + |Group(csOperators)| + |Group(tsOperators)| + 1
  {
    var c, f, d := ConstantActions(Group(constants)), FeatureActions(Group(features)), DeltaTimeActions(Group(deltaTimes));
    var cs, ts := CSActions(Group(csOperators)), TSActions(Group(tsOperators));
    var cf, cfd := c + f, c + f + d;
    var cfdcs, all := cfd + cs, cfd + cs + ts;
    TextsConcat(c, f);
    TextsConcat(cf, d);
    TextsConcat(cfd, cs);
    TextsConcat(cfdcs, ts);
    TextsConcat(all, [SepAction]);
    ConstantGroupTexts(Group(constants));
    NameGroupTexts(Group(features));
    DeltaTimeGroupTexts(Group(deltaTimes));
    NameGroupTexts(Group(csOperators));
    NameGroupTexts(Group(tsOperators));
    assert Catalog(constants, features, deltaTimes, csOperators, tsOperators) == all + [SepAction];
    Texts(all + [SepAction])
  }

  /** The texts of the tests' numbers. */
  lemma NumberTexts()
    ensures ConstantTexts([Float(10, 1), Float(20, 1)]) == ["1.0", "2.0"]
    ensures ConstantTexts([Float(10, 1)]) == ["1.0"]
    ensures DeltaTimeTexts([1, 2]) == ["1", "2"]
    ensures DeltaTimeTexts([1]) == ["1"]
  {
    FloatTexts();
    assert RenderNum(Float(20, 1)) == "2.0" by {
      assert Canon(20, 1) == (2, 0);
      assert NatToString(2) == "2";
    }
    assert IntToString(1) == "1" && IntToString(2) == "2";
    assert [Float(10, 1), Float(20, 1)][1..] == [Float(20, 1)];
    assert [1, 2][1..] == [2];
  }

  /** The tests' catalogs: nothing gives `[SEP]`; one entry per group gives `1.0 $feature1 1 + ref SEP`. */
  lemma ActionSpaceExamples()
    ensures GetActionSpace(None, None, None, None, None) == ["SEP"]
    ensures GetActionSpace(Some([Float(10, 1), Float(20, 1)]), None, None, None, None) == ["1.0", "2.0", "SEP"]
    ensures GetActionSpace(None, Some(["$feature1", "$feature2"]), None, None, None) == ["$feature1", "$feature2", "SEP"]
    ensures GetActionSpace(None, None, Some([1, 2]), None, None) == ["1", "2", "SEP"]
    ensures GetActionSpace(None, None, None, Some(["+", "-"]), Some(["ref"])) == ["+", "-", "ref", "SEP"]
    ensures GetActionSpace(Some([Float(10, 1)]), Some(["$feature1"]), Some([1]), Some(["+"]), Some(["ref"])) ==
      ["1.0", "$feature1", "1", "+", "ref", "SEP"]
  {
    NumberTexts();
    var none: seq<string> := [];
    assert ConstantTexts([]) == none && DeltaTimeTexts([]) == none;
  }

  // ---------------------------------------------------------------------------------------------
  // The masks

  /** An operator of arity `a` may come next under `bound`: a bound is needed, and the arity must be within it. */
  predicate WithinBound(bound: Option<nat>, a: nat) {
    bound.Some? && a <= bound.value
  }

  /** Every name has an arity in the table. */
  predicate AllKnown(arity: map<string, nat>, names: seq<string>) {
    forall i :: 0 <= i < |names| ==> names[i] in arity
  }

  /** `MaskOPSpace`: one entry per operator, True exactly when its arity is within the bound. */
  function MaskOPSpace(arity: map<string, nat>, bound: Option<nat>, operators: seq<string>): (r: seq<bool>)
    requires AllKnown(arity, operators)
    ensures |r| == |operators|
    ensures forall i :: 0 <= i < |operators| ==> (r[i] <==> bound.Some? && arity[operators[i]] <= bound.value)
    ensures bound.None? ==> forall i :: 0 <= i < |r| ==> !r[i]
  {
    if |operators| == 0 then []
    else [WithinBound(bound, arity[operators[0]])] + MaskOPSpace(arity, bound, operators[1..])
  }

  /** The tests' operator masks, bound 2 or none. */
  lemma MaskOPSpaceExamples()
    ensures MaskOPSpace(map[], Some(2), []) == []
    ensures MaskOPSpace(map["+" := 2], Some(2), ["+"]) == [true]
    ensures MaskOPSpace(map["+" := 3], Some(2), ["+"]) == [false]
    ensures MaskOPSpace(map["+" := 2, "-" := 2], Some(2), ["+", "-"]) == [true, true]
    ensures MaskOPSpace(map["+" := 2, "-" := 3], Some(2), ["+", "-"]) == [true, false]
    ensures MaskOPSpace(map["+" := 3, "-" := 4], Some(2), ["+", "-"]) == [false, false]
    ensures MaskOPSpace(map["+" := 2, "-" := 3], None, ["+", "-"]) == [false, false]
  {
  }

  /** Whether a catalog entry may come next under the legality record. */
  predicate Allowed(valid: Legality, arity: map<string, nat>, a: Action) {
    match a
    case ConstantAction(_) => valid.constant
    case FeatureAction(_) => valid.feature
    case DeltaTimeAction(_) => valid.deltaTime
    case CSAction(name) => name in arity && WithinBound(valid.csMax, arity[name])
    case TSAction(name) => name in arity && WithinBound(valid.tsMax, arity[name])
    case SepAction => valid.sep
  }

  /** The flag of each catalog entry. */
  function Flags(valid: Legality, arity: map<string, nat>, cat: seq<Action>): (r: seq<bool>)
    ensures |r| == |cat|
  {
    if |cat| == 0 then [] else [Allowed(valid, arity, cat[0])] + Flags(valid, arity, cat[1..])
  }

  lemma {:induction false} FlagsConcat(valid: Legality, arity: map<string, nat>, a: seq<Action>, b: seq<Action>)
    ensures Flags(valid, arity, a + b) == Flags(valid, arity, a) + Flags(valid, arity, b)
  {
    if |a| > 0 {
      assert (a + b)[1..] == a[1..] + b && (a + b)[0] == a[0];
      FlagsConcat(valid, arity, a[1..], b);
    } else {
      assert a + b == b;
    }
  }

  /** n copies of a flag. */
  function Repeat(b: bool, n: nat): (r: seq<bool>)
    ensures |r| == n && forall i :: 0 <= i < n ==> r[i] == b
  {
    if n == 0 then [] else [b] + Repeat(b, n - 1)
  }

  /** Literal groups copy their class flag. */
  lemma {:induction false} ConstantGroupFlags(valid: Legality, arity: map<string, nat>, c: seq<Num>)
    ensures Flags(valid, arity, ConstantActions(c)) == Repeat(valid.constant, |c|)
  {
    if |c| > 0 {
      ConstantGroupFlags(valid, arity, c[1..]);
    }
  }

  lemma {:induction false} FeatureGroupFlags(valid: Legality, arity: map<string, nat>, f: seq<string>)
    ensures Flags(valid, arity, FeatureActions(f)) == Repeat(valid.feature, |f|)
  {
    if |f| > 0 {
      FeatureGroupFlags(valid, arity, f[1..]);
    }
  }

  lemma {:induction false} DeltaTimeGroupFlags(valid: Legality, arity: map<string, nat>, d: seq<int>)
    ensures Flags(valid, arity, DeltaTimeActions(d)) == Repeat(valid.deltaTime, |d|)
  {
    if |d| > 0 {
      DeltaTimeGroupFlags(valid, arity, d[1..]);
    }
  }

  /** Operator groups are masked with their class bound. */
  lemma {:induction false} OperatorGroupFlags(valid: Legality, arity: map<string, nat>, names: seq<string>)
    requires AllKnown(arity, names)
    ensures Flags(valid, arity, CSActions(names)) == MaskOPSpace(arity, valid.csMax, names)
    ensures Flags(valid, arity, TSActions(names)) == MaskOPSpace(arity, valid.tsMax, names)
  {
    if |names| > 0 {
      var rest := names[1..];
      assert AllKnown(arity, rest) by {
        assert forall i :: 0 <= i < |rest| ==> rest[i] == names[i + 1];
      }
      OperatorGroupFlags(valid, arity, rest);
    }
  }

  /** Every operator of the catalog has an arity in the table. */
  predicate ArityKnown(arity: map<string, nat>, csOperators: Option<seq<string>>, tsOperators: Option<seq<string>>) {
    AllKnown(arity, Group(csOperators)) && AllKnown(arity, Group(tsOperators))
  }

  /**
   * `MaskActionSpace`: one flag per catalog entry, aligned with `GetActionSpace`. Literal entries
   * copy their class flag, each operator group is masked by `MaskOPSpace` with its class bound, and
   * the last entry is the SEP flag.
   */
  function MaskActionSpace(constants: Option<seq<Num>>, features: Option<seq<string>>, deltaTimes: Option<seq<int>>,
                           csOperators: Option<seq<string>>, tsOperators: Option<seq<string>>,
                           arity: map<string, nat>, valid: Legality): (r: seq<bool>)
    requires ArityKnown(arity, csOperators, tsOperators)
    ensures r == Repeat(valid.constant, |Group(constants)|) + Repeat(valid.feature, |Group(features)|) +
                 Repeat(valid.deltaTime, |Group(deltaTimes)|) + MaskOPSpace(arity, valid.csMax, Group(csOperators)) +
                 MaskOPSpace(arity, valid.tsMax, Group(tsOperators)) + [valid.sep]
  {
    var c, f, d := ConstantActions(Group(constants)), FeatureActions(Group(features)), DeltaTimeActions(Group(deltaTimes));
    var cs, ts := CSActions(Group(csOperators)), TSActions(Group(tsOperators));
    var cf, cfd := c + f, c + f + d;
    var cfdcs, all := cfd + cs, cfd + cs + ts;
    FlagsConcat(valid, arity, c, f);
    FlagsConcat(valid, arity, cf, d);
    FlagsConcat(valid, arity, cfd, cs);
    FlagsConcat(valid, arity, cfdcs, ts);
    FlagsConcat(valid, arity, all, [SepAction]);
    ConstantGroupFlags(valid, arity, Group(constants));
    FeatureGroupFlags(valid, arity, Group(features));
    DeltaTimeGroupFlags(valid, arity, Group(deltaTimes));
    OperatorGroupFlags(valid, arity, Group(csOperators));
    OperatorGroupFlags(valid, arity, Group(tsOperators));
    assert Catalog(constants, features, deltaTimes, csOperators, tsOperators) == all + [SepAction];
    Flags(valid, arity, all + [SepAction])
  }

  /** The mask has one flag per catalog entry, SEP's flag last. */
  lemma MaskAligned(constants: Option<seq<Num>>, features: Option<seq<string>>, deltaTimes: Option<seq<int>>,
                    csOperators: Option<seq<string>>, tsOperators: Option<seq<string>>,
                    arity: map<string, nat>, valid: Legality)
    requires ArityKnown(arity, csOperators, tsOperators)
    ensures var r := MaskActionSpace(constants, features, deltaTimes, csOperators, tsOperators, arity, valid);
      var space := GetActionSpace(constants, features, deltaTimes, csOperators, tsOperators);
      |r| == |space| && space[|space| - 1] == "SEP" && r[|r| - 1] == valid.sep
  {
  }

  /**
   * The mask agrees with the builder's intended admission test: a literal entry or SEP is allowed
   * exactly when the token is admitted, and an operator entry exactly when any operator token of
   * that name, class and arity is.
   */
  lemma MaskIsIntendedAdmission<V>(valid: Legality, arity: map<string, nat>, t: Token<V>)
    requires t.OperatorToken? ==> t.operator.name in arity && arity[t.operator.name] == NArgs(t.operator)
    ensures t.ConstantToken? ==> (Allowed(valid, arity, ConstantAction(t.constant)) <==> AdmitsIntended(valid, t))
    ensures t.FeatureToken? ==> (Allowed(valid, arity, FeatureAction(t.feature)) <==> AdmitsIntended(valid, t))
    ensures t.DeltaTimeToken? ==> (Allowed(valid, arity, DeltaTimeAction(t.deltaTime)) <==> AdmitsIntended(valid, t))
    ensures t.OperatorToken? && t.operator.optype == CS ==> (Allowed(valid, arity, CSAction(t.operator.name)) <==> AdmitsIntended(valid, t))
    ensures t.OperatorToken? && t.operator.optype == TS ==> (Allowed(valid, arity, TSAction(t.operator.name)) <==> AdmitsIntended(valid, t))
    ensures t == SepToken() ==> (Allowed(valid, arity, SepAction) <==> AdmitsIntended(valid, t))
  {
  }

  /**
   * With no CS bound (right after BEG) the mask forbids a CS operator while `add_token` as written
   * accepts it.
   */
  lemma MaskStricterThanAddToken<V>(f: seq<V> -> V)
    ensures var add := OperatorToken(Operator("add", CS, f, [FloatArg, IntArg]));
      var valid := Record(0, NoneYet);
      !Allowed(valid, map["add" := 2], CSAction("add")) && Admits(valid, add)
  {
  }

  /** The tests' action masks with nothing, with two constants, and with one TS operator. */
  lemma MaskActionSpaceExamples()
    ensures MaskActionSpace(None, None, None, None, None, map[], Legality(false, false, false, None, None, false)) == [false]
    ensures MaskActionSpace(Some([Float(10, 1), Float(20, 1)]), None, None, None, None, map[],
                            Legality(true, false, false, None, None, false)) == [true, true, false]
    ensures MaskActionSpace(None, None, None, None, Some(["ref"]), map["ref" := 1],
                            Legality(false, false, false, None, Some(1), false)) == [true, false]
  {
    var none: seq<bool> := [];
    assert Repeat(false, 0) == none && Repeat(true, 2) == [true, true];
    assert MaskOPSpace(map["ref" := 1], Some(1), ["ref"]) == [true];
  }

  /** The tests' action masks with two features only and with two lags only. */
  lemma MaskActionSpaceLiteralExamples()
    ensures MaskActionSpace(None, Some(["$feature1", "$feature2"]), None, None, None, map[],
                            Legality(false, false, true, None, None, false)) == [true, true, false]
    ensures MaskActionSpace(None, None, Some([1, 2]), None, None, map[],
                            Legality(false, true, false, None, None, false)) == [true, true, false]
  {
    var none: seq<bool> := [];
    assert Repeat(false, 0) == none && Repeat(true, 2) == [true, true];
  }

  /** The tests' action mask with two CS operators only, both within the CS bound 2. */
  lemma MaskActionSpaceCSExample()
    ensures MaskActionSpace(None, None, None, Some(["+", "-"]), None, map["+" := 2, "-" := 2],
                            Legality(false, false, false, Some(2), None, false)) == [true, true, false]
  {
    var none: seq<bool> := [];
    assert Repeat(false, 0) == none;
    assert MaskOPSpace(map["+" := 2, "-" := 2], Some(2), ["+", "-"]) == [true, true];
  }

  /** The tests' action mask with every group, every flag set and both bounds covering the arities. */
  lemma MaskActionSpaceAllInputs()
    ensures MaskActionSpace(Some([Float(10, 1)]), Some(["$feature1"]), Some([1]), Some(["+"]), Some(["ref"]),
                            map["+" := 2, "ref" := 1], Legality(true, true, true, Some(2), Some(1), true)) ==
      [true, true, true, true, true, true]
  {
    var arity := map["+" := 2, "ref" := 1];
    assert Repeat(true, 1) == [true];
    assert MaskOPSpace(arity, Some(2), ["+"]) == [true];
    assert MaskOPSpace(arity, Some(1), ["ref"]) == [true];
  }
}
