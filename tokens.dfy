/** The five token kinds of a built expression and their canonical text (expbuilder/tokens.py). */
module Tokens {

  import opened Wrappers
  import opened Text
  import opened Literals
  import opened Op

  /** SequenceIndicatorType: BEG = 0 starts a sequence, SEP = 1 terminates it. */
  datatype SequenceIndicatorType = BEG | SEP

  function IndicatorValue(k: SequenceIndicatorType): nat {
    match k
    case BEG => 0
    case SEP => 1
  }

  /** The enum member's `name`. */
  function IndicatorName(k: SequenceIndicatorType): string {
    match k
    case BEG => "BEG"
    case SEP => "SEP"
  }

  datatype Token<!V> =
    | ConstantToken(constant: Num)
    | DeltaTimeToken(deltaTime: int)
    | FeatureToken(feature: string)
    | OperatorToken(operator: Operator<V>)
    | SequenceIndicatorToken(indicator: SequenceIndicatorType)

  /** BEG_TOKEN */
  function BegToken<V>(): Token<V> { SequenceIndicatorToken(BEG) }

  /** SEP_TOKEN */
  function SepToken<V>(): Token<V> { SequenceIndicatorToken(SEP) }

  /** `str(token)`, the canonical text of each kind. */
  function Render<V>(t: Token<V>): string {
    match t
    case ConstantToken(c) => RenderNum(c)
    case DeltaTimeToken(d) => IntToString(d)
    case FeatureToken(f) => "$" + Lower(f)
    case OperatorToken(op) => op.name
    case SequenceIndicatorToken(k) => IndicatorName(k)
  }

  /** `ConstantToken.Val()` returns the constant unchanged. */
  function ConstantVal<V>(t: Token<V>): Num
    requires t.ConstantToken?
  {
    t.constant
  }

  /** `DeltaTimeToken.Val()` returns the lag unchanged. */
  function DeltaTimeVal<V>(t: Token<V>): int
    requires t.DeltaTimeToken?
  {
    t.deltaTime
  }

  /**
   * `FeatureToken.Val(kwargs)` as written: `kwargs[str(self.feature)]`, the RAW feature name
   * (a missing key raises KeyError, here None).
   */
  function FeatureVal<V>(t: Token<V>, kwargs: map<string, V>): Option<V>
    requires t.FeatureToken?
  {
    if t.feature in kwargs then Some(kwargs[t.feature]) else None
  }

  /**
   * The lookup the callers evidently intend: by the token's rendered key `"$" + lower(feature)`,
   * the key under which the rendered expression and its bindings name the feature.
   */
  function FeatureValByKey<V>(t: Token<V>, kwargs: map<string, V>): Option<V>
    requires t.FeatureToken?
  {
    if Render(t) in kwargs then Some(kwargs[Render(t)]) else None
  }

  /** The demo's binding {"$featurename": 42} is not found by the written lookup, and is found by the keyed one. */
  lemma FeatureValDemo()
    ensures FeatureVal(Token<int>.FeatureToken("FeatureName"), map["$featurename" := 42]) == None
    ensures FeatureValByKey(Token<int>.FeatureToken("FeatureName"), map["$featurename" := 42]) == Some(42)
  {
    var t := Token<int>.FeatureToken("FeatureName");
    var kwargs := map["$featurename" := 42];
    DemoKey();
    assert "FeatureName" !in kwargs by {
      assert "FeatureName"[0] != "$featurename"[0];
    }
    assert FeatureVal(t, kwargs) == None;
    assert Render(t) in kwargs;
    assert FeatureValByKey(t, kwargs) == Some(42);
  }

  lemma DemoKey()
    ensures Render(Token<int>.FeatureToken("FeatureName")) == "$featurename"
  {
    var t := Token<int>.FeatureToken("FeatureName");
    var l := Lower("FeatureName");
    assert l == "featurename";
    assert Render(t) == "$" + l;
  }

  /**
   * A feature renders as '$' followed by its name in lower case: never a digit string,
   * independent of the name's case, and already in lower case.
   */
  lemma RenderFeature<V>(f: string)
    ensures var r := Render(Token<V>.FeatureToken(f));
      |r| == |f| + 1 && r[0] == '$' && !IsDigits(r) &&
      (forall i :: 1 <= i < |r| ==> !('A' <= r[i] <= 'Z')) &&
      r == Render(Token<V>.FeatureToken(Lower(f)))
  {
    LowerIdempotent(f);
    var r := Render(Token<V>.FeatureToken(f));
    assert r[1..] == Lower(f);
  }

  /**
   * A lag's text reads back as the value `Val()` gives, which is the lag itself: the mirror entry
   * and the replayed value agree.
   */
  lemma RenderDeltaTime<V>(t: Token<V>)
    requires t.DeltaTimeToken?
    ensures ParseInt(Render(t)) == Some(DeltaTimeVal(t)) && DeltaTimeVal(t) == t.deltaTime
  {
    IntRoundTrip(t.deltaTime);
  }

  /**
   * An integer constant's text reads back as the value `Val()` gives, which is the constant itself.
   */
  lemma RenderConstant<V>(t: Token<V>)
    requires t.ConstantToken?
    ensures ConstantVal(t) == t.constant
    ensures t.constant.Int? ==> ParseInt(Render(t)) == Some(ConstantVal(t).i)
  {
    if t.constant.Int? {
      IntRoundTrip(t.constant.i);
    }
  }

  /** BEG and SEP render as their names, an operator as its name. */
  lemma RenderNames<V>(op: Operator<V>)
    ensures Render(BegToken<V>()) == "BEG" && Render(SepToken<V>()) == "SEP"
    ensures Render(OperatorToken(op)) == op.name
  {
  }
}
