# ExpGen expression core, modelled in Dafny

ExpGen builds formulaic factor expressions. The building blocks are:

- **Tokens.** A token is a constant, a feature (`$close`), a lag (delta time), an operator, or a sequence indicator (`BEG`/`SEP`).
- **Operators.** Each operator has a cross-sectional (`CS`) or time-series (`TS`) type, a callable and an argument list. Its arity is the length of that list.
- **The RPN builder.** It grows a postfix (RPN) expression one token at a time. Before each step it replays the tokens so far on a stack. It records which token kinds may come next, and it refuses a token that is not legal.
- **Two expression representations:**
  - RPN lists, evaluated and rendered with a stack;
  - Karva (gene-expression) lists with a head and a tail, built into a tree in prefix order.
- **The action space used by the test suite.** This is the catalog of every choice (constants, features, lags, CS operators, TS operators, `SEP`) and the boolean mask that offers only the legal ones.

The model has one Dafny module per source file, plus three shared modules:

| module | file | models |
|---|---|---|
| `Wrappers` | wrappers.dfy | `Option` / `Result` |
| `Text` | text.dfy | Python `str()` of integers, `isdigit`, `lower` and `", ".join` on ASCII text |
| `Literals` | literals.dfy | numbers, expression-list items and expression trees shared by the RPN and Karva modules |
| `Op` | op.dfy | op.py: `OPType`, `Operator`, and the class-level registry as a `class Registry` |
| `Tokens` | tokens.dfy | tokens.py: the token kinds, their `str()` and their `Val()` |
| `RPN` | rpn.dfy | utils/RPN.py: `evaluate`, `to_string`, `validate_expression` |
| `Karva` | karva.dfy | utils/karva.py: `validate_expression`, `build_tree`, `evaluate_tree`, `to_string` |
| `Builder` | rpn_builder.dfy | rpnBuilder.py: `RPNBuilder` as a class |
| `ActionSpace` | action_space.dfy | `GetArityDict`, `GetActionSpace`, `MaskOPSpace`, `MaskActionSpace`, which test_rpnBuilder.py imports but rpnBuilder.py does not define, as those tests fix them |

**How values and callables are modelled**

- Values are a type parameter `V`.
- Operator callables are opaque functions `seq<V> -> V`.
- Numeric literals enter `V` through a parameter `lit: Num -> V`.
- A Python float literal is a decimal `Float(m, e)`, standing for m·10⁻ᵉ.

**Functions and their reference definitions.** Each loop of the source is a `method` proved equal to a pure fold, which serves as its specification:

- `Evaluate` / `Evaluation`
- `ToString` / `Rendering`
- `ValidNextToken` / `ValidNext`
- the builder constructor / `Mirror`, `OpIndex` and `MaxTokenArity`

Lemmas then state what those folds mean:

- they characterise replay success, depth and the legality record;
- Karva building inverts the prefix-order listing;
- the Karva tree agrees with the RPN machine run on the tree's postorder, when no operator name is a digit string (rendering) and, for evaluation, when the tree evaluates, has no digit-string leaf and no name is both bound and an operator;
- the action mask coincides with the corrected admission test.

**The TS bound after a lag.** After a lag, `valid_next_token` bounds a TS operator's arity by `len(stack)`, the full depth (rpnBuilder.py:102). `Builder.DemoBuilds` shows that the demo's binary `ref` needs exactly that bound: the depth is 2 after the lag.

## Model

| member | source | states |
|---|---|---|
| Builder.EvalStepCallsEval | expbuilder/op.py:26-30 | an `ops` entry built from an operator record has the record's `n_args()` as arity; its stack step underflows on fewer entries, and otherwise replaces the top `n_args()` entries by `eval` of them in their original order |
| Op.Registry.constructor | expbuilder/op.py:9 | the registry starts empty |
| Op.Registry.AddDict | expbuilder/op.py:22-24 | the operator's name is added, bound to its callable; an older entry of that name is replaced; every other entry is unchanged |
| Op.Registry.NewOperator | expbuilder/op.py:11-20 | the record holds the four arguments, and construction registers name → callable |
| Op.RegisteredLastWins | expbuilder/op.py:9-24 | after a series of constructions, a name is registered iff it was there before or was constructed; it maps to the callable of its last construction; an untouched name keeps its old callable |
| Builder.FeatureKeyMatchesEvaluation | expbuilder/tokens.py:35-38 | a feature's text is never its raw name, so the written `Val` misses a binding keyed by that text; when no operator shares the text, evaluating the token's mirror entry succeeds iff the lookup by text does, and gives the same value |
| Tokens.FeatureValDemo | expbuilder/tokens.py:56-61 | for the demo's `FeatureToken("FeatureName")` and `{"$featurename": 42}`, the written lookup finds nothing and the keyed lookup finds 42 |
| Tokens.DemoKey | expbuilder/tokens.py:35 | `FeatureToken("FeatureName")` renders as `$featurename` |
| Tokens.RenderFeature | expbuilder/tokens.py:35 | a feature renders as `$` followed by its name in lower case: one character longer than the name, never a digit string, and the same whatever the name's case |
| Tokens.RenderDeltaTime | expbuilder/tokens.py:22-29 | the lag's text parses back to the value `Val()` returns (that this value is the lag itself is definitional) |
| Tokens.RenderConstant | expbuilder/tokens.py:13-20 | an integer constant's text parses back to the value `Val()` returns (that this value is the constant itself is definitional) |
| Tokens.RenderNames | expbuilder/tokens.py:44-54 | BEG and SEP render as their enum names, and an operator token renders as the operator's name |
| Literals.FloatTexts | expbuilder/utils/karva.py:215-221 | `str(2.2)` is `2.2` and `str(1.0)` is `1.0` |
| RPN.MergeOps | expbuilder/utils/RPN.py:24-27 | with no custom operators the defaults are used; otherwise the keys are the union of both, and a custom entry overrides a default of the same name |
| RPN.PopArgsInOrder | expbuilder/utils/RPN.py:84-86 | popping k entries underflows exactly when fewer than k are on the stack; otherwise the reversed pops are the top k entries in their original order, and the rest stays below |
| RPN.Evaluate | expbuilder/utils/RPN.py:66-90 | the loop returns the stack machine's result: literals and digit strings are pushed, variables are looked up, and operators pop their arity and push the call; no variables means the empty binding; an unknown string, an underflow or an empty final stack is an error |
| RPN.EvalErrorPersists | expbuilder/utils/RPN.py:76-89 | once the machine fails on a prefix, it fails the same way on the whole list |
| RPN.EvalStepOperator | expbuilder/utils/RPN.py:82-87 | an operator step underflows when the stack is shorter than its arity; otherwise it replaces the top `arity` entries with the operator applied to them in order |
| RPN.ToString | expbuilder/utils/RPN.py:94-132 | the loop returns the rendering fold: operands are pushed as text, and an operator pops its arguments and pushes `name(a, b, …)` |
| RPN.StrStepOperator | expbuilder/utils/RPN.py:107-111 | a rendering step for an operator underflows on a short stack; otherwise it pushes `name(args joined by ", ")` |
| RPN.DepthTracesAgree | expbuilder/utils/RPN.py:66-132 | when no variable shadows an operator, evaluation succeeds iff rendering succeeds and every string resolves; both stacks then have the same depth |
| RPN.ShadowingDiverges | expbuilder/utils/RPN.py:78-87 | a variable named like an operator is pushed by `evaluate` but popped for by `to_string`, so one succeeds and the other underflows |
| RPN.ValidateExpression | expbuilder/utils/RPN.py:30-58 | as written, the verdict is true iff the list has exactly one token |
| RPN.AsWrittenValidationMisjudges | expbuilder/utils/RPN.py:30-58 | the as-written verdict accepts a lone binary operator that underflows, and rejects `x Neg 2 Add`, which renders as `Add(Neg(x), 2)` |
| RPN.ValidateFormal | expbuilder/utils/RPN.py:39-58 | the corrected stack check is true iff the rendering fold succeeds with exactly one entry |
| RPN.WellFormedEvaluates | expbuilder/utils/RPN.py:66-90 | a well-formed list whose strings all resolve evaluates, and the result is the single entry left on the stack |
| RPN.NegSumRenders | expbuilder/utils/RPN.py:190-194 | the demo-style list `x Neg 2 Add` renders as `Add(Neg(x), 2)` |
| Karva.MaxArityOf | expbuilder/utils/karva.py:57 | the loop returns the largest arity among the operators |
| Karva.MaxArityUnique | expbuilder/utils/karva.py:57 | the maximum arity is unique |
| Karva.ValidateExpression | expbuilder/utils/karva.py:46-74 | the method returns the validation verdict: false for a list no longer than the head; an error for an empty operator table; false for a list shorter than head + tail, with tail = head·(max arity − 1) + 1; otherwise true iff no tail token is an operator |
| Karva.BuildSubtreeAt | expbuilder/utils/karva.py:102-123 | the recursive method with its child loop returns the pure prefix-order builder's result, including its one error, running past the end of the list |
| Karva.BuildTree | expbuilder/utils/karva.py:102-123 | `build_tree` succeeds iff building from index 0 does, returns that tree, and otherwise returns the same error |
| Karva.SubtreeShape | expbuilder/utils/karva.py:102-123 | a built subtree lists, in prefix order, exactly the tokens it consumed, and each operator node has exactly `arity` children |
| Karva.NodeCount | expbuilder/utils/karva.py:13-23 | a well-shaped tree has one prefix-order token per node, one more than the sum of its operators' arities |
| Karva.ConsumedTokens | expbuilder/utils/karva.py:102-123 | building consumes as many tokens as the tree has nodes, which is one more than the arities summed |
| Karva.BuildFromPreorder | expbuilder/utils/karva.py:102-123 | from the prefix-order tokens of any well-shaped tree, the builder rebuilds that tree and stops right after them, whatever follows |
| Karva.TailSuffices | expbuilder/utils/karva.py:46-74 | a list that validates builds a tree, and the tree uses no more than head + tail tokens |
| Karva.EvalAllPointwise | expbuilder/utils/karva.py:127-144 | evaluating the children succeeds iff each child evaluates; the results are the children's values in order |
| Karva.RenderingAgreesWithRPN | expbuilder/utils/karva.py:175-187 | for a well-shaped tree, when no operator name is a digit string, the tree's `to_string` equals the RPN rendering of its postorder listing |
| Karva.EvaluationAgreesWithRPN | expbuilder/utils/karva.py:127-167 | when a well-shaped tree evaluates, has no digit-string leaf, and no name is both bound and an operator, its value equals the RPN evaluation of its postorder listing |
| Karva.PrefixOrderExample | expbuilder/utils/karva.py:102-123 | `+ - * a b c d e f` builds `+(-(*(a, b), c), d)` and leaves the tail `e f` unused |
| Karva.DemoExample | expbuilder/utils/karva.py:215-221 | the demo list validates with head length 2, renders as `+(neg(x), 2.2)` and evaluates to `+(neg(x), 2.2)` under x |
| Builder.MirrorContents | expbuilder/rpnBuilder.py:21-23 | the string mirror has one entry per non-indicator token, and a string is in it iff some non-indicator token renders as it |
| Builder.OpIndexKeys | expbuilder/rpnBuilder.py:24-32 | an arity is a key of the CS (TS) index iff some CS (TS) operator token has that arity |
| Builder.OpIndexContents | expbuilder/rpnBuilder.py:24-32 | a name is listed under arity n iff some operator token of that type has that name and arity n |
| Builder.MaxTokenArityIsMax | expbuilder/rpnBuilder.py:33-34 | the recorded maximum bounds every operator token's arity, and some token attains it when it is positive |
| Builder.ReplayCharacterised | expbuilder/rpnBuilder.py:52-71 | replay succeeds iff no prefix underflows or meets an unknown operator; its depth is then the token balance; the last kind is unset iff no operand or operator was seen, and then the depth is 0 |
| Builder.Record | expbuilder/rpnBuilder.py:80-109 | SEP is legal iff the depth is 1; a CS bound is the depth; a TS bound exists only after a lag and is then the depth; never both bounds; after a lag at depth other than 1, no operand is legal |
| Builder.OnlyIndicatorsRecord | expbuilder/rpnBuilder.py:87-91 | before any operand, constants and features are legal, and lags, operators and SEP are not |
| Builder.IntendedAdditionSafe | expbuilder/rpnBuilder.py:52-152 | a token the corrected admission test accepts keeps the replay defined; an indicator accepted that way is seen at depth 1 |
| Builder.GrownSafelyReplays | expbuilder/rpnBuilder.py:111-154 | for every list grown from BEG by correctly admitted tokens, every prefix replays without underflow, and every SEP was accepted when the depth was exactly 1 |
| Builder.OperatorAfterBegUnderflows | expbuilder/rpnBuilder.py:136-147 | right after BEG there is no CS bound, yet the as-written test admits a binary CS operator, and the replay of the result underflows; the corrected test refuses it |
| Builder.DemoBuilds | expbuilder/rpnBuilder.py:184-211 | the demo's `BEG 3 $close add 1 ref` grows safely; after the lag the TS bound is 2 (the full depth); the final depth is 1; the formal replay admits the final constant 3, where the source's value-mode replay raises `KeyError` (see Left out) |
| Builder.RPNBuilder.constructor | expbuilder/rpnBuilder.py:8-37 | the new builder keeps the tokens, their string mirror, the CS/TS arity indexes, the maximum arity, the length limit and the merged operators |
| Builder.RPNBuilder.ValidNextToken | expbuilder/rpnBuilder.py:46-109 | the replay loop returns the replay error, or the legality record of the final depth and last kind |
| Builder.RPNBuilder.AddToken | expbuilder/rpnBuilder.py:111-154 | the outcome is full, a replay failure, invalid or appended, in that order of tests; only an append changes the lists (the token, and its text unless it is an indicator), and the mirror invariant is kept |
| ActionSpace.GetArityDictGroups | expbuilder/test_rpnBuilder.py:6-46 | an arity is a key iff some operator has it, and its group lists those operators' names in input order |
| ActionSpace.NamesOfArityContents | expbuilder/test_rpnBuilder.py:37-46 | a name is in the group of arity a iff the input pairs that name with a |
| ActionSpace.ArityDictExamples | expbuilder/test_rpnBuilder.py:6-46 | no operators give the empty dictionary; `+`:2, `neg`:1, `sum3`:3, `-`:2 give {2: [+, -], 1: [neg], 3: [sum3]} |
| ActionSpace.GetActionSpace | expbuilder/test_rpnBuilder.py:48-120 | the space lists, in order, the constants' texts, the features, the lags' texts, the CS names, the TS names and `SEP`; missing groups are empty |
| ActionSpace.ActionSpaceExamples | expbuilder/test_rpnBuilder.py:48-120 | the tests' six cases: nothing gives `[SEP]`; constants give `["1.0", "2.0", "SEP"]`; features pass through unchanged; lags give `["1", "2", "SEP"]`; operators only give `["+", "-", "ref", "SEP"]`; all inputs give `["1.0", "$feature1", "1", "+", "ref", "SEP"]` |
| ActionSpace.MaskOPSpace | expbuilder/test_rpnBuilder.py:122-177 | one flag per operator, true iff a bound exists and the operator's arity is within it; no bound gives all false |
| ActionSpace.MaskOPSpaceExamples | expbuilder/test_rpnBuilder.py:155-177 | the tests' seven cases: an empty list, one operator within or over bound 2, two operators all, some or none within bound 2, and no bound |
| ActionSpace.MaskActionSpace | expbuilder/test_rpnBuilder.py:179-319 | the mask is the constant, feature and lag flags repeated per entry, the CS and TS operator masks under their bounds, and the SEP flag |
| ActionSpace.MaskAligned | expbuilder/test_rpnBuilder.py:179-319 | the mask is as long as the action space, and its last flag, the SEP flag, sits at `SEP` |
| ActionSpace.MaskIsIntendedAdmission | expbuilder/test_rpnBuilder.py:179-319 | a catalog entry is offered by the mask iff its token passes the corrected admission test |
| ActionSpace.MaskStricterThanAddToken | expbuilder/rpnBuilder.py:136-147 | right after BEG the mask hides a binary CS operator that `add_token` as written would accept |
| ActionSpace.MaskActionSpaceExamples | expbuilder/test_rpnBuilder.py:180-293 | three of the tests' cases: an empty space, constants only, and TS operators only (`[true, false]` under bound 1); the other cases are in the neighbouring rows |
| ActionSpace.MaskActionSpaceLiteralExamples | expbuilder/test_rpnBuilder.py:219-255 | the tests' features-only and lags-only cases: each entry copies its class flag, then the SEP flag |
| ActionSpace.MaskActionSpaceCSExample | expbuilder/test_rpnBuilder.py:257-274 | the tests' CS-only case: both binary operators are within the CS bound 2 |
| ActionSpace.MaskActionSpaceAllInputs | expbuilder/test_rpnBuilder.py:295-319 | the all-inputs case of the tests |

## Left out

- Value-mode replay in `valid_next_token` (rpnBuilder.py:62-70) is not modelled. The source also evaluates operands and calls operators there, but the legality record depends only on depth and last kind, so the model replays formally. As a result, the `KeyError` from a missing feature value and exceptions raised by callables are not modelled.
- The demo's last `add_token` call passes `{'$close': 6}` (rpnBuilder.py:209-211). As written, `FeatureToken.Val` looks up the raw name `close`, which would raise `KeyError`. This is the finding below, whose value path is left out.
- `MinArity4Choose` divides by `maxLen - len(tokenexp)` (rpnBuilder.py:74-77). The model does not divide. `ValidNext` and `ValidNextToken` require `|tokenexp| != maxLen`, which is where the source would raise `ZeroDivisionError`.
- Builder.Record: the "Min" entries are always None (`MinArity4Choose` is computed but never used), so the record does not keep them.
- Tokens.RenderConstant: the text-to-value round trip is stated for integer constants only; float constants have no parser in the model.
- Floats are modelled as exact decimals. Binary rounding and Python's exponent notation (`1e-05`) are not modelled.
- `isdigit` and `lower` are modelled on ASCII only.
- Operator callables are opaque. So the queue state of the demo's `ref` time-series operator (rpnBuilder.py:160-185) and numeric behaviour (`math` functions) are not modelled.
- `TreeNode` is modelled as an immutable value, so object identity and aliasing between nodes are not modelled.
- The builder's `max_length` default of 100 (rpnBuilder.py:12) is not modelled: the constructor always takes `maxLen` from the caller.
- The builder's constructor stores the caller's list itself (`self.tokenexp = expression`), so appending also changes the caller's list. The model copies that list as a value.
- Karva's head length and all arities are taken as `nat`. Negative values are not modelled.
- Karva's `evaluate_tree` with `variables=None` raises `TypeError` at the first string node. It is modelled as the error `NoVariables`.
- As written, the classes cannot be built or imported, and the model treats them as concrete under their intended names:
  - `RPNBase` (RPN.py:14) and `KEBase` (karva.py:28) do not implement the abstract `valid_following` of `Expression` (common.py:10-14). So constructing either raises `TypeError`, the files' own demos included. common.py:17 also uses `Callable` without importing it.
  - rpnBuilder.py:2-3 imports `Optype` and `RPNExpression`, but op.py and RPN.py name them `OPType` and `RPNBase`.
  - test_rpnBuilder.py:3-4 imports `GetArityDict`, `GetActionSpace`, `MaskOPSpace` and `MaskActionSpace` from rpnBuilder.py, which defines none of them.
- The RPN module's second rendering function (`to_string_original`) and Karva's unused `child_node` helper are not modelled.
- Karva's `build_tree` raises for a token that is neither a string nor a number (karva.py:118-119). Expression items are always one or the other, so that branch is never reached and is not modelled.
- The operator and error branches of RPN's as-written `validate_expression` are not modelled. Every token passes its first test, so they are never reached.
- ActionSpace.MaskOPSpace and ActionSpace.MaskActionSpace require every operator name in the arity table. The tests never call them otherwise, and the behaviour is not fixed there.
- ActionSpace.GetArityDict models only the dictionary, not its second return value. Key order is not modelled, because Dafny maps are unordered.
- The class-level `Operator.ops_available` dictionary is modelled as one `Registry` object that the caller passes around.
- ic.py, utils/ic.py, rl/env/core.py, expbuilder/utils/common.py, main.py and tmp.py are not part of this model.

## Findings

| source | as written | input that shows it | evidently intended | confidence | as-written member | corrected member |
|---|---|---|---|---|---|---|
| expbuilder/utils/RPN.py:37-38 | the first test holds for every token (`isinstance(token, str)`), so the verdict is just "one token" | `["Add"]` is accepted but underflows; `["x", "Neg", 2, "Add"]` is rejected but renders as `Add(Neg(x), 2)` | a stack check: operands push, operators pop their arity and push one, valid iff one entry is left | not executed | RPN.AsWrittenValidationMisjudges | RPN.ValidateFormal |
| expbuilder/rpnBuilder.py:138-147 | an operator is refused only when a bound exists and is smaller than its arity, so with no bound (right after BEG) any operator is admitted | `BEG` followed by a binary CS operator is appended, and the next replay underflows | admit only when a bound exists and the arity is within it, as the action mask does | not executed | Builder.OperatorAfterBegUnderflows | Builder.GrownSafelyReplays |
| expbuilder/tokens.py:37-38 | `Val` looks up the feature's raw name, while callers key values by the token's text `$` + lower-case name | `FeatureToken("FeatureName")` with `{"$featurename": 42}` (the file's own demo) raises `KeyError` | look up `str(self)` | not executed | Tokens.FeatureValDemo | Builder.FeatureKeyMatchesEvaluation |
