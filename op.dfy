/** Operator records and the registry of callables (expbuilder/op.py). */
module Op {

  /** OPType: CS (cross-sectional, stateless) = 1, TS (time-series, may keep state) = 2. */
  datatype OPType = CS | TS

  function OPTypeValue(t: OPType): nat {
    match t
    case CS => 1
    case TS => 2
  }

  /** The Python types listed in an operator's `argTypeList`; only their number matters. */
  datatype ArgType = FloatArg | IntArg

  /**
   * An operator: its registry name, its category, the opaque callable applied to its
   * arguments (in order), and the declared argument types.
   */
  datatype Operator<!V> = Operator(name: string, optype: OPType, callable: seq<V> -> V, argTypeList: seq<ArgType>)

  /** `n_args()`: an operator's arity is the number of declared argument types. */
  function NArgs<V>(op: Operator<V>): nat {
    |op.argTypeList|
  }

  /** `eval(*args)`: forwards the arguments, unchanged and in order, to the callable. */
  function Eval<V>(op: Operator<V>, args: seq<V>): V {
    op.callable(args)
  }

  /** The class-level `ops_available` dictionary, name -> callable, filled by every Operator construction. */
  class Registry<!V> {
    var opsAvailable: map<string, seq<V> -> V>

    constructor ()
      ensures opsAvailable == map[]
    {
      opsAvailable := map[];
    }

    /** `add_dict`: store name -> callable, silently replacing an entry of the same name. */
    method AddDict(op: Operator<V>)
      modifies this
      ensures opsAvailable.Keys == old(opsAvailable).Keys + {op.name}
      ensures opsAvailable[op.name] == op.callable
      ensures forall n :: n in old(opsAvailable) && n != op.name ==> opsAvailable[n] == old(opsAvailable)[n]
    {
      opsAvailable := opsAvailable[op.name := op.callable];
    }

    /** `Operator(name, Optype, callable, argTypeList)`: build the record and register it. */
    method NewOperator(name: string, optype: OPType, callable: seq<V> -> V, argTypeList: seq<ArgType>)
      returns (op: Operator<V>)
      modifies this
      ensures op == Operator(name, optype, callable, argTypeList)
      ensures opsAvailable == old(opsAvailable)[name := callable]
    {
      op := Operator(name, optype, callable, argTypeList);
      AddDict(op);
    }
  }

  /** The registry after constructing the given operators, in order, on an initial registry. */
  function Registered<V>(initial: map<string, seq<V> -> V>, ops: seq<Operator<V>>): map<string, seq<V> -> V> {
    if |ops| == 0 then initial
    else Registered(initial, ops[..|ops| - 1])[ops[|ops| - 1].name := ops[|ops| - 1].callable]
  }

  /**
   * Duplicate names overwrite: a name is registered iff it was before or some operator has it,
   * and its callable is that of the LAST operator with that name (or the initial one if none).
   */
  lemma {:induction false} RegisteredLastWins<V>(initial: map<string, seq<V> -> V>, ops: seq<Operator<V>>, n: string)
    ensures n in Registered(initial, ops) <==> n in initial || exists i :: 0 <= i < |ops| && ops[i].name == n
    ensures forall i :: 0 <= i < |ops| && ops[i].name == n && (forall j :: i < j < |ops| ==> ops[j].name != n) ==>
      Registered(initial, ops)[n] == ops[i].callable
    ensures n in initial && (forall i :: 0 <= i < |ops| ==> ops[i].name != n) ==>
      Registered(initial, ops)[n] == initial[n]
  {
    if |ops| > 0 {
      var init := ops[..|ops| - 1];
      RegisteredLastWins(initial, init, n);
      forall i | 0 <= i < |ops| - 1 && ops[i].name == n
        ensures init[i].name == n
      {
      }
    }
  }
}
