/** A model of CalculatorBrain, the reverse-Polish evaluator of the Caculator app.

    The numbers are abstract: the value type is a parameter `V` and the five
    primitive operations of the platform's floating-point type are handed in as
    an `Arithmetic<V>` record. What is modelled and proved is the structure of
    the reduction (what is popped, what is left over, which recursive result
    becomes which argument), not floating-point arithmetic.
 */
module Caculator {

  datatype Option<+T> = None | Some(value: T)

  /** The primitive operations of the number type: `div(x, y)` is `x / y` and
      `sub(x, y)` is `x - y`, in the platform's own argument order. */
  datatype Arithmetic<!V> = Arithmetic(
    mul: (V, V) -> V,
    div: (V, V) -> V,
    add: (V, V) -> V,
    sub: (V, V) -> V,
    sqrt: V -> V)

  /** One entry of the operation stack. An operation carries its symbol and the
      function it applies, as the cases of the Swift `Op` enum do. */
  datatype Op<!V> =
    | Operand(value: V)
    | UnaryOperation(symbol: string, unary: V -> V)
    | BinaryOperation(symbol: string, binary: (V, V) -> V)
  {
    /** The printable form of an entry; how a number is printed is the
        parameter `format`. */
    function Description(format: V -> string): (d: string)
      ensures !Operand? ==> d == symbol
    {
      match this
      case Operand(v) => format(v)
      case UnaryOperation(s, _) => s
      case BinaryOperation(s, _) => s
    }
  }

  /** `f` with its two arguments exchanged: the registered closures `$1 / $0`
      and `$1 - $0`. */
  function Flip<V>(f: (V, V) -> V): (V, V) -> V
  {
    (x, y) => f(y, x)
  }

  /** The flipped function receives its arguments in the other order. */
  lemma FlipSwaps<V>(f: (V, V) -> V, x: V, y: V)
    ensures Flip(f)(x, y) == f(y, x)
  {
  }

  /** The registry the constructor builds: four binary operations and one
      unary one, each keyed by its own symbol. */
  function KnownOps<V>(arith: Arithmetic<V>): (r: map<string, Op<V>>)
    ensures r.Keys == {"×", "÷", "+", "−", "√"}
    ensures forall k :: k in r ==> !r[k].Operand? && r[k].symbol == k
  {
    map[
      "×" := BinaryOperation("×", arith.mul),
      "÷" := BinaryOperation("÷", Flip(arith.div)),
      "+" := BinaryOperation("+", arith.add),
      "−" := BinaryOperation("−", Flip(arith.sub)),
      "√" := UnaryOperation("√", arith.sqrt)]
  }

  /** The registry holds exactly the five symbols, every entry is an operation
      whose description is its key, and each applies the intended primitive
      with the earlier-pushed value as the left operand of ÷ and −. */
  lemma KnownOpsRegistry<V>(arith: Arithmetic<V>, format: V -> string)
    ensures KnownOps(arith).Keys == {"×", "÷", "+", "−", "√"}
    ensures forall k :: k in KnownOps(arith) ==>
      !KnownOps(arith)[k].Operand? && KnownOps(arith)[k].Description(format) == k
    ensures KnownOps(arith)["√"].UnaryOperation?
    ensures forall k :: k in {"×", "÷", "+", "−"} ==> KnownOps(arith)[k].BinaryOperation?
    ensures forall earlier, later ::
      KnownOps(arith)["×"].binary(later, earlier) == arith.mul(later, earlier) &&
      KnownOps(arith)["÷"].binary(later, earlier) == arith.div(earlier, later) &&
      KnownOps(arith)["+"].binary(later, earlier) == arith.add(later, earlier) &&
      KnownOps(arith)["−"].binary(later, earlier) == arith.sub(earlier, later)
    ensures forall x :: KnownOps(arith)["√"].unary(x) == arith.sqrt(x)
  {
  }

  /** The private `evaluate(ops:)`: reduce the stack from its top. The result
      is the value of the topmost complete expression and the entries below
      it; when no value can be formed, the result is absent and the whole
      input is handed back. */
  function EvaluateOps<V>(ops: seq<Op<V>>): (r: (Option<V>, seq<Op<V>>))
    ensures r.0.None? ==> r.1 == ops
    ensures r.0.Some? ==> r.1 < ops
    decreases |ops|
  {
    if |ops| == 0 then (None, ops)
    else
      var remaining := ops[..|ops| - 1];
      match ops[|ops| - 1]
      case Operand(v) => (Some(v), remaining)
      case UnaryOperation(_, f) =>
        var operandEvaluation := EvaluateOps(remaining);
        if operandEvaluation.0.Some? then
          (Some(f(operandEvaluation.0.value)), operandEvaluation.1)
        else (None, ops)
      case BinaryOperation(_, f) =>
        var op1Evaluation := EvaluateOps(remaining);
        if op1Evaluation.0.Some? then
          var op2Evaluation := EvaluateOps(op1Evaluation.1);
          if op2Evaluation.0.Some? then
            (Some(f(op1Evaluation.0.value, op2Evaluation.0.value)), op2Evaluation.1)
          else (None, ops)
        else (None, ops)
  }

  /** An operand on top is the result by itself; everything beneath is left over. */
  lemma OperandOnTop<V>(ops: seq<Op<V>>, v: V)
    requires |ops| > 0 && ops[|ops| - 1] == Operand(v)
    ensures EvaluateOps(ops) == (Some(v), ops[..|ops| - 1])
  {
  }

  /** An operation with nothing beneath it yields no result. */
  lemma OperationOnEmptyFails<V>(op: Op<V>)
    requires !op.Operand?
    ensures EvaluateOps([op]) == (None, [op])
  {
  }

  // ---------------------------------------------------------------------
  // Reference semantics: expression trees and their postfix form
  // ---------------------------------------------------------------------

  /** An expression tree. In `Binary(s, f, first, second)`, `first` is the
      argument nearer the top of the stack (pushed later). */
  datatype Expr<!V> =
    | Num(value: V)
    | Unary(symbol: string, unary: V -> V, arg: Expr<V>)
    | Binary(symbol: string, binary: (V, V) -> V, first: Expr<V>, second: Expr<V>)

  /** The value of an expression tree. */
  function Denote<V>(e: Expr<V>): V
  {
    match e
    case Num(v) => v
    case Unary(_, f, a) => f(Denote(a))
    case Binary(_, f, a, b) => f(Denote(a), Denote(b))
  }

  /** The stack entries that build `e`: the second argument is pushed first,
      then the first, then the operation. */
  function Postfix<V>(e: Expr<V>): (ops: seq<Op<V>>)
    ensures |ops| > 0
  {
    match e
    case Num(v) => [Operand(v)]
    case Unary(s, f, a) => Postfix(a) + [UnaryOperation(s, f)]
    case Binary(s, f, a, b) => Postfix(b) + Postfix(a) + [BinaryOperation(s, f)]
  }

  /** Evaluation reads back exactly one expression from the top of the stack,
      whatever lies beneath it. */
  lemma {:induction false} EvaluatePostfix<V>(below: seq<Op<V>>, e: Expr<V>)
    ensures EvaluateOps(below + Postfix(e)) == (Some(Denote(e)), below)
    decreases e
  {
    match e
    case Num(v) =>
      assert (below + Postfix(e))[..|below + Postfix(e)| - 1] == below;
    case Unary(s, f, a) =>
      var ops := below + Postfix(e);
      assert ops[..|ops| - 1] == below + Postfix(a);
      EvaluatePostfix(below, a);
    case Binary(s, f, a, b) =>
      var ops := below + Postfix(e);
      assert ops[..|ops| - 1] == (below + Postfix(b)) + Postfix(a);
      EvaluatePostfix(below + Postfix(b), a);
      EvaluatePostfix(below, b);
  }

  /** Conversely, every successful evaluation has read back one expression:
      the input is the leftover followed by the postfix form of a tree whose
      value is the result. */
  lemma {:induction false} EvaluateParses<V>(ops: seq<Op<V>>) returns (e: Expr<V>)
    requires EvaluateOps(ops).0.Some?
    ensures ops == EvaluateOps(ops).1 + Postfix(e)
    ensures Denote(e) == EvaluateOps(ops).0.value
    decreases |ops|
  {
    var remaining := ops[..|ops| - 1];
    assert ops == remaining + [ops[|ops| - 1]];
    match ops[|ops| - 1]
    case Operand(v) =>
      e := Num(v);
    case UnaryOperation(s, f) =>
      var a := EvaluateParses(remaining);
      e := Unary(s, f, a);
    case BinaryOperation(s, f) =>
      var a := EvaluateParses(remaining);
      var b := EvaluateParses(EvaluateOps(remaining).1);
      e := Binary(s, f, a, b);
      assert ops == EvaluateOps(ops).1 + Postfix(b) + Postfix(a) + [BinaryOperation(s, f)];
  }

  /** A successful evaluation only looks at the entries it consumes: putting
      more entries underneath changes only the leftover. */
  lemma EvaluateIgnoresBelow<V>(below: seq<Op<V>>, ops: seq<Op<V>>)
    requires EvaluateOps(ops).0.Some?
    ensures EvaluateOps(below + ops) == (EvaluateOps(ops).0, below + EvaluateOps(ops).1)
  {
    var e := EvaluateParses(ops);
    assert below + ops == (below + EvaluateOps(ops).1) + Postfix(e);
    EvaluatePostfix(below + EvaluateOps(ops).1, e);
  }

  /** The first recursive result (the value nearer the top) is the binary
      function's first argument: on `[a, b, op]` the function receives `(b, a)`. */
  lemma BinaryArgumentOrder<V>(below: seq<Op<V>>, a: V, b: V, s: string, f: (V, V) -> V)
    ensures EvaluateOps(below + [Operand(a), Operand(b), BinaryOperation(s, f)])
         == (Some(f(b, a)), below)
  {
    EvaluatePostfix(below, Binary(s, f, Num(b), Num(a)));
    assert Postfix(Binary(s, f, Num(b), Num(a))) == [Operand(a), Operand(b), BinaryOperation(s, f)];
  }

  /** With the registered closures, `[a, b, ÷]` divides a by b and `[a, b, −]`
      subtracts b from a. */
  lemma RegisteredOperationsOrder<V>(arith: Arithmetic<V>, a: V, b: V)
    ensures EvaluateOps([Operand(a), Operand(b), KnownOps(arith)["÷"]]) == (Some(arith.div(a, b)), [])
    ensures EvaluateOps([Operand(a), Operand(b), KnownOps(arith)["−"]]) == (Some(arith.sub(a, b)), [])
    ensures EvaluateOps([Operand(a), Operand(b), KnownOps(arith)["×"]]) == (Some(arith.mul(b, a)), [])
    ensures EvaluateOps([Operand(a), Operand(b), KnownOps(arith)["+"]]) == (Some(arith.add(b, a)), [])
    ensures EvaluateOps([Operand(a), KnownOps(arith)["√"]]) == (Some(arith.sqrt(a)), [])
  {
  }

  /** A binary operation over a stack that holds a single complete expression
      is missing its second operand: no result, and the whole stack, operator
      included, is handed back. */
  lemma MissingOperandFails<V>(ops: seq<Op<V>>, s: string, f: (V, V) -> V)
    requires EvaluateOps(ops).0.Some? && EvaluateOps(ops).1 == []
    ensures EvaluateOps(ops + [BinaryOperation(s, f)]) == (None, ops + [BinaryOperation(s, f)])
  {
  }

  /** The leftover is not checked: on `[a, b]` the result is b, with a left over. */
  lemma LeftoverIgnored<V>(a: V, b: V)
    ensures EvaluateOps([Operand(a), Operand(b)]) == (Some(b), [Operand(a)])
  {
    assert [Operand(a), Operand(b)][..1] == [Operand(a)];
  }

  // ---------------------------------------------------------------------
  // The calculator object
  // ---------------------------------------------------------------------

  class CalculatorBrain<V> {
    const arith: Arithmetic<V>
    var opStack: seq<Op<V>>
    var knownOps: map<string, Op<V>>

    /** The registry is the one built at construction, and the stack holds
        only operands and registered operations. */
    ghost predicate Valid()
      reads this
    {
      knownOps == KnownOps(arith) &&
      forall i :: 0 <= i < |opStack| ==>
        opStack[i].Operand? || exists k :: k in knownOps && knownOps[k] == opStack[i]
    }

    constructor (arith: Arithmetic<V>)
      ensures Valid()
      ensures this.arith == arith && opStack == [] && knownOps == KnownOps(arith)
    {
      this.arith := arith;
      opStack := [];
      knownOps := map[];
      new;
      knownOps := knownOps["×" := BinaryOperation("×", arith.mul)];
      knownOps := knownOps["÷" := BinaryOperation("÷", Flip(arith.div))];
      knownOps := knownOps["+" := BinaryOperation("+", arith.add)];
      knownOps := knownOps["−" := BinaryOperation("−", Flip(arith.sub))];
      knownOps := knownOps["√" := UnaryOperation("√", arith.sqrt)];
    }

    /** The public `evaluate()`: the result of reducing the whole stack, even
        when entries are left over. The stack is not changed. */
    method Evaluate() returns (result: Option<V>)
      ensures result == EvaluateOps(opStack).0
    {
      var evaluation := EvaluateOps(opStack);
      result := evaluation.0;
    }

    /** Push one operand and evaluate the new stack. */
    method PushOperand(operand: V) returns (result: Option<V>)
      requires Valid()
      modifies this`opStack
      ensures Valid()
      ensures opStack == old(opStack) + [Operand(operand)]
      ensures result == EvaluateOps(opStack).0 == Some(operand)
    {
      opStack := opStack + [Operand(operand)];
      result := Evaluate();
    }

    /** Push the registered operation for `symbol`, if there is one, and
        evaluate the stack; an unknown symbol leaves the stack as it was. */
    method PerformOperation(symbol: string) returns (result: Option<V>)
      requires Valid()
      modifies this`opStack
      ensures Valid()
      ensures symbol in knownOps ==> opStack == old(opStack) + [knownOps[symbol]]
      ensures symbol !in knownOps ==> opStack == old(opStack)
      ensures result == EvaluateOps(opStack).0
    {
      if symbol in knownOps {
        opStack := opStack + [knownOps[symbol]];
      }
      result := Evaluate();
    }
  }

  // ---------------------------------------------------------------------
  // Sessions with a fresh calculator
  // ---------------------------------------------------------------------

  /** Pushing a then b and performing −, or ÷, gives a − b, or a ÷ b. */
  method SubtractAndDivide<V>(arith: Arithmetic<V>, a: V, b: V)
    returns (difference: Option<V>, quotient: Option<V>)
    ensures difference == Some(arith.sub(a, b))
    ensures quotient == Some(arith.div(a, b))
  {
    RegisteredOperationsOrder(arith, a, b);
    var brain := new CalculatorBrain(arith);
    var r := brain.PushOperand(a);
    r := brain.PushOperand(b);
    difference := brain.PerformOperation("−");
    brain := new CalculatorBrain(arith);
    r := brain.PushOperand(a);
    r := brain.PushOperand(b);
    quotient := brain.PerformOperation("÷");
  }

  /** Performing an operation on an empty calculator gives no result; an
      unknown symbol pushes nothing and gives no result either. */
  method OperationOnEmptyCalculator<V>(arith: Arithmetic<V>, symbol: string)
    returns (result: Option<V>, stack: seq<Op<V>>)
    ensures result == None
    ensures symbol !in {"×", "÷", "+", "−", "√"} ==> stack == []
  {
    KnownOpsRegistry(arith, _ => "");
    var brain := new CalculatorBrain(arith);
    result := brain.PerformOperation(symbol);
    if symbol in brain.knownOps {
      OperationOnEmptyFails(brain.knownOps[symbol]);
    }
    stack := brain.opStack;
  }

  /** Pushing v and performing + gives no result, and the + stays on the
      stack; evaluating again gives the same answer. */
  method MissingOperand<V>(arith: Arithmetic<V>, v: V)
    returns (result: Option<V>, again: Option<V>, stack: seq<Op<V>>)
    ensures result == None && again == None
    ensures |stack| == 2 && stack[0] == Operand(v) && stack[1] == KnownOps(arith)["+"]
  {
    var brain := new CalculatorBrain(arith);
    var r := brain.PushOperand(v);
    result := brain.PerformOperation("+");
    MissingOperandFails([Operand(v)], "+", arith.add);
    again := brain.Evaluate();
    stack := brain.opStack;
  }
}
