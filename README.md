# CalculatorBrain in Dafny

A verified model of `CalculatorBrain`, the reverse-Polish (RPN) evaluator behind the
Caculator iOS app. The calculator keeps a stack of entries (operands, unary operations,
binary operations) and a registry of five operators (`×`, `÷`, `+`, `−`, `√`). After
every push it reduces the whole stack from the top and returns the value, if there is one.

Everything lives in `calculator_brain.dfy`, module `Caculator`:

- `Op` is the entry type. Like the Swift enum, each operation case carries its symbol and
  the function it applies.
- `Arithmetic<V>` stands for the number type's primitive operations (`*`, `/`, `+`, `-`,
  `sqrt`). Numbers are abstract (the type parameter `V`), so what is proved holds for any
  arithmetic. The proofs are about how the stack is reduced, not about floating point.
- `KnownOps` is the registry that the constructor builds. `÷` and `−` are registered with
  their arguments exchanged (`Flip`), like the closures `$1 / $0` and `$1 - $0`.
- `EvaluateOps` is the private recursive `evaluate(ops:)`. It returns the optional result
  and the leftover entries.
- `CalculatorBrain` is the class. It holds the `opStack` and `knownOps` fields and the
  public `Evaluate`, `PushOperand` and `PerformOperation` methods.
- `Expr`, `Denote` and `Postfix` give a reference meaning: an expression tree, its value
  and the stack entries that build it. `EvaluatePostfix` and `EvaluateParses` show that
  evaluation reads exactly one such tree back from the top of the stack.

On failure the code hands back the original input as leftover, not a partly consumed
sequence (`evaluate(ops:)` ends with `return (nil, ops)`). `EvaluateOps` proves that
the leftover of a failed evaluation is the input unchanged.

## Model

| member | source | states |
|---|---|---|
| `Caculator.Op.Description` | Caculator/CalculatorBrain.swift:22-33 | the description of a unary or binary operation is its symbol |
| `Caculator.FlipSwaps` | Caculator/CalculatorBrain.swift:45-47 | the closures `{ $1 / $0 }` and `{ $1 - $0 }` apply the primitive with their two arguments exchanged |
| `Caculator.KnownOps` | Caculator/CalculatorBrain.swift:44-48 | the registry holds exactly the keys `×`, `÷`, `+`, `−` and `√`, and each key maps to an operation (never an operand) whose symbol is that key |
| `Caculator.KnownOpsRegistry` | Caculator/CalculatorBrain.swift:44-48 | the registry's keys are exactly `×`, `÷`, `+`, `−` and `√`; each entry is an operation whose description equals its key; `√` is unary and the other four are binary; `÷` and `−` apply the primitive to (earlier-pushed, later-pushed) |
| `Caculator.CalculatorBrain.constructor` | Caculator/CalculatorBrain.swift:36-51 | a new calculator has an empty stack and the five-entry registry, filled entry by entry |
| `Caculator.EvaluateOps` | Caculator/CalculatorBrain.swift:54-78 | a failed evaluation hands back its input unchanged as leftover; a successful one leaves a proper prefix of the input, which is also why the nested recursion terminates |
| `Caculator.OperandOnTop` | Caculator/CalculatorBrain.swift:56-61 | an operand on top is the result and the entries below it are the leftover |
| `Caculator.OperationOnEmptyFails` | Caculator/CalculatorBrain.swift:62-77 | an operation with nothing beneath it gives no result and leaves the input |
| `Caculator.EvaluatePostfix` | Caculator/CalculatorBrain.swift:54-78 | on any stack topped by the entries of an expression tree, evaluation returns the tree's value and leaves exactly the entries below it |
| `Caculator.EvaluateParses` | Caculator/CalculatorBrain.swift:54-78 | conversely, every successful evaluation consumed the entries of some expression tree whose value is the result |
| `Caculator.EvaluateIgnoresBelow` | Caculator/CalculatorBrain.swift:56-72 | a successful evaluation depends only on the entries it consumes; entries added below change only the leftover |
| `Caculator.BinaryArgumentOrder` | Caculator/CalculatorBrain.swift:67-72 | on `[a, b, op]` the binary function receives the value nearer the top first: `f(b, a)` |
| `Caculator.RegisteredOperationsOrder` | Caculator/CalculatorBrain.swift:44-72 | with the registered closures, `[a, b, ÷]` is `a / b`, `[a, b, −]` is `a - b`, `[a, b, ×]` and `[a, b, +]` combine both operands, and `[a, √]` is `sqrt(a)`, each with no leftover |
| `Caculator.MissingOperandFails` | Caculator/CalculatorBrain.swift:67-77 | a binary operation above a single complete expression gives no result, and the whole stack, operator included, is the leftover |
| `Caculator.LeftoverIgnored` | Caculator/CalculatorBrain.swift:56-61 | on `[a, b]` the result is `b` with `a` left over |
| `Caculator.CalculatorBrain.Evaluate` | Caculator/CalculatorBrain.swift:81-85 | the public evaluate returns the result of reducing the whole stack even when entries are left over, and changes nothing |
| `Caculator.CalculatorBrain.PushOperand` | Caculator/CalculatorBrain.swift:88-91 | appends exactly one operand entry and changes nothing else; the returned value is the evaluation of the new stack, which is the pushed operand |
| `Caculator.CalculatorBrain.PerformOperation` | Caculator/CalculatorBrain.swift:94-99 | a known symbol appends exactly its registered operation; an unknown symbol leaves the stack unchanged; either way the result is the evaluation of the resulting stack, and the stack holds only operands and registered operations |
| `Caculator.SubtractAndDivide` | Caculator/CalculatorBrain.swift:88-99 | on a fresh calculator, pushing a then b and performing `−` gives `a - b`; performing `÷` instead gives `a / b` |
| `Caculator.OperationOnEmptyCalculator` | Caculator/CalculatorBrain.swift:94-98 | performing any symbol on a fresh calculator gives no result; an unknown symbol pushes nothing |
| `Caculator.MissingOperand` | Caculator/CalculatorBrain.swift:88-98 | pushing v and performing `+` gives no result, leaves both entries on the stack, and evaluating again gives the same answer |

## Left out

- The diagnostic `println` in the public `evaluate()` is console output. The model computes the leftover but does not print it.
- Floating-point semantics are not modelled. Numbers are an abstract type `V`, and `*`, `/`, `+`, `-` and `sqrt` are the functions of an `Arithmetic<V>` record given to the constructor. So division by zero, infinities and NaN are not modelled.
- Caculator.Op.Description: for an operand, the decimal text comes from a `format` parameter because Swift's `Double` printing is not modelled. Only the symbol cases are stated.
- The nested helper `learnOp` in `init` is never called, so it is not modelled.
- The `Printable` protocol conformance and the `Foundation` import are language plumbing.
