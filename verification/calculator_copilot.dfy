/** The input state machine of the calculator-copilot `Calculator` class
    (calculator/script.js): the operand being typed as text, the previous
    operand as a number once an operator has been pressed, the pending
    operator, and a history of at most five calculations, newest first.
    `parseFloat` (with `None` for NaN) and `String(number)` are parameters;
    arithmetic is exact, and the rounding to eight decimals is written out. */
module CalculatorCopilot {
  import opened Wrappers
  import SeqUtil

  const MaxHistoryItems: nat := 5

  /** `Number.EPSILON`, 2^-52. */
  const Epsilon: real := 1.0 / 4503599627370496.0

  /** The rounding scale: results are kept to eight decimals. */
  const Scale: real := 100000000.0

  /** `previousNumber`: the empty string until an operator stores the parsed
      entry, which may be NaN (`Number(None)`). */
  datatype Previous = Empty | Number(value: Option<real>)

  datatype HistoryItem = HistoryItem(calculation: string, result: real)

  datatype Calculator = Calculator(currentNumber: string, previousNumber: Previous, operator: Option<string>,
                                   waitingForOperand: bool, history: seq<HistoryItem>)

  /** The input part of the constructor (the history is loaded from storage). */
  function Create(history: seq<HistoryItem>): (c: Calculator)
    ensures c.currentNumber == "0" && c.previousNumber.Empty? && c.operator.None? && !c.waitingForOperand
    ensures c.history == history
  {
    Calculator("0", Empty, None, false, history)
  }

  /** `inputNumber`: after an operator the entry restarts with the digit; a
      lone "0" is replaced; otherwise the digit is appended. */
  function InputNumber(c: Calculator, number: string): (r: Calculator)
    ensures !r.waitingForOperand && r.previousNumber == c.previousNumber && r.operator == c.operator
    ensures r.history == c.history
    ensures c.waitingForOperand ==> r.currentNumber == number
    ensures !c.waitingForOperand && c.currentNumber == "0" ==> r.currentNumber == number
    ensures !c.waitingForOperand && c.currentNumber != "0" ==> r.currentNumber == c.currentNumber + number
  {
    if c.waitingForOperand then c.(currentNumber := number, waitingForOperand := false)
    else c.(currentNumber := if c.currentNumber == "0" then number else c.currentNumber + number)
  }

  /** `inputDecimal`: "0." after an operator; otherwise "." is added only
      when the entry has none, so it never holds two. */
  function InputDecimal(c: Calculator): (r: Calculator)
    ensures !r.waitingForOperand && r.previousNumber == c.previousNumber && r.operator == c.operator
    ensures r.history == c.history
    ensures '.' in r.currentNumber
    ensures c.waitingForOperand ==> r.currentNumber == "0."
    ensures !c.waitingForOperand && '.' in c.currentNumber ==> r == c
    ensures !c.waitingForOperand && '.' !in c.currentNumber ==> r.currentNumber == c.currentNumber + "."
    ensures SeqUtil.CountOf('.', r.currentNumber) == 1 || r.currentNumber == c.currentNumber
  {
    if c.waitingForOperand then
      SeqUtil.CountOfConcat('.', "0", ".");
      c.(currentNumber := "0.", waitingForOperand := false)
    else if '.' in c.currentNumber then c
    else
      SeqUtil.CountOfConcat('.', c.currentNumber, ".");
      c.(currentNumber := c.currentNumber + ".")
  }

  /** A second decimal point is ignored. */
  lemma InputDecimalIdempotent(c: Calculator)
    ensures InputDecimal(InputDecimal(c)) == InputDecimal(c)
  {
  }

  /** `backspace`: drops the last character, or falls back to "0" so the
      entry is never empty. */
  function Backspace(c: Calculator): (r: Calculator)
    ensures |c.currentNumber| > 1 ==> r == c.(currentNumber := c.currentNumber[..|c.currentNumber| - 1])
    ensures |c.currentNumber| <= 1 ==> r == c.(currentNumber := "0")
    ensures |r.currentNumber| >= 1
  {
    if |c.currentNumber| > 1 then c.(currentNumber := c.currentNumber[..|c.currentNumber| - 1])
    else c.(currentNumber := "0")
  }

  /** Backspace undoes a digit appended to a non-zero entry. */
  lemma BackspaceUndoesInput(c: Calculator, digit: char)
    requires !c.waitingForOperand && c.currentNumber != "0" && |c.currentNumber| >= 1
    ensures Backspace(InputNumber(c, [digit])) == c
  {
    assert (c.currentNumber + [digit])[..|c.currentNumber|] == c.currentNumber;
  }

  /** `clear`: back to the initial input state; the history is kept. */
  function Clear(c: Calculator): (r: Calculator)
    ensures r == Create(c.history)
  {
    c.(currentNumber := "0", previousNumber := Empty, operator := None, waitingForOperand := false)
  }

  /** `clearEntry`: only the entry is reset. */
  function ClearEntry(c: Calculator): (r: Calculator)
    ensures r.currentNumber == "0" && r.(currentNumber := c.currentNumber) == c
  {
    c.(currentNumber := "0")
  }

  /** `getOperatorSymbol`: multiplication and division get their glyphs;
      every other operator is shown as itself. */
  function GetOperatorSymbol(op: string): (s: string)
    ensures op == "*" ==> s == "×"
    ensures op == "/" ==> s == "÷"
    ensures op != "*" && op != "/" ==> s == op
  {
    if op == "*" then "×" else if op == "/" then "÷" else op
  }

  /** `addToHistory`: the new item goes in front and only the five newest are kept. */
  function AddToHistory(c: Calculator, item: HistoryItem): (r: Calculator)
    ensures |r.history| == if |c.history| < MaxHistoryItems then |c.history| + 1 else MaxHistoryItems
    ensures r.history[0] == item
    ensures forall i :: 1 <= i < |r.history| ==> r.history[i] == c.history[i - 1]
    ensures r == c.(history := r.history)
  {
    var h := [item] + c.history;
    c.(history := if |h| > MaxHistoryItems then h[..MaxHistoryItems] else h)
  }

  /** `Math.round((x + Number.EPSILON) * 1e8) / 1e8`, with `Math.round`
      rounding halves upwards. */
  function Round8(x: real): (r: real)
    ensures (r * Scale).Floor as real == r * Scale
    ensures (x + Epsilon) * Scale - 0.5 < r * Scale <= (x + Epsilon) * Scale + 0.5
  {
    ((x + Epsilon) * Scale + 0.5).Floor as real / Scale
  }

  /** A value already on the eight-decimal grid is returned unchanged: the
      epsilon nudge is far too small to move it to the next grid point. */
  lemma Round8KeepsGrid(k: int)
    ensures Round8(k as real / Scale) == k as real / Scale
  {
    var x := k as real / Scale;
    var nudge := Epsilon * Scale;
    assert 0.0 < nudge < 0.5;
    assert x * Scale == k as real;
    var y := (x + Epsilon) * Scale + 0.5;
    assert y == k as real + nudge + 0.5;
    assert k as real <= y < k as real + 1.0;
    assert y.Floor == k;
  }

  /** The number `performCalculation` reads from `previousNumber`:
      `parseFloat('')` is NaN, and printing then parsing a number gives it back. */
  function PreviousValue(p: Previous): Option<real>
  {
    match p case Empty => None case Number(v) => v
  }

  predicate KnownOperator(op: Option<string>) {
    op.Some? && op.value in {"+", "-", "*", "/"}
  }

  /** The exact value of one of the four operations. */
  function ApplyOp(op: string, a: real, b: real): real
    requires op in {"+", "-", "*", "/"}
    requires op == "/" ==> b != 0.0
  {
    if op == "+" then a + b else if op == "-" then a - b else if op == "*" then a * b else a / b
  }

  /** `performCalculation`: `None` (the source's `null`) when either operand
      is NaN, when dividing by zero (after showing the error) or for an
      operator other than the four; otherwise the rounded result. */
  function PerformCalculation(c: Calculator, parse: string -> Option<real>): (r: Option<real>)
    ensures r.Some? <==> && PreviousValue(c.previousNumber).Some? && parse(c.currentNumber).Some?
                         && KnownOperator(c.operator)
                         && !(c.operator.value == "/" && parse(c.currentNumber).value == 0.0)
    ensures r.Some? ==>
              r.value == Round8(ApplyOp(c.operator.value, PreviousValue(c.previousNumber).value, parse(c.currentNumber).value))
  {
    var prev := PreviousValue(c.previousNumber);
    var current := parse(c.currentNumber);
    if prev.None? || current.None? || !KnownOperator(c.operator) then None
    else if c.operator.value == "/" && current.value == 0.0 then None
    else Some(Round8(ApplyOp(c.operator.value, prev.value, current.value)))
  }

  /** `calculate`: acts only with an operator set and a fresh operand; when
      the calculation fails nothing changes; otherwise the result becomes
      the entry, is recorded in the history, and the operator is consumed. */
  function Calculate(c: Calculator, parse: string -> Option<real>, format: real -> string): (r: Calculator)
    ensures c.operator.None? || c.waitingForOperand ==> r == c
    ensures PerformCalculation(c, parse).None? ==> r == c
    ensures c.operator.Some? && !c.waitingForOperand && PerformCalculation(c, parse).Some? ==>
              var v := PerformCalculation(c, parse).value;
              && r.currentNumber == format(v)
              && r.previousNumber.Empty? && r.operator.None? && r.waitingForOperand
              && r.history == AddToHistory(c, HistoryItem(
                   format(PreviousValue(c.previousNumber).value) + " " + GetOperatorSymbol(c.operator.value) + " "
                   + c.currentNumber + " = " + format(v), v)).history
  {
    if c.operator.None? || c.waitingForOperand then c
    else match PerformCalculation(c, parse)
      case None => c
      case Some(v) =>
        var calculation := format(PreviousValue(c.previousNumber).value) + " " + GetOperatorSymbol(c.operator.value) + " "
                           + c.currentNumber + " = " + format(v);
        var logged := AddToHistory(c, HistoryItem(calculation, v));
        logged.(currentNumber := format(v), previousNumber := Empty, operator := None, waitingForOperand := true)
  }

  /** A completed calculation leaves a state in which `=` does nothing more. */
  lemma CalculateThenCalculate(c: Calculator, parse: string -> Option<real>, format: real -> string)
    ensures var once := Calculate(c, parse, format);
            Calculate(once, parse, format) == once
  {
  }

  /** `inputOperator` as written: the first operator stores the parsed
      entry; with an operator already pending, the pending calculation is
      performed even when no new operand has been typed, and a failed
      calculation leaves everything unchanged. */
  function InputOperator(c: Calculator, next: string, parse: string -> Option<real>, format: real -> string): (r: Calculator)
    ensures c.previousNumber.Empty? ==>
              r == c.(previousNumber := Number(parse(c.currentNumber)), waitingForOperand := true, operator := Some(next))
    ensures c.previousNumber.Number? && c.operator.Some? && PerformCalculation(c, parse).None? ==> r == c
    ensures c.previousNumber.Number? && c.operator.Some? && PerformCalculation(c, parse).Some? ==>
              var v := PerformCalculation(c, parse).value;
              r == c.(currentNumber := format(v), previousNumber := Number(Some(v)),
                      waitingForOperand := true, operator := Some(next))
    ensures c.previousNumber.Number? && c.operator.None? ==> r == c.(waitingForOperand := true, operator := Some(next))
    ensures r.history == c.history
  {
    if c.previousNumber.Empty? then
      c.(previousNumber := Number(parse(c.currentNumber)), waitingForOperand := true, operator := Some(next))
    else if c.operator.Some? then
      match PerformCalculation(c, parse)
      case None => c
      case Some(v) =>
        c.(currentNumber := format(v), previousNumber := Number(Some(v)), waitingForOperand := true, operator := Some(next))
    else c.(waitingForOperand := true, operator := Some(next))
  }

  /** Pressing "5", "+", "-" as written performs 5 + 5: switching the
      operator recomputes with the displayed entry as the second operand. */
  lemma AsWrittenOperatorSwitchRecomputes(parse: string -> Option<real>, format: real -> string)
    requires parse("5") == Some(5.0) && format(5.0) == "5"
    ensures var typed := InputNumber(Create([]), "5");
            var plus := InputOperator(typed, "+", parse, format);
            var minus := InputOperator(plus, "-", parse, format);
            minus.previousNumber == Number(Some(10.0)) && minus.operator == Some("-")
  {
    var typed := InputNumber(Create([]), "5");
    var plus := InputOperator(typed, "+", parse, format);
    assert plus.previousNumber == Number(Some(5.0)) && plus.currentNumber == "5";
    assert Round8(10.0) == 10.0 by { Round8KeepsGrid(1000000000); }
  }

  /** `inputOperator` with the pending calculation performed only when a
      new operand has been typed, so a second operator key only replaces
      the first. */
  function InputOperatorCorrected(c: Calculator, next: string, parse: string -> Option<real>, format: real -> string): (r: Calculator)
    ensures c.waitingForOperand && c.previousNumber.Number? ==> r == c.(operator := Some(next))
    ensures !c.waitingForOperand || c.previousNumber.Empty? ==> r == InputOperator(c, next, parse, format)
    ensures r.history == c.history
  {
    if c.waitingForOperand && c.previousNumber.Number? then c.(operator := Some(next))
    else InputOperator(c, next, parse, format)
  }

  /** With the correction, changing the operator right after choosing one
      computes nothing: the result is as if only the second had been pressed. */
  lemma OperatorSwitchOnlyReplaces(c: Calculator, op1: string, op2: string,
                                   parse: string -> Option<real>, format: real -> string)
    requires !c.waitingForOperand || c.previousNumber.Empty?
    ensures var once := InputOperatorCorrected(c, op1, parse, format);
            once.waitingForOperand && once.previousNumber.Number? ==>
              InputOperatorCorrected(once, op2, parse, format) == InputOperatorCorrected(c, op2, parse, format)
  {
  }
}
