/** The state of the calculator-gemini page script (calculator/script.js):
    the entry as text, the first operand and pending operator, the
    reset-on-next-digit flag, and an unbounded calculation history of which
    the page shows the last five. `parseFloat` (with `None` for NaN) and the
    printing of a finite number are parameters; arithmetic is exact. */
module CalculatorGemini {
  import opened Wrappers
  import SeqUtil

  const ShownHistoryItems: nat := 5

  /** The four operator keys; the page wires no other operator. */
  datatype Op = Add | Subtract | Multiply | Divide

  /** `firstOperand`: `null` until an operator is pressed, then the parsed
      entry, which may be NaN (`Parsed(None)`). */
  datatype Operand = Null | Parsed(value: Option<real>)

  /** The `result` of `calculate`: a number (NaN as `None`) or the string
      "Error" for division by zero. */
  datatype Outcome = Value(v: Option<real>) | DivisionError

  /** One history line, kept structured: first operand, operator, second
      operand and result. */
  datatype Entry = Entry(first: Operand, op: Op, second: Option<real>, result: Outcome)

  datatype Calculator = Calculator(currentInput: string, operator: Option<Op>, firstOperand: Operand,
                                   shouldResetDisplay: bool, history: seq<Entry>)

  /** The page's initial state. */
  function Initial(): (c: Calculator)
    ensures c.currentInput == "0" && c.operator.None? && c.firstOperand.Null? && !c.shouldResetDisplay
    ensures c.history == []
  {
    Calculator("0", None, Null, false, [])
  }

  /** `updateHistory`: the last five entries, oldest first. */
  function ShownHistory(history: seq<Entry>): (r: seq<Entry>)
    ensures |r| == if |history| < ShownHistoryItems then |history| else ShownHistoryItems
    ensures forall i :: 0 <= i < |r| ==> r[i] == history[|history| - |r| + i]
  {
    if |history| > ShownHistoryItems then history[|history| - ShownHistoryItems..] else history
  }

  /** After a new entry the page shows it last, preceded by the up to four
      entries shown before it that are still among the newest five. */
  lemma ShownHistoryAfterPush(history: seq<Entry>, e: Entry)
    ensures var shown := ShownHistory(history + [e]);
            && shown[|shown| - 1] == e
            && shown[..|shown| - 1] == ShownHistory(history)[|ShownHistory(history)| + 1 - |shown|..]
  {
    var shown := ShownHistory(history + [e]);
    var before := ShownHistory(history);
    assert shown[..|shown| - 1] == before[|before| + 1 - |shown|..];
  }

  /** `handleNumberClick`: after a result or an operator the entry restarts
      with the digit; a lone "0" is replaced; otherwise the digit is appended. */
  function HandleNumberClick(c: Calculator, number: string): (r: Calculator)
    ensures !r.shouldResetDisplay && r.operator == c.operator && r.firstOperand == c.firstOperand
    ensures r.history == c.history
    ensures c.shouldResetDisplay ==> r.currentInput == number
    ensures !c.shouldResetDisplay && c.currentInput == "0" ==> r.currentInput == number
    ensures !c.shouldResetDisplay && c.currentInput != "0" ==> r.currentInput == c.currentInput + number
  {
    if c.shouldResetDisplay then c.(currentInput := number, shouldResetDisplay := false)
    else c.(currentInput := if c.currentInput == "0" then number else c.currentInput + number)
  }

  /** `handleDecimalClick`: "0." after a result or an operator; otherwise
      "." is added only when the entry has none, so it never holds two. */
  function HandleDecimalClick(c: Calculator): (r: Calculator)
    ensures !r.shouldResetDisplay && r.operator == c.operator && r.firstOperand == c.firstOperand
    ensures r.history == c.history
    ensures '.' in r.currentInput
    ensures c.shouldResetDisplay ==> r.currentInput == "0."
    ensures !c.shouldResetDisplay && '.' in c.currentInput ==> r == c
    ensures !c.shouldResetDisplay && '.' !in c.currentInput ==> r.currentInput == c.currentInput + "."
    ensures SeqUtil.CountOf('.', r.currentInput) == 1 || r.currentInput == c.currentInput
  {
    if c.shouldResetDisplay then
      SeqUtil.CountOfConcat('.', "0", ".");
      c.(currentInput := "0.", shouldResetDisplay := false)
    else if '.' in c.currentInput then c
    else
      SeqUtil.CountOfConcat('.', c.currentInput, ".");
      c.(currentInput := c.currentInput + ".")
  }

  /** A second decimal point is ignored. */
  lemma DecimalClickIdempotent(c: Calculator)
    ensures HandleDecimalClick(HandleDecimalClick(c)) == HandleDecimalClick(c)
  {
  }

  /** `handleClearClick`: back to the initial entry state; the history is kept. */
  function HandleClearClick(c: Calculator): (r: Calculator)
    ensures r == Initial().(history := c.history)
  {
    c.(currentInput := "0", operator := None, firstOperand := Null, shouldResetDisplay := false)
  }

  /** `getOperatorSymbol`. */
  function GetOperatorSymbol(op: Op): (s: string)
    ensures |s| == 1
    ensures s == "+" <==> op == Add
    ensures s == "-" <==> op == Subtract
    ensures s == "*" <==> op == Multiply
    ensures s == "/" <==> op == Divide
  {
    match op
    case Add => "+"
    case Subtract => "-"
    case Multiply => "*"
    case Divide => "/"
  }

  /** The number JavaScript arithmetic reads from `firstOperand`: `null` counts as 0. */
  function OperandValue(a: Operand): Option<real>
  {
    match a case Null => Some(0.0) case Parsed(v) => v
  }

  /** The arithmetic of `calculate`: NaN in gives NaN out, except that a zero
      divisor always gives "Error". */
  function Compute(op: Op, a: Option<real>, b: Option<real>): (r: Outcome)
    ensures r.DivisionError? <==> op == Divide && b == Some(0.0)
    ensures r.Value? && r.v.Some? <==> a.Some? && b.Some? && !(op == Divide && b == Some(0.0))
    ensures a.Some? && b.Some? ==>
              && (op == Add ==> r == Value(Some(a.value + b.value)))
              && (op == Subtract ==> r == Value(Some(a.value - b.value)))
              && (op == Multiply ==> r == Value(Some(a.value * b.value)))
              && (op == Divide && b.value != 0.0 ==> r == Value(Some(a.value / b.value)))
  {
    if op == Divide && b == Some(0.0) then DivisionError
    else if a.None? || b.None? then Value(None)
    else match op
      case Add => Value(Some(a.value + b.value))
      case Subtract => Value(Some(a.value - b.value))
      case Multiply => Value(Some(a.value * b.value))
      case Divide => Value(Some(a.value / b.value))
  }

  /** `result.toString()`. */
  function OutcomeText(r: Outcome, format: real -> string): string
  {
    match r
    case DivisionError => "Error"
    case Value(None) => "NaN"
    case Value(Some(x)) => format(x)
  }

  /** `calculate`: the result replaces the entry, exactly one entry is
      appended to the history, and the next digit starts a new entry. */
  function Calculate(c: Calculator, parse: string -> Option<real>, format: real -> string): (r: Calculator)
    requires c.operator.Some?
    ensures |r.history| == |c.history| + 1 && r.history[..|c.history|] == c.history
    ensures var e := r.history[|c.history|];
            && e.first == c.firstOperand && e.op == c.operator.value && e.second == parse(c.currentInput)
            && r.currentInput == OutcomeText(e.result, format)
    ensures r.history[|c.history|].result == Compute(c.operator.value, OperandValue(c.firstOperand), parse(c.currentInput))
    ensures c.operator == Some(Divide) && parse(c.currentInput) == Some(0.0) ==> r.currentInput == "Error"
    ensures r.shouldResetDisplay
    ensures r.operator == c.operator && r.firstOperand == c.firstOperand
  {
    var second := parse(c.currentInput);
    var result := Compute(c.operator.value, OperandValue(c.firstOperand), second);
    var history := c.history + [Entry(c.firstOperand, c.operator.value, second, result)];
    assert history[..|c.history|] == c.history;
    c.(currentInput := OutcomeText(result, format), history := history, shouldResetDisplay := true)
  }

  /** `handleEqualsClick`: nothing without an operator or before a second
      operand has been typed; otherwise calculate and drop the operator. */
  function HandleEqualsClick(c: Calculator, parse: string -> Option<real>, format: real -> string): (r: Calculator)
    ensures c.operator.None? || c.shouldResetDisplay ==> r == c
    ensures c.operator.Some? && !c.shouldResetDisplay ==>
              r == Calculate(c, parse, format).(operator := None)
  {
    if c.operator.None? || c.shouldResetDisplay then c
    else Calculate(c, parse, format).(operator := None)
  }

  /** Two numbers and an operator that is not a division by zero: the
      display shows the formatted arithmetic result and the history records it. */
  lemma CalculateShowsArithmetic(c: Calculator, parse: string -> Option<real>, format: real -> string)
    requires c.operator.Some? && OperandValue(c.firstOperand).Some? && parse(c.currentInput).Some?
    requires c.operator != Some(Divide) || parse(c.currentInput) != Some(0.0)
    ensures var x, y, r := OperandValue(c.firstOperand).value, parse(c.currentInput).value, Calculate(c, parse, format);
            && (c.operator == Some(Add) ==> r.currentInput == format(x + y))
            && (c.operator == Some(Subtract) ==> r.currentInput == format(x - y))
            && (c.operator == Some(Multiply) ==> r.currentInput == format(x * y))
            && (c.operator == Some(Divide) ==> r.currentInput == format(x / y))
            && r.history[|c.history|].result.Value?
  {
    var result := Compute(c.operator.value, OperandValue(c.firstOperand), parse(c.currentInput));
    assert Calculate(c, parse, format).currentInput == OutcomeText(result, format);
  }

  /** Pressing `=` again right after a result does nothing. */
  lemma EqualsTwiceIsOnce(c: Calculator, parse: string -> Option<real>, format: real -> string)
    ensures var once := HandleEqualsClick(c, parse, format);
            HandleEqualsClick(once, parse, format) == once
  {
  }

  /** `handleOperatorClick` as written: a pending operator is calculated
      first, even when no second operand has been typed since it was
      pressed; then the entry becomes the first operand. */
  function HandleOperatorClick(c: Calculator, op: Op, parse: string -> Option<real>, format: real -> string): (r: Calculator)
    ensures c.operator.None? ==> r == c.(firstOperand := Parsed(parse(c.currentInput)), operator := Some(op),
                                         shouldResetDisplay := true)
    ensures c.operator.Some? ==>
              var after := Calculate(c, parse, format);
              r == after.(firstOperand := Parsed(parse(after.currentInput)), operator := Some(op))
    ensures |r.history| == |c.history| + (if c.operator.Some? then 1 else 0)
  {
    var after := if c.operator.Some? then Calculate(c, parse, format) else c;
    after.(firstOperand := Parsed(parse(after.currentInput)), operator := Some(op), shouldResetDisplay := true)
  }

  /** Pressing "5", "+", "-" as written logs and shows 5 + 5: switching the
      operator calculates with the first operand as the second. */
  lemma AsWrittenOperatorSwitchCalculates(parse: string -> Option<real>, format: real -> string)
    requires parse("5") == Some(5.0)
    ensures var typed := HandleNumberClick(Initial(), "5");
            var plus := HandleOperatorClick(typed, Add, parse, format);
            var minus := HandleOperatorClick(plus, Subtract, parse, format);
            && |minus.history| == 1
            && minus.history[0] == Entry(Parsed(Some(5.0)), Add, Some(5.0), Value(Some(10.0)))
            && minus.currentInput == format(10.0)
  {
  }

  /** `handleOperatorClick` calculating only once a second operand has been
      typed, so a second operator key only replaces the first. */
  function HandleOperatorClickCorrected(c: Calculator, op: Op, parse: string -> Option<real>, format: real -> string): (r: Calculator)
    ensures c.operator.Some? && c.shouldResetDisplay ==> r == c.(operator := Some(op))
    ensures !(c.operator.Some? && c.shouldResetDisplay) ==> r == HandleOperatorClick(c, op, parse, format)
  {
    if c.operator.Some? && c.shouldResetDisplay then c.(operator := Some(op))
    else HandleOperatorClick(c, op, parse, format)
  }

  /** With the correction, switching operators logs nothing and leaves the
      state the second key alone would have produced. */
  lemma OperatorSwitchOnlyReplaces(c: Calculator, op1: Op, op2: Op, parse: string -> Option<real>, format: real -> string)
    requires c.operator.None? || !c.shouldResetDisplay
    ensures var once := HandleOperatorClickCorrected(c, op1, parse, format);
            && HandleOperatorClickCorrected(once, op2, parse, format) == HandleOperatorClickCorrected(c, op2, parse, format)
            && HandleOperatorClickCorrected(once, op2, parse, format).history == once.history
  {
  }
}
