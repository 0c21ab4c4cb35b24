/** The input state machine of the calculator-claude `Calculator` class
    (calculator/script.js): a text buffer for the operand being typed, a
    pending operation over the previous operand, and a history of at most
    five results, newest first. Number parsing (`parseFloat`, with `None`
    for NaN) and the printing of a result (after `formatResult` has
    rounded it) are parameters; arithmetic is exact. */
module CalculatorClaude {
  import opened Wrappers
  import SeqUtil

  const MaxDigits: nat := 12
  const MaxHistoryItems: nat := 5
  const ErrorText: string := "Error"

  datatype HistoryItem = HistoryItem(expression: string, result: string, timestamp: int)

  datatype Calculator = Calculator(currentValue: string, previousValue: string, operation: Option<string>,
                                   shouldResetDisplay: bool, history: seq<HistoryItem>)

  /** The input part of the constructor (the history is loaded from storage). */
  function Create(history: seq<HistoryItem>): (c: Calculator)
    ensures c.currentValue == "0" && c.previousValue == "" && c.operation.None? && !c.shouldResetDisplay
    ensures c.history == history
  {
    Calculator("0", "", None, false, history)
  }

  /** `appendNumber`: after a finished result the buffer restarts from "0";
      a lone "0" is replaced by the digit; otherwise the digit is appended
      only while the buffer is shorter than 12 characters. */
  function AppendNumber(c: Calculator, digit: char): (r: Calculator)
    ensures !r.shouldResetDisplay && r.previousValue == c.previousValue && r.operation == c.operation
    ensures r.history == c.history
    ensures var base := if c.shouldResetDisplay then "0" else c.currentValue;
            && (base == "0" ==> r.currentValue == [digit])
            && (base != "0" && |base| < MaxDigits ==> r.currentValue == base + [digit])
            && (base != "0" && |base| >= MaxDigits ==> r.currentValue == base)
    ensures |r.currentValue| <= MaxDigits || r.currentValue == c.currentValue
  {
    var base := if c.shouldResetDisplay then "0" else c.currentValue;
    var next := if base == "0" then [digit] else if |base| < MaxDigits then base + [digit] else base;
    c.(currentValue := next, shouldResetDisplay := false)
  }

  /** Typing never makes an entry longer than 12 characters. */
  lemma {:induction false} TypedEntryFits(c: Calculator, digits: seq<char>)
    requires |c.currentValue| <= MaxDigits
    ensures |AppendDigits(c, digits).currentValue| <= MaxDigits
    decreases |digits|
  {
    if |digits| > 0 {
      TypedEntryFits(AppendNumber(c, digits[0]), digits[1..]);
    }
  }

  function AppendDigits(c: Calculator, digits: seq<char>): Calculator
    decreases |digits|
  {
    if |digits| == 0 then c else AppendDigits(AppendNumber(c, digits[0]), digits[1..])
  }

  /** `appendDecimal`: restarts from "0" after a result, then adds "." only
      when the buffer has none, so it never holds two. */
  function AppendDecimal(c: Calculator): (r: Calculator)
    ensures !r.shouldResetDisplay && r.previousValue == c.previousValue && r.operation == c.operation
    ensures r.history == c.history
    ensures '.' in r.currentValue
    ensures c.shouldResetDisplay ==> r.currentValue == "0."
    ensures !c.shouldResetDisplay && '.' in c.currentValue ==> r.currentValue == c.currentValue
    ensures !c.shouldResetDisplay && '.' !in c.currentValue ==> r.currentValue == c.currentValue + "."
    ensures SeqUtil.CountOf('.', r.currentValue) == 1 || r.currentValue == c.currentValue
  {
    var base := if c.shouldResetDisplay then "0" else c.currentValue;
    if '.' in base then c.(currentValue := base, shouldResetDisplay := false)
    else
      SeqUtil.CountOfConcat('.', base, ".");
      c.(currentValue := base + ".", shouldResetDisplay := false)
  }

  /** `backspace`: ignored right after a result; otherwise drops the last
      character, or falls back to "0" so the buffer is never empty. */
  function Backspace(c: Calculator): (r: Calculator)
    ensures c.shouldResetDisplay ==> r == c
    ensures !c.shouldResetDisplay && |c.currentValue| > 1 ==> r == c.(currentValue := c.currentValue[..|c.currentValue| - 1])
    ensures !c.shouldResetDisplay && |c.currentValue| <= 1 ==> r == c.(currentValue := "0")
    ensures !c.shouldResetDisplay ==> |r.currentValue| >= 1
  {
    if c.shouldResetDisplay then c
    else if |c.currentValue| > 1 then c.(currentValue := c.currentValue[..|c.currentValue| - 1])
    else c.(currentValue := "0")
  }

  /** Backspace undoes a digit that was appended to a non-zero entry. */
  lemma BackspaceUndoesAppend(c: Calculator, digit: char)
    requires !c.shouldResetDisplay && c.currentValue != "0" && 1 <= |c.currentValue| < MaxDigits
    ensures Backspace(AppendNumber(c, digit)) == c
  {
    assert (c.currentValue + [digit])[..|c.currentValue|] == c.currentValue;
  }

  /** `negate`: "0" stays; otherwise a leading '-' is removed or added. */
  function Negate(c: Calculator): (r: Calculator)
    ensures c.currentValue == "0" ==> r == c
    ensures c.currentValue != "0" && |c.currentValue| > 0 && c.currentValue[0] == '-' ==>
              r == c.(currentValue := c.currentValue[1..])
    ensures c.currentValue != "0" && (|c.currentValue| == 0 || c.currentValue[0] != '-') ==>
              r == c.(currentValue := "-" + c.currentValue)
  {
    if c.currentValue == "0" then c
    else if |c.currentValue| > 0 && c.currentValue[0] == '-' then c.(currentValue := c.currentValue[1..])
    else c.(currentValue := "-" + c.currentValue)
  }

  /** Negating twice restores the entry, except for "-0", which becomes "0"
      (and for entries starting with "--", which typing cannot produce). */
  lemma NegateTwice(c: Calculator)
    ensures c.currentValue != "-0" && !(|c.currentValue| >= 2 && c.currentValue[1] == '-') ==> Negate(Negate(c)) == c
    ensures c.currentValue == "-0" ==> Negate(Negate(c)) == c.(currentValue := "0")
  {
    if c.currentValue != "0" && |c.currentValue| > 0 && c.currentValue[0] == '-' {
      assert "-" + c.currentValue[1..] == c.currentValue;
    } else if c.currentValue != "0" {
      var n := "-" + c.currentValue;
      assert n[0] == '-' && |n| > 0 && n != "0";
      assert n[1..] == c.currentValue;
    }
  }

  /** "-0" is reachable from a fresh calculator: ".", negate, backspace. */
  lemma NegativeZeroReachable(history: seq<HistoryItem>)
    ensures Backspace(Negate(AppendDecimal(Create(history)))).currentValue == "-0"
  {
    assert AppendDecimal(Create(history)).currentValue == "0.";
    assert Negate(AppendDecimal(Create(history))).currentValue == "-0.";
  }

  /** `clear`: back to the initial input state; the history is kept. */
  function Clear(c: Calculator): (r: Calculator)
    ensures r == Create(c.history)
  {
    c.(currentValue := "0", previousValue := "", operation := None, shouldResetDisplay := false)
  }

  /** `clearEntry`: only the buffer is reset. */
  function ClearEntry(c: Calculator): (r: Calculator)
    ensures r.currentValue == "0" && r.(currentValue := c.currentValue) == c
  {
    c.(currentValue := "0")
  }

  /** `getOperatorSymbol`: display glyphs for the four operators; anything
      else is shown as itself. */
  function GetOperatorSymbol(op: string): (s: string)
    ensures op == "+" ==> s == "+"
    ensures op == "-" ==> s == "−"
    ensures op == "*" ==> s == "×"
    ensures op == "/" ==> s == "÷"
    ensures op !in {"+", "-", "*", "/"} ==> s == op
  {
    if op == "-" then "−" else if op == "*" then "×" else if op == "/" then "÷" else op
  }

  /** `addToHistory`: the new item goes in front and only the five newest are kept. */
  function AddToHistory(c: Calculator, item: HistoryItem): (r: Calculator)
    ensures |r.history| == if |c.history| + 1 <= MaxHistoryItems then |c.history| + 1 else MaxHistoryItems
    ensures r.history[0] == item
    ensures forall i :: 1 <= i < |r.history| ==> r.history[i] == c.history[i - 1]
    ensures r == c.(history := r.history)
  {
    var h := [item] + c.history;
    c.(history := if |h| > MaxHistoryItems then h[..MaxHistoryItems] else h)
  }

  /** A capped history stays capped. */
  lemma HistoryStaysCapped(c: Calculator, item: HistoryItem)
    requires |c.history| <= MaxHistoryItems
    ensures |AddToHistory(c, item).history| <= MaxHistoryItems
  {
  }

  /** The value of an arithmetic operation; `None` stands for NaN, and
      division by zero is handled by the caller. */
  function Apply(op: string, a: Option<real>, b: Option<real>): Option<real>
    requires op in {"+", "-", "*", "/"}
    requires op == "/" ==> b != Some(0.0)
  {
    if a.None? || b.None? then None
    else if op == "+" then Some(a.value + b.value)
    else if op == "-" then Some(a.value - b.value)
    else if op == "*" then Some(a.value * b.value)
    else Some(a.value / b.value)
  }

  /** Results above this magnitude are printed in exponent form, unrounded. */
  const ExponentialAbove: real := 999999999999.0

  /** Results are rounded to this many parts of one. */
  const RoundingScale: real := 100000000.0

  function Abs(x: real): real { if x < 0.0 then -x else x }

  /** `Math.round(result * 100000000) / 100000000`: the nearest multiple of
      10^-8, a half rounding up. */
  function Round8(x: real): (r: real)
    ensures x - 0.000000005 < r <= x + 0.000000005
    ensures (r * RoundingScale).Floor as real == r * RoundingScale
  {
    var n := (x * RoundingScale + 0.5).Floor;
    assert n as real <= x * RoundingScale + 0.5 < n as real + 1.0;
    n as real / RoundingScale
  }

  /** Rounding an already rounded result changes nothing. */
  lemma Round8Idempotent(x: real)
    ensures Round8(Round8(x)) == Round8(x)
  {
    var r := Round8(x);
    var n := (r * RoundingScale).Floor;
    assert n as real == r * RoundingScale;
    assert (r * RoundingScale + 0.5).Floor == n;
  }

  /** A multiple of 10^-8 is its own rounding. */
  lemma Round8KeepsGrid(n: int)
    ensures Round8(n as real / RoundingScale) == n as real / RoundingScale
  {
    var x := n as real / RoundingScale;
    assert x * RoundingScale == n as real;
    assert (x * RoundingScale + 0.5).Floor == n;
  }

  /** `formatResult`: NaN prints as "Error"; a magnitude above 999999999999
      is printed as is (`toExponential`); anything else is rounded to eight
      decimals before printing. The printing itself is `format`. */
  function FormatResult(v: Option<real>, format: real -> string): (t: string)
    ensures v.None? ==> t == ErrorText
    ensures v.Some? && Abs(v.value) > ExponentialAbove ==> t == format(v.value)
    ensures v.Some? && Abs(v.value) <= ExponentialAbove ==> t == format(Round8(v.value))
  {
    match v
    case None => ErrorText
    case Some(x) => if Abs(x) > ExponentialAbove then format(x) else format(Round8(x))
  }

  /** `showError`: the buffer shows "Error"; the reset two seconds later is not modelled. */
  function ShowError(c: Calculator): (r: Calculator)
    ensures r.currentValue == ErrorText && r.(currentValue := c.currentValue) == c
  {
    c.(currentValue := ErrorText)
  }

  /** Whether `calculate` computes a result: an operation and a previous
      operand are present, the operator is known, and it is not a division
      by a zero entry. */
  predicate Computes(c: Calculator, parse: string -> Option<real>) {
    && c.operation.Some? && c.previousValue != "" && c.operation.value in {"+", "-", "*", "/"}
    && !(c.operation.value == "/" && parse(c.currentValue) == Some(0.0))
  }

  /** `calculate`: nothing without an operation and a previous operand, or
      for an unknown operator; dividing by zero shows the error and keeps
      the pending operation; otherwise the result replaces the buffer, is
      recorded in the history, and the operation is consumed. */
  function Calculate(c: Calculator, parse: string -> Option<real>, format: real -> string, now: int): (r: Calculator)
    ensures c.operation.None? || c.previousValue == "" ==> r == c
    ensures c.operation.Some? && c.operation.value !in {"+", "-", "*", "/"} ==> r == c
    ensures c.operation == Some("/") && c.previousValue != "" && parse(c.currentValue) == Some(0.0) ==>
              r == ShowError(c)
    ensures !Computes(c, parse) ==> r.history == c.history && r.operation == c.operation && r.previousValue == c.previousValue
    ensures Computes(c, parse) ==>
              && r.operation.None? && r.previousValue == "" && r.shouldResetDisplay
              && |r.history| > 0
              && r.history[0] == HistoryItem(c.previousValue + " " + GetOperatorSymbol(c.operation.value) + " " + c.currentValue,
                                             r.currentValue, now)
              && r.history == AddToHistory(c, r.history[0]).history
    ensures Computes(c, parse) && (parse(c.previousValue).None? || parse(c.currentValue).None?) ==>
              r.currentValue == ErrorText
    ensures Computes(c, parse) && parse(c.previousValue).Some? && parse(c.currentValue).Some? ==>
              r.currentValue == FormatResult(Apply(c.operation.value, parse(c.previousValue), parse(c.currentValue)), format)
  {
    if c.operation.None? || c.previousValue == "" then c
    else
      var op := c.operation.value;
      if op !in {"+", "-", "*", "/"} then c
      else if op == "/" && parse(c.currentValue) == Some(0.0) then ShowError(c)
      else
        var text := FormatResult(Apply(op, parse(c.previousValue), parse(c.currentValue)), format);
        var expression := c.previousValue + " " + GetOperatorSymbol(op) + " " + c.currentValue;
        var logged := AddToHistory(c, HistoryItem(expression, text, now));
        logged.(currentValue := text, operation := None, previousValue := "", shouldResetDisplay := true)
  }

  /** `setOperation`: a pending operation with a fresh operand is computed
      first; then the operator is stored over the current entry and the
      next digit starts a new entry. */
  function SetOperation(c: Calculator, op: string, parse: string -> Option<real>, format: real -> string, now: int): (r: Calculator)
    ensures r.operation == Some(op) && r.shouldResetDisplay
    ensures c.operation.Some? && !c.shouldResetDisplay ==>
              r == Calculate(c, parse, format, now).(operation := Some(op), shouldResetDisplay := true,
                                                     previousValue := Calculate(c, parse, format, now).currentValue)
    ensures c.operation.None? || c.shouldResetDisplay ==>
              r == c.(operation := Some(op), previousValue := c.currentValue, shouldResetDisplay := true)
    ensures r.previousValue == r.currentValue
  {
    var after := if c.operation.Some? && !c.shouldResetDisplay then Calculate(c, parse, format, now) else c;
    after.(operation := Some(op), previousValue := after.currentValue, shouldResetDisplay := true)
  }

  /** Changing the operator right after choosing one computes nothing. */
  lemma OperatorChangeOnlyReplaces(c: Calculator, op1: string, op2: string,
                                   parse: string -> Option<real>, format: real -> string, now: int)
    ensures var once := SetOperation(c, op1, parse, format, now);
            SetOperation(once, op2, parse, format, now) == once.(operation := Some(op2))
  {
  }
}
