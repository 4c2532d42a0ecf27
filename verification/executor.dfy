/**
 * The stack machine of IntermediateCode/IcvExecutable.cs. It walks the intermediate
 * code vector with an instruction index that `read`, `write` and `until` can move,
 * keeps operands on an execution stack and writes symbol values in place.
 *
 * The read and write callbacks become an input sequence and an event trace: a read
 * records the identifier it asks for and consumes the next answer (an exhausted input
 * answers null); a write records the value and the identifier, if any. The expression
 * evaluator and the two string conversions are functions supplied from outside (Host).
 * Because `until` can jump backwards the machine need not stop, so a run is given fuel:
 * one unit per executed token.
 */
module Executable {
  import opened Wrappers
  import opened Tokens
  import opened Lang
  import CodeVector

  /** The foreign functions the machine calls: `DataTable.Compute(...).ToString()`,
      `Convert.ToInt32` and `Convert.ToBoolean` on a lexeme; None is an exception. */
  datatype Host = Host(compute: string -> Option<string>, toInt32: string -> Option<int>, toBoolean: string -> Option<bool>)

  /** A call of one of the two callbacks. */
  datatype Event = Asked(name: string) | Wrote(value: string, identifier: Option<string>)

  /** Everything the machine changes: the execution stack (top last), the symbol values,
      the answers still to be read and the callbacks made so far. */
  datatype Machine = Machine(stack: seq<Token>, symbols: seq<Symbol>, input: seq<Option<string>>, trace: seq<Event>)

  /** The effect of one helper: the new machine and the exception raised, if any. */
  datatype Effect = Effect(m: Machine, error: Option<Error>)

  /** The effect of one token: the new machine, the index the loop goes on with, and the exception. */
  datatype Moved = Moved(m: Machine, next: int, error: Option<Error>)

  datatype Halt = Finished | Raised(error: Error) | OutOfFuel

  /** How a run ends: the final machine and why it stopped. */
  datatype Final = Final(m: Machine, halt: Halt)

  /** The same table up to values: same length, same names and kinds at every position. */
  predicate SameShape(before: seq<Symbol>, after: seq<Symbol>)
  {
    |before| == |after| &&
    forall k | 0 <= k < |before| :: before[k].id == after[k].id && before[k].token == after[k].token
  }

  /** The text an operand stands for: an identifier's symbol value, any other token's lexeme. */
  function OperandValue(symbols: seq<Symbol>, operand: Token): Result<string, Error>
  {
    if IsIdentifier(operand.id) then
      if 0 <= operand.tablePosition < |symbols| then Success(symbols[operand.tablePosition].value)
      else Failure(IndexOutOfRange)
    else Success(operand.lexeme)
  }

  /** PopOperands: pops the right operand, then the left one. */
  function PopOperandsOn(stack: seq<Token>): (r: (seq<Token>, Result<(Token, Token), Error>))
    ensures r.1.Success? <==> |stack| >= 2
    ensures r.1.Success? ==> stack == r.0 + [r.1.value.0, r.1.value.1]
    ensures r.1.Failure? ==> r.1.error == EmptyStack && r.0 == []
  {
    if |stack| < 2 then ([], Failure(EmptyStack))
    else (stack[..|stack| - 2], Success((stack[|stack| - 2], stack[|stack| - 1])))
  }

  /** AssignRightToLeft: the left operand's symbol takes the right operand's value;
      nothing else in the table changes. */
  function AssignOn(symbols: seq<Symbol>, left: Token, right: Token): (r: Result<seq<Symbol>, Error>)
    ensures r.Success? <==> OperandValue(symbols, right).Success? && 0 <= left.tablePosition < |symbols|
    ensures r.Failure? ==> r.error == IndexOutOfRange
    ensures r.Success? ==> SameShape(symbols, r.value)
    ensures r.Success? ==> r.value[left.tablePosition].value == OperandValue(symbols, right).value
    ensures r.Success? ==> forall k | 0 <= k < |symbols| && k != left.tablePosition :: r.value[k] == symbols[k]
  {
    match OperandValue(symbols, right)
    case Failure(e) => Failure(e)
    case Success(value) =>
      if 0 <= left.tablePosition < |symbols| then
        Success(symbols[left.tablePosition := symbols[left.tablePosition].(value := value)])
      else Failure(IndexOutOfRange)
  }

  /** AssignToNext: asks for the identifier after `index`, and stores the answer, or the
      identifier's default when the answer is null, in its symbol. */
  function ReadOn(vector: seq<Token>, index: int, m: Machine): (r: Effect)
    requires 0 <= index < |vector|
    ensures r.error.None? <==>
              && index + 1 < |vector|
              && 0 <= vector[index + 1].tablePosition < |m.symbols|
              && (m.input == [] || m.input[0].None? ==> DefaultValueOf(vector[index + 1]).Success?)
    ensures r.error.None? ==> |m.input| > 0 ==> r.m.input == m.input[1..]
    ensures r.error.None? ==> r.m.stack == m.stack && r.m.trace == m.trace + [Asked(vector[index + 1].lexeme)]
    ensures r.error.None? ==>
              var next := vector[index + 1];
              var answer := if m.input == [] then None else m.input[0];
              && 0 <= next.tablePosition < |m.symbols|
              && (answer.None? ==> DefaultValueOf(next).Success?)
              && r.m.symbols == m.symbols[next.tablePosition := m.symbols[next.tablePosition].(
                                  value := if answer.Some? then answer.value else DefaultValueOf(next).value)]
    ensures r.error.Some? ==> r.m.symbols == m.symbols
  {
    if index + 1 >= |vector| then Effect(m, Some(IndexOutOfRange))
    else
      var next := vector[index + 1];
      if !(0 <= next.tablePosition < |m.symbols|) then Effect(m, Some(IndexOutOfRange))
      else
        var answer := if m.input == [] then None else m.input[0];
        var asked := m.(input := if m.input == [] then [] else m.input[1..], trace := m.trace + [Asked(next.lexeme)]);
        var value := if answer.Some? then Success(answer.value) else DefaultValueOf(next);
        match value
        case Failure(e) => Effect(asked, Some(e))
        case Success(v) =>
          Effect(asked.(symbols := m.symbols[next.tablePosition := m.symbols[next.tablePosition].(value := v)]), None)
  }

  /** WriteNext: writes the token after `index`, as its symbol value with its name if it
      is an identifier, as its bare lexeme otherwise. */
  function WriteOn(vector: seq<Token>, index: int, m: Machine): (r: Effect)
    requires 0 <= index < |vector|
    ensures r.m.stack == m.stack && r.m.symbols == m.symbols && r.m.input == m.input
    ensures r.error.None? <==>
              index + 1 < |vector| &&
              (IsIdentifier(vector[index + 1].id) ==> 0 <= vector[index + 1].tablePosition < |m.symbols|)
    ensures r.error.None? ==>
              var next := vector[index + 1];
              r.m.trace == m.trace + [if IsIdentifier(next.id) then Wrote(m.symbols[next.tablePosition].value, Some(next.lexeme))
                                      else Wrote(next.lexeme, None)]
    ensures r.error.Some? ==> r.m == m && r.error == Some(IndexOutOfRange)
  {
    if index + 1 >= |vector| then Effect(m, Some(IndexOutOfRange))
    else
      var next := vector[index + 1];
      if IsIdentifier(next.id) then
        if 0 <= next.tablePosition < |m.symbols| then
          Effect(m.(trace := m.trace + [Wrote(m.symbols[next.tablePosition].value, Some(next.lexeme))]), None)
        else Effect(m, Some(IndexOutOfRange))
      else Effect(m.(trace := m.trace + [Wrote(next.lexeme, None)]), None)
  }

  /** Evaluate: hands `left op right`, spelled out as text, to the expression evaluator. */
  function Evaluate(host: Host, symbols: seq<Symbol>, left: Token, right: Token, op: Token): Result<string, Error>
  {
    match (OperandValue(symbols, left), OperandValue(symbols, right))
    case (Failure(e), _) => Failure(e)
    case (_, Failure(e)) => Failure(e)
    case (Success(l), Success(r)) =>
      match host.compute(l + op.lexeme + r)
      case None => Failure(EvaluationError)
      case Some(result) => Success(result)
  }

  /** The until branch: pops the jump address, then the condition; a true condition
      jumps to the address. */
  function UntilOn(host: Host, m: Machine, i: int): (r: Moved)
    ensures r.m.symbols == m.symbols && r.m.input == m.input && r.m.trace == m.trace
    ensures r.error.None? <==>
              && |m.stack| >= 2
              && host.toInt32(m.stack[|m.stack| - 1].lexeme).Some?
              && host.toBoolean(m.stack[|m.stack| - 2].lexeme).Some?
    ensures r.error.None? ==>
              && r.m.stack == m.stack[..|m.stack| - 2]
              && r.next == if host.toBoolean(m.stack[|m.stack| - 2].lexeme).value
                           then host.toInt32(m.stack[|m.stack| - 1].lexeme).value else i + 1
    ensures r.error.Some? ==> r.next == i + 1 && (r.error == Some(EmptyStack) || r.error == Some(FormatError))
  {
    if m.stack == [] then Moved(m, i + 1, Some(EmptyStack))
    else
      var address := m.stack[|m.stack| - 1];
      var rest := m.stack[..|m.stack| - 1];
      match host.toInt32(address.lexeme)
      case None => Moved(m.(stack := rest), i + 1, Some(FormatError))
      case Some(untilIndex) =>
        if rest == [] then Moved(m.(stack := rest), i + 1, Some(EmptyStack))
        else
          var condition := rest[|rest| - 1];
          match host.toBoolean(condition.lexeme)
          case None => Moved(m.(stack := rest[..|rest| - 1]), i + 1, Some(FormatError))
          case Some(c) => Moved(m.(stack := rest[..|rest| - 1]), if c then untilIndex else i + 1, None)
  }

  /** One iteration of the ExecuteIcv loop at index `i`. */
  function Step(host: Host, vector: seq<Token>, m: Machine, i: int): Moved
    requires 0 <= i < |vector|
  {
    var token := vector[i];
    if token.id == Address then Moved(m.(stack := m.stack + [token]), i + 1, None)
    else if token.id == UntilKeyword then UntilOn(host, m, i)
    else if IsIdentifier(token.id) || IsLiteral(token.id) then Moved(m.(stack := m.stack + [token]), i + 1, None)
    else if token.id == AssignmentOperator then
      var (stack, popped) := PopOperandsOn(m.stack);
      match popped
      case Failure(e) => Moved(m.(stack := stack), i + 1, Some(e))
      case Success((left, right)) =>
        match AssignOn(m.symbols, left, right)
        case Failure(e) => Moved(m.(stack := stack), i + 1, Some(e))
        case Success(symbols) => Moved(m.(stack := stack, symbols := symbols), i + 1, None)
    else if IsOperator(token.id) then
      var (stack, popped) := PopOperandsOn(m.stack);
      match popped
      case Failure(e) => Moved(m.(stack := stack), i + 1, Some(e))
      case Success((left, right)) =>
        match Evaluate(host, m.symbols, left, right, token)
        case Failure(e) => Moved(m.(stack := stack), i + 1, Some(e))
        case Success(result) => Moved(m.(stack := stack + [Token(result, 0, 0, 0)]), i + 1, None)
    else if token.id == ReadFunction then
      var e := ReadOn(vector, i, m);
      Moved(e.m, i + 2, e.error)
    else if token.id == WriteFunction then
      var e := WriteOn(vector, i, m);
      Moved(e.m, i + 2, e.error)
    else Moved(m, i + 1, None)
  }

  /** The ExecuteIcv loop from index `i` with `fuel` tokens left to execute. */
  function Execute(host: Host, vector: seq<Token>, m: Machine, i: int, fuel: nat): Final
    decreases fuel
  {
    if i >= |vector| then Final(m, Finished)
    else if i < 0 then Final(m, Raised(IndexOutOfRange))
    else if fuel == 0 then Final(m, OutOfFuel)
    else
      var s := Step(host, vector, m, i);
      if s.error.Some? then Final(s.m, Raised(s.error.value))
      else Execute(host, vector, s.m, s.next, fuel - 1)
  }

  /** Identifiers, literals and address tokens (kind -99) are pushed as they are. */
  lemma {:induction false} OperandsArePushed(host: Host, vector: seq<Token>, m: Machine, i: int)
    requires 0 <= i < |vector|
    requires IsIdentifier(vector[i].id) || IsLiteral(vector[i].id) || vector[i].id == Address
    ensures Step(host, vector, m, i) == Moved(m.(stack := m.stack + [vector[i]]), i + 1, None)
  {
  }

  /** An assignment pops two operands and writes the right one's value into the left
      one's symbol; the stack loses exactly those two and no other symbol changes. */
  lemma {:induction false} AssignmentWritesLeftSymbol(host: Host, vector: seq<Token>, m: Machine, i: int)
    requires 0 <= i < |vector| && vector[i].id == AssignmentOperator
    ensures var s := Step(host, vector, m, i);
            s.error.None? ==>
              && s.next == i + 1
              && |m.stack| >= 2 && s.m.stack == m.stack[..|m.stack| - 2]
              && var left, right := m.stack[|m.stack| - 2], m.stack[|m.stack| - 1];
                 && 0 <= left.tablePosition < |m.symbols|
                 && s.m.symbols[left.tablePosition].value == OperandValue(m.symbols, right).value
                 && (forall k | 0 <= k < |m.symbols| && k != left.tablePosition :: s.m.symbols[k] == m.symbols[k])
                 && SameShape(m.symbols, s.m.symbols)
                 && s.m.input == m.input && s.m.trace == m.trace
  {
  }

  /** Any other operator replaces its two operands by one result token of kind 0 and
      leaves the symbols alone. */
  lemma {:induction false} OperatorPushesOneResult(host: Host, vector: seq<Token>, m: Machine, i: int)
    requires 0 <= i < |vector| && IsOperator(vector[i].id) && vector[i].id != AssignmentOperator
    ensures var s := Step(host, vector, m, i);
            s.error.None? ==>
              && s.next == i + 1
              && |m.stack| >= 2 && |s.m.stack| == |m.stack| - 1
              && s.m.stack[..|s.m.stack| - 1] == m.stack[..|m.stack| - 2]
              && s.m.stack[|s.m.stack| - 1].id == 0
              && s.m.symbols == m.symbols && s.m.input == m.input && s.m.trace == m.trace
  {
    var token := vector[i];
    assert token.id != Address && token.id != UntilKeyword && !IsIdentifier(token.id) && !IsLiteral(token.id);
    var s := Step(host, vector, m, i);
    var (stack, popped) := PopOperandsOn(m.stack);
    if popped.Success? {
      var (left, right) := popped.value;
      var result := Evaluate(host, m.symbols, left, right, token);
      if result.Success? {
        assert s == Moved(m.(stack := stack + [Token(result.value, 0, 0, 0)]), i + 1, None);
        assert (stack + [Token(result.value, 0, 0, 0)])[..|stack|] == stack;
      }
    }
  }

  /** A read stores the answer (or the default) in the symbol of the next token and
      skips that token. */
  lemma {:induction false} ReadSkipsItsOperand(host: Host, vector: seq<Token>, m: Machine, i: int)
    requires 0 <= i < |vector| && vector[i].id == ReadFunction
    ensures var s := Step(host, vector, m, i);
            && s.next == i + 2
            && (s.error.None? ==>
                  var next := vector[i + 1];
                  var answer := if m.input == [] then None else m.input[0];
                  && (answer.None? ==> DefaultValueOf(next).Success?)
                  && s.m.symbols == m.symbols[next.tablePosition := m.symbols[next.tablePosition].(
                                      value := if answer.Some? then answer.value else DefaultValueOf(next).value)]
                  && SameShape(m.symbols, s.m.symbols)
                  && s.m.trace == m.trace + [Asked(next.lexeme)] && s.m.stack == m.stack)
  {
  }

  /** A write reports the next token and skips it; it changes no symbol. */
  lemma {:induction false} WriteSkipsItsOperand(host: Host, vector: seq<Token>, m: Machine, i: int)
    requires 0 <= i < |vector| && vector[i].id == WriteFunction
    ensures var s := Step(host, vector, m, i);
            && s.next == i + 2
            && s.m.symbols == m.symbols && s.m.stack == m.stack && s.m.input == m.input
            && (s.error.None? ==>
                  var next := vector[i + 1];
                  s.m.trace == m.trace + [if IsIdentifier(next.id) then Wrote(m.symbols[next.tablePosition].value, Some(next.lexeme))
                                          else Wrote(next.lexeme, None)])
  {
  }

  /** `until` pops the address (the top) and then the condition; the loop goes on at the
      address when the condition is true and at the next token otherwise. */
  lemma {:induction false} UntilJumpsOnTrue(host: Host, vector: seq<Token>, m: Machine, i: int)
    requires 0 <= i < |vector| && vector[i].id == UntilKeyword
    ensures var s := Step(host, vector, m, i);
            s.error.None? ==>
              && |m.stack| >= 2
              && var address, condition := m.stack[|m.stack| - 1], m.stack[|m.stack| - 2];
                 && host.toInt32(address.lexeme).Some? && host.toBoolean(condition.lexeme).Some?
                 && s.next == (if host.toBoolean(condition.lexeme).value then host.toInt32(address.lexeme).value else i + 1)
                 && s.m == m.(stack := m.stack[..|m.stack| - 2])
  {
    var s := Step(host, vector, m, i);
    if s.error.None? {
      var rest := m.stack[..|m.stack| - 1];
      assert rest[..|rest| - 1] == m.stack[..|m.stack| - 2];
    }
  }

  /** Every other kind (semicolon, begin, end, repeat, parentheses, and the kind-0 tokens)
      is skipped without effect. */
  lemma {:induction false} OtherKindsAreSkipped(host: Host, vector: seq<Token>, m: Machine, i: int)
    requires 0 <= i < |vector|
    requires var id := vector[i].id;
             !IsIdentifier(id) && !IsLiteral(id) && !IsOperator(id) &&
             id !in {Address, UntilKeyword, ReadFunction, WriteFunction}
    ensures Step(host, vector, m, i) == Moved(m, i + 1, None)
  {
  }

  /** The address token the generator emits after a loop condition has kind 0, not the
      address kind -99, so the machine skips it instead of pushing it: the following
      `until` then takes the condition's result for the address. */
  lemma {:induction false} GeneratedAddressIsSkipped(host: Host, vector: seq<Token>, m: Machine, i: int, address: int)
    requires 0 <= i < |vector| && vector[i] == CodeVector.AddressToken(address)
    ensures CodeVector.AddressToken(address).id != Address
    ensures Step(host, vector, m, i) == Moved(m, i + 1, None)
  {
    OtherKindsAreSkipped(host, vector, m, i);
  }

  /** No step changes the table's length, names or kinds; only values change. */
  lemma {:induction false} StepKeepsShape(host: Host, vector: seq<Token>, m: Machine, i: int)
    requires 0 <= i < |vector|
    ensures SameShape(m.symbols, Step(host, vector, m, i).m.symbols)
  {
  }

  /** A whole run keeps the table's length, names and kinds, however it ends. */
  lemma {:induction false} ExecuteKeepsShape(host: Host, vector: seq<Token>, m: Machine, i: int, fuel: nat)
    ensures SameShape(m.symbols, Execute(host, vector, m, i, fuel).m.symbols)
    decreases fuel
  {
    if 0 <= i < |vector| && fuel > 0 {
      var s := Step(host, vector, m, i);
      StepKeepsShape(host, vector, m, i);
      if s.error.None? {
        ExecuteKeepsShape(host, vector, s.m, s.next, fuel - 1);
      }
    }
  }

  /** Without an `until` token the index only moves forward, so a run from `i` needs at
      most one unit of fuel per remaining token: it finishes or raises, never runs dry. */
  lemma {:induction false} WithoutUntilExecutionEnds(host: Host, vector: seq<Token>, m: Machine, i: int, fuel: nat)
    requires forall k | 0 <= k < |vector| :: vector[k].id != UntilKeyword
    requires 0 <= i && fuel >= |vector| - i
    ensures Execute(host, vector, m, i, fuel).halt != OutOfFuel
    decreases fuel
  {
    if i < |vector| {
      var s := Step(host, vector, m, i);
      assert s.next >= i + 1;
      if s.error.None? {
        WithoutUntilExecutionEnds(host, vector, s.m, s.next, fuel - 1);
      }
    }
  }

  class IcvExecutable {
    const vector: seq<Token>
    const symbols: array<Symbol>
    const host: Host
    var executionStack: seq<Token>
    var input: seq<Option<string>>
    var trace: seq<Event>

    function State(): Machine
      reads this, symbols
    {
      Machine(executionStack, symbols[..], input, trace)
    }

    constructor (vector: seq<Token>, symbols: array<Symbol>, host: Host, input: seq<Option<string>>)
      ensures this.vector == vector && this.symbols == symbols && this.host == host
      ensures State() == Machine([], symbols[..], input, [])
    {
      this.vector := vector;
      this.symbols := symbols;
      this.host := host;
      executionStack := [];
      this.input := input;
      trace := [];
    }

    method PopOperands() returns (r: Result<(Token, Token), Error>)
      modifies this
      ensures State() == old(State()).(stack := PopOperandsOn(old(executionStack)).0)
      ensures r == PopOperandsOn(old(executionStack)).1
    {
      if |executionStack| == 0 {
        return Failure(EmptyStack);
      }
      var right := executionStack[|executionStack| - 1];
      executionStack := executionStack[..|executionStack| - 1];
      if |executionStack| == 0 {
        return Failure(EmptyStack);
      }
      var left := executionStack[|executionStack| - 1];
      executionStack := executionStack[..|executionStack| - 1];
      return Success((left, right));
    }

    method AssignRightToLeft(left: Token, right: Token) returns (error: Option<Error>)
      modifies symbols
      ensures AssignOn(old(symbols[..]), left, right) ==
                if error.None? then Success(symbols[..]) else Failure(error.value)
      ensures error.Some? ==> symbols[..] == old(symbols[..])
    {
      var rightValue;
      if IsIdentifier(right.id) {
        if !(0 <= right.tablePosition < symbols.Length) {
          return Some(IndexOutOfRange);
        }
        rightValue := symbols[right.tablePosition].value;
      } else {
        rightValue := right.lexeme;
      }
      if !(0 <= left.tablePosition < symbols.Length) {
        return Some(IndexOutOfRange);
      }
      symbols[left.tablePosition] := symbols[left.tablePosition].(value := rightValue);
      return None;
    }

    method AssignToNext(index: int) returns (error: Option<Error>)
      requires 0 <= index < |vector|
      modifies this, symbols
      ensures Effect(State(), error) == ReadOn(vector, index, old(State()))
    {
      if index + 1 >= |vector| {
        return Some(IndexOutOfRange);
      }
      var next := vector[index + 1];
      if !(0 <= next.tablePosition < symbols.Length) {
        return Some(IndexOutOfRange);
      }
      var answer: Option<string> := None;
      if |input| > 0 {
        answer := input[0];
        input := input[1..];
      }
      trace := trace + [Asked(next.lexeme)];
      var value: string;
      if answer.Some? {
        value := answer.value;
      } else {
        var default := DefaultValueOf(next);
        if default.Failure? {
          return Some(default.error);
        }
        value := default.value;
      }
      symbols[next.tablePosition] := symbols[next.tablePosition].(value := value);
      return None;
    }

    method WriteNext(index: int) returns (error: Option<Error>)
      requires 0 <= index < |vector|
      modifies this
      ensures Effect(State(), error) == WriteOn(vector, index, old(State()))
    {
      if index + 1 >= |vector| {
        return Some(IndexOutOfRange);
      }
      var next := vector[index + 1];
      var isIdentifier := IsIdentifier(next.id);
      if isIdentifier && !(0 <= next.tablePosition < symbols.Length) {
        return Some(IndexOutOfRange);
      }
      var value := if isIdentifier then symbols[next.tablePosition].value else next.lexeme;
      trace := trace + [Wrote(value, if isIdentifier then Some(next.lexeme) else None)];
      return None;
    }

    /** Runs the vector from its first token, executing at most `fuel` tokens, and hands
        back the same symbol array. */
    method ExecuteIcv(fuel: nat) returns (table: array<Symbol>, halt: Halt)
      modifies this, symbols
      ensures table == symbols
      ensures Final(State(), halt) == Execute(host, vector, old(State()), 0, fuel)
    {
      var i := 0;
      var left := fuel;
      while true
        invariant Execute(host, vector, State(), i, left) == Execute(host, vector, old(State()), 0, fuel)
        decreases left
      {
        if i >= |vector| {
          return symbols, Finished;
        }
        if i < 0 {
          return symbols, Raised(IndexOutOfRange);
        }
        if left == 0 {
          return symbols, OutOfFuel;
        }
        var token := vector[i];
        var next := i + 1;
        if token.id == Address {
          executionStack := executionStack + [token];
        } else if token.id == UntilKeyword {
          var error;
          error, next := Until(i);
          if error.Some? {
            return symbols, Raised(error.value);
          }
        } else if IsIdentifier(token.id) || IsLiteral(token.id) {
          executionStack := executionStack + [token];
        } else if token.id == AssignmentOperator {
          var operands := PopOperands();
          if operands.Failure? {
            return symbols, Raised(operands.error);
          }
          var error := AssignRightToLeft(operands.value.0, operands.value.1);
          if error.Some? {
            return symbols, Raised(error.value);
          }
        } else if IsOperator(token.id) {
          var operands := PopOperands();
          if operands.Failure? {
            return symbols, Raised(operands.error);
          }
          var result := Evaluate(host, symbols[..], operands.value.0, operands.value.1, token);
          if result.Failure? {
            return symbols, Raised(result.error);
          }
          executionStack := executionStack + [Token(result.value, 0, 0, 0)];
        } else if token.id == ReadFunction {
          var error := AssignToNext(i);
          if error.Some? {
            return symbols, Raised(error.value);
          }
          next := i + 2;
        } else if token.id == WriteFunction {
          var error := WriteNext(i);
          if error.Some? {
            return symbols, Raised(error.value);
          }
          next := i + 2;
        }
        i, left := next, left - 1;
      }
    }

    /** The until branch: `i = untilIndex - 1` followed by the loop's `i++`. */
    method Until(i: int) returns (error: Option<Error>, next: int)
      modifies this
      ensures Moved(State(), next, error) == UntilOn(host, old(State()), i)
    {
      if |executionStack| == 0 {
        return Some(EmptyStack), i + 1;
      }
      var address := executionStack[|executionStack| - 1];
      executionStack := executionStack[..|executionStack| - 1];
      var untilIndex := host.toInt32(address.lexeme);
      if untilIndex.None? {
        return Some(FormatError), i + 1;
      }
      if |executionStack| == 0 {
        return Some(EmptyStack), i + 1;
      }
      var condition := executionStack[|executionStack| - 1];
      executionStack := executionStack[..|executionStack| - 1];
      var untilCondition := host.toBoolean(condition.lexeme);
      if untilCondition.None? {
        return Some(FormatError), i + 1;
      }
      next := i + 1;
      if untilCondition.value {
        next := untilIndex.value - 1 + 1;
      }
      return None, next;
    }
  }
}
