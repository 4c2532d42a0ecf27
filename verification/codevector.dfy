/**
 * The intermediate-code generator of IntermediateCode/IntermediateCodeVector.cs: a
 * shunting-yard pass over the body tokens with an operator stack ordered by priority,
 * an address stack for `repeat`, a statement stack, and an `until` latch.
 *
 * Stacks are sequences whose last element is the top. Each operation of the class is
 * proved against a function of the old state (Drain, PopWhileAtLeast, AddOperatorOn,
 * Step, Generate); the properties of the generator are lemmas about those functions.
 */
module CodeVector {
  import opened Wrappers
  import opened Tokens
  import opened Lang
  import Filter

  /** The four fields of the generator. */
  datatype GenState = GenState(icv: seq<Token>, operators: seq<Operator>, addresses: seq<int>, statements: seq<Token>)

  /** What a step or a run leaves: the fields, the `until` latch and the exception raised, if any. */
  datatype Run = Run(state: GenState, temp: Option<Token>, error: Option<Error>)

  predicate IsParenthesis(id: int)
  {
    id == OpenParenthesis || id == CloseParenthesis
  }

  /** AddToIcv: appends the token unless it is a parenthesis. */
  function AppendToIcv(icv: seq<Token>, token: Token): (r: seq<Token>)
    ensures !IsParenthesis(token.id) ==> r == icv + [token]
    ensures IsParenthesis(token.id) ==> r == icv
  {
    if IsParenthesis(token.id) then icv else icv + [token]
  }

  function Top(operators: seq<Operator>): Operator
    requires operators != []
  {
    operators[|operators| - 1]
  }

  function Pop<T>(stack: seq<T>): seq<T>
    requires stack != []
  {
    stack[..|stack| - 1]
  }

  /** EmptyOperatorsStack: pops every operator, top first, appending all but parentheses. */
  function Drain(st: GenState): GenState
    decreases |st.operators|
  {
    if st.operators == [] then st
    else
      var op := Top(st.operators);
      var icv := if IsParenthesis(op.token.id) then st.icv else AppendToIcv(st.icv, op.token);
      Drain(st.(operators := Pop(st.operators), icv := icv))
  }

  /** The pop loop of AddOperator: pops to the vector while the top's priority is at least `priority`. */
  function PopWhileAtLeast(st: GenState, priority: int): GenState
    decreases |st.operators|
  {
    if st.operators != [] && Top(st.operators).priority >= priority then
      PopWhileAtLeast(st.(operators := Pop(st.operators), icv := AppendToIcv(st.icv, Top(st.operators).token)), priority)
    else st
  }

  /** AddOperator as a function of the old fields. */
  function AddOperatorOn(st: GenState, op: Operator): GenState
  {
    if st.operators == [] || op.token.id == OpenParenthesis then st.(operators := st.operators + [op])
    else if Top(st.operators).priority < op.priority then st.(operators := st.operators + [op])
    else
      var popped := PopWhileAtLeast(st, op.priority);
      popped.(operators := popped.operators + [op])
  }

  /** The close-parenthesis branch: pops to the vector until an open parenthesis is on top,
      then pops that; peeking at an empty stack raises. */
  function CloseParenthesisOn(st: GenState): (GenState, Option<Error>)
    decreases |st.operators|
  {
    if st.operators == [] then (st, Some(EmptyStack))
    else if Top(st.operators).token.id == OpenParenthesis then (st.(operators := Pop(st.operators)), None)
    else CloseParenthesisOn(st.(operators := Pop(st.operators), icv := AppendToIcv(st.icv, Top(st.operators).token)))
  }

  function DigitChar(d: int): char
    requires 0 <= d < 10
  {
    ('0' as int + d) as char
  }

  /** The decimal text of a natural number. */
  function NatToString(n: nat): (s: string)
    ensures |s| > 0 && forall k | 0 <= k < |s| :: '0' <= s[k] <= '9'
  {
    if n < 10 then [DigitChar(n)] else NatToString(n / 10) + [DigitChar(n % 10)]
  }

  /** `int.ToString()`: decimal text with a leading '-' for negative numbers. */
  function IntToString(i: int): (s: string)
    ensures |s| > 0
    ensures (s[0] == '-') <==> i < 0
  {
    if i < 0 then "-" + NatToString(-i) else NatToString(i)
  }

  /** The value of one decimal digit. */
  function DigitValue(c: char): int
  {
    c as int - '0' as int
  }

  /** The value of a text of decimal digits, read from the left. */
  function DecimalValue(s: string): int
    decreases |s|
  {
    if s == [] then 0 else DecimalValue(s[..|s| - 1]) * 10 + DigitValue(s[|s| - 1])
  }

  /** The value of a decimal text with an optional leading '-', as `int.Parse` reads it. */
  function SignedValue(s: string): int
  {
    if s != [] && s[0] == '-' then -DecimalValue(s[1..]) else DecimalValue(s)
  }

  /** Reading the text of a natural number back gives the number. */
  lemma {:induction false} NatToStringValue(n: nat)
    ensures DecimalValue(NatToString(n)) == n
    decreases n
  {
    if n < 10 {
      assert [DigitChar(n)][..0] == [];
    } else {
      NatToStringValue(n / 10);
      var s := NatToString(n);
      assert s[..|s| - 1] == NatToString(n / 10);
    }
  }

  lemma {:induction false} UnsignedValue(digits: string)
    requires digits != [] && digits[0] != '-'
    ensures SignedValue(digits) == DecimalValue(digits)
  {
  }

  /** Reading the text of any integer back gives the integer: the address tokens the
      generator writes are read back as the addresses they stand for. */
  lemma {:induction false} IntToStringValue(i: int)
    ensures SignedValue(IntToString(i)) == i
  {
    if i < 0 {
      NegativeIntToStringValue(i);
    } else {
      NatToStringValue(i);
      UnsignedValue(NatToString(i));
    }
  }

  /** The text of a negative number is a minus sign before the digits of its magnitude. */
  lemma {:induction false} NegativeIntToStringValue(i: int)
    requires i < 0
    ensures SignedValue(IntToString(i)) == i
  {
    NatToStringValue(-i);
    MinusValue(i, IntToString(i), NatToString(-i));
  }

  lemma {:induction false} MinusValue(i: int, s: string, digits: string)
    requires s == "-" + digits && DecimalValue(digits) == -i
    ensures SignedValue(s) == i
  {
    assert s[1..] == digits;
  }

  /** The synthetic token the semicolon branch emits for a loop address: kind 0. */
  function AddressToken(address: int): Token
  {
    Token(IntToString(address), 0, 0, 0)
  }

  /** The semicolon branch: drains the operators; with the latch set it then emits the
      innermost open loop's address and the latched `until`, raising if no loop is open. */
  function SemicolonOn(st: GenState, temp: Option<Token>): Run
  {
    var drained := Drain(st);
    if temp.None? then Run(drained, temp, None)
    else if drained.addresses == [] then Run(drained, temp, Some(EmptyStack))
    else
      var address := drained.addresses[|drained.addresses| - 1];
      var icv := AppendToIcv(AppendToIcv(drained.icv, AddressToken(address)), temp.value);
      Run(drained.(addresses := Pop(drained.addresses), icv := icv), temp, None)
  }

  /** One iteration of the GenerateIcv loop. */
  function Step(st: GenState, temp: Option<Token>, token: Token): Run
  {
    var id := token.id;
    if IsIdentifier(id) || IsLiteral(id) then
      Run(st.(icv := AppendToIcv(st.icv, token)), temp, None)
    else if IsOperator(id) then
      match GetPriority(token)
      case Failure(e) => Run(st, temp, Some(e))
      case Success(priority) => Run(AddOperatorOn(st, Operator(token, priority)), temp, None)
    else if id == CloseParenthesis then
      var (st', error) := CloseParenthesisOn(st);
      Run(st', temp, error)
    else if id == Semicolon then SemicolonOn(st, temp)
    else if id == RepeatKeyword then
      Run(st.(statements := st.statements + [token], addresses := st.addresses + [|st.icv| - 1]), temp, None)
    else if id == UntilKeyword then
      Run(st, Some(token), None)
    else
      Run(st, temp, None)
  }

  /** The GenerateIcv loop over `tokens`, stopping at the first exception. */
  function Generate(st: GenState, temp: Option<Token>, tokens: seq<Token>): Run
    decreases |tokens|
  {
    if tokens == [] then Run(st, temp, None)
    else
      var r := Step(st, temp, tokens[0]);
      if r.error.Some? then r else Generate(r.state, r.temp, tokens[1..])
  }

  /** IntermediateCodeVector.GetBodyTokens: `List.GetRange(first begin + 1, last end - first begin - 1)`,
      which raises when the range is negative or runs past the list. It cuts out the same
      body as the array copy of Language/Filter.cs; only the exception differs. */
  function GetBodyTokens(tokens: seq<Token>): (r: Result<seq<Token>, Error>)
    ensures r.Failure? ==> r.error == ArgumentOutOfRange
    ensures r.Success? <==> Filter.GetBodyTokens(tokens).Success?
    ensures r.Success? ==> r.value == Filter.GetBodyTokens(tokens).value
  {
    var firstBeginIndex := Filter.FindIndex(tokens, BeginKeyword);
    var lastEndIndex := Filter.FindLastIndex(tokens, EndKeyword);
    var index, count := firstBeginIndex + 1, lastEndIndex - firstBeginIndex - 1;
    if index < 0 || count < 0 || index + count > |tokens| then Failure(ArgumentOutOfRange)
    else Success(tokens[index .. index + count])
  }

  /** The tokens EmptyOperatorsStack appends for `operators`: top first, parentheses skipped. */
  function Popped(operators: seq<Operator>): (r: seq<Token>)
    ensures |r| <= |operators|
    decreases |operators|
  {
    if operators == [] then []
    else
      var op := Top(operators);
      (if IsParenthesis(op.token.id) then [] else [op.token]) + Popped(Pop(operators))
  }

  /** A stack of operators drains to operator tokens only. */
  lemma {:induction false} PoppedOperators(operators: seq<Operator>)
    requires AllOperators(operators)
    ensures forall k | 0 <= k < |Popped(operators)| :: IsOperator(Popped(operators)[k].id)
    decreases |operators|
  {
    if operators != [] {
      var rest := Pop(operators);
      assert forall k | 0 <= k < |rest| :: rest[k] == operators[k];
      PoppedOperators(rest);
      var head: seq<Token> := if IsParenthesis(Top(operators).token.id) then [] else [Top(operators).token];
      var r := Popped(operators);
      assert r == head + Popped(rest);
      forall k | 0 <= k < |r| ensures IsOperator(r[k].id) {
        if k >= |head| { assert r[k] == Popped(rest)[k - |head|]; }
      }
    }
  }

  /** Draining empties the operator stack, appends the popped operators to the vector
      top first, and leaves the address and statement stacks alone. */
  lemma {:induction false} DrainEmptiesStack(st: GenState)
    ensures Drain(st).operators == []
    ensures Drain(st).icv == st.icv + Popped(st.operators)
    ensures Drain(st).addresses == st.addresses && Drain(st).statements == st.statements
    decreases |st.operators|
  {
    if st.operators == [] {
      assert st.icv + [] == st.icv;
    } else {
      var op := Top(st.operators);
      var rest := Pop(st.operators);
      if IsParenthesis(op.token.id) {
        DrainEmptiesStack(st.(operators := rest));
        assert Popped(st.operators) == Popped(rest);
      } else {
        DrainEmptiesStack(st.(operators := rest, icv := st.icv + [op.token]));
        assert Popped(st.operators) == [op.token] + Popped(rest);
        assert st.icv + [op.token] + Popped(rest) == st.icv + ([op.token] + Popped(rest));
      }
    }
  }

  /** With no open parenthesis on the stack (there never is one, since none is ever
      pushed) a close parenthesis pops every operator to the vector and then fails
      peeking at the empty stack. */
  lemma {:induction false} CloseParenthesisAlwaysFails(st: GenState)
    requires forall k | 0 <= k < |st.operators| :: st.operators[k].token.id != OpenParenthesis
    ensures CloseParenthesisOn(st) == (Drain(st), Some(EmptyStack))
    decreases |st.operators|
  {
    if st.operators != [] {
      var op := Top(st.operators);
      CloseParenthesisAlwaysFails(st.(operators := Pop(st.operators), icv := AppendToIcv(st.icv, op.token)));
    }
  }

  /** No parenthesis in the vector, and every `until` token in it directly follows a
      kind-0 token (the address the semicolon branch emits just before it). */
  predicate CleanIcv(icv: seq<Token>)
  {
    && (forall k | 0 <= k < |icv| :: !IsParenthesis(icv[k].id))
    && (forall k | 0 <= k < |icv| && icv[k].id == UntilKeyword :: k > 0 && icv[k - 1].id == 0)
  }

  predicate AllOperators(operators: seq<Operator>)
  {
    forall k | 0 <= k < |operators| :: IsOperator(operators[k].token.id)
  }

  /** Priorities strictly increase from the bottom of the stack to its top. */
  predicate Increasing(operators: seq<Operator>)
  {
    forall a, b | 0 <= a < b < |operators| :: operators[a].priority < operators[b].priority
  }

  /** The generator's invariant: the operator stack holds operators only, with strictly
      increasing priorities; the vector is clean; the latch holds an `until` token if anything. */
  predicate Consistent(st: GenState, temp: Option<Token>)
  {
    && AllOperators(st.operators)
    && Increasing(st.operators)
    && CleanIcv(st.icv)
    && (temp.Some? ==> temp.value.id == UntilKeyword)
  }

  lemma {:induction false} CleanIcvAppendOperators(icv: seq<Token>, more: seq<Token>)
    requires CleanIcv(icv)
    requires forall k | 0 <= k < |more| :: IsOperator(more[k].id)
    ensures CleanIcv(icv + more)
  {
    var s := icv + more;
    forall k | 0 <= k < |s|
      ensures !IsParenthesis(s[k].id) && (s[k].id == UntilKeyword ==> k > 0 && s[k - 1].id == 0)
    {
      if k < |icv| {
        assert s[k] == icv[k];
        if k > 0 { assert s[k - 1] == icv[k - 1]; }
      } else {
        assert s[k] == more[k - |icv|];
      }
    }
  }

  lemma {:induction false} PushKeepsIncreasing(operators: seq<Operator>, op: Operator)
    requires Increasing(operators)
    requires operators == [] || Top(operators).priority < op.priority
    ensures Increasing(operators + [op])
  {
    var s := operators + [op];
    forall a, b | 0 <= a < b < |s| ensures s[a].priority < s[b].priority {
      if b < |operators| {
        assert s[a] == operators[a] && s[b] == operators[b];
      } else if a < |operators| - 1 {
        assert s[a] == operators[a] && operators[a].priority < Top(operators).priority;
      }
    }
  }

  lemma {:induction false} CleanIcvAppend(icv: seq<Token>, t: Token)
    requires CleanIcv(icv) && IsOperator(t.id)
    ensures CleanIcv(icv + [t])
  {
    CleanIcvAppendOperators(icv, [t]);
  }

  /** The pop loop of AddOperator keeps the invariant and stops on a lower-priority top. */
  lemma {:induction false} PopWhileAtLeastKeepsConsistent(st: GenState, temp: Option<Token>, priority: int)
    requires Consistent(st, temp)
    ensures Consistent(PopWhileAtLeast(st, priority), temp)
    ensures var r := PopWhileAtLeast(st, priority); r.operators == [] || Top(r.operators).priority < priority
    decreases |st.operators|
  {
    var ops := st.operators;
    if ops != [] && Top(ops).priority >= priority {
      CleanIcvAppend(st.icv, Top(ops).token);
      assert forall k | 0 <= k < |Pop(ops)| :: Pop(ops)[k] == ops[k];
      PopWhileAtLeastKeepsConsistent(st.(operators := Pop(ops), icv := AppendToIcv(st.icv, Top(ops).token)), temp, priority);
    }
  }

  /** What popping one operator appends: its token, unless it is a parenthesis. */
  function PoppedHead(op: Operator): (r: seq<Token>)
    ensures r == AppendToIcv([], op.token)
  {
    if IsParenthesis(op.token.id) then [] else [op.token]
  }

  /** Popping the top segment above position `j` appends the top first, then the rest. */
  lemma {:induction false} PoppedTopSegment(ops: seq<Operator>, j: nat)
    requires j < |ops|
    ensures Popped(ops[j..]) == PoppedHead(Top(ops)) + Popped(Pop(ops)[j..])
  {
    var segment := ops[j..];
    assert Top(segment) == Top(ops);
    assert Pop(segment) == Pop(ops)[j..];
  }

  /** `r` is `st` with a top segment of its operator stack popped to the vector: every
      popped operator has priority at least `priority` and is appended top first,
      parentheses skipped; the operator left on top, if any, has a lower priority. */
  predicate PopsTopSegment(st: GenState, r: GenState, priority: int)
  {
    && |r.operators| <= |st.operators|
    && r.operators == st.operators[..|r.operators|]
    && r.icv == st.icv + Popped(st.operators[|r.operators|..])
    && (forall k | |r.operators| <= k < |st.operators| :: st.operators[k].priority >= priority)
    && (r.operators != [] ==> Top(r.operators).priority < priority)
    && r.addresses == st.addresses && r.statements == st.statements
  }

  /** The pop loop of AddOperator pops exactly such a segment. */
  lemma {:induction false} PopWhileAtLeastEmits(st: GenState, priority: int)
    ensures PopsTopSegment(st, PopWhileAtLeast(st, priority), priority)
    decreases |st.operators|
  {
    var ops := st.operators;
    if ops != [] && Top(ops).priority >= priority {
      var next := st.(operators := Pop(ops), icv := AppendToIcv(st.icv, Top(ops).token));
      PopWhileAtLeastEmits(next, priority);
      PopOneMore(st, next, PopWhileAtLeast(next, priority), priority);
    } else {
      assert ops[..|ops|] == ops;
      assert st.icv + Popped(ops[|ops|..]) == st.icv;
    }
  }

  /** One more pop below a popped segment is still a popped segment. */
  lemma {:induction false} PopOneMore(st: GenState, next: GenState, r: GenState, priority: int)
    requires st.operators != [] && Top(st.operators).priority >= priority
    requires next == st.(operators := Pop(st.operators), icv := AppendToIcv(st.icv, Top(st.operators).token))
    requires PopsTopSegment(next, r, priority)
    ensures PopsTopSegment(st, r, priority)
  {
    var ops := st.operators;
    var j := |r.operators|;
    assert Pop(ops)[..j] == ops[..j];
    PoppedTopSegment(ops, j);
    assert r.icv == st.icv + PoppedHead(Top(ops)) + Popped(Pop(ops)[j..]);
    forall k | j <= k < |ops| ensures ops[k].priority >= priority {
      if k < |ops| - 1 { assert ops[k] == Pop(ops)[k]; }
    }
  }

  /** `r` is `st` after pushing `op`: an open parenthesis is pushed as it is; any other
      operator lands on what is left after a top segment of operators of at least its
      priority went to the vector, top first, so the one below it has a lower priority. */
  predicate PushesOperator(st: GenState, r: GenState, op: Operator)
  {
    && r.operators != [] && Top(r.operators) == op
    && (op.token.id == OpenParenthesis ==> r == st.(operators := st.operators + [op]))
    && (op.token.id != OpenParenthesis ==> PopsTopSegment(st, r.(operators := Pop(r.operators)), op.priority))
  }

  /** AddOperator in full. */
  lemma {:induction false} AddOperatorOnEffect(st: GenState, op: Operator)
    ensures PushesOperator(st, AddOperatorOn(st, op), op)
  {
    if st.operators == [] || op.token.id == OpenParenthesis || Top(st.operators).priority < op.priority {
      PushOnTop(st, op);
    } else {
      PopWhileAtLeastEmits(st, op.priority);
      PushAfterPops(st, PopWhileAtLeast(st, op.priority), op);
    }
  }

  /** Pushing straight onto a stack whose top is lower (or onto an empty stack). */
  lemma {:induction false} PushOnTop(st: GenState, op: Operator)
    requires st.operators == [] || op.token.id == OpenParenthesis || Top(st.operators).priority < op.priority
    ensures PushesOperator(st, st.(operators := st.operators + [op]), op)
  {
    var r := st.(operators := st.operators + [op]);
    assert r.(operators := Pop(r.operators)) == st;
    assert st.operators[..|st.operators|] == st.operators;
    assert st.operators[|st.operators|..] == [];
  }

  /** Pushing onto what the pop loop left. */
  lemma {:induction false} PushAfterPops(st: GenState, popped: GenState, op: Operator)
    requires op.token.id != OpenParenthesis
    requires PopsTopSegment(st, popped, op.priority)
    ensures PushesOperator(st, popped.(operators := popped.operators + [op]), op)
  {
    var r := popped.(operators := popped.operators + [op]);
    assert r.(operators := Pop(r.operators)) == popped;
  }

  /** The operator branch keeps the invariant: what it pops goes to the vector, and the
      new operator lands on a lower-priority top. */
  lemma {:induction false} OperatorStepKeepsConsistent(st: GenState, temp: Option<Token>, op: Operator)
    requires Consistent(st, temp) && IsOperator(op.token.id)
    ensures Consistent(AddOperatorOn(st, op), temp)
  {
    var ops := st.operators;
    if ops == [] || Top(ops).priority < op.priority {
      PushKeepsIncreasing(ops, op);
    } else {
      PopWhileAtLeastKeepsConsistent(st, temp, op.priority);
      PushKeepsIncreasing(PopWhileAtLeast(st, op.priority).operators, op);
    }
  }

  /** The semicolon branch keeps the invariant, and the `until` token it emits follows the address. */
  lemma {:induction false} SemicolonStepKeepsConsistent(st: GenState, temp: Option<Token>)
    requires Consistent(st, temp)
    ensures Consistent(SemicolonOn(st, temp).state, temp)
  {
    DrainEmptiesStack(st);
    PoppedOperators(st.operators);
    CleanIcvAppendOperators(st.icv, Popped(st.operators));
    var drained := Drain(st);
    if temp.Some? && drained.addresses != [] {
      CleanIcvAppendJump(drained.icv, AddressToken(drained.addresses[|drained.addresses| - 1]), temp.value);
    }
  }

  /** An address token of kind 0 followed by `until` keeps the vector clean. */
  lemma {:induction false} CleanIcvAppendJump(icv: seq<Token>, t: Token, until: Token)
    requires CleanIcv(icv) && t.id == 0 && until.id == UntilKeyword
    ensures CleanIcv(icv + [t] + [until])
  {
    var s := icv + [t] + [until];
    forall k | 0 <= k < |s|
      ensures !IsParenthesis(s[k].id) && (s[k].id == UntilKeyword ==> k > 0 && s[k - 1].id == 0)
    {
      if k < |icv| {
        assert s[k] == icv[k];
        if k > 0 { assert s[k - 1] == icv[k - 1]; }
      } else if k == |icv| {
        assert s[k] == t;
      } else {
        assert s[k - 1] == t;
      }
    }
  }

  /** Every step keeps the invariant, whether it succeeds or raises. */
  lemma {:induction false} StepKeepsConsistent(st: GenState, temp: Option<Token>, token: Token)
    requires Consistent(st, temp)
    ensures Consistent(Step(st, temp, token).state, Step(st, temp, token).temp)
  {
    var id := token.id;
    if IsIdentifier(id) || IsLiteral(id) {
      CleanIcvAppendOperators(st.icv, []);
      assert st.icv + [] == st.icv;
      var s := st.icv + [token];
      forall k | 0 <= k < |s|
        ensures !IsParenthesis(s[k].id) && (s[k].id == UntilKeyword ==> k > 0 && s[k - 1].id == 0)
      {
        if k < |st.icv| {
          assert s[k] == st.icv[k];
          if k > 0 { assert s[k - 1] == st.icv[k - 1]; }
        }
      }
    } else if IsOperator(id) {
      if GetPriority(token).Success? {
        OperatorStepKeepsConsistent(st, temp, Operator(token, GetPriority(token).value));
      }
    } else if id == CloseParenthesis {
      CloseParenthesisAlwaysFails(st);
      DrainEmptiesStack(st);
      PoppedOperators(st.operators);
      CleanIcvAppendOperators(st.icv, Popped(st.operators));
    } else if id == Semicolon {
      SemicolonStepKeepsConsistent(st, temp);
    }
  }

  /** The whole run keeps the invariant. */
  lemma {:induction false} GenerateKeepsConsistent(st: GenState, temp: Option<Token>, tokens: seq<Token>)
    requires Consistent(st, temp)
    ensures Consistent(Generate(st, temp, tokens).state, Generate(st, temp, tokens).temp)
    decreases |tokens|
  {
    if tokens != [] {
      StepKeepsConsistent(st, temp, tokens[0]);
      var r := Step(st, temp, tokens[0]);
      if r.error.None? {
        GenerateKeepsConsistent(r.state, r.temp, tokens[1..]);
      }
    }
  }

  /** The identifier and literal tokens of a sequence, in order. */
  function Operands(s: seq<Token>): seq<Token>
  {
    if s == [] then []
    else (if IsIdentifier(s[0].id) || IsLiteral(s[0].id) then [s[0]] else []) + Operands(s[1..])
  }

  lemma {:induction false} OperandsAppend(a: seq<Token>, b: seq<Token>)
    ensures Operands(a + b) == Operands(a) + Operands(b)
  {
    if a == [] {
      assert a + b == b;
    } else {
      var head: seq<Token> := if IsIdentifier(a[0].id) || IsLiteral(a[0].id) then [a[0]] else [];
      assert (a + b)[0] == a[0];
      assert (a + b)[1..] == a[1..] + b;
      OperandsAppend(a[1..], b);
      assert Operands(a + b) == head + (Operands(a[1..]) + Operands(b));
      assert Operands(a) == head + Operands(a[1..]);
    }
  }

  lemma {:induction false} OperandsOfOperators(s: seq<Token>)
    requires forall k | 0 <= k < |s| :: IsOperator(s[k].id)
    ensures Operands(s) == []
  {
    if s != [] {
      OperandsOfOperators(s[1..]);
    }
  }

  /** Appending a token that is not an identifier or a literal leaves the operands alone. */
  lemma {:induction false} OperandsAppendOther(icv: seq<Token>, t: Token)
    requires !IsIdentifier(t.id) && !IsLiteral(t.id)
    ensures Operands(icv + [t]) == Operands(icv)
  {
    OperandsAppend(icv, [t]);
    assert Operands([t]) == [] + Operands([]);
  }

  /** The pop loop of AddOperator moves operators only. */
  lemma {:induction false} PopWhileAtLeastKeepsOperands(st: GenState, priority: int)
    requires AllOperators(st.operators)
    ensures Operands(PopWhileAtLeast(st, priority).icv) == Operands(st.icv)
    decreases |st.operators|
  {
    var ops := st.operators;
    if ops != [] && Top(ops).priority >= priority {
      OperandsAppendOther(st.icv, Top(ops).token);
      assert forall k | 0 <= k < |Pop(ops)| :: Pop(ops)[k] == ops[k];
      PopWhileAtLeastKeepsOperands(st.(operators := Pop(ops), icv := AppendToIcv(st.icv, Top(ops).token)), priority);
    }
  }

  /** EmptyOperatorsStack moves operators only. */
  lemma {:induction false} DrainKeepsOperands(st: GenState)
    requires AllOperators(st.operators)
    ensures Operands(Drain(st).icv) == Operands(st.icv)
  {
    DrainEmptiesStack(st);
    OperandsAppend(st.icv, Popped(st.operators));
    PoppedOperators(st.operators);
    OperandsOfOperators(Popped(st.operators));
    assert Operands(st.icv) + [] == Operands(st.icv);
  }

  /** A step appends operands exactly as they arrive: the operand subsequence of the
      vector grows by the token if it is an identifier or a literal, and by nothing otherwise. */
  lemma {:induction false} StepKeepsOperandOrder(st: GenState, temp: Option<Token>, token: Token)
    requires Consistent(st, temp)
    ensures Operands(Step(st, temp, token).state.icv) == Operands(st.icv) + Operands([token])
  {
    var id := token.id;
    assert Operands([token]) == (if IsIdentifier(id) || IsLiteral(id) then [token] else []) + Operands([]);
    if IsIdentifier(id) || IsLiteral(id) {
      OperandsAppend(st.icv, [token]);
    } else if IsOperator(id) {
      if GetPriority(token).Success? {
        var op := Operator(token, GetPriority(token).value);
        if !(st.operators == [] || Top(st.operators).priority < op.priority) {
          PopWhileAtLeastKeepsOperands(st, op.priority);
        }
      }
    } else if id == CloseParenthesis {
      CloseParenthesisAlwaysFails(st);
      DrainKeepsOperands(st);
    } else if id == Semicolon {
      SemicolonKeepsOperands(st, temp);
    }
  }

  /** The semicolon branch moves operators, an address token and `until` only. */
  lemma {:induction false} SemicolonKeepsOperands(st: GenState, temp: Option<Token>)
    requires Consistent(st, temp)
    ensures Operands(SemicolonOn(st, temp).state.icv) == Operands(st.icv)
  {
    DrainKeepsOperands(st);
    var drained := Drain(st);
    if temp.Some? && drained.addresses != [] {
      var address := drained.addresses[|drained.addresses| - 1];
      OperandsAppendOther(drained.icv, AddressToken(address));
      OperandsAppendOther(drained.icv + [AddressToken(address)], temp.value);
    }
  }

  /** Identifiers and literals reach the vector in input order: after a run without
      exceptions the operand subsequence of the vector is the old one followed by the
      operands of the input. */
  lemma {:induction false} OperandsInInputOrder(st: GenState, temp: Option<Token>, tokens: seq<Token>)
    requires Consistent(st, temp)
    ensures Generate(st, temp, tokens).error.None? ==>
              Operands(Generate(st, temp, tokens).state.icv) == Operands(st.icv) + Operands(tokens)
    decreases |tokens|
  {
    if tokens == [] {
      assert st.icv + [] == st.icv;
    } else {
      var r := Step(st, temp, tokens[0]);
      StepKeepsOperandOrder(st, temp, tokens[0]);
      StepKeepsConsistent(st, temp, tokens[0]);
      if r.error.None? {
        var rest := tokens[1..];
        assert Generate(st, temp, tokens) == Generate(r.state, r.temp, rest);
        OperandsInInputOrder(r.state, r.temp, rest);
        assert tokens == [tokens[0]] + rest;
        OperandsAppend([tokens[0]], rest);
        assert Operands(st.icv) + Operands([tokens[0]]) + Operands(rest) == Operands(st.icv) + Operands(tokens);
      }
    }
  }

  /** Once an `until` has been seen the latch stays set for the rest of the run: nothing
      in GenerateIcv clears it, so every later semicolon emits a jump. */
  lemma {:induction false} LatchNeverCleared(st: GenState, temp: Option<Token>, tokens: seq<Token>)
    requires temp.Some?
    ensures Generate(st, temp, tokens).temp.Some?
    decreases |tokens|
  {
    if tokens != [] {
      var r := Step(st, temp, tokens[0]);
      if r.error.None? {
        LatchNeverCleared(r.state, r.temp, tokens[1..]);
      }
    }
  }

  /** A semicolon after the latch is set drains the operators, then emits the address of
      the innermost open `repeat` as a kind-0 token followed by the latched `until`; it
      raises exactly when no `repeat` is open. */
  lemma {:induction false} SemicolonEmitsJump(st: GenState, until: Token, semicolon: Token)
    requires semicolon.id == Semicolon && until.id == UntilKeyword
    ensures var r := Step(st, Some(until), semicolon);
            && (r.error.Some? <==> st.addresses == [])
            && (r.error.None? ==>
                  && r.state.operators == []
                  && r.state.addresses == Pop(st.addresses)
                  && r.state.icv == st.icv + Popped(st.operators)
                                    + [AddressToken(st.addresses[|st.addresses| - 1]), until])
  {
    DrainEmptiesStack(st);
  }

  /** `repeat` opens a loop: it pushes itself on the statement stack and, on the address
      stack, the position of the last token already in the vector (-1 when it is empty);
      the vector, the operators and the latch are untouched. */
  lemma {:induction false} RepeatOpensLoop(st: GenState, temp: Option<Token>, token: Token)
    requires token.id == RepeatKeyword
    ensures var r := Step(st, temp, token);
            && r.error.None? && r.temp == temp
            && r.state.icv == st.icv && r.state.operators == st.operators
            && r.state.statements == st.statements + [token]
            && r.state.addresses == st.addresses + [|st.icv| - 1]
  {
  }

  /** The close-parenthesis branch leaves the statement stack alone. */
  lemma {:induction false} CloseParenthesisKeepsStatements(st: GenState)
    ensures CloseParenthesisOn(st).0.statements == st.statements
    decreases |st.operators|
  {
    if st.operators != [] && Top(st.operators).token.id != OpenParenthesis {
      CloseParenthesisKeepsStatements(st.(operators := Pop(st.operators), icv := AppendToIcv(st.icv, Top(st.operators).token)));
    }
  }

  /** The statement stack only grows, and only by `repeat` tokens. */
  predicate ExtendsByRepeats(before: seq<Token>, after: seq<Token>)
  {
    && |before| <= |after| && after[..|before|] == before
    && forall k | |before| <= k < |after| :: after[k].id == RepeatKeyword
  }

  lemma {:induction false} StepExtendsStatements(st: GenState, temp: Option<Token>, token: Token)
    ensures ExtendsByRepeats(st.statements, Step(st, temp, token).state.statements)
  {
    var id := token.id;
    var after := Step(st, temp, token).state.statements;
    if IsIdentifier(id) || IsLiteral(id) {
    } else if IsOperator(id) {
      if GetPriority(token).Success? {
        AddOperatorOnEffect(st, Operator(token, GetPriority(token).value));
      }
    } else if id == CloseParenthesis {
      CloseParenthesisKeepsStatements(st);
    } else if id == Semicolon {
      DrainEmptiesStack(st);
    } else if id == RepeatKeyword {
      assert after == st.statements + [token];
    }
    assert after[..|st.statements|] == st.statements;
  }

  lemma {:induction false} ExtendsByRepeatsTransitive(a: seq<Token>, b: seq<Token>, c: seq<Token>)
    requires ExtendsByRepeats(a, b) && ExtendsByRepeats(b, c)
    ensures ExtendsByRepeats(a, c)
  {
    assert c[..|a|] == c[..|b|][..|a|];
    forall k | |a| <= k < |c| ensures c[k].id == RepeatKeyword {
      if k < |b| { assert c[k] == b[k]; }
    }
  }

  /** Generating code never pops the statement stack: the statements before a run are
      a prefix of those after it, and everything it added is a `repeat` token. */
  lemma {:induction false} GenerateExtendsStatements(st: GenState, temp: Option<Token>, tokens: seq<Token>)
    ensures ExtendsByRepeats(st.statements, Generate(st, temp, tokens).state.statements)
    decreases |tokens|
  {
    if tokens == [] {
      assert st.statements[..|st.statements|] == st.statements;
    } else {
      var r := Step(st, temp, tokens[0]);
      StepExtendsStatements(st, temp, tokens[0]);
      if r.error.None? {
        GenerateExtendsStatements(r.state, r.temp, tokens[1..]);
        ExtendsByRepeatsTransitive(st.statements, r.state.statements, Generate(r.state, r.temp, tokens[1..]).state.statements);
      }
    }
  }

  function Tk(lexeme: string, id: int): Token
  {
    Token(lexeme, id, 0, 1)
  }

  /** `a - b - c ;` compiles left-associatively to `a b - c -`. */
  lemma {:induction false} SubtractionIsLeftAssociative()
    ensures var a, b, c, minus := Tk("a", IntIdentifier), Tk("b", IntIdentifier), Tk("c", IntIdentifier), Tk("-", SubOperator);
            Generate(GenState([], [], [], []), None, [a, minus, b, minus, c, Tk(";", Semicolon)])
              == Run(GenState([a, b, minus, c, minus], [], [], []), None, None)
  {
    var a, b, c, minus, semi := Tk("a", IntIdentifier), Tk("b", IntIdentifier), Tk("c", IntIdentifier), Tk("-", SubOperator), Tk(";", Semicolon);
    FirstSubtraction(a, b, minus);
    SecondSubtraction(a, b, c, minus, semi);
    GenerateAppend(GenState([], [], [], []), None, [a, minus, b], [minus, c, semi]);
    assert [a, minus, b] + [minus, c, semi] == [a, minus, b, minus, c, semi];
  }

  /** The first half of `a - b - c ;`: the operands go to the vector, the `-` to the stack. */
  lemma {:induction false} FirstSubtraction(a: Token, b: Token, minus: Token)
    requires a == Tk("a", IntIdentifier) && b == Tk("b", IntIdentifier) && minus == Tk("-", SubOperator)
    ensures Generate(GenState([], [], [], []), None, [a, minus, b])
              == Run(GenState([a, b], [Operator(minus, SubPriority)], [], []), None, None)
  {
    var sub := Operator(minus, SubPriority);
    var s3 := GenState([a, b], [sub], [], []);
    var s1, s2 := GenState([a], [], [], []), GenState([a], [sub], [], []);
    assert Step(GenState([], [], [], []), None, a) == Run(s1, None, None);
    assert Step(s1, None, minus) == Run(s2, None, None);
    assert Step(s2, None, b) == Run(s3, None, None);
    assert Generate(s2, None, [b]) == Run(s3, None, None);
    assert Generate(s1, None, [minus, b]) == Run(s3, None, None);
  }

  /** The second half of `a - b - c ;`: the second `-` pops the first, which has the same priority. */
  lemma {:induction false} SecondSubtraction(a: Token, b: Token, c: Token, minus: Token, semi: Token)
    requires a == Tk("a", IntIdentifier) && b == Tk("b", IntIdentifier) && c == Tk("c", IntIdentifier)
    requires minus == Tk("-", SubOperator) && semi == Tk(";", Semicolon)
    ensures Generate(GenState([a, b], [Operator(minus, SubPriority)], [], []), None, [minus, c, semi])
              == Run(GenState([a, b, minus, c, minus], [], [], []), None, None)
  {
    var sub := Operator(minus, SubPriority);
    var s3 := GenState([a, b], [sub], [], []);
    var s4, s5 := GenState([a, b, minus], [sub], [], []), GenState([a, b, minus, c], [sub], [], []);
    assert GetPriority(minus) == Success(SubPriority);
    assert PopWhileAtLeast(GenState([a, b, minus], [], [], []), SubPriority) == GenState([a, b, minus], [], [], []);
    assert PopWhileAtLeast(s3, SubPriority) == GenState([a, b, minus], [], [], []);
    assert Step(s3, None, minus) == Run(s4, None, None);
    assert Step(s4, None, c) == Run(s5, None, None);
    assert Drain(GenState([a, b, minus, c, minus], [], [], [])) == GenState([a, b, minus, c, minus], [], [], []);
    assert Drain(s5) == Drain(GenState([a, b, minus, c, minus], [], [], []));
    assert Step(s5, None, semi) == Run(GenState([a, b, minus, c, minus], [], [], []), None, None);
    var done := Run(GenState([a, b, minus, c, minus], [], [], []), None, None);
    assert Generate(s5, None, [semi]) == done;
    assert Generate(s4, None, [c, semi]) == done;
  }

  /** `a + b * c ;` keeps the higher-priority product inside the sum: `a b c * +`. */
  lemma {:induction false} ProductBindsTighterThanSum()
    ensures var a, b, c, plus, times := Tk("a", IntIdentifier), Tk("b", IntIdentifier), Tk("c", IntIdentifier), Tk("+", SumOperator), Tk("*", MulOperator);
            Generate(GenState([], [], [], []), None, [a, plus, b, times, c, Tk(";", Semicolon)])
              == Run(GenState([a, b, c, times, plus], [], [], []), None, None)
  {
    var a, b, c, plus, times, semi := Tk("a", IntIdentifier), Tk("b", IntIdentifier), Tk("c", IntIdentifier), Tk("+", SumOperator), Tk("*", MulOperator), Tk(";", Semicolon);
    var sum := Operator(plus, SumPriority);
    var s1, s2, s3 := GenState([a], [], [], []), GenState([a], [sum], [], []), GenState([a, b], [sum], [], []);
    assert Step(GenState([], [], [], []), None, a) == Run(s1, None, None);
    assert Step(s1, None, plus) == Run(s2, None, None);
    assert Step(s2, None, b) == Run(s3, None, None);
    assert Generate(s2, None, [b]) == Run(s3, None, None);
    assert Generate(s1, None, [plus, b]) == Run(s3, None, None);
    assert Generate(GenState([], [], [], []), None, [a, plus, b]) == Run(s3, None, None);
    ProductAfterSum(a, b, c, plus, times, semi);
    GenerateAppend(GenState([], [], [], []), None, [a, plus, b], [times, c, semi]);
    assert [a, plus, b] + [times, c, semi] == [a, plus, b, times, c, semi];
  }

  /** The second half of `a + b * c ;`: `*` goes on top of `+`, and the semicolon pops both. */
  lemma {:induction false} ProductAfterSum(a: Token, b: Token, c: Token, plus: Token, times: Token, semi: Token)
    requires a == Tk("a", IntIdentifier) && b == Tk("b", IntIdentifier) && c == Tk("c", IntIdentifier)
    requires plus == Tk("+", SumOperator) && times == Tk("*", MulOperator) && semi == Tk(";", Semicolon)
    ensures Generate(GenState([a, b], [Operator(plus, SumPriority)], [], []), None, [times, c, semi])
              == Run(GenState([a, b, c, times, plus], [], [], []), None, None)
  {
    var sum, mul := Operator(plus, SumPriority), Operator(times, MulPriority);
    var s3 := GenState([a, b], [sum], [], []);
    var s4, s5 := GenState([a, b], [sum, mul], [], []), GenState([a, b, c], [sum, mul], [], []);
    var done := Run(GenState([a, b, c, times, plus], [], [], []), None, None);
    assert GetPriority(times) == Success(MulPriority);
    assert Top(s3.operators) == sum;
    assert AddOperatorOn(s3, mul) == s4;
    assert Step(s3, None, times) == Run(s4, None, None);
    assert Step(s4, None, c) == Run(s5, None, None);
    assert Drain(GenState([a, b, c, times], [sum], [], [])) == done.state;
    assert Pop(s5.operators) == [sum];
    assert AppendToIcv(s5.icv, times) == [a, b, c, times];
    assert Drain(s5) == Drain(GenState([a, b, c, times], [sum], [], []));
    assert Step(s5, None, semi) == done;
    assert Generate(s5, None, [semi]) == done;
    assert Generate(s4, None, [c, semi]) == done;
  }

  /** `repeat x := x + 1 ; until x > 5 ;` at the start of a body: `repeat` records -1 (one
      before the first token of the loop), the first statement compiles to `x x 1 + :=`, and
      the semicolon after the condition emits `x 5 >`, then the recorded address as a kind-0
      token, then the `until` token, and closes the loop. */
  lemma {:induction false} RepeatUntilLoopLayout()
    ensures var x, one, five := Tk("x", IntIdentifier), Tk("1", IntLiteral), Tk("5", IntLiteral);
            var assign, plus, gt := Tk(":=", AssignmentOperator), Tk("+", SumOperator), Tk(">", GreaterThanOperator);
            var rep, until, semi := Tk("repeat", RepeatKeyword), Tk("until", UntilKeyword), Tk(";", Semicolon);
            Generate(GenState([], [], [], []), None, [rep, x, assign, x, plus, one, semi, until, x, gt, five, semi])
              == Run(GenState([x, x, one, plus, assign, x, five, gt, AddressToken(-1), until], [], [], [rep]), Some(until), None)
  {
    var x, one, five := Tk("x", IntIdentifier), Tk("1", IntLiteral), Tk("5", IntLiteral);
    var assign, plus, gt := Tk(":=", AssignmentOperator), Tk("+", SumOperator), Tk(">", GreaterThanOperator);
    var rep, until, semi := Tk("repeat", RepeatKeyword), Tk("until", UntilKeyword), Tk(";", Semicolon);
    var body := [rep, x, assign, x, plus, one, semi];
    var condition := [until, x, gt, five, semi];
    LoopBodyPart();
    LoopConditionPart();
    GenerateAppend(GenState([], [], [], []), None, body, condition);
    assert body + condition == [rep, x, assign, x, plus, one, semi, until, x, gt, five, semi];
  }

  /** Running over `a + b` is running over `a`, then over `b` unless `a` raised. */
  lemma {:induction false} GenerateAppend(st: GenState, temp: Option<Token>, a: seq<Token>, b: seq<Token>)
    ensures Generate(st, temp, a + b) ==
              var r := Generate(st, temp, a);
              if r.error.Some? then r else Generate(r.state, r.temp, b)
    decreases |a|
  {
    if a != [] {
      assert (a + b)[0] == a[0] && (a + b)[1..] == a[1..] + b;
      var r := Step(st, temp, a[0]);
      if r.error.None? {
        GenerateAppend(r.state, r.temp, a[1..], b);
      }
    } else {
      assert a + b == b;
    }
  }

  /** The loop body of the example: `repeat x := x + 1;` opens the loop at address -1. */
  lemma {:induction false} LoopBodyPart()
    ensures var x, one := Tk("x", IntIdentifier), Tk("1", IntLiteral);
            var assign, plus := Tk(":=", AssignmentOperator), Tk("+", SumOperator);
            var rep, semi := Tk("repeat", RepeatKeyword), Tk(";", Semicolon);
            Generate(GenState([], [], [], []), None, [rep, x, assign, x, plus, one, semi])
              == Run(GenState([x, x, one, plus, assign], [], [-1], [rep]), None, None)
  {
    var x, one := Tk("x", IntIdentifier), Tk("1", IntLiteral);
    var assign, plus := Tk(":=", AssignmentOperator), Tk("+", SumOperator);
    var rep, semi := Tk("repeat", RepeatKeyword), Tk(";", Semicolon);
    var asg, sum := Operator(assign, AssignPriority), Operator(plus, SumPriority);
    var s1 := GenState([], [], [-1], [rep]);
    var s2 := GenState([x], [], [-1], [rep]);
    var s3 := GenState([x], [asg], [-1], [rep]);
    var s4 := GenState([x, x], [asg], [-1], [rep]);
    var s5 := GenState([x, x], [asg, sum], [-1], [rep]);
    var s6 := GenState([x, x, one], [asg, sum], [-1], [rep]);
    var s7 := GenState([x, x, one, plus, assign], [], [-1], [rep]);
    var done := Run(s7, None, None);
    LoopBodyOperandSteps();
    LoopBodyOperatorSteps();
    LoopBodySemicolonStep();
    assert Generate(s6, None, [semi]) == done;
    assert Generate(s5, None, [one, semi]) == done;
    assert Generate(s4, None, [plus, one, semi]) == done;
    assert Generate(s3, None, [x, plus, one, semi]) == done;
    assert Generate(s2, None, [assign, x, plus, one, semi]) == done;
    assert Generate(s1, None, [x, assign, x, plus, one, semi]) == done;
  }

  /** The steps of the example's loop body that open the loop and push operands. */
  lemma {:induction false} LoopBodyOperandSteps()
    ensures var x, one := Tk("x", IntIdentifier), Tk("1", IntLiteral);
            var rep := Tk("repeat", RepeatKeyword);
            var asg := Operator(Tk(":=", AssignmentOperator), AssignPriority);
            var sum := Operator(Tk("+", SumOperator), SumPriority);
            && Step(GenState([], [], [], []), None, rep) == Run(GenState([], [], [-1], [rep]), None, None)
            && Step(GenState([], [], [-1], [rep]), None, x) == Run(GenState([x], [], [-1], [rep]), None, None)
            && Step(GenState([x], [asg], [-1], [rep]), None, x) == Run(GenState([x, x], [asg], [-1], [rep]), None, None)
            && Step(GenState([x, x], [asg, sum], [-1], [rep]), None, one) == Run(GenState([x, x, one], [asg, sum], [-1], [rep]), None, None)
  {
  }

  /** The steps of the example's loop body that push its two operators. */
  lemma {:induction false} LoopBodyOperatorSteps()
    ensures var x := Tk("x", IntIdentifier);
            var rep, assign, plus := Tk("repeat", RepeatKeyword), Tk(":=", AssignmentOperator), Tk("+", SumOperator);
            var asg, sum := Operator(assign, AssignPriority), Operator(plus, SumPriority);
            && Step(GenState([x], [], [-1], [rep]), None, assign) == Run(GenState([x], [asg], [-1], [rep]), None, None)
            && Step(GenState([x, x], [asg], [-1], [rep]), None, plus) == Run(GenState([x, x], [asg, sum], [-1], [rep]), None, None)
  {
  }

  /** The semicolon that ends the example's loop body drains both operators. */
  lemma {:induction false} LoopBodySemicolonStep()
    ensures var x, one := Tk("x", IntIdentifier), Tk("1", IntLiteral);
            var rep, assign, plus := Tk("repeat", RepeatKeyword), Tk(":=", AssignmentOperator), Tk("+", SumOperator);
            var asg, sum := Operator(assign, AssignPriority), Operator(plus, SumPriority);
            Step(GenState([x, x, one], [asg, sum], [-1], [rep]), None, Tk(";", Semicolon))
              == Run(GenState([x, x, one, plus, assign], [], [-1], [rep]), None, None)
  {
    var x, one := Tk("x", IntIdentifier), Tk("1", IntLiteral);
    var rep, assign, plus := Tk("repeat", RepeatKeyword), Tk(":=", AssignmentOperator), Tk("+", SumOperator);
    var asg, sum := Operator(assign, AssignPriority), Operator(plus, SumPriority);
    var s6 := GenState([x, x, one], [asg, sum], [-1], [rep]);
    var s7 := GenState([x, x, one, plus, assign], [], [-1], [rep]);
    assert Drain(GenState([x, x, one, plus], [asg], [-1], [rep])) == s7;
    assert Pop(s6.operators) == [asg];
    assert AppendToIcv(s6.icv, plus) == [x, x, one, plus];
    assert Drain(s6) == Drain(GenState([x, x, one, plus], [asg], [-1], [rep]));
  }

  /** The condition of the example: `until x > 5;` emits the condition, the loop's
      address and the `until` token, and closes the loop. */
  lemma {:induction false} LoopConditionPart()
    ensures var x, one, five := Tk("x", IntIdentifier), Tk("1", IntLiteral), Tk("5", IntLiteral);
            var assign, plus, gt := Tk(":=", AssignmentOperator), Tk("+", SumOperator), Tk(">", GreaterThanOperator);
            var rep, until, semi := Tk("repeat", RepeatKeyword), Tk("until", UntilKeyword), Tk(";", Semicolon);
            Generate(GenState([x, x, one, plus, assign], [], [-1], [rep]), None, [until, x, gt, five, semi])
              == Run(GenState([x, x, one, plus, assign, x, five, gt, AddressToken(-1), until], [], [], [rep]), Some(until), None)
  {
    var x, one, five := Tk("x", IntIdentifier), Tk("1", IntLiteral), Tk("5", IntLiteral);
    var assign, plus, gt := Tk(":=", AssignmentOperator), Tk("+", SumOperator), Tk(">", GreaterThanOperator);
    var rep, until, semi := Tk("repeat", RepeatKeyword), Tk("until", UntilKeyword), Tk(";", Semicolon);
    var greater := Operator(gt, GreaterThanPriority);
    var s7 := GenState([x, x, one, plus, assign], [], [-1], [rep]);
    var s8 := GenState([x, x, one, plus, assign, x], [], [-1], [rep]);
    var s9 := GenState([x, x, one, plus, assign, x], [greater], [-1], [rep]);
    var s10 := GenState([x, x, one, plus, assign, x, five], [greater], [-1], [rep]);
    var done := Run(GenState([x, x, one, plus, assign, x, five, gt, AddressToken(-1), until], [], [], [rep]), Some(until), None);
    assert Step(s7, None, until) == Run(s7, Some(until), None);
    assert Step(s7, Some(until), x) == Run(s8, Some(until), None);
    assert Step(s8, Some(until), gt) == Run(s9, Some(until), None);
    assert Step(s9, Some(until), five) == Run(s10, Some(until), None);
    assert Drain(s10) == GenState([x, x, one, plus, assign, x, five, gt], [], [-1], [rep]);
    assert Step(s10, Some(until), semi) == done;
    assert Generate(s10, Some(until), [semi]) == done;
    assert Generate(s9, Some(until), [five, semi]) == done;
    assert Generate(s8, Some(until), [gt, five, semi]) == done;
    assert Generate(s7, Some(until), [x, gt, five, semi]) == done;
  }

  class IntermediateCodeVector {
    var icv: seq<Token>
    var operators: seq<Operator>
    var addresses: seq<int>
    var statements: seq<Token>

    function State(): GenState
      reads this
    {
      GenState(icv, operators, addresses, statements)
    }

    constructor ()
      ensures State() == GenState([], [], [], [])
    {
      icv, operators, addresses, statements := [], [], [], [];
    }

    method AddToIcv(token: Token)
      modifies this
      ensures State() == old(State()).(icv := AppendToIcv(old(icv), token))
    {
      if token.id == OpenParenthesis || token.id == CloseParenthesis {
        return;
      }
      icv := icv + [token];
    }

    method EmptyOperatorsStack()
      modifies this
      ensures State() == Drain(old(State()))
    {
      while |operators| > 0
        invariant Drain(State()) == Drain(old(State()))
        decreases |operators|
      {
        var op := operators[|operators| - 1];
        operators := operators[..|operators| - 1];
        if op.token.id == OpenParenthesis || op.token.id == CloseParenthesis {
          continue;
        }
        AddToIcv(op.token);
      }
    }

    method AddOperator(op: Operator)
      modifies this
      ensures State() == AddOperatorOn(old(State()), op)
      ensures PushesOperator(old(State()), State(), op)
    {
      if |operators| == 0 || op.token.id == OpenParenthesis {
        operators := operators + [op];
      } else {
        if operators[|operators| - 1].priority < op.priority {
          operators := operators + [op];
        } else {
          while |operators| > 0 && operators[|operators| - 1].priority >= op.priority
            invariant PopWhileAtLeast(State(), op.priority) == PopWhileAtLeast(old(State()), op.priority)
            decreases |operators|
          {
            var top := operators[|operators| - 1];
            operators := operators[..|operators| - 1];
            AddToIcv(top.token);
          }
          operators := operators + [op];
        }
      }
      AddOperatorOnEffect(old(State()), op);
    }

    /** The close-parenthesis branch of GenerateIcv. */
    method PopToOpenParenthesis() returns (error: Option<Error>)
      modifies this
      ensures (State(), error) == CloseParenthesisOn(old(State()))
    {
      while true
        invariant CloseParenthesisOn(State()) == CloseParenthesisOn(old(State()))
        decreases |operators|
      {
        if |operators| == 0 {
          return Some(EmptyStack);
        }
        if operators[|operators| - 1].token.id == OpenParenthesis {
          break;
        }
        var top := operators[|operators| - 1];
        operators := operators[..|operators| - 1];
        AddToIcv(top.token);
      }
      operators := operators[..|operators| - 1];
      return None;
    }

    /** The semicolon branch of GenerateIcv. */
    method EndStatement(temp: Option<Token>) returns (error: Option<Error>)
      modifies this
      ensures Run(State(), temp, error) == SemicolonOn(old(State()), temp)
    {
      EmptyOperatorsStack();
      if temp.Some? {
        if |addresses| == 0 {
          return Some(EmptyStack);
        }
        var address := addresses[|addresses| - 1];
        addresses := addresses[..|addresses| - 1];
        AddToIcv(AddressToken(address));
        AddToIcv(temp.value);
      }
      return None;
    }

    method GenerateIcv(tokens: seq<Token>) returns (error: Option<Error>)
      modifies this
      ensures Run(State(), Generate(old(State()), None, tokens).temp, error) == Generate(old(State()), None, tokens)
    {
      var temp: Option<Token> := None;
      var i := 0;
      while i < |tokens|
        invariant 0 <= i <= |tokens|
        invariant Generate(State(), temp, tokens[i..]) == Generate(old(State()), None, tokens)
      {
        var token := tokens[i];
        var id := token.id;
        assert tokens[i..][1..] == tokens[i + 1..];
        if IsIdentifier(id) || IsLiteral(id) {
          AddToIcv(token);
        } else if IsOperator(id) {
          var priority := GetPriority(token);
          if priority.Failure? {
            return Some(priority.error);
          }
          AddOperator(Operator(token, priority.value));
        } else if id == CloseParenthesis {
          error := PopToOpenParenthesis();
          if error.Some? {
            return;
          }
        } else if id == Semicolon {
          error := EndStatement(temp);
          if error.Some? {
            return;
          }
        } else if id == RepeatKeyword {
          statements := statements + [token];
          addresses := addresses + [|icv| - 1];
        } else if id == UntilKeyword {
          temp := Some(token);
        }
        i := i + 1;
      }
      return None;
    }
  }
}
