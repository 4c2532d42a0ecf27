/**
 * The unfinished vector builder of SemanticAnalyzer/VCI.cs: operand lexemes go straight
 * to the vector, operators through a priority stack; statements are recognised but do
 * nothing, and the stack is never drained at the end.
 *
 * Its pop loop peeks at the new top after every pop, so a pop that empties the stack
 * raises; the model keeps that exception (EmptyStack).
 */
module Vci {
  import opened Wrappers
  import opened Tokens
  import LegacyLang

  /** The builder's own operator record: the lexeme and its priority. */
  datatype NamedOperator = NamedOperator(name: string, priority: int)

  /** The statements `AddStatement` is declared over. */
  datatype Statement = Repeat | Until | If | Else | While

  /** The vector (lexemes) and the operator stack (top last). */
  datatype VciState = VciState(icv: seq<string>, operators: seq<NamedOperator>)

  function Top(operators: seq<NamedOperator>): NamedOperator
    requires operators != []
  {
    operators[|operators| - 1]
  }

  /** Priorities strictly increase from the bottom of the stack to its top. */
  predicate Increasing(operators: seq<NamedOperator>)
  {
    forall a, b | 0 <= a < b < |operators| :: operators[a].priority < operators[b].priority
  }

  /** The pop loop: while the incoming priority is at most the top's, append the top's
      name, pop, and peek at the new top (raising if there is none). */
  function PopLoop(st: VciState, priority: int): (r: (VciState, Option<Error>))
    requires st.operators != []
    decreases |st.operators|
  {
    var top := Top(st.operators);
    if priority <= top.priority then
      var popped := st.(icv := st.icv + [top.name], operators := st.operators[..|st.operators| - 1]);
      if popped.operators == [] then (popped, Some(EmptyStack))
      else PopLoop(popped, priority)
    else (st, None)
  }

  /** AddOperator as a function of the old state. */
  function AddOperatorOn(st: VciState, op: NamedOperator): (VciState, Option<Error>)
  {
    if st.operators == [] then (st.(operators := [op]), None)
    else if op.priority > Top(st.operators).priority then (st.(operators := st.operators + [op]), None)
    else
      var (popped, error) := PopLoop(st, op.priority);
      if error.Some? then (popped, error)
      else (popped.(operators := popped.operators + [op]), None)
  }

  /** One iteration of ReadTokens. */
  function ReadToken(st: VciState, token: Token): (VciState, Option<Error>)
  {
    if LegacyLang.IsIdentifier(token.id) || LegacyLang.IsLiteral(token.id) then
      (st.(icv := st.icv + [token.lexeme]), None)
    else if LegacyLang.IsOperator(token.id) then
      match LegacyLang.GetPriority(token)
      case Failure(e) => (st, Some(e))
      case Success(p) => AddOperatorOn(st, NamedOperator(token.lexeme, p))
    else (st, None)
  }

  /** ReadTokens over `tokens`, stopping at the first exception. */
  function ReadAll(st: VciState, tokens: seq<Token>): (VciState, Option<Error>)
    decreases |tokens|
  {
    if tokens == [] then (st, None)
    else
      var (st', error) := ReadToken(st, tokens[0]);
      if error.Some? then (st', error) else ReadAll(st', tokens[1..])
  }

  /** The names of a stack, top first. */
  function NamesTopFirst(operators: seq<NamedOperator>): (r: seq<string>)
    ensures |r| == |operators|
    ensures forall k | 0 <= k < |operators| :: r[k] == operators[|operators| - 1 - k].name
    decreases |operators|
  {
    if operators == [] then []
    else [Top(operators).name] + NamesTopFirst(operators[..|operators| - 1])
  }

  /** The names of the segment above `j`: the top's first, then the rest's. */
  lemma {:induction false} NamesOfTopSegment(operators: seq<NamedOperator>, j: nat)
    requires j < |operators|
    ensures NamesTopFirst(operators[j..]) == [Top(operators).name] + NamesTopFirst(operators[..|operators| - 1][j..])
  {
    var segment := operators[j..];
    assert Top(segment) == Top(operators);
    assert segment[..|segment| - 1] == operators[..|operators| - 1][j..];
  }

  /** `r` is `st` with a top segment of its stack popped: `r`'s stack is the rest, every
      popped operator has priority at least `priority`, and their names were appended
      to the vector top first. */
  predicate PopsTopSegment(st: VciState, r: VciState, priority: int)
  {
    && |r.operators| <= |st.operators|
    && r.operators == st.operators[..|r.operators|]
    && r.icv == st.icv + NamesTopFirst(st.operators[|r.operators|..])
    && (forall k | |r.operators| <= k < |st.operators| :: st.operators[k].priority >= priority)
  }

  /** What the pop loop does: it pops such a segment, all of the stack when it raises. */
  lemma {:induction false} PopLoopEmits(st: VciState, priority: int)
    requires st.operators != []
    ensures PopsTopSegment(st, PopLoop(st, priority).0, priority)
    ensures PopLoop(st, priority).1.Some? ==> PopLoop(st, priority).0.operators == []
    decreases |st.operators|
  {
    var ops := st.operators;
    var top := Top(ops);
    if priority <= top.priority {
      var rest := ops[..|ops| - 1];
      var popped := st.(icv := st.icv + [top.name], operators := rest);
      if rest == [] {
        assert ops[0..] == ops;
        assert NamesTopFirst(ops) == [top.name] + NamesTopFirst(rest);
      } else {
        PopLoopEmits(popped, priority);
        assert PopLoop(st, priority) == PopLoop(popped, priority);
        PopOneMore(st, popped, PopLoop(popped, priority).0, priority);
      }
    } else {
      assert st.icv + NamesTopFirst(ops[|ops|..]) == st.icv;
      assert ops[..|ops|] == ops;
    }
  }

  /** One more pop below a popped segment is still a popped segment. */
  lemma {:induction false} PopOneMore(st: VciState, popped: VciState, r: VciState, priority: int)
    requires st.operators != [] && priority <= Top(st.operators).priority
    requires popped == st.(icv := st.icv + [Top(st.operators).name], operators := st.operators[..|st.operators| - 1])
    requires PopsTopSegment(popped, r, priority)
    ensures PopsTopSegment(st, r, priority)
  {
    var ops := st.operators;
    var rest := popped.operators;
    var j := |r.operators|;
    assert rest[..j] == ops[..j];
    NamesOfTopSegment(ops, j);
    assert r.icv == st.icv + [Top(ops).name] + NamesTopFirst(rest[j..]);
    forall k | j <= k < |ops| ensures ops[k].priority >= priority {
      if k < |ops| - 1 { assert ops[k] == rest[k]; }
    }
  }

  /** The pop loop appends the names of a top segment of the stack, top first, each of
      priority at least the incoming one; it stops on a lower top, or raises once the
      stack is empty, which happens exactly when the bottom operator is popped. */
  lemma {:induction false} PopLoopPopsTopSegment(st: VciState, priority: int)
    requires st.operators != [] && Increasing(st.operators)
    ensures var (r, error) := PopLoop(st, priority);
            && PopsTopSegment(st, r, priority)
            && Increasing(r.operators)
            && (error.Some? <==> st.operators[0].priority >= priority)
            && (error.Some? ==> error == Some(EmptyStack) && r.operators == [])
            && (error.None? ==> r.operators != [] && Top(r.operators).priority < priority)
  {
    PopLoopEmits(st, priority);
    PopLoopStops(st, priority);
    PrefixIncreasing(st.operators, |PopLoop(st, priority).0.operators|);
  }

  /** Where the pop loop of an increasing stack stops, and when it raises. */
  lemma {:induction false} PopLoopStops(st: VciState, priority: int)
    requires st.operators != [] && Increasing(st.operators)
    ensures var (r, error) := PopLoop(st, priority);
            && (error.Some? <==> st.operators[0].priority >= priority)
            && (error.Some? ==> error == Some(EmptyStack) && r.operators == [])
            && (error.None? ==> r.operators != [] && Top(r.operators).priority < priority)
    decreases |st.operators|
  {
    var ops := st.operators;
    var top := Top(ops);
    if priority <= top.priority {
      var rest := ops[..|ops| - 1];
      if rest != [] {
        PrefixIncreasing(ops, |rest|);
        var popped := st.(icv := st.icv + [top.name], operators := rest);
        PopLoopStops(popped, priority);
        assert PopLoop(st, priority) == PopLoop(popped, priority);
        assert rest[0] == ops[0];
      }
    } else {
      assert forall a | 0 <= a < |ops| - 1 :: ops[a].priority < top.priority;
    }
  }

  /** A bottom segment of an increasing stack is increasing. */
  lemma {:induction false} PrefixIncreasing(operators: seq<NamedOperator>, n: nat)
    requires Increasing(operators) && n <= |operators|
    ensures Increasing(operators[..n])
  {
    var p := operators[..n];
    forall a, b | 0 <= a < b < |p| ensures p[a].priority < p[b].priority {
      assert p[a] == operators[a] && p[b] == operators[b];
    }
  }

  /** What AddOperator appends to the vector: the names of the operators it pops, top
      first. On success the new operator sits on what is left of the old stack; on the
      exception the whole stack went to the vector. */
  lemma {:induction false} AddOperatorEmits(st: VciState, op: NamedOperator)
    ensures AddOperatorOn(st, op).1.Some? ==>
              && AddOperatorOn(st, op).0.operators == []
              && AddOperatorOn(st, op).0.icv == st.icv + NamesTopFirst(st.operators)
    ensures AddOperatorOn(st, op).1.None? ==>
              && AddOperatorOn(st, op).0.operators != []
              && Top(AddOperatorOn(st, op).0.operators) == op
              && |AddOperatorOn(st, op).0.operators| - 1 <= |st.operators|
              && AddOperatorOn(st, op).0.operators == st.operators[..|AddOperatorOn(st, op).0.operators| - 1] + [op]
              && AddOperatorOn(st, op).0.icv == st.icv + NamesTopFirst(st.operators[|AddOperatorOn(st, op).0.operators| - 1..])
  {
    var ops := st.operators;
    if ops == [] || op.priority > Top(ops).priority {
      assert ops[..|ops|] == ops;
      assert st.icv + NamesTopFirst(ops[|ops|..]) == st.icv;
    } else {
      PopLoopEmits(st, op.priority);
      var popped := PopLoop(st, op.priority).0;
      assert PopsTopSegment(st, popped, op.priority);
      assert ops[0..] == ops;
      assert popped.operators[..|popped.operators|] == popped.operators;
    }
  }

  /** On success AddOperator leaves the stack strictly increasing with the new operator
      on top; it raises exactly when the incoming priority is at most every priority on
      a non-empty stack. */
  lemma {:induction false} AddOperatorKeepsIncreasing(st: VciState, op: NamedOperator)
    requires Increasing(st.operators)
    ensures var (r, error) := AddOperatorOn(st, op);
            && (error.Some? <==> st.operators != [] && op.priority <= st.operators[0].priority)
            && (error.None? ==> Increasing(r.operators) && Top(r.operators) == op)
            && (error.Some? ==> r.operators == [])
  {
    var ops := st.operators;
    if ops != [] {
      if op.priority > Top(ops).priority {
        var s := ops + [op];
        forall a, b | 0 <= a < b < |s| ensures s[a].priority < s[b].priority {
          if b < |ops| {
            assert s[a] == ops[a] && s[b] == ops[b];
          } else if a < |ops| - 1 {
            assert s[a] == ops[a] && ops[a].priority < Top(ops).priority;
          }
        }
        assert ops[0].priority <= Top(ops).priority;
      } else {
        PopLoopPopsTopSegment(st, op.priority);
        var r := PopLoop(st, op.priority).0;
        if r.operators != [] {
          var s := r.operators + [op];
          forall a, b | 0 <= a < b < |s| ensures s[a].priority < s[b].priority {
            if b < |r.operators| {
              assert s[a] == r.operators[a] && s[b] == r.operators[b];
            } else if a < |r.operators| - 1 {
              assert s[a] == r.operators[a] && r.operators[a].priority < Top(r.operators).priority;
            }
          }
        }
      }
    }
  }

  /** Adding `+` to a stack holding only `*` raises: the pop loop pops `*`, emits it,
      and then peeks at the empty stack. */
  lemma {:induction false} SumAfterLoneProductRaises(icv: seq<string>)
    ensures AddOperatorOn(VciState(icv, [NamedOperator("*", 60)]), NamedOperator("+", 50))
              == (VciState(icv + ["*"], []), Some(EmptyStack))
  {
    assert [NamedOperator("*", 60)][..0] == [];
  }

  /** A run keeps the operator stack strictly increasing, whether it completes or raises
      (a raising pop loop leaves the stack empty). */
  lemma {:induction false} ReadAllKeepsIncreasing(st: VciState, tokens: seq<Token>)
    requires Increasing(st.operators)
    ensures Increasing(ReadAll(st, tokens).0.operators)
    decreases |tokens|
  {
    if tokens != [] {
      var t := tokens[0];
      if LegacyLang.IsOperator(t.id) && LegacyLang.GetPriority(t).Success? {
        AddOperatorKeepsIncreasing(st, NamedOperator(t.lexeme, LegacyLang.GetPriority(t).value));
      }
      var (st', error) := ReadToken(st, t);
      if error.None? {
        ReadAllKeepsIncreasing(st', tokens[1..]);
      }
    }
  }

  /** Operand lexemes reach the vector at once: an identifier or literal token appends
      its lexeme and touches nothing else; statement keywords and every other
      non-operator kind change nothing. */
  lemma {:induction false} ReadTokenEffects(st: VciState, token: Token)
    ensures LegacyLang.IsIdentifier(token.id) || LegacyLang.IsLiteral(token.id) ==>
              ReadToken(st, token) == (st.(icv := st.icv + [token.lexeme]), None)
    ensures !LegacyLang.IsIdentifier(token.id) && !LegacyLang.IsLiteral(token.id) && !LegacyLang.IsOperator(token.id) ==>
              ReadToken(st, token) == (st, None)
    ensures LegacyLang.IsStatement(token.id) ==> ReadToken(st, token) == (st, None)
  {
    LegacyLang.CategoriesDisjoint(token.id);
  }

  class VCI {
    var icv: seq<string>
    var operators: seq<NamedOperator>

    function State(): VciState
      reads this
    {
      VciState(icv, operators)
    }

    constructor ()
      ensures State() == VciState([], [])
    {
      icv, operators := [], [];
    }

    method ReadTokens(tokens: seq<Token>) returns (error: Option<Error>)
      modifies this
      ensures (State(), error) == ReadAll(old(State()), tokens)
    {
      var i := 0;
      while i < |tokens|
        invariant 0 <= i <= |tokens|
        invariant ReadAll(State(), tokens[i..]) == ReadAll(old(State()), tokens)
      {
        var token := tokens[i];
        var id := token.id;
        assert tokens[i..][1..] == tokens[i + 1..];
        if LegacyLang.IsIdentifier(id) || LegacyLang.IsLiteral(id) {
          icv := icv + [token.lexeme];
        } else if LegacyLang.IsOperator(id) {
          var priority := LegacyLang.GetPriority(token);
          if priority.Failure? {
            return Some(priority.error);
          }
          error := AddOperator(NamedOperator(token.lexeme, priority.value));
          if error.Some? {
            return;
          }
        } else if LegacyLang.IsStatement(id) {
        }
        i := i + 1;
      }
      return None;
    }

    method AddOperator(op: NamedOperator) returns (error: Option<Error>)
      modifies this
      ensures (State(), error) == AddOperatorOn(old(State()), op)
      ensures error.Some? ==> operators == [] && icv == old(icv) + NamesTopFirst(old(operators))
      ensures error.None? ==>
                && operators != [] && |operators| - 1 <= |old(operators)|
                && operators == old(operators)[..|operators| - 1] + [op]
                && icv == old(icv) + NamesTopFirst(old(operators)[|operators| - 1..])
    {
      AddOperatorEmits(State(), op);
      if |operators| == 0 {
        operators := [op];
        return None;
      }
      var top := operators[|operators| - 1];
      if op.priority > top.priority {
        operators := operators + [op];
        return None;
      }
      while |operators| > 0 && op.priority <= top.priority
        invariant operators != [] && top == Top(operators)
        invariant PopLoop(State(), op.priority) == PopLoop(old(State()), op.priority)
        decreases |operators|
      {
        icv := icv + [top.name];
        operators := operators[..|operators| - 1];
        if |operators| == 0 {
          return Some(EmptyStack);
        }
        top := operators[|operators| - 1];
      }
      operators := operators + [op];
      return None;
    }

    /** The body of AddStatement is empty in the source: it changes nothing. */
    method AddStatement(statement: Statement)
    {
      if statement == Repeat {
      }
    }
  }
}
