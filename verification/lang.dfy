/**
 * The kind-code vocabulary of Language/Lang.cs: the integer kind codes the lexer
 * assigns, the category predicates over them, the operator-priority table and the
 * per-type default values.
 */
module Lang {
  import opened Wrappers
  import opened Tokens

  const IntKeyword := -11
  const IntIdentifier := -51
  const IntLiteral := -61

  const RealKeyword := -12
  const RealIdentifier := -52
  const RealLiteral := -62

  const StringKeyword := -13
  const StringIdentifier := -53
  const StringLiteral := -63

  const LogicKeyword := -14
  const LogicIdentifier := -54
  const TrueLiteral := -64
  const FalseLiteral := -65

  const BeginKeyword := -2
  const EndKeyword := -3
  const VarKeyword := -15
  const GeneralIdentifier := -55

  const ReadFunction := -4
  const WriteFunction := -5

  const MulOperator := -21
  const DivOperator := -22
  const ModOperator := -23
  const SumOperator := -24
  const SubOperator := -25

  const AssignmentOperator := -26

  const LowerThanOperator := -31
  const LowerOrEqualOperator := -32
  const GreaterThanOperator := -33
  const GreaterOrEqualOperator := -34
  const EqualToOperator := -35
  const NotEqualsOperator := -36
  const AndOperator := -41
  const OrOperator := -42
  const NotOperator := -43

  const OpenParenthesis := -73
  const CloseParenthesis := -74

  const Semicolon := -75
  const Comma := -76

  const DefaultTablePosition := -2

  const RepeatKeyword := -9
  const UntilKeyword := -10

  const Address := -99

  // The private Priority table of Lang.cs.
  const MulPriority := 60
  const DivPriority := 60
  const SumPriority := 50
  const SubPriority := 50
  const LowerThanPriority := 40
  const GreaterThanPriority := 40
  const EqualToPriority := 40
  const NotPriority := 30
  const AndPriority := 20
  const OrPriority := 10
  const AssignPriority := 0

  /** The five literal kinds form the contiguous block -65..-61. */
  function IsLiteral(id: int): (r: bool)
    ensures r <==> -65 <= id <= -61
  {
    id == IntLiteral || id == RealLiteral || id == StringLiteral || id == TrueLiteral || id == FalseLiteral
  }

  /** The four typed identifier kinds and the general identifier form the block -55..-51. */
  function IsIdentifier(id: int): (r: bool)
    ensures r <==> -55 <= id <= -51
  {
    id == IntIdentifier || id == RealIdentifier || id == StringIdentifier || id == LogicIdentifier
    || id == GeneralIdentifier
  }

  /** Arithmetic (-25..-21), assignment (-26), relational (-36..-31) and logical (-43..-41)
      operators; parentheses, semicolon and comma are not operators. */
  function IsOperator(id: int): (r: bool)
    ensures r <==> -26 <= id <= -21 || -36 <= id <= -31 || -43 <= id <= -41
    ensures r ==> id != OpenParenthesis && id != CloseParenthesis && id != Semicolon && id != Comma
  {
    id == MulOperator || id == DivOperator || id == ModOperator || id == SumOperator
    || id == SubOperator || id == LowerThanOperator || id == LowerOrEqualOperator
    || id == GreaterThanOperator || id == GreaterOrEqualOperator || id == EqualToOperator
    || id == NotEqualsOperator || id == AndOperator || id == OrOperator || id == NotOperator
    || id == AssignmentOperator
  }

  function IsStatement(id: int): (r: bool)
    ensures r <==> -10 <= id <= -9
  {
    id == RepeatKeyword || id == UntilKeyword
  }

  function IsFunction(id: int): (r: bool)
    ensures r <==> -5 <= id <= -4
  {
    id == ReadFunction || id == WriteFunction
  }

  /** The operator priority of a token, or the "Invalid operator" exception.
      Mod and not-equals are operators without a priority; both parentheses have one. */
  function GetPriority(token: Token): (r: Result<int, Error>)
    ensures r.Success? <==>
              (IsOperator(token.id) && token.id != ModOperator && token.id != NotEqualsOperator)
              || token.id == OpenParenthesis || token.id == CloseParenthesis
    ensures r.Failure? ==> r.error == InvalidOperator
    ensures r.Success? ==> 0 <= r.value <= 60 && r.value % 10 == 0
    ensures r.Success? ==>
              (r.value == 0 <==> token.id in {AssignmentOperator, OpenParenthesis, CloseParenthesis})
  {
    match token.id
    case -21 => Success(MulPriority)
    case -22 => Success(DivPriority)
    case -24 => Success(SumPriority)
    case -25 => Success(SubPriority)
    case -31 => Success(LowerThanPriority)
    case -33 => Success(GreaterThanPriority)
    case -34 => Success(GreaterThanPriority)
    case -32 => Success(LowerThanPriority)
    case -35 => Success(EqualToPriority)
    case -43 => Success(NotPriority)
    case -41 => Success(AndPriority)
    case -42 => Success(OrPriority)
    case -26 => Success(AssignPriority)
    case -73 => Success(AssignPriority)
    case -74 => Success(AssignPriority)
    case _ => Failure(InvalidOperator)
  }

  /** The initial value of a freshly declared identifier; only the four typed identifier
      kinds have one, every other kind (the general identifier included) raises "-1". */
  function DefaultValueOf(identifier: Token): (r: Result<string, Error>)
    ensures r.Success? <==> -54 <= identifier.id <= -51
    ensures r.Success? ==> IsIdentifier(identifier.id) && identifier.id != GeneralIdentifier
    ensures r.Failure? ==> r.error == InvalidDefault
    ensures r.Success? ==> |r.value| > 0
  {
    match identifier.id
    case -51 => Success("0")
    case -52 => Success("0.0")
    case -53 => Success("null")
    case -54 => Success("false")
    case _ => Failure(InvalidDefault)
  }

  /** No kind code belongs to two categories. */
  lemma {:induction false} CategoriesDisjoint(id: int)
    ensures IsLiteral(id) ==> !IsIdentifier(id) && !IsOperator(id) && !IsStatement(id) && !IsFunction(id)
    ensures IsIdentifier(id) ==> !IsOperator(id) && !IsStatement(id) && !IsFunction(id)
    ensures IsOperator(id) ==> !IsStatement(id) && !IsFunction(id)
    ensures IsStatement(id) ==> !IsFunction(id)
  {
  }

  function Tok(id: int): Token { Token("", id, DefaultTablePosition, 0) }

  /** Higher priority binds tighter: mul/div over sum/sub over the five prioritised
      relational operators over not over and over or over assignment and parentheses. */
  lemma {:induction false} PriorityOrder()
    ensures GetPriority(Tok(MulOperator)) == GetPriority(Tok(DivOperator)) == Success(60)
    ensures GetPriority(Tok(SumOperator)) == GetPriority(Tok(SubOperator)) == Success(50)
    ensures forall id | id in {LowerThanOperator, LowerOrEqualOperator, GreaterThanOperator,
                               GreaterOrEqualOperator, EqualToOperator} :: GetPriority(Tok(id)) == Success(40)
    ensures GetPriority(Tok(NotOperator)) == Success(30)
    ensures GetPriority(Tok(AndOperator)) == Success(20)
    ensures GetPriority(Tok(OrOperator)) == Success(10)
    ensures forall id | id in {AssignmentOperator, OpenParenthesis, CloseParenthesis} :: GetPriority(Tok(id)) == Success(0)
    ensures GetPriority(Tok(ModOperator)) == GetPriority(Tok(NotEqualsOperator)) == Failure(InvalidOperator)
  {
  }

  /** The default values: "0", "0.0", "null" and "false"; the general identifier has none. */
  lemma {:induction false} DefaultValues(lexeme: string, line: int)
    ensures DefaultValueOf(Token(lexeme, IntIdentifier, DefaultTablePosition, line)) == Success("0")
    ensures DefaultValueOf(Token(lexeme, RealIdentifier, DefaultTablePosition, line)) == Success("0.0")
    ensures DefaultValueOf(Token(lexeme, StringIdentifier, DefaultTablePosition, line)) == Success("null")
    ensures DefaultValueOf(Token(lexeme, LogicIdentifier, DefaultTablePosition, line)) == Success("false")
    ensures DefaultValueOf(Token(lexeme, GeneralIdentifier, DefaultTablePosition, line)) == Failure(InvalidDefault)
  {
  }
}
