/**
 * The older kind-code vocabulary of Semantics/Lang.cs, which the operator-precedence
 * vector builder of SemanticAnalyzer/VCI.cs resolves against. The kind codes are those
 * of the current vocabulary except the `end` keyword; the operator category leaves out
 * assignment, and the priority table knows fewer operators.
 */
module LegacyLang {
  import opened Wrappers
  import opened Tokens
  import Lang

  /** In this vocabulary `end` has the code 50 (it is -3 in the current one). */
  const EndKeyword := 50

  function IsLiteral(id: int): (r: bool)
    ensures r <==> Lang.IsLiteral(id)
  {
    id == Lang.IntLiteral || id == Lang.RealLiteral || id == Lang.StringLiteral
    || id == Lang.TrueLiteral || id == Lang.FalseLiteral
  }

  function IsIdentifier(id: int): (r: bool)
    ensures r <==> Lang.IsIdentifier(id)
  {
    id == Lang.IntIdentifier || id == Lang.RealIdentifier || id == Lang.StringIdentifier
    || id == Lang.LogicIdentifier || id == Lang.GeneralIdentifier
  }

  /** Arithmetic, relational and logical operators; unlike the current vocabulary,
      assignment is not an operator here. */
  function IsOperator(id: int): (r: bool)
    ensures r <==> Lang.IsOperator(id) && id != Lang.AssignmentOperator
    ensures r <==> -25 <= id <= -21 || -36 <= id <= -31 || -43 <= id <= -41
  {
    id == Lang.MulOperator || id == Lang.DivOperator || id == Lang.ModOperator
    || id == Lang.SumOperator || id == Lang.SubOperator || id == Lang.LowerThanOperator
    || id == Lang.LowerOrEqualOperator || id == Lang.GreaterThanOperator
    || id == Lang.GreaterOrEqualOperator || id == Lang.EqualToOperator
    || id == Lang.NotEqualsOperator || id == Lang.AndOperator || id == Lang.OrOperator
    || id == Lang.NotOperator
  }

  function IsStatement(id: int): (r: bool)
    ensures r <==> id == -9 || id == -10
  {
    id == Lang.RepeatKeyword || id == Lang.UntilKeyword
  }

  function IsFunction(id: int): (r: bool)
    ensures r <==> id == -4 || id == -5
  {
    id == Lang.ReadFunction || id == Lang.WriteFunction
  }

  /** The older priority table: defined for mul, div, sum, sub, `<`, `>`, `=`, not, and,
      or and assignment; "Invalid operator" for everything else. */
  function GetPriority(token: Token): (r: Result<int, Error>)
    ensures r.Success? <==>
              token.id in {Lang.MulOperator, Lang.DivOperator, Lang.SumOperator, Lang.SubOperator,
                           Lang.LowerThanOperator, Lang.GreaterThanOperator, Lang.EqualToOperator,
                           Lang.NotOperator, Lang.AndOperator, Lang.OrOperator, Lang.AssignmentOperator}
    ensures r.Failure? ==> r.error == InvalidOperator
  {
    match token.id
    case -21 => Success(60)
    case -22 => Success(60)
    case -24 => Success(50)
    case -25 => Success(50)
    case -31 => Success(40)
    case -33 => Success(40)
    case -35 => Success(40)
    case -43 => Success(30)
    case -41 => Success(20)
    case -42 => Success(10)
    case -26 => Success(0)
    case _ => Failure(InvalidOperator)
  }

  /** Wherever the older table gives a priority the current one gives the same; the
      current one also covers `<=`, `>=` and both parentheses, which fail here. */
  lemma {:induction false} PriorityTablesAgree(token: Token)
    ensures GetPriority(token).Success? ==> Lang.GetPriority(token) == GetPriority(token)
    ensures Lang.GetPriority(token).Success? && GetPriority(token).Failure? <==>
              token.id in {Lang.LowerOrEqualOperator, Lang.GreaterOrEqualOperator,
                           Lang.OpenParenthesis, Lang.CloseParenthesis}
  {
  }

  /** Assignment gets a priority although it is not an operator in this vocabulary, and
      the categories stay pairwise disjoint. */
  lemma {:induction false} CategoriesDisjoint(id: int)
    ensures IsLiteral(id) ==> !IsIdentifier(id) && !IsOperator(id) && !IsStatement(id) && !IsFunction(id)
    ensures IsIdentifier(id) ==> !IsOperator(id) && !IsStatement(id) && !IsFunction(id)
    ensures IsOperator(id) ==> !IsStatement(id) && !IsFunction(id)
    ensures IsStatement(id) ==> !IsFunction(id)
    ensures id == Lang.AssignmentOperator ==> !IsOperator(id) && GetPriority(Lang.Tok(id)) == Success(0)
  {
  }
}
