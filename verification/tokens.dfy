/**
 * The data holders shared by every phase: tokens as the lexer hands them over,
 * symbol-table rows, operators wrapped with their priority, and the failures
 * the C# code raises as exceptions.
 */
module Tokens {

  /** A lexical unit: lexeme text, kind code (`Id`), symbol-table position and source line.
      Only `tablePosition` is ever changed, by the semantic analyzers. */
  datatype Token = Token(lexeme: string, id: int, tablePosition: int, line: int)

  /** A symbol-table row: identifier name, declared kind code and current value as text. */
  datatype Symbol = Symbol(id: string, token: int, value: string)

  /** An operator token together with the priority it was given when it was read. */
  datatype Operator = Operator(token: Token, priority: int)

  /** Every exception the modelled code can raise, as a value. */
  datatype Error =
    | InvalidOperator                               // Exception("Invalid operator") from GetPriority
    | InvalidDefault                                // Exception("-1") from DefaultValueOf
    | NegativeArraySize                             // new Token[n] with n < 0
    | ArgumentOutOfRange                            // List.GetRange or List indexer out of bounds
    | InvalidRange                                  // List.GetRange with index + count past the end
    | IndexOutOfRange                               // array index out of bounds
    | EmptyStack                                    // Stack.Pop or Stack.Peek on an empty stack
    | FormatError                                   // Convert.ToInt32 / Convert.ToBoolean rejecting a lexeme
    | EvaluationError                               // the expression evaluator rejecting an expression
    | AlreadyDefined(lexeme: string, line: int)     // "Identifier [x] is already defined: line n."
    | NotAValidType(lexeme: string, line: int)      // "[x] is not a valid type: line n."
    | NotDefined(lexeme: string, line: int)         // "[x] is not defined: line n."
    | DefinedWithAnotherType(lexeme: string, line: int)  // "[x] was defined with another type: line n."
    | TypeMismatch(lexeme: string, line: int)       // "[x] type mismatch on line n."
}
