# Language-and-Automata-II back end, modelled in Dafny

This project models the back end of a small compiler for a Pascal-like teaching language
(`var … begin … end`, typed identifiers, `read`/`write`, `repeat … until`). The back end
takes the lexer's token table and runs in three stages:

- **Semantic analysis** builds the symbol table. It extracts the identifiers declared between
  `var` and `begin` and rejects duplicates. It gives each identifier a symbol row with its
  type's default value and back-patches the symbol's position into the token table. It then
  checks every identifier used in the body. The current analyzer is `Semantics/Analyzer.cs`.
  Two earlier analyzers, `SemanticAnalyzer/Analyzer.cs` and `SemanticAnalyzer/SemanticAnalyzer.cs`,
  are struct based and report errors without stopping.
- **Intermediate code generation** turns the body into a postfix *intermediate code vector*
  (ICV). It uses a shunting-yard pass with an operator stack ordered by priority and an address
  stack for `repeat`. The current generator is `IntermediateCode/IntermediateCodeVector.cs`. An
  unfinished earlier one is `SemanticAnalyzer/VCI.cs`.
- **Execution** runs the ICV on a stack machine that writes symbol values in place
  (`IntermediateCode/IcvExecutable.cs`).

Modules, one per source file or shared concept:

| module | file | models |
|---|---|---|
| `Wrappers` | wrappers.dfy | `Option` and `Result`, standing in for exceptions and nulls |
| `Tokens` | tokens.dfy | `Token`, `Symbol`, `Operator` and every exception as an `Error` value |
| `Lang` | lang.dfy | `Language/Lang.cs`: kind codes, categories, priorities and default values |
| `LegacyLang` | legacy_lang.dfy | `Semantics/Lang.cs`, the older vocabulary that `VCI.cs` resolves against |
| `Filter` | filter.dfy | `Language/Filter.cs`: the declaration and body slices |
| `Grouping` | grouping.dfy | the LINQ `GroupBy`/`Count`/`Find`/`Last` queries of the three analyzers |
| `Analyzer` | analyzer.dfy | `Semantics/Analyzer.cs`, with the token table as an `array<Token>` patched in place |
| `LegacyAnalysis` | legacy_analysis.dfy | `SemanticAnalyzer/Analyzer.cs` and `SemanticAnalyzer/SemanticAnalyzer.cs`, as two classes |
| `CodeVector` | codevector.dfy | `IntermediateCode/IntermediateCodeVector.cs`, as the class `IntermediateCodeVector` |
| `Executable` | executor.dfy | `IntermediateCode/IcvExecutable.cs`, with the symbol table as an `array<Symbol>` |
| `Vci` | vci.dfy | `SemanticAnalyzer/VCI.cs` |

**How each class is modelled.** The fields of each class are Dafny class fields, and its methods
update them. Each method is proved equal to a function of the old state: `Drain`,
`AddOperatorOn`, `Step`, `Generate`, `BuildTable`, `Build`, `Execute` and so on. The properties
are lemmas about those functions. Every exception the C# code can raise is modelled as an
`Error` value. The state at the moment of the exception is kept, so "what is left behind when
it throws" is part of each contract.

**Where the code differs from its comments.** The model follows the code:

- `SemanticAnalyzer/Analyzer.cs` passes the index of `begin` to `List.GetRange` as a count.
  The slice therefore starts at `var` and runs `varIndex - 1` tokens past `begin`
  (`RangeOverDeclarations`).
- In `Semantics/Analyzer.cs` the duplicate check throws on the first repeat instead of
  reporting each one.
- In the ICV, no open parenthesis ever reaches the operator stack, so a close parenthesis
  always fails (`CloseParenthesisAlwaysFails`).
- Once an `until` has been seen, the latch stays set (`LatchNeverCleared`).
- No branch of `GenerateIcv` (IntermediateCode/IntermediateCodeVector.cs:37-75) matches a `read` or
  `write` token, so neither reaches the ICV. The machine's `read` and `write` branches are therefore
  unreachable from generated code; the model treats such tokens the same way (`Step` skips them).
- The generator emits the loop address as a kind-0 token. The machine skips that token instead
  of pushing it (`GeneratedAddressIsSkipped`).

## Model

| member | source | states |
|---|---|---|
| Lang.IsLiteral | Language/Lang.cs:61 | the literal kinds are exactly the block -65..-61 |
| Lang.IsIdentifier | Language/Lang.cs:63 | the identifier kinds are exactly the block -55..-51, general identifier included |
| Lang.IsOperator | Language/Lang.cs:65-68 | operators are -26..-21, -36..-31 and -43..-41; parentheses, semicolon and comma are not operators |
| Lang.IsStatement | Language/Lang.cs:70 | statements are exactly `repeat` (-9) and `until` (-10) |
| Lang.IsFunction | Language/Lang.cs:72 | functions are exactly `read` (-4) and `write` (-5) |
| Lang.GetPriority | Language/Lang.cs:74-92 | a priority exists exactly for the operators other than mod and not-equals, and for both parentheses; otherwise "Invalid operator"; every priority is a multiple of 10 in 0..60, and it is 0 exactly for assignment and the parentheses |
| Lang.DefaultValueOf | Language/Lang.cs:99-109 | a default exists exactly for the four typed identifier kinds (-54..-51) and is non-empty; every other kind raises "-1" |
| Lang.CategoriesDisjoint | Language/Lang.cs:61-72 | no kind code is in two of the five categories |
| Lang.PriorityOrder | Language/Lang.cs:111-128 | mul/div 60 > sum/sub 50 > the five prioritised relational operators 40 > not 30 > and 20 > or 10 > assignment and parentheses 0; mod and not-equals fail |
| Lang.DefaultValues | Language/Lang.cs:101-108 | the defaults are "0", "0.0", "null" and "false"; the general identifier raises |
| LegacyLang.IsLiteral | Semantics/Lang.cs:55 | the same literal category as the current vocabulary |
| LegacyLang.IsIdentifier | Semantics/Lang.cs:57 | the same identifier category as the current vocabulary |
| LegacyLang.IsOperator | Semantics/Lang.cs:59 | the current operator category without assignment |
| LegacyLang.IsStatement | Semantics/Lang.cs:61 | exactly -9 and -10 |
| LegacyLang.IsFunction | Semantics/Lang.cs:63 | exactly -4 and -5 |
| LegacyLang.GetPriority | Semantics/Lang.cs:65-79 | a priority exists exactly for mul, div, sum, sub, `<`, `>`, `=`, not, and, or and assignment; otherwise "Invalid operator" |
| LegacyLang.PriorityTablesAgree | Semantics/Lang.cs:65-98 | where the older table gives a priority, the current one gives the same; the current one also covers exactly `<=`, `>=` and both parentheses |
| LegacyLang.CategoriesDisjoint | Semantics/Lang.cs:55-79 | the categories are pairwise disjoint; assignment is not an operator yet has priority 0 |
| Filter.FindIndex | Language/Filter.cs:12-13 | the first position holding the kind, or -1 exactly when there is none |
| Filter.FindLastIndex | Language/Filter.cs:28 | the last position holding the kind, or -1 exactly when there is none |
| Filter.GetVarTokens | Language/Filter.cs:10-18 | succeeds exactly when the index of the first `var` (-1 when there is none) is below that of the first `begin`; the result is the tokens strictly between them, position by position; otherwise a negative array size |
| Filter.GetBodyTokens | Language/Filter.cs:25-33 | succeeds exactly when the index of the first `begin` (-1 when there is none) is below that of the last `end`; the result is the tokens strictly between them; otherwise a negative array size |
| Filter.FindIndexAfter | Language/Filter.cs:12-13 | the search skips a prefix that lacks the kind and reports positions shifted by its length |
| Filter.FindLastIndexBefore | Language/Filter.cs:28 | the backward search is unaffected by a suffix that lacks the kind |
| Filter.DeclarationSliceOfProgram | Language/Filter.cs:10-18 | for any program `pre var decls begin rest` without an earlier `var` or `begin`, the declaration slice is exactly `decls` |
| Filter.BodySliceOfProgram | Language/Filter.cs:25-33 | for any program `pre begin body end post` with no `begin` before and no `end` after, the body slice is exactly `body`, nested keywords included |
| Filter.BoundariesExcluded | Language/Filter.cs:10-33 | the declaration slice holds no `begin` and is shorter than the table minus one; a body slice needs a `begin` or an `end` |
| Filter.NoBeginNoDeclarations | Language/Filter.cs:10-18 | without a `begin` the declaration slice raises |
| Grouping.Occurrences | Semantics/Analyzer.cs:47 | a group is non-empty exactly when some token carries its key, and never larger than the list |
| Grouping.FirstIndexOf | SemanticAnalyzer/Analyzer.cs:88 | `Find`: the first token with the lexeme, or -1 exactly when none has it |
| Grouping.LastIndexOf | Semantics/Analyzer.cs:51 | `g.Last()`: the last token with the lexeme, or -1 exactly when none has it |
| Grouping.FirstIndexOfSnoc | SemanticAnalyzer/Analyzer.cs:88 | appending a token does not move a first occurrence that is already present |
| Grouping.GroupKeys | SemanticAnalyzer/Analyzer.cs:85 | the `GroupBy` keys: exactly the lexemes present, each once, in order of first appearance |
| Grouping.GroupKeysStep | SemanticAnalyzer/Analyzer.cs:85 | one more token keeps the keys and adds its lexeme at the end when it is new |
| Grouping.RepeatedAmongMembers | SemanticAnalyzer/Analyzer.cs:85 | the `Count() > 1` filter keeps exactly the keys of groups with more than one member |
| Grouping.RepeatedAmongKeepsOrder | SemanticAnalyzer/Analyzer.cs:85 | filtering keeps the first-appearance order |
| Grouping.RepeatedKeys | SemanticAnalyzer/Analyzer.cs:85 | the repeated keys: exactly the lexemes occurring more than once, in first-appearance order |
| Grouping.RepeatedIffTwoPositions | Semantics/Analyzer.cs:47 | a group has more than one member exactly when two distinct positions carry its key |
| Grouping.RepeatedKeysNonEmptyIffNotDistinct | SemanticAnalyzer/Analyzer.cs:81-85 | `Any(g => g.Count() > 1)` holds exactly when the lexemes are not pairwise distinct |
| Grouping.FirstRepeatedKey | Semantics/Analyzer.cs:51-53 | the first repeated group starts at the earliest position whose lexeme occurs again |
| Grouping.PartnerMeansRepeated | Semantics/Analyzer.cs:47 | a position whose lexeme occurs elsewhere belongs to a repeated group |
| Analyzer.GetIdentifierTokens | Semantics/Analyzer.cs:34-37 | exactly the tokens of the slice whose table position is still -2 |
| Analyzer.GetIdentifierTokensKeepsOrder | Semantics/Analyzer.cs:34-37 | the filter distributes over concatenation, so input order is kept |
| Analyzer.CheckForRepeatedIdentifiers | Semantics/Analyzer.cs:44-55 | never `true`; `false` exactly when the lexemes are distinct; otherwise "already defined" for the first repeated lexeme, citing the line of its last occurrence |
| Analyzer.FirstUntyped | Semantics/Analyzer.cs:62-79 | every identifier before the returned position has a default value and the one at it has none |
| Analyzer.BuildTableSymbols | Semantics/Analyzer.cs:60-81 | the old symbols are kept, and row `base + k` is the lexeme, kind and default of identifier k, up to the first untyped identifier; that identifier stops the run with "is not a valid type" before its row is added |
| Analyzer.BuildTablePatches | Semantics/Analyzer.cs:60-92 | every table token whose lexeme matches a processed identifier gets that identifier's symbol position (the last one's, for a repeated lexeme); all other fields and tokens are unchanged |
| Analyzer.SymbolTableOfDistinctIdentifiers | Semantics/Analyzer.cs:60-81 | from an empty table with distinct, typed identifiers: one symbol per identifier, and the names are pairwise distinct |
| Analyzer.IsSymbol | Semantics/Analyzer.cs:125 | true exactly when some symbol has the token's lexeme as its name |
| Analyzer.FirstSymbol | Semantics/Analyzer.cs:129 | the earliest symbol carrying the name |
| Analyzer.HasCorrectType | Semantics/Analyzer.cs:127-131 | true exactly when the earliest symbol named by the token's lexeme was declared with the token's kind |
| Analyzer.AllOnLineAccepted | Semantics/Analyzer.cs:135-148 | every non-ignored token on the line has a kind that the identifier's family accepts |
| Analyzer.HasCorrectAssignment | Semantics/Analyzer.cs:133-149 | only the four typed identifiers pass, and only when every non-ignored token of the whole table on their line is accepted for their kind |
| Analyzer.CheckSymbolUsage | Semantics/Analyzer.cs:110-123 | passes exactly when every typed body identifier passes the three checks; otherwise raises the error of the first one that fails |
| Analyzer.ForeignKindsOnLineReject | Semantics/Analyzer.cs:133-149 | a string literal on an int identifier's line fails the check, and so does `read` or `write` on any identifier's line |
| Analyzer.MixedIntegerLogic | Semantics/Analyzer.cs:140-146 | logic identifiers accept integer literals, and integer identifiers accept logic identifiers |
| Analyzer.Analyzer.constructor | Semantics/Analyzer.cs:11-15 | holds the given token table and an empty symbol table |
| Analyzer.Analyzer.UpdateTokenInTable | Semantics/Analyzer.cs:88-92 | every token of the table carrying the lexeme gets the new position; nothing else changes |
| Analyzer.Analyzer.CreateSymbolTable | Semantics/Analyzer.cs:60-81 | the new token array, symbols and exception are those of `BuildTable` on the old ones, so the two lemmas above apply |
| Analyzer.Analyzer.PerformFullAnalysis | Semantics/Analyzer.cs:20-27 | every path as a function of the old tables: a failing declaration slice raises its error with both tables untouched; repeated lexemes raise "already defined" before any symbol is made, tables untouched; otherwise the tables become `BuildTable`'s, whose error is raised if any, and else the error is the body slice's or the usage check's; success implies distinct identifiers, and from an empty table distinct symbol names |
| LegacyAnalysis.DefaultFor | SemanticAnalyzer/Analyzer.cs:126-138 | typed identifiers get the current defaults without a report (SemanticAnalyzer.cs gives strings `""`); any other kind gets "" and "invalid token" (Analyzer.cs) or "-1" and "type mismatch" (SemanticAnalyzer.cs) |
| LegacyAnalysis.RangeIdentifiers | SemanticAnalyzer/Analyzer.cs:103-104 | `GetRange` succeeds exactly when index and count are non-negative and the range fits; otherwise ArgumentOutOfRange or an invalid range |
| LegacyAnalysis.RangeOverDeclarations | SemanticAnalyzer/Analyzer.cs:98-106 | with `var` at v before `begin` at b, the identifiers come from `var` itself, the declarations, and the v tokens from `begin` on |
| LegacyAnalysis.ReportsForAt | SemanticAnalyzer/Analyzer.cs:86-90 | one report per key, naming it and citing the line of its first identifier |
| LegacyAnalysis.ReportsForKeys | SemanticAnalyzer/Analyzer.cs:85-90 | over the repeated keys: reports name exactly the repeated lexemes, in first-appearance order, with first-occurrence lines |
| LegacyAnalysis.DuplicateReportsExact | SemanticAnalyzer/Analyzer.cs:78-92 | no reports exactly when the lexemes are distinct; otherwise each repeated lexeme once, in order of first appearance, citing its first line |
| LegacyAnalysis.FirstIndexOfSameLexemes | SemanticAnalyzer/Analyzer.cs:115 | `FindIndex` on the lexeme depends on the lexemes alone, not on table positions |
| LegacyAnalysis.PatchFirstChangesOnePosition | SemanticAnalyzer/Analyzer.cs:113-119 | a patch rewrites the position of the first token with the lexeme and nothing else, so every first match stays put |
| LegacyAnalysis.BuildStops | SemanticAnalyzer/Analyzer.cs:59-72 | the loop stops with ArgumentOutOfRange exactly when an identifier's lexeme is missing from the table; earlier reports are kept and the table keeps its length |
| LegacyAnalysis.BuildSymbols | SemanticAnalyzer/Analyzer.cs:59-72 | on a complete run, row `base + k` is identifier k's lexeme, kind and default, and the old rows are kept |
| LegacyAnalysis.PatchThenRest | SemanticAnalyzer/Analyzer.cs:69 | a patch for the head followed by the patches for the rest is the back-patching for the whole list; a later identifier with the same lexeme wins |
| LegacyAnalysis.BuildPatches | SemanticAnalyzer/Analyzer.cs:59-72 | on a complete run, the first token carrying each identifier's lexeme holds that identifier's symbol position, and every other field and token is unchanged |
| LegacyAnalysis.CreateCheckedOutcome | SemanticAnalyzer/SemanticAnalyzer.cs:36-63 | with a repeated lexeme, nothing is added or patched and exactly the duplicate reports are added; otherwise a complete run adds one symbol per identifier, with distinct names |
| LegacyAnalysis.Analyzer.constructor | SemanticAnalyzer/Analyzer.cs:17-23 | empty identifiers, symbols and reports over the given table |
| LegacyAnalysis.Analyzer.GetIdentifierTokens | SemanticAnalyzer/Analyzer.cs:98-106 | returns the identifiers of the `GetRange` slice and stores them; the exception leaves the stored list alone |
| LegacyAnalysis.Analyzer.CheckForRepeatedIdentifiers | SemanticAnalyzer/Analyzer.cs:78-92 | true exactly when some lexeme repeats; the reports added are exactly the duplicate reports |
| LegacyAnalysis.Analyzer.ReportRepeated | SemanticAnalyzer/Analyzer.cs:86-90 | appends one report per key, with the line of its first identifier |
| LegacyAnalysis.Analyzer.UpdateTokenInTable | SemanticAnalyzer/Analyzer.cs:113-119 | patches the first token with the lexeme, or raises ArgumentOutOfRange with the table unchanged when none carries it |
| LegacyAnalysis.Analyzer.GetDefaultValueForToken | SemanticAnalyzer/Analyzer.cs:126-138 | the dialect's default value, appending the "invalid token" report for an untyped kind |
| LegacyAnalysis.Analyzer.CreateSymbolTable | SemanticAnalyzer/Analyzer.cs:59-72 | the new tokens, symbols, reports and exception are those of `Build`, so `BuildStops`, `BuildSymbols` and `BuildPatches` apply |
| LegacyAnalysis.Analyzer.PerformFullAnalysis | SemanticAnalyzer/Analyzer.cs:28-34 | a failing slice raises with the tables untouched; repeated lexemes add exactly the duplicate reports and stop; otherwise the symbol table is built |
| LegacyAnalysis.SemanticAnalyzer.constructor | SemanticAnalyzer/SemanticAnalyzer.cs:8-13 | empty symbols and reports over the given table |
| LegacyAnalysis.SemanticAnalyzer.GetIdentifierTokens | SemanticAnalyzer/SemanticAnalyzer.cs:65-73 | the identifiers of the `GetRange` slice, or its exception |
| LegacyAnalysis.SemanticAnalyzer.CreateSymbolTable | SemanticAnalyzer/SemanticAnalyzer.cs:36-63 | the new state is that of `CreateChecked`, so `CreateCheckedOutcome` applies |
| LegacyAnalysis.SemanticAnalyzer.AddSymbols | SemanticAnalyzer/SemanticAnalyzer.cs:51-62 | the loop's new state is that of `Build` with this analyzer's defaults |
| LegacyAnalysis.SemanticAnalyzer.ReportRepeated | SemanticAnalyzer/SemanticAnalyzer.cs:42-46 | appends one report per key, with the line of its first identifier |
| LegacyAnalysis.SemanticAnalyzer.UpdateTokenInTable | SemanticAnalyzer/SemanticAnalyzer.cs:75-79 | patches the first token with the lexeme, or raises with the table unchanged |
| LegacyAnalysis.SemanticAnalyzer.GetDefaultValueForToken | SemanticAnalyzer/SemanticAnalyzer.cs:81-90 | the dialect's default for the kind, appending "type mismatch" and giving "-1" for an untyped kind |
| CodeVector.AppendToIcv | IntermediateCode/IntermediateCodeVector.cs:115-120 | parentheses are dropped; every other token is appended |
| CodeVector.NatToString | IntermediateCode/IntermediateCodeVector.cs:61 | non-empty decimal digits |
| CodeVector.IntToString | IntermediateCode/IntermediateCodeVector.cs:61 | non-empty, with a leading '-' exactly for negative numbers |
| CodeVector.NatToStringValue | IntermediateCode/IntermediateCodeVector.cs:61 | the digits read back as a decimal number give the number again |
| CodeVector.IntToStringValue | IntermediateCode/IntermediateCodeVector.cs:61 | the text read back as a signed decimal gives the number again, so the address token names the popped address |
| CodeVector.GetBodyTokens | IntermediateCode/IntermediateCodeVector.cs:22-28 | cuts out the same body as `Filter.GetBodyTokens` and fails in the same cases, raising ArgumentOutOfRange |
| CodeVector.Popped | IntermediateCode/IntermediateCodeVector.cs:78-87 | draining emits at most one token per stacked operator |
| CodeVector.PoppedOperators | IntermediateCode/IntermediateCodeVector.cs:78-87 | a stack of operators drains to operator tokens only |
| CodeVector.DrainEmptiesStack | IntermediateCode/IntermediateCodeVector.cs:78-87 | the stack ends empty, the vector gains the popped operators top first, and the address and statement stacks are untouched |
| CodeVector.CloseParenthesisAlwaysFails | IntermediateCode/IntermediateCodeVector.cs:48-55 | with no open parenthesis on the stack, a close parenthesis drains every operator and then fails peeking at the empty stack |
| CodeVector.PopWhileAtLeastKeepsConsistent | IntermediateCode/IntermediateCodeVector.cs:106-109 | the pop loop keeps the invariant and stops on an empty stack or a lower-priority top |
| CodeVector.PoppedTopSegment | IntermediateCode/IntermediateCodeVector.cs:106-109 | the tokens drained from a top segment are the top operator's token, then those of the segment below it |
| CodeVector.PopWhileAtLeastEmits | IntermediateCode/IntermediateCodeVector.cs:106-109 | the loop leaves a prefix of the stack, appends the popped operators to the vector top first, pops only priorities at least the incoming one, stops on a lower top, and leaves the address and statement stacks alone |
| CodeVector.AddOperatorOnEffect | IntermediateCode/IntermediateCodeVector.cs:89-113 | the operator ends on top; an open parenthesis is pushed with nothing else changed; any other operator first pops, top first into the vector, every operator of priority at least its own |
| CodeVector.OperatorStepKeepsConsistent | IntermediateCode/IntermediateCodeVector.cs:89-113 | pushing an operator keeps the stack strictly increasing and the vector clean |
| CodeVector.SemicolonStepKeepsConsistent | IntermediateCode/IntermediateCodeVector.cs:56-65 | the semicolon branch keeps the invariant; the `until` it emits follows the address token |
| CodeVector.StepKeepsConsistent | IntermediateCode/IntermediateCodeVector.cs:35-75 | every branch keeps the invariant, whether it succeeds or raises |
| CodeVector.GenerateKeepsConsistent | IntermediateCode/IntermediateCodeVector.cs:30-76 | a whole run keeps the invariant: operators only on the stack, strictly increasing priorities, no parentheses in the vector, every `until` after an address, and the latch holding `until` if anything |
| CodeVector.PopWhileAtLeastKeepsOperands | IntermediateCode/IntermediateCodeVector.cs:106-109 | the pop loop moves operators only |
| CodeVector.DrainKeepsOperands | IntermediateCode/IntermediateCodeVector.cs:78-87 | draining moves operators only |
| CodeVector.StepKeepsOperandOrder | IntermediateCode/IntermediateCodeVector.cs:35-75 | a step appends the token to the operand subsequence if it is an identifier or literal, and nothing otherwise |
| CodeVector.SemicolonKeepsOperands | IntermediateCode/IntermediateCodeVector.cs:56-65 | the semicolon branch adds no operand |
| CodeVector.OperandsInInputOrder | IntermediateCode/IntermediateCodeVector.cs:30-76 | after a run without exceptions, identifiers and literals appear in the vector in input order, after the old ones |
| CodeVector.LatchNeverCleared | IntermediateCode/IntermediateCodeVector.cs:71-74 | once the `until` latch is set, it stays set for the rest of the run |
| CodeVector.SemicolonEmitsJump | IntermediateCode/IntermediateCodeVector.cs:56-65 | with the latch set, a semicolon drains the operators, then emits the innermost loop's address as a kind-0 token followed by `until`, and pops the address; it raises exactly when no loop is open |
| CodeVector.FirstSubtraction | IntermediateCode/IntermediateCodeVector.cs:37-46 | `a - b` sends both operands to the vector and leaves `-` on the stack |
| CodeVector.SubtractionIsLeftAssociative | IntermediateCode/IntermediateCodeVector.cs:89-113 | `a - b - c ;` compiles to `a b - c -` |
| CodeVector.SecondSubtraction | IntermediateCode/IntermediateCodeVector.cs:103-111 | an incoming `-` pops a stacked `-` of equal priority before being pushed |
| CodeVector.ProductBindsTighterThanSum | IntermediateCode/IntermediateCodeVector.cs:97-102 | `a + b * c ;` compiles to `a b c * +` |
| CodeVector.ProductAfterSum | IntermediateCode/IntermediateCodeVector.cs:97-102 | `*` is pushed over `+`, and the semicolon pops both, `*` first |
| CodeVector.RepeatUntilLoopLayout | IntermediateCode/IntermediateCodeVector.cs:30-76 | `repeat x := x + 1 ; until x > 5 ;` compiles to `x x 1 + := x 5 >`, then the address -1, then `until` |
| CodeVector.GenerateAppend | IntermediateCode/IntermediateCodeVector.cs:33-75 | a run over `a + b` is a run over `a`, then over `b` unless `a` raised |
| CodeVector.RepeatOpensLoop | IntermediateCode/IntermediateCodeVector.cs:66-70 | from any state, `repeat` pushes itself on the statement stack and the address one before the current end of the vector on the address stack; the vector and operators are untouched and nothing raises |
| CodeVector.CloseParenthesisKeepsStatements | IntermediateCode/IntermediateCodeVector.cs:48-55 | the close-parenthesis branch leaves the statement stack alone, whether it raises or not |
| CodeVector.StepExtendsStatements | IntermediateCode/IntermediateCodeVector.cs:35-75 | every step only extends the statement stack, and only with `repeat` tokens |
| CodeVector.GenerateExtendsStatements | IntermediateCode/IntermediateCodeVector.cs:30-76 | a run, raising or not, keeps the old statement stack as a prefix and pushes only `repeat` tokens; no branch pops it |
| CodeVector.LoopBodyPart | IntermediateCode/IntermediateCodeVector.cs:66-70 | in the example `repeat x := x + 1 ;` from an empty state, the address recorded is -1, the body compiles to `x x 1 + :=`, and the loop stays open with `repeat` and its address still stacked |
| CodeVector.LoopConditionPart | IntermediateCode/IntermediateCodeVector.cs:56-74 | the condition's semicolon emits the condition, the recorded address and `until`, and closes the loop |
| CodeVector.IntermediateCodeVector.constructor | IntermediateCode/IntermediateCodeVector.cs:14-20 | the vector and the three stacks start empty |
| CodeVector.IntermediateCodeVector.AddToIcv | IntermediateCode/IntermediateCodeVector.cs:115-120 | the vector becomes `AppendToIcv` of the old one; the stacks are untouched |
| CodeVector.IntermediateCodeVector.EmptyOperatorsStack | IntermediateCode/IntermediateCodeVector.cs:78-87 | the new state is `Drain` of the old one, so `DrainEmptiesStack` applies |
| CodeVector.IntermediateCodeVector.AddOperator | IntermediateCode/IntermediateCodeVector.cs:89-113 | the new state is `AddOperatorOn` of the old one, and it stands to the old one as `AddOperatorOnEffect` states: the operator on top, the popped operators in the vector top first |
| CodeVector.IntermediateCodeVector.PopToOpenParenthesis | IntermediateCode/IntermediateCodeVector.cs:48-55 | the new state and exception are those of `CloseParenthesisOn` |
| CodeVector.IntermediateCodeVector.EndStatement | IntermediateCode/IntermediateCodeVector.cs:56-65 | the new state and exception are those of the semicolon branch `SemicolonOn` |
| CodeVector.IntermediateCodeVector.GenerateIcv | IntermediateCode/IntermediateCodeVector.cs:30-76 | the new state and exception are those of `Generate` from an unset latch, so the invariant and ordering lemmas apply |
| Executable.PopOperandsOn | IntermediateCode/IcvExecutable.cs:138-144 | succeeds exactly with two or more operands; the pair is (second from top, top) and the rest of the stack is kept; otherwise the stack is emptied and EmptyStack is raised |
| Executable.AssignOn | IntermediateCode/IcvExecutable.cs:124-132 | the left operand's symbol takes the right operand's value; no other symbol changes and names and kinds are kept; an out-of-range position raises |
| Executable.ReadOn | IntermediateCode/IcvExecutable.cs:99-105 | succeeds exactly when there is a next token, its symbol position is in range, and either an answer comes or the token's kind has a default; asks for the next token's name; its symbol takes the answer, or its default when the answer is null; the stack is untouched |
| Executable.WriteOn | IntermediateCode/IcvExecutable.cs:111-117 | writes the next token's symbol value with its name if it is an identifier, else its lexeme alone; only the trace changes |
| Executable.UntilOn | IntermediateCode/IcvExecutable.cs:60-66 | succeeds exactly when the stack holds two entries whose top converts to an integer and whose second converts to a boolean; then both are popped and the next index is the address on true, else the following token; otherwise EmptyStack or a format error and the following token |
| Executable.OperandsArePushed | IntermediateCode/IcvExecutable.cs:56-70 | identifiers, literals and address tokens are pushed unchanged |
| Executable.AssignmentWritesLeftSymbol | IntermediateCode/IcvExecutable.cs:71-75 | an assignment pops two operands and gives the left one's symbol the right one's value; nothing else changes |
| Executable.OperatorPushesOneResult | IntermediateCode/IcvExecutable.cs:76-81 | any other operator replaces its two operands by one kind-0 result token; the symbols are untouched |
| Executable.ReadSkipsItsOperand | IntermediateCode/IcvExecutable.cs:82-85 | a read stores the answer, or the default, in the next token's symbol and skips that token |
| Executable.WriteSkipsItsOperand | IntermediateCode/IcvExecutable.cs:86-89 | a write reports the next token, skips it and changes no symbol |
| Executable.UntilJumpsOnTrue | IntermediateCode/IcvExecutable.cs:60-66 | `until` pops the address, then the condition, and continues at the address exactly when the condition is true |
| Executable.OtherKindsAreSkipped | IntermediateCode/IcvExecutable.cs:53-90 | every other kind moves to the next token and changes nothing |
| Executable.GeneratedAddressIsSkipped | IntermediateCode/IcvExecutable.cs:56-59 | the address token the generator emits has kind 0, not -99, so the machine skips it |
| Executable.StepKeepsShape | IntermediateCode/IcvExecutable.cs:53-90 | no step changes the table's length, names or kinds |
| Executable.ExecuteKeepsShape | IntermediateCode/IcvExecutable.cs:51-93 | no run changes the table's length, names or kinds, however it ends |
| Executable.WithoutUntilExecutionEnds | IntermediateCode/IcvExecutable.cs:53-90 | without `until` the index only moves forward, so one unit of fuel per remaining token is enough to finish or raise |
| Executable.IcvExecutable.constructor | IntermediateCode/IcvExecutable.cs:38-45 | an empty execution stack and trace over the given vector, symbols and input |
| Executable.IcvExecutable.PopOperands | IntermediateCode/IcvExecutable.cs:138-144 | the stack and result are those of `PopOperandsOn` |
| Executable.IcvExecutable.AssignRightToLeft | IntermediateCode/IcvExecutable.cs:124-132 | the symbol array becomes `AssignOn` of the old one, and is unchanged on an exception |
| Executable.IcvExecutable.AssignToNext | IntermediateCode/IcvExecutable.cs:99-105 | the new machine and exception are those of `ReadOn` |
| Executable.IcvExecutable.WriteNext | IntermediateCode/IcvExecutable.cs:111-117 | the new machine and exception are those of `WriteOn` |
| Executable.IcvExecutable.ExecuteIcv | IntermediateCode/IcvExecutable.cs:51-93 | returns the same symbol array; the final machine and halt reason are those of `Execute` from index 0 |
| Executable.IcvExecutable.Until | IntermediateCode/IcvExecutable.cs:60-66 | the new machine, next index and exception are those of `UntilOn` |
| Vci.NamesTopFirst | SemanticAnalyzer/VCI.cs:63 | the names of a stack segment, read from the top down |
| Vci.PopLoopEmits | SemanticAnalyzer/VCI.cs:61-66 | the loop leaves a prefix of the stack, appends the names of the popped top segment to the vector top first, and pops only priorities at least the incoming one; raising leaves the stack empty |
| Vci.PopLoopPopsTopSegment | SemanticAnalyzer/VCI.cs:61-66 | the pop loop appends the names of a top segment to the vector top first and keeps the rest increasing; it raises EmptyStack exactly when the bottom operator is popped, else it stops on a lower top |
| Vci.AddOperatorEmits | SemanticAnalyzer/VCI.cs:43-70 | raising leaves an empty stack after emitting every name top first; success leaves a prefix of the old stack with the new operator on top, and the vector gains the names of the operators that were popped, top first |
| Vci.AddOperatorKeepsIncreasing | SemanticAnalyzer/VCI.cs:43-70 | on success the stack stays strictly increasing with the new operator on top; it raises exactly when the incoming priority is at most the bottom's on a non-empty stack |
| Vci.SumAfterLoneProductRaises | SemanticAnalyzer/VCI.cs:58-66 | adding `+` over a lone `*` emits `*` and then raises on the empty stack |
| Vci.ReadAllKeepsIncreasing | SemanticAnalyzer/VCI.cs:20-41 | a run keeps the operator stack strictly increasing, whether it completes or raises |
| Vci.ReadTokenEffects | SemanticAnalyzer/VCI.cs:22-40 | operands append their lexeme and nothing else; statement keywords and other non-operators change nothing |
| Vci.VCI.constructor | SemanticAnalyzer/VCI.cs:11-18 | an empty vector and an empty operator stack |
| Vci.VCI.ReadTokens | SemanticAnalyzer/VCI.cs:20-41 | the new state and exception are those of `ReadAll` |
| Vci.VCI.AddOperator | SemanticAnalyzer/VCI.cs:43-70 | the new state and exception are those of `AddOperatorOn`, with the vector gain and the new stack that `AddOperatorEmits` states |

## Left out

- Reading the token table from its CSV file (`ReadTokenTable` in both earlier analyzers) is left out, because it is file I/O. The constructors take the parsed table instead.
- `WriteFiles` (the CSV output of Semantics/Analyzer.cs), `ToString`, `GetFormattedTokenTable` and `GetFormattedSymbolTable` are left out, because they are file output and text formatting.
- `GetEnumerator` of the code vector is left out; the class's `icv` field is the enumerated list.
- Exception and error messages are reduced to `Error` and `Report` values that keep the lexeme and line they cite. The wording is not kept, and neither is the console colouring of `PrintError`.
- `DataTable.Compute`, `Convert.ToInt32` and `Convert.ToBoolean` are foreign library calls. They become the functions of the `Host` parameter of the machine, which returns `None` for an exception. Their results are not modelled.
- The `read` and `write` callbacks of the machine become an input sequence and an event trace. An exhausted input answers null.
- `Executable.Execute`: the loop can jump backwards at `until` and need not terminate, so a run is bounded by fuel of one unit per executed token. Runs longer than the fuel end in `OutOfFuel`. `WithoutUntilExecutionEnds` shows that loop-free vectors never need more fuel than their length.
- Executable.IcvExecutable: symbols are values in an array, so two array cells that share one `Symbol` object in C# are not modelled (no aliasing between cells).
- Integer kind codes, positions and counts are unbounded. The 32-bit overflow of `Count - 1` or of a sum of indices is not modelled; it cannot arise with tables the lexer produces.
- LegacyAnalysis.SemanticAnalyzer.UpdateTokenInTable: the source calls `UpdateTablePosition` on the token that the list indexer returns. For the struct tokens of that folder this changes a copy, not the list cell. The `UpdateTablePosition` method of that token type is not part of this model. The model patches the list cell, as SemanticAnalyzer/Analyzer.cs does.
- LegacyAnalysis.RangeIdentifiers: `GetRange` throws `ArgumentException` when the range runs past the end. The model names this case `InvalidRange`.
- Vci.VCI.AddStatement: its body is empty in the source, so it changes nothing and has no contract.
- The unused `Addresses`, `Statements` and `Cloud` stacks of SemanticAnalyzer/VCI.cs are not modelled, because no method reads or writes them.
- Vci.VCI.ReadTokens: the C# exception leaves the loop at once. The model returns the error instead, with the state the exception leaves.
