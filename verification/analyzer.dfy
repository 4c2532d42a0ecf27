/**
 * The semantic analyzer of Semantics/Analyzer.cs: identifier extraction from the
 * declaration region, the duplicate check, symbol-table construction with
 * back-patching of table positions onto the shared token table, and the
 * three-stage usage check over the body.
 *
 * The token table is an array of token values patched by index: in the C# code the
 * declaration slice shares its token objects with the full table, so a patch made
 * through either is visible in both, which is what patching the array achieves.
 */
module Analyzer {
  import opened Wrappers
  import opened Tokens
  import opened Lang
  import opened Grouping
  import Filter

  /** The declaration-site identifiers: the tokens whose table position is still -2. */
  function GetIdentifierTokens(varTokens: seq<Token>): (r: seq<Token>)
    ensures forall t :: t in r <==> t in varTokens && t.tablePosition == DefaultTablePosition
    ensures |r| <= |varTokens|
  {
    if varTokens == [] then []
    else
      (if varTokens[0].tablePosition == DefaultTablePosition then [varTokens[0]] else [])
      + GetIdentifierTokens(varTokens[1..])
  }

  /** The filter keeps the input order: it distributes over concatenation. */
  lemma {:induction false} GetIdentifierTokensKeepsOrder(a: seq<Token>, b: seq<Token>)
    ensures GetIdentifierTokens(a + b) == GetIdentifierTokens(a) + GetIdentifierTokens(b)
  {
    if a == [] {
      assert a + b == b;
    } else {
      assert (a + b)[1..] == a[1..] + b;
      GetIdentifierTokensKeepsOrder(a[1..], b);
    }
  }

  /** The duplicate check: `false` when every lexeme is distinct; otherwise the exception
      for the first repeated lexeme (in order of first appearance) citing the line of its
      last occurrence. It never returns `true`: the loop meant to report every repeat
      throws on its first iteration. */
  function CheckForRepeatedIdentifiers(identifiers: seq<Token>): (r: Result<bool, Error>)
    ensures r != Success(true)
    ensures r == Success(false) <==> Distinct(identifiers)
    ensures r.Failure? ==>
              exists i | FirstRepeatedAt(identifiers, i) ::
                var last := LastIndexOf(identifiers, identifiers[i].lexeme);
                0 <= last < |identifiers|
                && r.error == AlreadyDefined(identifiers[i].lexeme, identifiers[last].line)
  {
    var repeated := RepeatedKeys(identifiers);
    RepeatedKeysNonEmptyIffNotDistinct(identifiers);
    if |repeated| == 0 then Success(false)
    else
      FirstRepeatedKey(identifiers);
      var last := identifiers[LastIndexOf(identifiers, repeated[0])];
      Failure(AlreadyDefined(last.lexeme, last.line))
  }

  /** One token after UpdateTokenInTable: the new position if its lexeme matches. */
  function PatchOne(t: Token, lexeme: string, tablePosition: int): Token
  {
    if t.lexeme == lexeme then t.(tablePosition := tablePosition) else t
  }

  /** The whole table after UpdateTokenInTable. */
  function Patched(tokens: seq<Token>, lexeme: string, tablePosition: int): seq<Token>
  {
    seq(|tokens|, k requires 0 <= k < |tokens| => PatchOne(tokens[k], lexeme, tablePosition))
  }

  /** The state CreateSymbolTable leaves behind: the token table, the symbols and the
      exception it stopped with, if any. */
  datatype Built = Built(tokens: seq<Token>, symbols: seq<Symbol>, error: Option<Error>)

  /** CreateSymbolTable as a function of the token table, the symbols already present
      and the identifiers. */
  function BuildTable(tokens: seq<Token>, symbols: seq<Symbol>, identifiers: seq<Token>): Built
    decreases |identifiers|
  {
    if identifiers == [] then Built(tokens, symbols, None)
    else
      var token := identifiers[0];
      match DefaultValueOf(token)
      case Failure(_) => Built(tokens, symbols, Some(NotAValidType(token.lexeme, token.line)))
      case Success(value) =>
        BuildTable(Patched(tokens, token.lexeme, |symbols|),
                   symbols + [Symbol(token.lexeme, token.id, value)], identifiers[1..])
  }

  /** The position of the first identifier without a default value (or the length). */
  function FirstUntyped(identifiers: seq<Token>): (f: nat)
    ensures f <= |identifiers|
    ensures forall k | 0 <= k < f :: DefaultValueOf(identifiers[k]).Success?
    ensures f < |identifiers| ==> DefaultValueOf(identifiers[f]).Failure?
  {
    if identifiers == [] || DefaultValueOf(identifiers[0]).Failure? then 0
    else 1 + FirstUntyped(identifiers[1..])
  }

  /** The symbol row CreateSymbolTable makes for a typed identifier. */
  function RowFor(token: Token): Symbol
    requires DefaultValueOf(token).Success?
  {
    Symbol(token.lexeme, token.id, DefaultValueOf(token).value)
  }

  /** Symbols[base + k] is the row of the k-th identifier, in order, up to the first
      identifier of an invalid kind, which raises "is not a valid type" before any
      symbol is added for it. */
  lemma {:induction false} BuildTableSymbols(tokens: seq<Token>, symbols: seq<Symbol>, identifiers: seq<Token>)
    decreases |identifiers|
    ensures var b, f := BuildTable(tokens, symbols, identifiers), FirstUntyped(identifiers);
            && |b.symbols| == |symbols| + f
            && b.symbols[..|symbols|] == symbols
            && (forall k | 0 <= k < f :: b.symbols[|symbols| + k] == RowFor(identifiers[k]))
            && b.error == (if f < |identifiers| then Some(NotAValidType(identifiers[f].lexeme, identifiers[f].line)) else None)
  {
    if identifiers != [] && DefaultValueOf(identifiers[0]).Success? {
      var token := identifiers[0];
      var symbols' := symbols + [RowFor(token)];
      BuildTableSymbols(Patched(tokens, token.lexeme, |symbols|), symbols', identifiers[1..]);
      var b := BuildTable(tokens, symbols, identifiers);
      forall k | 1 <= k < FirstUntyped(identifiers) ensures b.symbols[|symbols| + k] == RowFor(identifiers[k]) {
        assert identifiers[1..][k - 1] == identifiers[k];
      }
      assert b.symbols[..|symbols'|][..|symbols|] == symbols;
    }
  }

  /** Back-patching: every token of the table whose lexeme equals that of a processed
      identifier gets that identifier's symbol position (the last such identifier's, if
      the lexeme was declared twice); the lexeme, kind and line of every token, and the
      position of every other token, are unchanged. */
  lemma {:induction false} BuildTablePatches(tokens: seq<Token>, symbols: seq<Symbol>, identifiers: seq<Token>)
    decreases |identifiers|
    ensures var b, f := BuildTable(tokens, symbols, identifiers), FirstUntyped(identifiers);
            && |b.tokens| == |tokens|
            && forall p | 0 <= p < |tokens| ::
                 var k := LastIndexOf(identifiers[..f], tokens[p].lexeme);
                 && b.tokens[p].lexeme == tokens[p].lexeme
                 && b.tokens[p].id == tokens[p].id
                 && b.tokens[p].line == tokens[p].line
                 && b.tokens[p].tablePosition == (if k >= 0 then |symbols| + k else tokens[p].tablePosition)
  {
    var f := FirstUntyped(identifiers);
    if identifiers != [] && DefaultValueOf(identifiers[0]).Success? {
      var token := identifiers[0];
      var tokens' := Patched(tokens, token.lexeme, |symbols|);
      var symbols' := symbols + [RowFor(token)];
      var rest := identifiers[1..];
      BuildTablePatches(tokens', symbols', rest);
      assert FirstUntyped(rest) == f - 1;
      assert identifiers[..f] == [token] + rest[..f - 1];
      forall p | 0 <= p < |tokens|
        ensures LastIndexOf(identifiers[..f], tokens[p].lexeme) ==
                  var k' := LastIndexOf(rest[..f - 1], tokens[p].lexeme);
                  if k' >= 0 then k' + 1 else if token.lexeme == tokens[p].lexeme then 0 else -1
      {
        LastIndexOfCons(token, rest[..f - 1], tokens[p].lexeme);
      }
    } else {
      assert identifiers[..f] == [];
    }
  }

  lemma {:induction false} LastIndexOfCons(t: Token, ids: seq<Token>, lexeme: string)
    ensures LastIndexOf([t] + ids, lexeme) ==
              if LastIndexOf(ids, lexeme) >= 0 then LastIndexOf(ids, lexeme) + 1
              else if t.lexeme == lexeme then 0 else -1
  {
    var s := [t] + ids;
    var r := LastIndexOf(ids, lexeme);
    assert s[0] == t;
    if r >= 0 {
      assert s[r + 1] == ids[r];
      assert forall k | r + 1 < k < |s| :: s[k] == ids[k - 1];
    } else {
      assert forall k | 1 <= k < |s| :: s[k] == ids[k - 1];
    }
  }

  /** After a run over duplicate-free, correctly typed identifiers starting from an empty
      table there is one symbol per identifier, and symbol names are pairwise distinct. */
  lemma {:induction false} SymbolTableOfDistinctIdentifiers(tokens: seq<Token>, identifiers: seq<Token>)
    requires Distinct(identifiers)
    requires BuildTable(tokens, [], identifiers).error.None?
    ensures |BuildTable(tokens, [], identifiers).symbols| == |identifiers|
    ensures var s := BuildTable(tokens, [], identifiers).symbols;
            forall a, b | 0 <= a < b < |s| :: s[a].id != s[b].id
  {
    BuildTableSymbols(tokens, [], identifiers);
    var b := BuildTable(tokens, [], identifiers);
    var s := b.symbols;
    var f := FirstUntyped(identifiers);
    assert f == |identifiers|;
    var none: seq<Symbol> := [];
    forall a, c | 0 <= a < c < |s| ensures s[a].id != s[c].id {
      assert s[|none| + a] == RowFor(identifiers[a]);
      assert s[|none| + c] == RowFor(identifiers[c]);
    }
  }

  /** The kinds CheckSymbolUsage examines: the four typed identifiers (not -55). */
  predicate IsTypedIdentifier(id: int)
  {
    id == IntIdentifier || id == RealIdentifier || id == StringIdentifier || id == LogicIdentifier
  }

  /** `Symbols.Any(symbol => token.Lexeme == symbol.Id)`. */
  function IsSymbol(symbols: seq<Symbol>, token: Token): (r: bool)
    ensures r <==> exists k | 0 <= k < |symbols| :: symbols[k].id == token.lexeme
  {
    if symbols == [] then false
    else symbols[0].id == token.lexeme || IsSymbol(symbols[1..], token)
  }

  /** `Symbols.First(s => s.Id == lexeme)`: the earliest symbol with that name. */
  function FirstSymbol(symbols: seq<Symbol>, lexeme: string): (s: Symbol)
    requires exists k | 0 <= k < |symbols| :: symbols[k].id == lexeme
    ensures exists k | 0 <= k < |symbols| :: symbols[k] == s
                && s.id == lexeme && forall j | 0 <= j < k :: symbols[j].id != lexeme
  {
    if symbols[0].id == lexeme then symbols[0]
    else
      var s := FirstSymbol(symbols[1..], lexeme);
      assert forall j | 0 < j < |symbols| :: symbols[j] == symbols[1..][j - 1];
      s
  }

  /** The token's kind is the kind of the first symbol with its name. */
  function HasCorrectType(symbols: seq<Symbol>, token: Token): (r: bool)
    requires IsSymbol(symbols, token)
    ensures r <==> exists k | 0 <= k < |symbols| ::
                     && symbols[k].id == token.lexeme && symbols[k].token == token.id
                     && forall j | 0 <= j < k :: symbols[j].id != token.lexeme
  {
    var first := FirstSymbol(symbols, token.lexeme);
    assert forall k | 0 <= k < |symbols| && symbols[k].id == token.lexeme &&
                      (forall j | 0 <= j < k :: symbols[j].id != token.lexeme) :: symbols[k] == first;
    token.id == first.token
  }

  /** Kinds HasCorrectAssignment disregards on a line: assignment, comma, semicolon,
      every kind from -43 to -21 and every kind from -76 to -73. */
  predicate IgnoredOnLine(id: int)
  {
    id == AssignmentOperator || id == Comma || id == Semicolon
    || (-43 <= id <= -21) || (-76 <= id <= -73)
  }

  /** The kinds a line may hold besides the ignored ones, per identifier family. */
  predicate Accepts(identifier: int, id: int)
  {
    match identifier
    case -51 => id == IntLiteral || id == IntIdentifier || id == LogicIdentifier
    case -52 => id == RealLiteral || id == RealIdentifier
    case -53 => id == StringLiteral || id == StringIdentifier
    case -54 => id == TrueLiteral || id == FalseLiteral || id == LogicIdentifier || id == LogicKeyword
                || id == IntLiteral || id == IntIdentifier
    case _ => false
  }

  /** Every token of `tokens` on `line` is ignored or accepted for the identifier kind. */
  function AllOnLineAccepted(tokens: seq<Token>, line: int, identifier: int): (r: bool)
    ensures r <==> forall k | 0 <= k < |tokens| && tokens[k].line == line && !IgnoredOnLine(tokens[k].id) ::
                     Accepts(identifier, tokens[k].id)
  {
    if tokens == [] then true
    else
      var t := tokens[0];
      assert forall k | 0 < k < |tokens| :: tokens[k] == tokens[1..][k - 1];
      (t.line != line || IgnoredOnLine(t.id) || Accepts(identifier, t.id))
      && AllOnLineAccepted(tokens[1..], line, identifier)
  }

  /** The line-level check: only typed identifiers pass, and only when every other
      non-ignored token of the whole table on their line is of an accepted kind. */
  function HasCorrectAssignment(tokens: seq<Token>, token: Token): (r: bool)
    ensures r <==> IsTypedIdentifier(token.id)
                   && forall k | 0 <= k < |tokens| && tokens[k].line == token.line && !IgnoredOnLine(tokens[k].id) ::
                        Accepts(token.id, tokens[k].id)
  {
    match token.id
    case -51 => AllOnLineAccepted(tokens, token.line, IntIdentifier)
    case -52 => AllOnLineAccepted(tokens, token.line, RealIdentifier)
    case -53 => AllOnLineAccepted(tokens, token.line, StringIdentifier)
    case -54 => AllOnLineAccepted(tokens, token.line, LogicIdentifier)
    case _ => false
  }

  /** The three checks on one body identifier, in the order they are made. */
  function UsageError(symbols: seq<Symbol>, tokens: seq<Token>, token: Token): Option<Error>
  {
    if !IsSymbol(symbols, token) then Some(NotDefined(token.lexeme, token.line))
    else if !HasCorrectType(symbols, token) then Some(DefinedWithAnotherType(token.lexeme, token.line))
    else if !HasCorrectAssignment(tokens, token) then Some(TypeMismatch(token.lexeme, token.line))
    else None
  }

  /** The usage check over the body: it passes when every typed identifier of the body
      passes the three checks, and otherwise raises the error of the first one that fails. */
  function CheckSymbolUsage(symbols: seq<Symbol>, tokens: seq<Token>, body: seq<Token>): (r: Option<Error>)
    ensures r.None? <==>
              forall i | 0 <= i < |body| && IsTypedIdentifier(body[i].id) :: UsageError(symbols, tokens, body[i]).None?
    ensures r.Some? ==>
              exists i | 0 <= i < |body| ::
                && IsTypedIdentifier(body[i].id)
                && UsageError(symbols, tokens, body[i]) == r
                && forall k | 0 <= k < i && IsTypedIdentifier(body[k].id) :: UsageError(symbols, tokens, body[k]).None?
  {
    if body == [] then None
    else
      var rest := CheckSymbolUsage(symbols, tokens, body[1..]);
      assert forall k | 0 < k < |body| :: body[k] == body[1..][k - 1];
      if IsTypedIdentifier(body[0].id) && UsageError(symbols, tokens, body[0]).Some? then
        UsageError(symbols, tokens, body[0])
      else
        rest
  }

  /** An int-typed identifier on a line holding a string literal fails the line check,
      and so does any identifier on a line holding a read or write keyword. */
  lemma {:induction false} ForeignKindsOnLineReject(tokens: seq<Token>, token: Token, k: int)
    requires 0 <= k < |tokens| && tokens[k].line == token.line
    ensures tokens[k].id == StringLiteral && token.id == IntIdentifier ==> !HasCorrectAssignment(tokens, token)
    ensures tokens[k].id in {ReadFunction, WriteFunction} ==> !HasCorrectAssignment(tokens, token)
  {
  }

  /** Logical identifiers also accept integer literals and identifiers, and integer
      identifiers accept logical identifiers. */
  lemma {:induction false} MixedIntegerLogic(line: int, x: string, y: string)
    ensures HasCorrectAssignment([Token(x, LogicIdentifier, 0, line), Token(":=", AssignmentOperator, -1, line),
                                  Token("1", IntLiteral, -1, line), Token(";", Semicolon, -1, line)],
                                 Token(x, LogicIdentifier, 0, line))
    ensures HasCorrectAssignment([Token(x, IntIdentifier, 0, line), Token(":=", AssignmentOperator, -1, line),
                                  Token(y, LogicIdentifier, 1, line), Token(";", Semicolon, -1, line)],
                                 Token(x, IntIdentifier, 0, line))
  {
  }

  class Analyzer {
    /** The full token table (`_tokens`); its elements are patched in place. */
    const tokens: array<Token>
    /** The symbol table (`Symbols`). */
    var symbols: seq<Symbol>

    constructor (tokens: array<Token>)
      ensures this.tokens == tokens && symbols == []
    {
      this.tokens := tokens;
      symbols := [];
    }

    /** Gives every token of the table whose lexeme matches the new table position. */
    method UpdateTokenInTable(token: Token, tablePosition: int)
      modifies tokens
      ensures tokens[..] == Patched(old(tokens[..]), token.lexeme, tablePosition)
    {
      var k := 0;
      while k < tokens.Length
        invariant 0 <= k <= tokens.Length
        invariant forall j | 0 <= j < k :: tokens[j] == PatchOne(old(tokens[j]), token.lexeme, tablePosition)
        invariant forall j | k <= j < tokens.Length :: tokens[j] == old(tokens[j])
      {
        if tokens[k].lexeme == token.lexeme {
          tokens[k] := tokens[k].(tablePosition := tablePosition);
        }
        k := k + 1;
      }
    }

    /** Appends one symbol per identifier and back-patches the token table, stopping with
        "is not a valid type" at the first identifier without a default value. */
    method CreateSymbolTable(identifiers: seq<Token>) returns (error: Option<Error>)
      modifies this, tokens
      ensures Built(tokens[..], symbols, error) == BuildTable(old(tokens[..]), old(symbols), identifiers)
    {
      var i := 0;
      while i < |identifiers|
        invariant 0 <= i <= |identifiers|
        invariant BuildTable(tokens[..], symbols, identifiers[i..]) == BuildTable(old(tokens[..]), old(symbols), identifiers)
      {
        var token := identifiers[i];
        var value := DefaultValueOf(token);
        if value.Failure? {
          return Some(NotAValidType(token.lexeme, token.line));
        }
        UpdateTokenInTable(token, |symbols|);
        symbols := symbols + [Symbol(token.lexeme, token.id, value.value)];
        assert identifiers[i..][1..] == identifiers[i + 1..];
        i := i + 1;
      }
      return None;
    }

    /** The analysis pipeline (file output aside): slice the declarations, extract the
        identifiers, reject duplicates, build the symbol table, then check the body. */
    method PerformFullAnalysis() returns (error: Option<Error>)
      modifies this, tokens
      ensures Filter.GetVarTokens(old(tokens[..])).Failure? ==>
                && error == Some(Filter.GetVarTokens(old(tokens[..])).error)
                && symbols == old(symbols) && tokens[..] == old(tokens[..])
      ensures Filter.GetVarTokens(old(tokens[..])).Success? &&
              !Distinct(GetIdentifierTokens(Filter.GetVarTokens(old(tokens[..])).value)) ==>
                && error == Some(CheckForRepeatedIdentifiers(GetIdentifierTokens(Filter.GetVarTokens(old(tokens[..])).value)).error)
                && symbols == old(symbols) && tokens[..] == old(tokens[..])
      ensures Filter.GetVarTokens(old(tokens[..])).Success? &&
              Distinct(GetIdentifierTokens(Filter.GetVarTokens(old(tokens[..])).value)) ==>
                var built := BuildTable(old(tokens[..]), old(symbols), GetIdentifierTokens(Filter.GetVarTokens(old(tokens[..])).value));
                && symbols == built.symbols && tokens[..] == built.tokens
                && (built.error.Some? ==> error == built.error)
                && (built.error.None? ==>
                      error == match Filter.GetBodyTokens(built.tokens)
                               case Failure(e) => Some(e)
                               case Success(body) => CheckSymbolUsage(built.symbols, built.tokens, body))
      ensures error.None? ==>
                && Filter.GetVarTokens(old(tokens[..])).Success?
                && var ids := GetIdentifierTokens(Filter.GetVarTokens(old(tokens[..])).value);
                && Distinct(ids)
                && symbols == BuildTable(old(tokens[..]), old(symbols), ids).symbols
                && tokens[..] == BuildTable(old(tokens[..]), old(symbols), ids).tokens
                && Filter.GetBodyTokens(tokens[..]).Success?
                && CheckSymbolUsage(symbols, tokens[..], Filter.GetBodyTokens(tokens[..]).value).None?
      ensures old(symbols) == [] && error.None? ==>
                forall a, b | 0 <= a < b < |symbols| :: symbols[a].id != symbols[b].id
    {
      var varTokens := Filter.GetVarTokens(tokens[..]);
      if varTokens.Failure? {
        return Some(varTokens.error);
      }
      var identifiers := GetIdentifierTokens(varTokens.value);
      var repeated := CheckForRepeatedIdentifiers(identifiers);
      if repeated.Failure? {
        return Some(repeated.error);
      }
      ghost var before := tokens[..];
      error := CreateSymbolTable(identifiers);
      if error.Some? {
        return;
      }
      if old(symbols) == [] {
        SymbolTableOfDistinctIdentifiers(before, identifiers);
      }
      var body := Filter.GetBodyTokens(tokens[..]);
      if body.Failure? {
        return Some(body.error);
      }
      error := CheckSymbolUsage(symbols, tokens[..], body.value);
    }
  }
}
