/**
 * The two earlier semantic analyzers: SemanticAnalyzer/Analyzer.cs and
 * SemanticAnalyzer/SemanticAnalyzer.cs. Both hold tokens as values (C# structs) in a
 * list, so a table position is patched by writing one list cell, and only the first
 * token carrying the lexeme is patched. Neither throws on a duplicate or an untyped
 * identifier: they report it (an `OnError` event, or a red console line) and go on,
 * so reports are collected in a list of `Report` values.
 *
 * Both slice the declarations with `GetRange(varIndex, beginIndex)`, which takes the
 * begin index as a COUNT: the slice starts at `var` and reaches `varIndex - 1` tokens
 * past `begin`.
 */
module LegacyAnalysis {
  import opened Wrappers
  import opened Tokens
  import opened Grouping
  import Lang
  import Filter
  import Current = Analyzer

  /** What the two analyzers report without stopping. */
  datatype Report =
    | Repeated(identifier: string, line: int)   // "Identifier x is already defined in line n"
    | InvalidToken(token: Token)                // "Invalid token: [t]" (Analyzer.cs)
    | MismatchedType                            // "Error: Type mismatch" (SemanticAnalyzer.cs)

  /** The two analyzers differ in their default values and in what they report. */
  datatype Dialect = AnalyzerDialect | SemanticAnalyzerDialect

  /** GetDefaultValueForToken: the default value of an identifier and the report it
      raises. The four typed identifiers get the current vocabulary's defaults, except
      that SemanticAnalyzer.cs gives strings two quote characters; any other kind gets
      "" with an "invalid token" report (Analyzer.cs) or "-1", the value PrintError
      returns, with a "type mismatch" report (SemanticAnalyzer.cs). */
  function DefaultFor(dialect: Dialect, token: Token): (r: (string, Option<Report>))
    ensures Lang.DefaultValueOf(token).Success? <==> r.1.None?
    ensures Lang.DefaultValueOf(token).Success? && (dialect == AnalyzerDialect || token.id != Lang.StringIdentifier) ==>
              r.0 == Lang.DefaultValueOf(token).value
    ensures dialect == SemanticAnalyzerDialect && token.id == Lang.StringIdentifier ==> r.0 == "\"\""
    ensures dialect == AnalyzerDialect && r.1.Some? ==> r == ("", Some(InvalidToken(token)))
    ensures dialect == SemanticAnalyzerDialect && r.1.Some? ==> r == ("-1", Some(MismatchedType))
  {
    match token.id
    case -51 => ("0", None)
    case -52 => ("0.0", None)
    case -53 => (if dialect == AnalyzerDialect then "null" else "\"\"", None)
    case -54 => ("false", None)
    case _ => if dialect == AnalyzerDialect then ("", Some(InvalidToken(token))) else ("-1", Some(MismatchedType))
  }

  /** `GetRange(index, count)` filtered on table position -2. GetRange rejects a
      negative index or count, and a range that runs past the end. */
  function RangeIdentifiers(tokens: seq<Token>, index: int, count: int): (r: Result<seq<Token>, Error>)
    ensures r.Success? <==> 0 <= index && 0 <= count && index + count <= |tokens|
    ensures r.Failure? ==> r.error == if index < 0 || count < 0 then ArgumentOutOfRange else InvalidRange
  {
    if index < 0 || count < 0 then Failure(ArgumentOutOfRange)
    else if index + count > |tokens| then Failure(InvalidRange)
    else Success(Current.GetIdentifierTokens(tokens[index..index + count]))
  }

  /** GetIdentifierTokens: the range from the first `var`, as long as the index of the
      first `begin`. */
  function IdentifierTokens(tokens: seq<Token>): Result<seq<Token>, Error>
  {
    RangeIdentifiers(tokens, Filter.FindIndex(tokens, Lang.VarKeyword), Filter.FindIndex(tokens, Lang.BeginKeyword))
  }

  /** With `var` at `v` before `begin` at `b`, the range holds `var`, the declarations
      (`tokens[v + 1..b]`, the region Filter.GetVarTokens cuts out) and the `v` tokens
      from `begin` on: the identifiers are those among `var` itself, the declarations,
      and, unless `var` is the first token, the first `v` tokens from `begin` on. */
  lemma {:induction false} RangeOverDeclarations(tokens: seq<Token>, v: int, b: int)
    requires 0 <= v < b && v + b <= |tokens|
    ensures RangeIdentifiers(tokens, v, b) ==
              Success(Current.GetIdentifierTokens([tokens[v]]) + Current.GetIdentifierTokens(tokens[v + 1..b])
                      + Current.GetIdentifierTokens(tokens[b..v + b]))
  {
    var head, decls, tail := tokens[v..v + 1], tokens[v + 1..b], tokens[b..v + b];
    assert head == [tokens[v]];
    assert tokens[v..v + b] == head + decls + tail;
    Current.GetIdentifierTokensKeepsOrder(head + decls, tail);
    Current.GetIdentifierTokensKeepsOrder(head, decls);
  }

  /** `Find(token => token.Lexeme == x).Line`: the line of the first identifier with the
      lexeme, or 0 (the line of a default struct) when there is none. */
  function FirstLine(ids: seq<Token>, lexeme: string): int
  {
    var i := FirstIndexOf(ids, lexeme);
    if i >= 0 then ids[i].line else 0
  }

  /** The reports of the loop over `keys`: one per key, citing its first line. */
  function ReportsFor(ids: seq<Token>, keys: seq<string>): seq<Report>
  {
    if keys == [] then [] else [Repeated(keys[0], FirstLine(ids, keys[0]))] + ReportsFor(ids, keys[1..])
  }

  /** One report per repeated lexeme, in GroupBy order. */
  function DuplicateReports(ids: seq<Token>): seq<Report>
  {
    ReportsFor(ids, RepeatedKeys(ids))
  }

  /** The k-th report names the k-th key and cites the line of its first occurrence. */
  lemma {:induction false} ReportsForAt(ids: seq<Token>, keys: seq<string>)
    ensures |ReportsFor(ids, keys)| == |keys|
    ensures forall k | 0 <= k < |keys| :: ReportsFor(ids, keys)[k] == Repeated(keys[k], FirstLine(ids, keys[k]))
  {
    if keys != [] {
      ReportsForAt(ids, keys[1..]);
    }
  }

  /** Reports over exactly the repeated keys, listed in order of first appearance. */
  lemma {:induction false} ReportsForKeys(ids: seq<Token>, keys: seq<string>)
    requires forall x :: x in keys <==> Occurrences(ids, x) > 1
    requires InFirstAppearanceOrder(keys, ids)
    ensures var r := ReportsFor(ids, keys);
            && |r| == |keys|
            && (forall k | 0 <= k < |r| :: r[k].Repeated?)
            && (forall x :: (exists k | 0 <= k < |r| :: r[k].Repeated? && r[k].identifier == x) <==> Occurrences(ids, x) > 1)
            && (forall k | 0 <= k < |r| ::
                  0 <= FirstIndexOf(ids, r[k].identifier) && r[k].line == ids[FirstIndexOf(ids, r[k].identifier)].line)
            && (forall a, b | 0 <= a < b < |r| ::
                  FirstIndexOf(ids, r[a].identifier) < FirstIndexOf(ids, r[b].identifier))
  {
    ReportsForAt(ids, keys);
    var r := ReportsFor(ids, keys);
    forall k | 0 <= k < |keys| ensures FirstIndexOf(ids, keys[k]) >= 0 {
      assert keys[k] in keys;
    }
    forall x ensures (exists k | 0 <= k < |r| :: r[k].Repeated? && r[k].identifier == x) <==> Occurrences(ids, x) > 1 {
      if Occurrences(ids, x) > 1 {
        assert x in keys;
        var k :| 0 <= k < |keys| && keys[k] == x;
        assert r[k].identifier == x;
      }
    }
  }

  /** The duplicate reports: none exactly when the lexemes are distinct; otherwise each
      repeated lexeme exactly once, in order of first appearance, citing the line of its
      first occurrence, and nothing else. */
  lemma {:induction false} DuplicateReportsExact(ids: seq<Token>)
    ensures |DuplicateReports(ids)| == 0 <==> Distinct(ids)
    ensures var r := DuplicateReports(ids);
            && (forall k | 0 <= k < |r| :: r[k].Repeated?)
            && (forall x :: (exists k | 0 <= k < |r| :: r[k].Repeated? && r[k].identifier == x) <==> Occurrences(ids, x) > 1)
            && (forall k | 0 <= k < |r| ::
                  0 <= FirstIndexOf(ids, r[k].identifier) && r[k].line == ids[FirstIndexOf(ids, r[k].identifier)].line)
            && (forall a, b | 0 <= a < b < |r| ::
                  FirstIndexOf(ids, r[a].identifier) < FirstIndexOf(ids, r[b].identifier))
  {
    RepeatedKeysNonEmptyIffNotDistinct(ids);
    ReportsForKeys(ids, RepeatedKeys(ids));
  }

  /** `Tokens[FindIndex(lexeme)]` rewritten with a new table position; the indexer
      throws when no token carries the lexeme. */
  function PatchFirst(tokens: seq<Token>, lexeme: string, tablePosition: int): Result<seq<Token>, Error>
  {
    var index := FirstIndexOf(tokens, lexeme);
    if index < 0 then Failure(ArgumentOutOfRange)
    else Success(tokens[index := tokens[index].(tablePosition := tablePosition)])
  }

  /** The state CreateSymbolTable leaves: token table, symbols, reports and the
      exception it stopped with, if any. */
  datatype Table = Table(tokens: seq<Token>, symbols: seq<Symbol>, reports: seq<Report>, error: Option<Error>)

  /** The symbol row of an identifier: its lexeme, kind and default value. */
  function SymbolFor(dialect: Dialect, token: Token): Symbol
  {
    Symbol(token.lexeme, token.id, DefaultFor(dialect, token).0)
  }

  /** The reports after looking up an identifier's default value. */
  function Noted(dialect: Dialect, reports: seq<Report>, token: Token): seq<Report>
  {
    var report := DefaultFor(dialect, token).1;
    reports + (if report.Some? then [report.value] else [])
  }

  /** The symbol-table loop: for each identifier, its symbol row (reporting an invalid
      kind), the patch of the first token with its lexeme, then the append. */
  function Build(dialect: Dialect, tokens: seq<Token>, symbols: seq<Symbol>, reports: seq<Report>, ids: seq<Token>): Table
    decreases |ids|
  {
    if ids == [] then Table(tokens, symbols, reports, None)
    else
      match PatchFirst(tokens, ids[0].lexeme, |symbols|)
      case Failure(e) => Table(tokens, symbols, Noted(dialect, reports, ids[0]), Some(e))
      case Success(tokens') =>
        Build(dialect, tokens', symbols + [SymbolFor(dialect, ids[0])], Noted(dialect, reports, ids[0]), ids[1..])
  }

  /** Tables with the same lexemes at the same positions find the same first match. */
  lemma {:induction false} FirstIndexOfSameLexemes(a: seq<Token>, b: seq<Token>, lexeme: string)
    requires |a| == |b| && forall k | 0 <= k < |a| :: a[k].lexeme == b[k].lexeme
    ensures FirstIndexOf(a, lexeme) == FirstIndexOf(b, lexeme)
    decreases |a|
  {
    if a != [] && a[0].lexeme != lexeme {
      FirstIndexOfSameLexemes(a[1..], b[1..], lexeme);
    }
  }

  /** A patch changes the table position of the first token with the lexeme and nothing
      else, so every first match stays where it was. */
  lemma {:induction false} PatchFirstChangesOnePosition(tokens: seq<Token>, lexeme: string, tablePosition: int)
    requires PatchFirst(tokens, lexeme, tablePosition).Success?
    ensures var t := PatchFirst(tokens, lexeme, tablePosition).value;
            && |t| == |tokens|
            && (forall p | 0 <= p < |t| ::
                  && t[p].lexeme == tokens[p].lexeme && t[p].id == tokens[p].id && t[p].line == tokens[p].line
                  && t[p].tablePosition == if p == FirstIndexOf(tokens, lexeme) then tablePosition else tokens[p].tablePosition)
            && forall x :: FirstIndexOf(t, x) == FirstIndexOf(tokens, x)
  {
    var t := PatchFirst(tokens, lexeme, tablePosition).value;
    forall x ensures FirstIndexOf(t, x) == FirstIndexOf(tokens, x) {
      FirstIndexOfSameLexemes(t, tokens, x);
    }
  }

  /** Every identifier's lexeme is carried by some token of the table. */
  predicate AllDeclared(tokens: seq<Token>, ids: seq<Token>)
  {
    forall k | 0 <= k < |ids| :: FirstIndexOf(tokens, ids[k].lexeme) >= 0
  }

  lemma {:induction false} AllDeclaredCons(tokens: seq<Token>, tokens': seq<Token>, ids: seq<Token>)
    requires ids != []
    requires forall x :: FirstIndexOf(tokens', x) == FirstIndexOf(tokens, x)
    ensures AllDeclared(tokens, ids) <==> FirstIndexOf(tokens, ids[0].lexeme) >= 0 && AllDeclared(tokens', ids[1..])
  {
    if FirstIndexOf(tokens, ids[0].lexeme) >= 0 && AllDeclared(tokens', ids[1..]) {
      forall k | 0 <= k < |ids| ensures FirstIndexOf(tokens, ids[k].lexeme) >= 0 {
        if k > 0 { assert ids[1..][k - 1] == ids[k]; }
      }
    }
  }

  /** The loop stops with ArgumentOutOfRange exactly when some identifier's lexeme is not
      in the token table; the table keeps its length and every earlier report is kept. */
  lemma {:induction false} BuildStops(dialect: Dialect, tokens: seq<Token>, symbols: seq<Symbol>, reports: seq<Report>, ids: seq<Token>)
    decreases |ids|
    ensures var t := Build(dialect, tokens, symbols, reports, ids);
            && (t.error.None? <==> AllDeclared(tokens, ids))
            && (t.error.Some? ==> t.error == Some(ArgumentOutOfRange))
            && |reports| <= |t.reports| && t.reports[..|reports|] == reports
            && |t.tokens| == |tokens|
  {
    if ids != [] {
      var token := ids[0];
      var reports' := Noted(dialect, reports, token);
      var p := PatchFirst(tokens, token.lexeme, |symbols|);
      if p.Success? {
        var tokens' := p.value;
        var symbols' := symbols + [SymbolFor(dialect, token)];
        BuildStops(dialect, tokens', symbols', reports', ids[1..]);
        PatchFirstChangesOnePosition(tokens, token.lexeme, |symbols|);
        AllDeclaredCons(tokens, tokens', ids);
        var t := Build(dialect, tokens', symbols', reports', ids[1..]);
        assert Build(dialect, tokens, symbols, reports, ids) == t;
        assert t.reports[..|reports'|][..|reports|] == reports;
      } else {
        assert !AllDeclared(tokens, ids) by {
          assert FirstIndexOf(tokens, ids[0].lexeme) < 0;
        }
      }
    }
  }

  /** The symbol rows of a complete run: the k-th row past the old ones is the k-th
      identifier's lexeme, kind and default value. */
  lemma {:induction false} BuildSymbols(dialect: Dialect, tokens: seq<Token>, symbols: seq<Symbol>, reports: seq<Report>, ids: seq<Token>)
    decreases |ids|
    requires Build(dialect, tokens, symbols, reports, ids).error.None?
    ensures var t := Build(dialect, tokens, symbols, reports, ids);
            && |t.symbols| == |symbols| + |ids|
            && t.symbols[..|symbols|] == symbols
            && forall k | 0 <= k < |ids| :: t.symbols[|symbols| + k] == SymbolFor(dialect, ids[k])
  {
    if ids != [] {
      var token := ids[0];
      var reports' := Noted(dialect, reports, token);
      var tokens' := PatchFirst(tokens, token.lexeme, |symbols|).value;
      var symbols' := symbols + [SymbolFor(dialect, token)];
      var t := Build(dialect, tokens', symbols', reports', ids[1..]);
      assert Build(dialect, tokens, symbols, reports, ids) == t;
      BuildSymbols(dialect, tokens', symbols', reports', ids[1..]);
      forall k | 1 <= k < |ids| ensures t.symbols[|symbols| + k] == SymbolFor(dialect, ids[k]) {
        assert ids[1..][k - 1] == ids[k];
      }
      assert t.symbols[..|symbols'|][..|symbols|] == symbols;
    }
  }

  /** `after` is `before` back-patched for `ids` from position `base` on: the first token
      carrying the lexeme of an identifier gets `base` plus the position of the last
      identifier with that lexeme; every other token keeps its table position, and every
      token keeps its lexeme, kind and line. */
  predicate PatchedFor(before: seq<Token>, after: seq<Token>, ids: seq<Token>, base: int)
  {
    && |after| == |before|
    && forall p | 0 <= p < |before| ::
         && after[p].lexeme == before[p].lexeme
         && after[p].id == before[p].id
         && after[p].line == before[p].line
         && after[p].tablePosition ==
              (if LastIndexOf(ids, before[p].lexeme) >= 0 && FirstIndexOf(before, before[p].lexeme) == p
               then base + LastIndexOf(ids, before[p].lexeme)
               else before[p].tablePosition)
  }

  /** One patch for `token` followed by the patches for `rest` is the back-patching for
      `[token] + rest`: a later identifier with the same lexeme overwrites the position. */
  lemma {:induction false} PatchThenRest(tokens: seq<Token>, tokens': seq<Token>, t: seq<Token>, ids: seq<Token>, base: int)
    requires ids != [] && FirstIndexOf(tokens, ids[0].lexeme) >= 0
    requires |tokens'| == |tokens|
    requires forall p | 0 <= p < |tokens| ::
               && tokens'[p].lexeme == tokens[p].lexeme && tokens'[p].id == tokens[p].id && tokens'[p].line == tokens[p].line
               && tokens'[p].tablePosition == if p == FirstIndexOf(tokens, ids[0].lexeme) then base else tokens[p].tablePosition
    requires forall x :: FirstIndexOf(tokens', x) == FirstIndexOf(tokens, x)
    requires PatchedFor(tokens', t, ids[1..], base + 1)
    ensures PatchedFor(tokens, t, ids, base)
  {
    forall p | 0 <= p < |tokens|
      ensures t[p].tablePosition ==
                (if LastIndexOf(ids, tokens[p].lexeme) >= 0 && FirstIndexOf(tokens, tokens[p].lexeme) == p
                 then base + LastIndexOf(ids, tokens[p].lexeme)
                 else tokens[p].tablePosition)
    {
      var x := tokens[p].lexeme;
      assert tokens'[p].lexeme == x;
      LastIndexOfHead(ids, x);
    }
  }

  /** The last match in a non-empty list is in its tail, shifted by one, or else the head. */
  lemma {:induction false} LastIndexOfHead(ids: seq<Token>, lexeme: string)
    requires ids != []
    ensures LastIndexOf(ids, lexeme) ==
              if LastIndexOf(ids[1..], lexeme) >= 0 then LastIndexOf(ids[1..], lexeme) + 1
              else if ids[0].lexeme == lexeme then 0 else -1
  {
    Current.LastIndexOfCons(ids[0], ids[1..], lexeme);
    assert ids == [ids[0]] + ids[1..];
  }

  /** Back-patching: a complete run leaves the token table patched for the identifiers
      from the old symbol count on (identifier k of a duplicate-free list gets
      |symbols| + k at the first token carrying its lexeme). */
  lemma {:induction false} BuildPatches(dialect: Dialect, tokens: seq<Token>, symbols: seq<Symbol>, reports: seq<Report>, ids: seq<Token>)
    decreases |ids|
    requires Build(dialect, tokens, symbols, reports, ids).error.None?
    ensures PatchedFor(tokens, Build(dialect, tokens, symbols, reports, ids).tokens, ids, |symbols|)
  {
    var t := Build(dialect, tokens, symbols, reports, ids);
    if ids == [] {
      assert t.tokens == tokens;
    } else {
      var token := ids[0];
      var reports' := Noted(dialect, reports, token);
      var tokens' := PatchFirst(tokens, token.lexeme, |symbols|).value;
      var symbols' := symbols + [SymbolFor(dialect, token)];
      var rest := ids[1..];
      assert t == Build(dialect, tokens', symbols', reports', rest);
      BuildPatches(dialect, tokens', symbols', reports', rest);
      PatchFirstChangesOnePosition(tokens, token.lexeme, |symbols|);
      PatchThenRest(tokens, tokens', t.tokens, ids, |symbols|);
    }
  }

  /** SemanticAnalyzer.cs CreateSymbolTable: on a repeated lexeme, one report per
      repeated lexeme and nothing else; otherwise the symbol-table loop. */
  function CreateChecked(tokens: seq<Token>, symbols: seq<Symbol>, reports: seq<Report>, ids: seq<Token>): Table
  {
    if |RepeatedKeys(ids)| > 0 then Table(tokens, symbols, reports + DuplicateReports(ids), None)
    else Build(SemanticAnalyzerDialect, tokens, symbols, reports, ids)
  }

  /** The built-in duplicate check: with a repeated lexeme no symbol is added and no
      token patched, and exactly the duplicate reports are added; without one, the
      symbol count grows by the identifier count on a complete run, and the new symbol
      names are pairwise distinct. */
  lemma {:induction false} CreateCheckedOutcome(tokens: seq<Token>, symbols: seq<Symbol>, reports: seq<Report>, ids: seq<Token>)
    ensures var t := CreateChecked(tokens, symbols, reports, ids);
            && (!Distinct(ids) ==> t == Table(tokens, symbols, reports + DuplicateReports(ids), None))
            && (Distinct(ids) && t.error.None? ==>
                  && |t.symbols| == |symbols| + |ids|
                  && forall a, b | |symbols| <= a < b < |t.symbols| :: t.symbols[a].id != t.symbols[b].id)
  {
    RepeatedKeysNonEmptyIffNotDistinct(ids);
    if Distinct(ids) {
      BuildStops(SemanticAnalyzerDialect, tokens, symbols, reports, ids);
      var t := CreateChecked(tokens, symbols, reports, ids);
      if t.error.None? {
        BuildSymbols(SemanticAnalyzerDialect, tokens, symbols, reports, ids);
        assert forall k | 0 <= k < |ids| :: t.symbols[|symbols| + k].id == ids[k].lexeme;
        forall a, b | |symbols| <= a < b < |t.symbols| ensures t.symbols[a].id != t.symbols[b].id {
          assert t.symbols[a].id == ids[a - |symbols|].lexeme;
          assert t.symbols[b].id == ids[b - |symbols|].lexeme;
        }
      }
    }
  }

  /** Analyzer.cs: the token table read from the file, the identifiers, the symbols and
      the `OnError` reports. */
  class Analyzer {
    var tokens: seq<Token>
    var identifiers: seq<Token>
    var symbols: seq<Symbol>
    var reports: seq<Report>

    /** A fresh analyzer over a token table already read from its file. */
    constructor (tokens: seq<Token>)
      ensures this.tokens == tokens && identifiers == [] && symbols == [] && reports == []
    {
      this.tokens := tokens;
      identifiers, symbols, reports := [], [], [];
    }

    /** Stores and returns the identifiers of the GetRange slice. */
    method GetIdentifierTokens() returns (r: Result<seq<Token>, Error>)
      modifies this
      ensures r == IdentifierTokens(tokens)
      ensures identifiers == if r.Success? then r.value else old(identifiers)
      ensures tokens == old(tokens) && symbols == old(symbols) && reports == old(reports)
    {
      var varIndex := Filter.FindIndex(tokens, Lang.VarKeyword);
      var beginIndex := Filter.FindIndex(tokens, Lang.BeginKeyword);
      r := RangeIdentifiers(tokens, varIndex, beginIndex);
      if r.Success? {
        identifiers := r.value;
      }
    }

    /** True exactly when some lexeme repeats; reports each repeated lexeme. */
    method CheckForRepeatedIdentifiers() returns (repeated: bool)
      modifies this
      ensures repeated <==> !Distinct(identifiers)
      ensures reports == old(reports) + DuplicateReports(identifiers)
      ensures !repeated ==> reports == old(reports)
      ensures tokens == old(tokens) && identifiers == old(identifiers) && symbols == old(symbols)
    {
      var keys := RepeatedKeys(identifiers);
      RepeatedKeysNonEmptyIffNotDistinct(identifiers);
      if |keys| == 0 {
        return false;
      }
      ReportRepeated(keys);
      return true;
    }

    /** The `foreach` over the repeated lexemes: one report each, with the line of the
        lexeme's first identifier. */
    method ReportRepeated(keys: seq<string>)
      modifies this
      ensures reports == old(reports) + ReportsFor(identifiers, keys)
      ensures tokens == old(tokens) && identifiers == old(identifiers) && symbols == old(symbols)
    {
      var i := 0;
      while i < |keys|
        invariant 0 <= i <= |keys|
        invariant tokens == old(tokens) && identifiers == old(identifiers) && symbols == old(symbols)
        invariant reports + ReportsFor(identifiers, keys[i..]) == old(reports) + ReportsFor(identifiers, keys)
      {
        assert keys[i..][1..] == keys[i + 1..];
        reports := reports + [Repeated(keys[i], FirstLine(identifiers, keys[i]))];
        i := i + 1;
      }
    }

    /** Gives the first token carrying the lexeme the new table position. */
    method UpdateTokenInTable(token: Token, tablePosition: int) returns (error: Option<Error>)
      modifies this
      ensures var p := PatchFirst(old(tokens), token.lexeme, tablePosition);
              && (error.None? <==> p.Success?)
              && (error.Some? ==> error == Some(p.error) && tokens == old(tokens))
              && (error.None? ==> tokens == p.value)
      ensures identifiers == old(identifiers) && symbols == old(symbols) && reports == old(reports)
    {
      var index := FirstIndexOf(tokens, token.lexeme);
      if index < 0 {
        return Some(ArgumentOutOfRange);
      }
      var aux := tokens[index];
      aux := aux.(tablePosition := tablePosition);
      tokens := tokens[index := aux];
      return None;
    }

    method GetDefaultValueForToken(token: Token) returns (value: string)
      modifies this
      ensures var (v, report) := DefaultFor(AnalyzerDialect, token);
              value == v && reports == old(reports) + (if report.Some? then [report.value] else [])
      ensures tokens == old(tokens) && identifiers == old(identifiers) && symbols == old(symbols)
    {
      match token.id
      case -51 => value := "0";
      case -52 => value := "0.0";
      case -53 => value := "null";
      case -54 => value := "false";
      case _ =>
        reports := reports + [InvalidToken(token)];
        value := "";
    }

    /** One symbol per stored identifier, patching the token table as it goes. */
    method CreateSymbolTable() returns (error: Option<Error>)
      modifies this
      ensures Table(tokens, symbols, reports, error) ==
                Build(AnalyzerDialect, old(tokens), old(symbols), old(reports), identifiers)
      ensures identifiers == old(identifiers)
    {
      var i := 0;
      while i < |identifiers|
        invariant 0 <= i <= |identifiers| && identifiers == old(identifiers)
        invariant Build(AnalyzerDialect, tokens, symbols, reports, identifiers[i..]) ==
                    Build(AnalyzerDialect, old(tokens), old(symbols), old(reports), identifiers)
      {
        var token := identifiers[i];
        ghost var reports0 := reports;
        var value := GetDefaultValueForToken(token);
        var symbol := Symbol(token.lexeme, token.id, value);
        assert identifiers[i..][1..] == identifiers[i + 1..];
        assert symbol == SymbolFor(AnalyzerDialect, token) && reports == Noted(AnalyzerDialect, reports0, token);
        error := UpdateTokenInTable(token, |symbols|);
        if error.Some? {
          return;
        }
        symbols := symbols + [symbol];
        i := i + 1;
      }
      return None;
    }

    /** Extract the identifiers, stop on a repeated one, then build the symbol table
        (reading the table from its file aside). */
    method PerformFullAnalysis() returns (error: Option<Error>)
      modifies this
      ensures IdentifierTokens(old(tokens)).Failure? ==>
                error == Some(IdentifierTokens(old(tokens)).error) && symbols == old(symbols) && tokens == old(tokens)
      ensures IdentifierTokens(old(tokens)).Success? ==> identifiers == IdentifierTokens(old(tokens)).value
      ensures IdentifierTokens(old(tokens)).Success? && !Distinct(identifiers) ==>
                && error.None? && symbols == old(symbols) && tokens == old(tokens)
                && reports == old(reports) + DuplicateReports(identifiers)
      ensures IdentifierTokens(old(tokens)).Success? && Distinct(identifiers) ==>
                Table(tokens, symbols, reports, error) ==
                  Build(AnalyzerDialect, old(tokens), old(symbols), old(reports), identifiers)
    {
      var ids := GetIdentifierTokens();
      if ids.Failure? {
        return Some(ids.error);
      }
      var repeated := CheckForRepeatedIdentifiers();
      if repeated {
        return None;
      }
      assert tokens == old(tokens) && symbols == old(symbols) && reports == old(reports);
      error := CreateSymbolTable();
    }
  }

  /** SemanticAnalyzer.cs: the token table, the symbols and the printed errors. */
  class SemanticAnalyzer {
    var allTokens: seq<Token>
    var symbols: seq<Symbol>
    var reports: seq<Report>

    /** A fresh analyzer over a token table already read from its file. */
    constructor (allTokens: seq<Token>)
      ensures this.allTokens == allTokens && symbols == [] && reports == []
    {
      this.allTokens := allTokens;
      symbols, reports := [], [];
    }

    /** The identifiers of the GetRange slice, without storing them. */
    method GetIdentifierTokens() returns (r: Result<seq<Token>, Error>)
      ensures r == IdentifierTokens(allTokens)
    {
      var varIndex := Filter.FindIndex(allTokens, Lang.VarKeyword);
      var beginIndex := Filter.FindIndex(allTokens, Lang.BeginKeyword);
      r := RangeIdentifiers(allTokens, varIndex, beginIndex);
    }

    /** Reports every repeated lexeme and stops, or adds one symbol per identifier. */
    method CreateSymbolTable(identifiers: seq<Token>) returns (error: Option<Error>)
      modifies this
      ensures Table(allTokens, symbols, reports, error) ==
                CreateChecked(old(allTokens), old(symbols), old(reports), identifiers)
    {
      var keys := RepeatedKeys(identifiers);
      if |keys| > 0 {
        ReportRepeated(identifiers, keys);
        return None;
      }
      error := AddSymbols(identifiers);
    }

    /** The loop of CreateSymbolTable once no lexeme repeats. */
    method AddSymbols(identifiers: seq<Token>) returns (error: Option<Error>)
      modifies this
      ensures Table(allTokens, symbols, reports, error) ==
                Build(SemanticAnalyzerDialect, old(allTokens), old(symbols), old(reports), identifiers)
    {
      var i := 0;
      while i < |identifiers|
        invariant 0 <= i <= |identifiers|
        invariant Build(SemanticAnalyzerDialect, allTokens, symbols, reports, identifiers[i..]) ==
                    Build(SemanticAnalyzerDialect, old(allTokens), old(symbols), old(reports), identifiers)
      {
        var token := identifiers[i];
        ghost var reports0 := reports;
        var value := GetDefaultValueForToken(token.id);
        var symbol := Symbol(token.lexeme, token.id, value);
        assert identifiers[i..][1..] == identifiers[i + 1..];
        assert DefaultFor(SemanticAnalyzerDialect, token) == DefaultFor(SemanticAnalyzerDialect, Lang.Tok(token.id));
        assert symbol == SymbolFor(SemanticAnalyzerDialect, token) && reports == Noted(SemanticAnalyzerDialect, reports0, token);
        error := UpdateTokenInTable(token, |symbols|);
        if error.Some? {
          return;
        }
        symbols := symbols + [symbol];
        i := i + 1;
      }
      return None;
    }

    /** The `foreach` over the repeated lexemes: one printed error each, with the line of
        the lexeme's first identifier. */
    method ReportRepeated(identifiers: seq<Token>, keys: seq<string>)
      modifies this
      ensures reports == old(reports) + ReportsFor(identifiers, keys)
      ensures allTokens == old(allTokens) && symbols == old(symbols)
    {
      var j := 0;
      while j < |keys|
        invariant 0 <= j <= |keys|
        invariant allTokens == old(allTokens) && symbols == old(symbols)
        invariant reports + ReportsFor(identifiers, keys[j..]) == old(reports) + ReportsFor(identifiers, keys)
      {
        assert keys[j..][1..] == keys[j + 1..];
        reports := reports + [Repeated(keys[j], FirstLine(identifiers, keys[j]))];
        j := j + 1;
      }
    }

    /** Gives the first token carrying the lexeme the new table position. */
    method UpdateTokenInTable(token: Token, tablePosition: int) returns (error: Option<Error>)
      modifies this
      ensures var p := PatchFirst(old(allTokens), token.lexeme, tablePosition);
              && (error.None? <==> p.Success?)
              && (error.Some? ==> error == Some(p.error) && allTokens == old(allTokens))
              && (error.None? ==> allTokens == p.value)
      ensures symbols == old(symbols) && reports == old(reports)
    {
      var index := FirstIndexOf(allTokens, token.lexeme);
      if index < 0 {
        return Some(ArgumentOutOfRange);
      }
      allTokens := allTokens[index := allTokens[index].(tablePosition := tablePosition)];
      return None;
    }

    method GetDefaultValueForToken(id: int) returns (value: string)
      modifies this
      ensures var (v, report) := DefaultFor(SemanticAnalyzerDialect, Lang.Tok(id));
              value == v && reports == old(reports) + (if report.Some? then [report.value] else [])
      ensures allTokens == old(allTokens) && symbols == old(symbols)
    {
      match id
      case -51 => value := "0";
      case -52 => value := "0.0";
      case -53 => value := "\"\"";
      case -54 => value := "false";
      case _ =>
        reports := reports + [MismatchedType];
        value := "-1";
    }
  }
}
