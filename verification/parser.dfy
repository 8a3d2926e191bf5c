/**
 * The recursive-descent recogniser. It builds no tree: `Parse` only says
 * whether the source is a valid program. The C globals `parser` and `lexer`
 * become a `Parser` object holding a `Lexer`.
 *
 * Every grammar rule returns `completes`. It is false exactly where the C
 * procedure never returns: `primary` meeting a token that is neither an
 * integer, an identifier nor `(` reports the error and then calls
 * `expression`, which descends to `primary` again with nothing consumed and
 * nothing changed, without end.
 */
module RDParser {
  import opened Tokens
  import opened LexSpec
  import opened Lexing
  import opened Diagnostics
  import G = Grammar
  import R = Recovery

  class Parser {
    const lexer: Lexer
    var current: Token
    var previous: Token
    var hadError: bool
    /** What `errorAt` has written to stderr; empty until the first error. */
    var diagnostic: string
    /** The token and message of the first error, which the diagnostic reports. */
    ghost var errTok: Token
    ghost var errMsg: string

    ghost function Pos(): G.Pos
      reads this, lexer
    {
      G.Pos(current, lexer.Cur())
    }

    ghost predicate Valid()
      reads this, lexer
    {
      lexer.Valid() && G.ValidPos(lexer.src, Pos()) && (hadError <==> diagnostic != "") && Reported()
    }

    /** After an error, the diagnostic is the one line `errorAt` wrote for the first error. */
    ghost predicate Reported()
      reads this`hadError, this`diagnostic, this`errTok, this`errMsg
    {
      hadError ==> diagnostic == Diagnostic(errTok.line, errTok.kind, TokenText(lexer.src, errTok), errMsg)
    }

    ghost function Rem(): nat
      reads this, lexer
      requires Valid()
    {
      G.Rem(lexer.src, Pos())
    }

    /**
     * On an error-free start, a rule ends where the grammar says, with no
     * error, or the grammar rejects and the rule reported an error or never
     * returns.
     */
    ghost predicate Follows(r: G.Option<G.Pos>, completes: bool)
      reads this, lexer
    {
      match r
      case Some(q) => completes && !hadError && Pos() == q
      case None => !completes || hadError
    }

    /**
     * The rule ran as `r` says: it halted at `r`'s position with the error
     * flag set exactly when it was set before or the rule reported an error,
     * or it never returns, having reported one.
     */
    ghost predicate Ends(r: R.Run, completes: bool, wasError: bool)
      reads this, lexer
    {
      match r
      case Halt(q, e) => completes && Pos() == q && hadError == (wasError || e)
      case Diverge => !completes && hadError
    }

    /** The zero-initialised global, attached to `lex`. */
    constructor (lex: Lexer)
      ensures lexer == lex && !hadError && diagnostic == ""
    {
      lexer := lex;
      current := Token(Eof, InSource(0), 0, 0);
      previous := Token(Eof, InSource(0), 0, 0);
      hadError := false;
      diagnostic := "";
      errTok := current;
      errMsg := "";
    }

    /** `errorAt`: only the first error is reported; later ones change nothing. */
    method ErrorAt(token: Token, message: string)
      modifies this`hadError, this`diagnostic, this`errTok, this`errMsg
      ensures hadError
      ensures old(hadError) ==> diagnostic == old(diagnostic) && errTok == old(errTok) && errMsg == old(errMsg)
      ensures !old(hadError) ==> errTok == token && errMsg == message
      ensures old(Reported()) ==> Reported()
      ensures !old(hadError) ==>
        diagnostic == Diagnostic(token.line, token.kind, TokenText(lexer.src, token), message)
    {
      if hadError {
        return;
      }
      hadError := true;
      diagnostic := "[line " + NatToString(token.line) + "] Error";
      var location := "";
      if token.kind == Eof {
        location := " at end";
      } else if token.kind != Error {
        location := " at '" + TokenText(lexer.src, token) + "'";
      }
      assert location == Location(token.kind, TokenText(lexer.src, token));
      diagnostic := diagnostic + location;
      diagnostic := diagnostic + ": " + message + "\n";
      errTok, errMsg := token, message;
    }

    /** `error`: report at the previous token. */
    method ReportError(message: string)
      modifies this`hadError, this`diagnostic, this`errTok, this`errMsg
      ensures hadError
      ensures old(hadError) ==> diagnostic == old(diagnostic) && errTok == old(errTok) && errMsg == old(errMsg)
      ensures old(Reported()) ==> Reported()
      ensures !old(hadError) ==>
        diagnostic == Diagnostic(previous.line, previous.kind, TokenText(lexer.src, previous), message)
    {
      ErrorAt(previous, message);
    }

    /** `errorAtCurrent`: report at the lookahead token. */
    method ErrorAtCurrent(message: string)
      modifies this`hadError, this`diagnostic, this`errTok, this`errMsg
      ensures hadError
      ensures old(hadError) ==> diagnostic == old(diagnostic) && errTok == old(errTok) && errMsg == old(errMsg)
      ensures old(Reported()) ==> Reported()
      ensures !old(hadError) ==>
        diagnostic == Diagnostic(current.line, current.kind, TokenText(lexer.src, current), message)
    {
      ErrorAt(current, message);
    }

    /** `check`: whether the lookahead has the kind, which is when `consume` would succeed. */
    predicate Check(kind: TokenType): (b: bool)
      reads this, lexer
      ensures Valid() && kind != Eof ==> (b <==> G.Expect(lexer.src, Pos(), kind).Some?)
    {
      current.kind == kind
    }

    /** `advance`: shift the lookahead into `previous` and scan past ERROR tokens. */
    method Advance()
      requires lexer.Valid()
      modifies this`previous, this`current, lexer
      ensures lexer.Valid()
      ensures previous == old(current)
      ensures Pos() == G.Next(lexer.src, old(Pos()))
    {
      previous := current;
      current := lexer.ScanToken();
      while Check(Error)
        invariant lexer.Valid() && previous == old(current)
        invariant Check(Error) ==> NextToken(lexer.src, lexer.Cur()) == NextToken(lexer.src, old(lexer.Cur()))
        invariant !Check(Error) ==> Scanned(current, lexer.Cur()) == NextToken(lexer.src, old(lexer.Cur()))
        decreases |lexer.src| - lexer.current + (if Check(Error) then 1 else 0)
      {
        current := lexer.ScanToken();
      }
    }

    /** `match`: consume the lookahead iff it has the given kind. */
    method Match(kind: TokenType) returns (matched: bool)
      requires Valid()
      modifies this, lexer
      ensures Valid()
      ensures matched <==> old(current.kind) == kind
      ensures matched ==> Pos() == G.Next(lexer.src, old(Pos())) && previous == old(current)
      ensures Rem() <= old(Rem()) && (matched && kind != Eof ==> Rem() < old(Rem()))
      ensures !matched ==> Pos() == old(Pos()) && previous == old(previous)
      ensures hadError == old(hadError) && diagnostic == old(diagnostic)
    {
      if Check(kind) {
        Advance();
        return true;
      }
      return false;
    }

    /** `match(a) || match(b) || …`: consume the lookahead iff its kind is one of `kinds`. */
    method MatchAny(kinds: set<TokenType>) returns (matched: bool)
      requires Valid()
      modifies this, lexer
      ensures Valid()
      ensures matched <==> old(current.kind) in kinds
      ensures matched ==> Pos() == G.Next(lexer.src, old(Pos())) && previous == old(current)
      ensures !matched ==> Pos() == old(Pos()) && previous == old(previous)
      ensures Rem() <= old(Rem()) && (matched && Eof !in kinds ==> Rem() < old(Rem()))
      ensures hadError == old(hadError) && diagnostic == old(diagnostic)
    {
      if current.kind in kinds {
        Advance();
        return true;
      }
      return false;
    }

    /** `consume`: advance over the expected kind, or report `message` at the lookahead. */
    method Consume(kind: TokenType, message: string)
      requires Valid()
      modifies this, lexer
      ensures Valid()
      ensures old(current.kind) == kind ==>
        Pos() == G.Next(lexer.src, old(Pos())) && previous == old(current) &&
        hadError == old(hadError) && diagnostic == old(diagnostic)
      ensures old(current.kind) != kind ==> Pos() == old(Pos()) && previous == old(previous) && hadError
      ensures Rem() <= old(Rem()) && (old(current.kind) == kind != Eof ==> Rem() < old(Rem()))
      ensures old(current.kind) != kind && old(hadError) ==> diagnostic == old(diagnostic)
      ensures old(current.kind) != kind && !old(hadError) ==>
        diagnostic == Diagnostic(old(current.line), old(current.kind), TokenText(lexer.src, old(current)), message)
    {
      if Check(kind) {
        Advance();
      } else {
        ErrorAtCurrent(message);
      }
    }

    /** `declaration` */
    method Declaration(ghost p: G.Pos) returns (completes: bool)
      requires Valid() && Pos() == p
      modifies this, lexer
      ensures Valid() && Rem() <= G.Rem(lexer.src, p)
      ensures completes ==> Rem() < G.Rem(lexer.src, p)
      ensures old(hadError) ==> hadError
      ensures !completes ==> hadError
      ensures !old(hadError) ==> Follows(G.Declaration(lexer.src, p), completes)
      ensures Ends(R.Declaration(lexer.src, p), completes, old(hadError))
      decreases Rem(), 12
    {
      R.DeclarationAgrees(lexer.src, p);
      var isInt := Match(Int);
      if isInt {
        completes := VarDeclaration(Pos());
      } else {
        completes := Statement(Pos());
      }
    }

    /** `var_declaration`, after `int` */
    method VarDeclaration(ghost p: G.Pos) returns (completes: bool)
      requires Valid() && Pos() == p
      modifies this, lexer
      ensures Valid() && Rem() <= G.Rem(lexer.src, p)
      ensures old(hadError) ==> hadError
      ensures !completes ==> hadError
      ensures !old(hadError) ==> Follows(G.VarDecl(lexer.src, p), completes)
      ensures Ends(R.VarDecl(lexer.src, p), completes, old(hadError))
      decreases Rem(), 10
    {
      R.VarDeclAgrees(lexer.src, p);
      Consume(Identifier, "Expected a valid identifier");
      completes := VarDeclarationRest(Pos());
    }

    /** the rest of `var_declaration`: an optional `= expression`, then `;` */
    method VarDeclarationRest(ghost p: G.Pos) returns (completes: bool)
      requires Valid() && Pos() == p
      modifies this, lexer
      ensures Valid() && Rem() <= G.Rem(lexer.src, p)
      ensures old(hadError) ==> hadError
      ensures !completes ==> hadError
      ensures !old(hadError) ==> Follows(G.VarRest(lexer.src, p), completes)
      ensures Ends(R.VarRest(lexer.src, p), completes, old(hadError))
      decreases Rem(), 9
    {
      R.VarRestAgrees(lexer.src, p);
      var initialised := Match(Equal);
      if initialised {
        assert G.Initialiser(lexer.src, p) == G.Assignment(lexer.src, Pos());
        completes := ExpressionThen(Pos(), Semicolon, "Expected a ; at the end of the declaration");
      } else {
        assert G.VarRest(lexer.src, p) == G.Expect(lexer.src, p, Semicolon);
        Consume(Semicolon, "Expected a ; at the end of the declaration");
        completes := true;
      }
    }

    /** `statement` */
    method Statement(ghost p: G.Pos) returns (completes: bool)
      requires Valid() && Pos() == p
      modifies this, lexer
      ensures Valid() && Rem() <= G.Rem(lexer.src, p)
      ensures completes ==> Rem() < G.Rem(lexer.src, p)
      ensures old(hadError) ==> hadError
      ensures !completes ==> hadError
      ensures !old(hadError) ==> Follows(G.Statement(lexer.src, p), completes)
      ensures Ends(R.Statement(lexer.src, p), completes, old(hadError))
      decreases Rem(), 11
    {
      R.StatementAgrees(lexer.src, p);
      var matched := Match(While);
      if matched {
        completes := WhileStatement(Pos());
        return;
      }
      matched := Match(Print);
      if matched {
        completes := PrintStatement(Pos());
        return;
      }
      matched := Match(If);
      if matched {
        completes := IfStatement(Pos());
        return;
      }
      completes := ExprStatement(Pos());
    }

    /** `expr_statement` */
    method ExprStatement(ghost p: G.Pos) returns (completes: bool)
      requires Valid() && Pos() == p
      modifies this, lexer
      ensures Valid() && Rem() <= G.Rem(lexer.src, p)
      ensures completes ==> Rem() < G.Rem(lexer.src, p)
      ensures old(hadError) ==> hadError
      ensures !completes ==> hadError
      ensures !old(hadError) ==> Follows(G.ExprStmt(lexer.src, p), completes)
      ensures Ends(R.ExprStmt(lexer.src, p), completes, old(hadError))
      decreases Rem(), 9
    {
      R.ExprStmtAgrees(lexer.src, p);
      completes := ExpressionThen(Pos(), Semicolon, "Expected a ; at the end of the expression statement");
    }

    /** `( expression )`, the opening of both `if_statement` and `while_statement` */
    method Condition(ghost p: G.Pos) returns (completes: bool)
      requires Valid() && Pos() == p
      modifies this, lexer
      ensures Valid() && Rem() <= G.Rem(lexer.src, p)
      ensures completes ==> Rem() < G.Rem(lexer.src, p)
      ensures old(hadError) ==> hadError
      ensures !completes ==> hadError
      ensures !old(hadError) ==> Follows(G.Condition(lexer.src, p), completes)
      ensures Ends(R.Condition(lexer.src, p), completes, old(hadError))
      decreases Rem(), 9
    {
      R.ConditionAgrees(lexer.src, p);
      Consume(OpenParen, "Expected opening parenthesis");
      completes := ExpressionThen(Pos(), CloseParen, "Expected closing parenthesis");
    }

    /** `if_statement`, after `if` */
    method IfStatement(ghost p: G.Pos) returns (completes: bool)
      requires Valid() && Pos() == p
      modifies this, lexer
      ensures Valid() && Rem() <= G.Rem(lexer.src, p)
      ensures completes ==> Rem() < G.Rem(lexer.src, p)
      ensures old(hadError) ==> hadError
      ensures !completes ==> hadError
      ensures !old(hadError) ==> Follows(G.IfStmt(lexer.src, p), completes)
      ensures Ends(R.IfStmt(lexer.src, p), completes, old(hadError))
      decreases Rem(), 10
    {
      R.IfStmtAgrees(lexer.src, p);
      completes := Condition(Pos());
      if !completes {
        return;
      }
      ghost var b := Pos();
      ghost var e1 := R.Condition(lexer.src, p).erred;
      assert R.IfStmt(lexer.src, p) == R.IfBody(lexer.src, b, e1);
      completes := Statement(Pos());
      if !completes {
        return;
      }
      ghost var e := Pos();
      assert R.IfStmt(lexer.src, p) == R.ElsePart(lexer.src, e, e1 || R.Statement(lexer.src, b).erred);
      assert !old(hadError) && !hadError ==> G.IfStmt(lexer.src, p) == G.ElsePart(lexer.src, e);
      var hasElse := Match(Else);
      if hasElse {
        completes := Statement(Pos());
      }
    }

    /** `print_statement`, after `print` */
    method PrintStatement(ghost p: G.Pos) returns (completes: bool)
      requires Valid() && Pos() == p
      modifies this, lexer
      ensures Valid() && Rem() <= G.Rem(lexer.src, p)
      ensures completes ==> Rem() < G.Rem(lexer.src, p)
      ensures old(hadError) ==> hadError
      ensures !completes ==> hadError
      ensures !old(hadError) ==> Follows(G.ExprStmt(lexer.src, p), completes)
      ensures Ends(R.ExprStmt(lexer.src, p), completes, old(hadError))
      decreases Rem(), 9
    {
      R.ExprStmtAgrees(lexer.src, p);
      completes := ExpressionThen(Pos(), Semicolon, "Expected a ; at the end of the statement");
    }

    /** `while_statement`, after `while` */
    method WhileStatement(ghost p: G.Pos) returns (completes: bool)
      requires Valid() && Pos() == p
      modifies this, lexer
      ensures Valid() && Rem() <= G.Rem(lexer.src, p)
      ensures completes ==> Rem() < G.Rem(lexer.src, p)
      ensures old(hadError) ==> hadError
      ensures !completes ==> hadError
      ensures !old(hadError) ==> Follows(G.WhileStmt(lexer.src, p), completes)
      ensures Ends(R.WhileStmt(lexer.src, p), completes, old(hadError))
      decreases Rem(), 10
    {
      R.WhileStmtAgrees(lexer.src, p);
      completes := Condition(Pos());
      if !completes {
        return;
      }
      completes := Statement(Pos());
    }

    /** `expression(); consume(kind, message);` — how statements, conditions and parentheses end */
    method ExpressionThen(ghost p: G.Pos, kind: TokenType, message: string) returns (completes: bool)
      requires Valid() && Pos() == p && kind != Eof
      modifies this, lexer
      ensures Valid() && Rem() <= G.Rem(lexer.src, p)
      ensures completes ==> Rem() < G.Rem(lexer.src, p)
      ensures old(hadError) ==> hadError
      ensures !completes ==> hadError
      ensures !old(hadError) ==> Follows(G.Then(lexer.src, G.Assignment(lexer.src, p), kind), completes)
      ensures Ends(R.AndThen(lexer.src, R.Assignment(lexer.src, p), kind), completes, old(hadError))
      decreases Rem(), 8
    {
      R.AssignmentAgrees(lexer.src, p);
      R.AndThenAgrees(lexer.src, R.Assignment(lexer.src, p), kind);
      completes := Expression(Pos());
      if !completes {
        return;
      }
      Consume(kind, message);
    }

    /** `expression` */
    method Expression(ghost p: G.Pos) returns (completes: bool)
      requires Valid() && Pos() == p
      modifies this, lexer
      ensures Valid() && Rem() <= G.Rem(lexer.src, p)
      ensures completes ==> Rem() < G.Rem(lexer.src, p)
      ensures old(hadError) ==> hadError
      ensures !completes ==> hadError
      ensures !old(hadError) ==> Follows(G.Assignment(lexer.src, p), completes)
      ensures Ends(R.Assignment(lexer.src, p), completes, old(hadError))
      decreases Rem(), 7
    {
      R.AssignmentAgrees(lexer.src, p);
      completes := Assignment(Pos());
    }

    /**
     * `assignment`: taken when the raw character right after the
     * identifier's lexeme is `=`; the lexer cursor sits exactly there.
     */
    method Assignment(ghost p: G.Pos) returns (completes: bool)
      requires Valid() && Pos() == p
      modifies this, lexer
      ensures Valid() && Rem() <= G.Rem(lexer.src, p)
      ensures completes ==> Rem() < G.Rem(lexer.src, p)
      ensures old(hadError) ==> hadError
      ensures !completes ==> hadError
      ensures !old(hadError) ==> Follows(G.Assignment(lexer.src, p), completes)
      ensures Ends(R.Assignment(lexer.src, p), completes, old(hadError))
      decreases Rem(), 6
    {
      R.AssignmentAgrees(lexer.src, p);
      if Check(Identifier) && lexer.Peek() == '=' {
        Advance();
        var sawEqual := Match(Equal);
        if sawEqual {
          completes := Assignment(Pos());
        } else {
          completes := true;
        }
      } else {
        completes := Equality(Pos());
      }
    }

    /**
     * `equality`: comparisons joined by `!=` and `==`. The C code calls
     * `comparison()` once and then once per matched operator; here that is
     * one loop in which every round parses an operand and then tries the
     * operators. The other three levels have the same shape.
     */
    method Equality(ghost p: G.Pos) returns (completes: bool)
      requires Valid() && Pos() == p
      modifies this, lexer
      ensures Valid() && Rem() <= G.Rem(lexer.src, p)
      ensures completes ==> Rem() < G.Rem(lexer.src, p)
      ensures old(hadError) ==> hadError
      ensures !completes ==> hadError
      ensures !old(hadError) ==> Follows(G.Binary(lexer.src, 4, p), completes)
      ensures Ends(R.Binary(lexer.src, 4, p), completes, old(hadError))
      decreases Rem(), 5
    {
      R.BinaryAgrees(lexer.src, 4, p);
      ghost var e := false;
      completes := false;
      var more := true;
      while more
        invariant Valid() && Rem() <= G.Rem(lexer.src, p)
        invariant more ==> R.Binary(lexer.src, 4, p) == match R.Operand(lexer.src, 4, Pos())
          case Diverge => R.Diverge
          case Halt(r, e') => R.Tail(lexer.src, 4, r, e || e')
        invariant !more ==> completes && Rem() < G.Rem(lexer.src, p) && R.Binary(lexer.src, 4, p) == R.Halt(Pos(), e)
        invariant hadError == (old(hadError) || e)
        decreases Rem(), more
      {
        ghost var s := Pos();
        completes := Comparison(Pos());
        if !completes {
          return;
        }
        e := e || R.Binary(lexer.src, 3, s).erred;
        more := MatchAny({BangEqual, EqualEqual});
      }
    }

    /** `comparison`: terms joined by `>`, `>=`, `<` and `<=` */
    method Comparison(ghost p: G.Pos) returns (completes: bool)
      requires Valid() && Pos() == p
      modifies this, lexer
      ensures Valid() && Rem() <= G.Rem(lexer.src, p)
      ensures completes ==> Rem() < G.Rem(lexer.src, p)
      ensures old(hadError) ==> hadError
      ensures !completes ==> hadError
      ensures !old(hadError) ==> Follows(G.Binary(lexer.src, 3, p), completes)
      ensures Ends(R.Binary(lexer.src, 3, p), completes, old(hadError))
      decreases Rem(), 4
    {
      R.BinaryAgrees(lexer.src, 3, p);
      ghost var e := false;
      completes := false;
      var more := true;
      while more
        invariant Valid() && Rem() <= G.Rem(lexer.src, p)
        invariant more ==> R.Binary(lexer.src, 3, p) == match R.Operand(lexer.src, 3, Pos())
          case Diverge => R.Diverge
          case Halt(r, e') => R.Tail(lexer.src, 3, r, e || e')
        invariant !more ==> completes && Rem() < G.Rem(lexer.src, p) && R.Binary(lexer.src, 3, p) == R.Halt(Pos(), e)
        invariant hadError == (old(hadError) || e)
        decreases Rem(), more
      {
        ghost var s := Pos();
        completes := Term(Pos());
        if !completes {
          return;
        }
        e := e || R.Binary(lexer.src, 2, s).erred;
        more := MatchAny({Greater, GreaterEqual, Smaller, SmallerEqual});
      }
    }

    /** `term`: factors joined by `-` and `+` */
    method Term(ghost p: G.Pos) returns (completes: bool)
      requires Valid() && Pos() == p
      modifies this, lexer
      ensures Valid() && Rem() <= G.Rem(lexer.src, p)
      ensures completes ==> Rem() < G.Rem(lexer.src, p)
      ensures old(hadError) ==> hadError
      ensures !completes ==> hadError
      ensures !old(hadError) ==> Follows(G.Binary(lexer.src, 2, p), completes)
      ensures Ends(R.Binary(lexer.src, 2, p), completes, old(hadError))
      decreases Rem(), 3
    {
      R.BinaryAgrees(lexer.src, 2, p);
      ghost var e := false;
      completes := false;
      var more := true;
      while more
        invariant Valid() && Rem() <= G.Rem(lexer.src, p)
        invariant more ==> R.Binary(lexer.src, 2, p) == match R.Operand(lexer.src, 2, Pos())
          case Diverge => R.Diverge
          case Halt(r, e') => R.Tail(lexer.src, 2, r, e || e')
        invariant !more ==> completes && Rem() < G.Rem(lexer.src, p) && R.Binary(lexer.src, 2, p) == R.Halt(Pos(), e)
        invariant hadError == (old(hadError) || e)
        decreases Rem(), more
      {
        ghost var s := Pos();
        completes := Factor(Pos());
        if !completes {
          return;
        }
        e := e || R.Binary(lexer.src, 1, s).erred;
        more := MatchAny({Minus, Plus});
      }
    }

    /** `factor`: unaries joined by `/` and `*` */
    method Factor(ghost p: G.Pos) returns (completes: bool)
      requires Valid() && Pos() == p
      modifies this, lexer
      ensures Valid() && Rem() <= G.Rem(lexer.src, p)
      ensures completes ==> Rem() < G.Rem(lexer.src, p)
      ensures old(hadError) ==> hadError
      ensures !completes ==> hadError
      ensures !old(hadError) ==> Follows(G.Binary(lexer.src, 1, p), completes)
      ensures Ends(R.Binary(lexer.src, 1, p), completes, old(hadError))
      decreases Rem(), 2
    {
      R.BinaryAgrees(lexer.src, 1, p);
      ghost var e := false;
      completes := false;
      var more := true;
      while more
        invariant Valid() && Rem() <= G.Rem(lexer.src, p)
        invariant more ==> R.Binary(lexer.src, 1, p) == match R.Operand(lexer.src, 1, Pos())
          case Diverge => R.Diverge
          case Halt(r, e') => R.Tail(lexer.src, 1, r, e || e')
        invariant !more ==> completes && Rem() < G.Rem(lexer.src, p) && R.Binary(lexer.src, 1, p) == R.Halt(Pos(), e)
        invariant hadError == (old(hadError) || e)
        decreases Rem(), more
      {
        ghost var s := Pos();
        completes := Unary(Pos());
        if !completes {
          return;
        }
        e := e || R.Unary(lexer.src, s).erred;
        more := MatchAny({Slash, Star});
      }
    }

    /** `unary`: any number of prefix `-` or `+` */
    method Unary(ghost p: G.Pos) returns (completes: bool)
      requires Valid() && Pos() == p
      modifies this, lexer
      ensures Valid() && Rem() <= G.Rem(lexer.src, p)
      ensures completes ==> Rem() < G.Rem(lexer.src, p)
      ensures old(hadError) ==> hadError
      ensures !completes ==> hadError
      ensures !old(hadError) ==> Follows(G.Unary(lexer.src, p), completes)
      ensures Ends(R.Unary(lexer.src, p), completes, old(hadError))
      decreases Rem(), 1
    {
      R.UnaryAgrees(lexer.src, p);
      var signed := MatchAny({Minus, Plus});
      if signed {
        completes := Unary(Pos());
      } else {
        completes := Primary(Pos());
      }
    }

    /**
     * `primary`, reached only from `unary`, so never on `-` or `+`. On any
     * other token it cannot start, `expression` comes back to it unchanged.
     */
    method Primary(ghost p: G.Pos) returns (completes: bool)
      requires Valid() && Pos() == p
      requires p.tok.kind !in {Minus, Plus}
      modifies this, lexer
      ensures Valid() && Rem() <= G.Rem(lexer.src, p)
      ensures completes ==> Rem() < G.Rem(lexer.src, p)
      ensures old(hadError) ==> hadError
      ensures !completes ==> hadError
      ensures !old(hadError) ==> Follows(G.Primary(lexer.src, p), completes)
      ensures p.tok.kind !in {Integer, Identifier, OpenParen} ==> !completes && Pos() == p
      ensures Ends(R.Primary(lexer.src, p), completes, old(hadError))
      decreases Rem(), 0
    {
      R.PrimaryAgrees(lexer.src, p);
      var matched := MatchAny({Integer, Identifier});
      if matched {
        completes := true;
      } else {
        var opening := Check(OpenParen);
        Consume(OpenParen, "Expected an opening parenthesis");
        completes := opening;
        if completes {
          completes := ExpressionThen(Pos(), CloseParen, "Expected an closing parenthesis");
        }
      }
    }
  }

  /**
   * `parse`: initialise the lexer, prime the lookahead, then parse
   * declarations until EOF or until one of them reported an error. The
   * answer is "valid" exactly when the grammar accepts the source, and the
   * diagnostic is written exactly when it is not. `last` is the lookahead
   * token `parse` stops on.
   */
  method Parse(source: string) returns (outcome: R.ParseOutcome, stderr: string, ghost last: Token)
    ensures outcome == R.Outcome(source, G.Start(source))
    ensures outcome == R.Returned(true) <==> G.Accepts(source)
    ensures outcome == R.Returned(true) <==> stderr == ""
    ensures outcome == R.Returned(true) ==> last.kind == Eof
    ensures stderr == "" || exists t: Token, m: string :: stderr == Diagnostic(t.line, t.kind, TokenText(source, t), m)
  {
    var lex := new Lexer(source);
    var parser := new Parser(lex);
    parser.hadError := false;
    parser.Advance();
    while !parser.Check(Eof)
      invariant fresh(lex) && fresh(parser)
      invariant parser.lexer == lex && lex.src == source
      invariant parser.Valid() && !parser.hadError
      invariant G.Accepts(source) == G.ProgramFrom(source, parser.Pos())
      invariant R.Outcome(source, G.Start(source)) == R.Outcome(source, parser.Pos())
      decreases parser.Rem()
    {
      ghost var before := parser.Pos();
      var completes := parser.Declaration(parser.Pos());
      if !completes {
        assert R.Outcome(source, before) == R.NeverReturns;
        assert parser.diagnostic == Diagnostic(parser.errTok.line, parser.errTok.kind, TokenText(source, parser.errTok), parser.errMsg);
        return R.NeverReturns, parser.diagnostic, parser.current;
      }
      if parser.hadError {
        assert R.Outcome(source, before) == R.Returned(false);
        break;
      }
    }
    assert parser.hadError ==>
      parser.diagnostic == Diagnostic(parser.errTok.line, parser.errTok.kind, TokenText(source, parser.errTok), parser.errMsg);
    return R.Returned(!parser.hadError), parser.diagnostic, parser.current;
  }
}
