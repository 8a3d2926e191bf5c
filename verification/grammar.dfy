/**
 * The grammar the recogniser accepts, as deterministic functions over parse
 * positions. A position is the lookahead token together with the lexer
 * cursor behind it, so that a rule can peek at the raw source exactly where
 * the recogniser does. Each rule answers the position after the text it
 * recognised, or None where the recogniser reports an error.
 */
module Grammar {
  import opened Tokens
  import opened LexSpec

  datatype Option<T> = None | Some(value: T)

  /** The parser's lookahead token and the lexer cursor just past it. */
  datatype Pos = Pos(tok: Token, cur: Cursor)

  /** A position the recogniser can reach: a scanned, non-ERROR token. */
  ghost predicate ValidPos(src: string, p: Pos)
  {
    p.cur.start <= p.cur.current <= |src| &&
    p.tok.kind != Error &&
    p.tok.start == InSource(p.cur.start) &&
    p.tok.length == p.cur.current - p.cur.start &&
    (p.tok.kind == Eof ==> At(src, p.cur.current) == NUL)
  }

  /** Input still to be consumed: characters behind the cursor, plus the lookahead unless it is EOF. */
  function Rem(src: string, p: Pos): nat
    requires p.cur.current <= |src|
  {
    |src| - p.cur.current + (if p.tok.kind == Eof then 0 else 1)
  }

  /** `advance`: the next non-ERROR token. Consuming anything but EOF makes progress. */
  function Next(src: string, p: Pos): (r: Pos)
    requires p.cur.current <= |src|
    ensures ValidPos(src, r)
    ensures ValidPos(src, p) ==> Rem(src, r) <= Rem(src, p)
    ensures ValidPos(src, p) && p.tok.kind != Eof ==> Rem(src, r) < Rem(src, p)
  {
    var s := NextToken(src, p.cur);
    Pos(s.tok, s.next)
  }

  /** The first position: the token `parse` primes the parser with. */
  function Start(src: string): (p: Pos)
    ensures ValidPos(src, p)
  {
    Next(src, Pos(Token(Eof, InSource(0), 0, 1), Cursor(0, 0, 1)))
  }

  /** A rule that succeeds has consumed at least one token. */
  ghost predicate Progress(src: string, p: Pos, r: Option<Pos>)
    requires p.cur.current <= |src|
  {
    r.Some? ==> ValidPos(src, r.value) && Rem(src, r.value) < Rem(src, p)
  }

  /** `consume(k, …)` on the error-free path. */
  function Expect(src: string, p: Pos, k: TokenType): (r: Option<Pos>)
    requires ValidPos(src, p) && k != Eof
    ensures Progress(src, p, r)
    ensures r.Some? <==> p.tok.kind == k
  {
    if p.tok.kind == k then Some(Next(src, p)) else None
  }

  /** Expect `k` after a rule that may have failed. */
  function Then(src: string, o: Option<Pos>, k: TokenType): (r: Option<Pos>)
    requires o.Some? ==> ValidPos(src, o.value)
    requires k != Eof
    ensures r.Some? ==> o.Some? && ValidPos(src, r.value) && Rem(src, r.value) < Rem(src, o.value)
  {
    match o
    case None => None
    case Some(q) => Expect(src, q, k)
  }

  /** primary := INTEGER | IDENTIFIER | "(" expression ")" */
  function Primary(src: string, p: Pos): (r: Option<Pos>)
    requires ValidPos(src, p)
    ensures Progress(src, p, r)
    decreases Rem(src, p), 0
  {
    if p.tok.kind == Integer || p.tok.kind == Identifier then Some(Next(src, p))
    else if p.tok.kind == OpenParen then Then(src, Assignment(src, Next(src, p)), CloseParen)
    else None
  }

  /** unary := ("-" | "+") unary | primary */
  function Unary(src: string, p: Pos): (r: Option<Pos>)
    requires ValidPos(src, p)
    ensures Progress(src, p, r)
    decreases Rem(src, p), 1
  {
    if p.tok.kind == Minus || p.tok.kind == Plus then Unary(src, Next(src, p))
    else Primary(src, p)
  }

  /** The operators of the binary levels: 1 factor, 2 term, 3 comparison, 4 equality. */
  function Ops(n: nat): set<TokenType>
    requires 1 <= n <= 4
  {
    if n == 1 then {Slash, Star}
    else if n == 2 then {Minus, Plus}
    else if n == 3 then {Greater, GreaterEqual, Smaller, SmallerEqual}
    else {BangEqual, EqualEqual}
  }

  /** The operand of level `n`: unary below factor, the next level down otherwise. */
  function Operand(src: string, n: nat, p: Pos): (r: Option<Pos>)
    requires 1 <= n <= 4 && ValidPos(src, p)
    ensures Progress(src, p, r)
    decreases Rem(src, p), 2 * n
  {
    if n == 1 then Unary(src, p) else Binary(src, n - 1, p)
  }

  /** level n := operand (op operand)*  — a left fold over the operators of `Ops(n)`. */
  function Binary(src: string, n: nat, p: Pos): (r: Option<Pos>)
    requires 1 <= n <= 4 && ValidPos(src, p)
    ensures Progress(src, p, r)
    ensures r.Some? ==> r.value.tok.kind !in Ops(n)
    decreases Rem(src, p), 2 * n + 1
  {
    match Operand(src, n, p)
    case None => None
    case Some(q) => BinaryTail(src, n, q)
  }

  /** The `(op operand)*` loop of level `n`; it stops at the first token outside `Ops(n)`. */
  function BinaryTail(src: string, n: nat, q: Pos): (r: Option<Pos>)
    requires 1 <= n <= 4 && ValidPos(src, q)
    ensures r.Some? ==> ValidPos(src, r.value) && Rem(src, r.value) <= Rem(src, q)
    ensures r.Some? ==> r.value.tok.kind !in Ops(n)
    ensures q.tok.kind !in Ops(n) ==> r == Some(q)
    decreases Rem(src, q), 2 * n + 1
  {
    if q.tok.kind in Ops(n) then
      match Operand(src, n, Next(src, q))
      case None => None
      case Some(r) => BinaryTail(src, n, r)
    else Some(q)
  }

  /**
   * expression := assignment
   * assignment := IDENTIFIER "=" assignment | equality
   * The first branch is taken when the character right after the
   * identifier's lexeme is `=`; the `=` token itself is then optional.
   */
  function Assignment(src: string, p: Pos): (r: Option<Pos>)
    requires ValidPos(src, p)
    ensures Progress(src, p, r)
    decreases Rem(src, p), 10
  {
    if p.tok.kind == Identifier && At(src, p.cur.current) == '=' then
      var q := Next(src, p);
      if q.tok.kind == Equal then Assignment(src, Next(src, q)) else Some(q)
    else
      Binary(src, 4, p)
  }

  /** exprStmt := expression ";"   (printStmt after `print` has the same shape) */
  function ExprStmt(src: string, p: Pos): (r: Option<Pos>)
    requires ValidPos(src, p)
    ensures Progress(src, p, r)
    decreases Rem(src, p), 11
  {
    Then(src, Assignment(src, p), Semicolon)
  }

  /** varDecl := IDENTIFIER varRest   (after `int`) */
  function VarDecl(src: string, p: Pos): (r: Option<Pos>)
    requires ValidPos(src, p)
    ensures Progress(src, p, r)
    decreases Rem(src, p), 12
  {
    match Expect(src, p, Identifier)
    case None => None
    case Some(q) => VarRest(src, q)
  }

  /** varRest := initialiser ";"   — what follows the declared identifier */
  function VarRest(src: string, p: Pos): (r: Option<Pos>)
    requires ValidPos(src, p)
    ensures Progress(src, p, r)
    decreases Rem(src, p), 11
  {
    Then(src, Initialiser(src, p), Semicolon)
  }

  /** initialiser := ("=" expression)?   — optional, so it may consume nothing */
  function Initialiser(src: string, p: Pos): (r: Option<Pos>)
    requires ValidPos(src, p)
    ensures r.Some? ==> ValidPos(src, r.value) && Rem(src, r.value) <= Rem(src, p)
    ensures p.tok.kind != Equal ==> r == Some(p)
    decreases Rem(src, p), 10
  {
    if p.tok.kind == Equal then Assignment(src, Next(src, p)) else Some(p)
  }

  /** condition := "(" expression ")"   — the head shared by `if` and `while` */
  function Condition(src: string, p: Pos): (r: Option<Pos>)
    requires ValidPos(src, p)
    ensures Progress(src, p, r)
    ensures r.Some? ==> p.tok.kind == OpenParen
    decreases Rem(src, p), 11
  {
    match Expect(src, p, OpenParen)
    case None => None
    case Some(q) => Then(src, Assignment(src, q), CloseParen)
  }

  /** ifStmt := condition statement elsePart   (after `if`) */
  function IfStmt(src: string, p: Pos): (r: Option<Pos>)
    requires ValidPos(src, p)
    ensures Progress(src, p, r)
    decreases Rem(src, p), 12
  {
    match Condition(src, p)
    case None => None
    case Some(b) =>
      match Statement(src, b)
      case None => None
      case Some(e) => ElsePart(src, e)
  }

  /** elsePart := ("else" statement)?   — optional, so it may consume nothing */
  function ElsePart(src: string, p: Pos): (r: Option<Pos>)
    requires ValidPos(src, p)
    ensures r.Some? ==> ValidPos(src, r.value) && Rem(src, r.value) <= Rem(src, p)
    decreases Rem(src, p), 12
  {
    if p.tok.kind == Else then Statement(src, Next(src, p)) else Some(p)
  }

  /** whileStmt := condition statement   (after `while`) */
  function WhileStmt(src: string, p: Pos): (r: Option<Pos>)
    requires ValidPos(src, p)
    ensures Progress(src, p, r)
    decreases Rem(src, p), 12
  {
    match Condition(src, p)
    case None => None
    case Some(b) => Statement(src, b)
  }

  /** statement := "while" whileStmt | "print" printStmt | "if" ifStmt | exprStmt */
  function Statement(src: string, p: Pos): (r: Option<Pos>)
    requires ValidPos(src, p)
    ensures Progress(src, p, r)
    decreases Rem(src, p), 13
  {
    if p.tok.kind == While then WhileStmt(src, Next(src, p))
    else if p.tok.kind == Print then ExprStmt(src, Next(src, p))
    else if p.tok.kind == If then IfStmt(src, Next(src, p))
    else ExprStmt(src, p)
  }

  /** declaration := "int" varDecl | statement */
  function Declaration(src: string, p: Pos): (r: Option<Pos>)
    requires ValidPos(src, p)
    ensures Progress(src, p, r)
    decreases Rem(src, p), 14
  {
    if p.tok.kind == Int then VarDecl(src, Next(src, p)) else Statement(src, p)
  }

  /**
   * program := declaration* EOF, from position `p`, as the loop
   * `while (!check(EOF)) declaration();` runs it.
   */
  predicate ProgramFrom(src: string, p: Pos): (b: bool)
    requires ValidPos(src, p)
    ensures p.tok.kind == Eof ==> b
    ensures b && p.tok.kind != Eof ==> Declaration(src, p).Some?
    decreases Rem(src, p)
  {
    if p.tok.kind == Eof then true
    else
      match Declaration(src, p)
      case None => false
      case Some(q) => ProgramFrom(src, q)
  }

  /**
   * Where `n` declarations in a row from `p` end, or `None` when one of them
   * fails. A run that stops on EOF is a program.
   */
  function Declarations(src: string, p: Pos, n: nat): (r: Option<Pos>)
    requires ValidPos(src, p)
    ensures r.Some? ==> ValidPos(src, r.value)
    ensures n == 0 ==> r == Some(p)
    ensures r.Some? && r.value.tok.kind == Eof ==> ProgramFrom(src, p)
    decreases n
  {
    if n == 0 then Some(p)
    else
      match Declaration(src, p)
      case None => None
      case Some(q) => Declarations(src, q, n - 1)
  }

  /** `n` declarations from `p` succeed and stop exactly on EOF. */
  predicate EndsOnEof(src: string, p: Pos, n: nat)
    requires ValidPos(src, p)
  {
    var r := Declarations(src, p, n);
    r.Some? && r.value.tok.kind == Eof
  }

  /** One declaration off the front of a count. */
  lemma DeclarationsStep(src: string, p: Pos, q: Pos, n: nat)
    requires ValidPos(src, p) && n > 0 && Declaration(src, p) == Some(q)
    ensures Declarations(src, p, n) == Declarations(src, q, n - 1)
  {
  }

  /** A program from `p` is some count of declarations that stops on EOF. */
  lemma {:induction false} ProgramDeclarationCount(src: string, p: Pos) returns (n: nat)
    requires ValidPos(src, p) && ProgramFrom(src, p)
    ensures EndsOnEof(src, p, n)
    decreases Rem(src, p)
  {
    if p.tok.kind == Eof {
      n := 0;
    } else {
      var q := Declaration(src, p).value;
      ProgramStep(src, p, q);
      var m := ProgramDeclarationCount(src, q);
      n := m + 1;
      DeclarationsStep(src, p, q, n);
    }
  }

  /** program := declaration* EOF, stated against the declarations counted out one by one. */
  lemma ProgramIsDeclarationsThenEof(src: string, p: Pos)
    requires ValidPos(src, p)
    ensures ProgramFrom(src, p) <==> exists n: nat :: EndsOnEof(src, p, n)
  {
    if ProgramFrom(src, p) {
      var n := ProgramDeclarationCount(src, p);
    }
  }

  /** The source is a syntactically valid program: declarations from the first token up to EOF. */
  predicate Accepts(src: string): (b: bool)
    ensures b <==> exists n: nat :: EndsOnEof(src, Start(src), n)
  {
    ProgramIsDeclarationsThenEof(src, Start(src));
    ProgramFrom(src, Start(src))
  }

  /** A source holding nothing but blanks and `//` comments is a valid program. */
  lemma BlankSourceAccepted(src: string)
    requires At(src, SkipWs(src, 0, 1).0) == NUL
    ensures Accepts(src)
  {
    assert Start(src).tok.kind == Eof;
  }

  /** The binary level whose operators include `k`; 5 for a token that is no operator. */
  function Level(k: TokenType): (l: nat)
    ensures 1 <= l <= 5
    ensures forall n | 1 <= n <= 4 :: k in Ops(n) <==> l == n
  {
    if k in Ops(1) then 1 else if k in Ops(2) then 2 else if k in Ops(3) then 3 else if k in Ops(4) then 4 else 5
  }

  /** A lone INTEGER or IDENTIFIER is a whole operand of level `n` when no operator below `n` follows. */
  lemma {:induction false} AtomOperand(src: string, n: nat, p: Pos)
    requires 1 <= n <= 4 && ValidPos(src, p)
    requires p.tok.kind == Integer || p.tok.kind == Identifier
    requires Level(Next(src, p).tok.kind) >= n
    ensures Operand(src, n, p) == Some(Next(src, p))
    decreases n
  {
    if n == 1 {
      assert Unary(src, p) == Primary(src, p);
    } else {
      AtomOperand(src, n - 1, p);
      assert Binary(src, n - 1, p) == BinaryTail(src, n - 1, Next(src, p));
    }
  }

  /** `op b` after an operand of level `n`, with `b` a lone INTEGER or IDENTIFIER, is the whole tail when no operator of level `n` or below follows. */
  lemma AtomTail(src: string, n: nat, op: Pos, b: Pos)
    requires 1 <= n <= 4 && ValidPos(src, op) && op.tok.kind in Ops(n)
    requires Next(src, op) == b && (b.tok.kind == Integer || b.tok.kind == Identifier)
    requires Level(Next(src, b).tok.kind) > n
    ensures BinaryTail(src, n, op) == Some(Next(src, b))
  {
    AtomOperand(src, n, b);
  }

  /** An expression of level `n` that stops before an operator of level `n + 1` is one of level `n + 1`. */
  lemma LiftLevel(src: string, n: nat, p: Pos)
    requires 1 <= n < 4 && ValidPos(src, p)
    requires Binary(src, n, p).Some? && Binary(src, n, p).value.tok.kind !in Ops(n + 1)
    ensures Binary(src, n + 1, p) == Binary(src, n, p)
  {
    assert Operand(src, n + 1, p) == Binary(src, n, p);
  }

  /** An expression of level `n` followed by no operator is a whole expression, unless the peek after an identifier sees `=`. */
  lemma LiftToAssignment(src: string, n: nat, a: Pos, q: Pos)
    requires 1 <= n <= 4 && ValidPos(src, a)
    requires a.tok.kind != Identifier || At(src, a.cur.current) != '='
    requires Binary(src, n, a) == Some(q) && Level(q.tok.kind) == 5
    ensures Assignment(src, a) == Some(q)
  {
    if n == 1 {
      LiftLevel(src, 1, a);
    }
    if n <= 2 {
      LiftLevel(src, 2, a);
    }
    if n <= 3 {
      LiftLevel(src, 3, a);
    }
  }

  /**
   * `a op b`, with `a` and `b` each a lone INTEGER or IDENTIFIER and `op` an
   * operator of level `n`, is one expression of level `n` when no operator
   * follows.
   */
  lemma AtomOpAtom(src: string, n: nat, a: Pos, op: Pos, b: Pos)
    requires 1 <= n <= 4 && ValidPos(src, a)
    requires a.tok.kind == Integer || a.tok.kind == Identifier
    requires Next(src, a) == op && op.tok.kind in Ops(n)
    requires Next(src, op) == b && (b.tok.kind == Integer || b.tok.kind == Identifier)
    requires Level(Next(src, b).tok.kind) == 5
    ensures Binary(src, n, a) == Some(Next(src, b))
  {
    AtomOperand(src, n, a);
    AtomTail(src, n, op, b);
  }

  /**
   * An INTEGER or IDENTIFIER followed by a token that is no operator is a
   * whole expression, unless the raw character after an identifier is `=`.
   */
  lemma AtomIsAssignment(src: string, p: Pos)
    requires ValidPos(src, p)
    requires p.tok.kind == Integer || (p.tok.kind == Identifier && At(src, p.cur.current) != '=')
    requires Level(Next(src, p).tok.kind) == 5
    ensures Assignment(src, p) == Some(Next(src, p))
  {
    AtomOperand(src, 4, p);
  }

  /**
   * An identifier whose next raw character is `=` starts an assignment. A
   * following `=` token is skipped; any other token ends the expression.
   */
  lemma PeekedAssignment(src: string, p: Pos)
    requires ValidPos(src, p) && p.tok.kind == Identifier && At(src, p.cur.current) == '='
    ensures Next(src, p).tok.kind == Equal ==>
      Assignment(src, p) == Assignment(src, Next(src, Next(src, p)))
    ensures Next(src, p).tok.kind != Equal ==> Assignment(src, p) == Some(Next(src, p))
  {
  }

  /** A declaration that starts with no keyword is an expression statement. */
  lemma ExpressionDeclaration(src: string, p: Pos)
    requires ValidPos(src, p) && p.tok.kind !in {Int, While, Print, If}
    ensures Declaration(src, p) == Then(src, Assignment(src, p), Semicolon)
  {
  }

  /** `print e;` */
  lemma PrintStatement(src: string, p: Pos)
    requires ValidPos(src, p) && p.tok.kind == Print
    ensures Statement(src, p) == Then(src, Assignment(src, Next(src, p)), Semicolon)
  {
  }

  /** `( e )` */
  lemma ParenthesisedCondition(src: string, p: Pos, c: Pos)
    requires ValidPos(src, p) && p.tok.kind == OpenParen
    requires Assignment(src, Next(src, p)) == Some(c) && c.tok.kind == CloseParen
    ensures Condition(src, p) == Some(Next(src, c))
  {
  }

  /** `if ( e ) s else s'`: after the condition and the first branch, `else` and the second branch. */
  lemma IfElseDeclaration(src: string, p: Pos, t: Pos, e: Pos)
    requires ValidPos(src, p) && p.tok.kind == If
    requires Condition(src, Next(src, p)) == Some(t) && Statement(src, t) == Some(e)
    requires e.tok.kind == Else
    ensures Declaration(src, p) == Statement(src, Next(src, e))
  {
    assert Statement(src, p) == IfStmt(src, Next(src, p));
    assert IfStmt(src, Next(src, p)) == ElsePart(src, e);
  }

  /** `int x = e;` */
  lemma InitialisedDeclaration(src: string, p: Pos, x: Pos, eq: Pos)
    requires ValidPos(src, p) && p.tok.kind == Int
    requires Next(src, p) == x && x.tok.kind == Identifier
    requires Next(src, x) == eq && eq.tok.kind == Equal
    ensures Declaration(src, p) == Then(src, Assignment(src, Next(src, eq)), Semicolon)
  {
  }

  /** A program continues after each declaration it is made of. */
  lemma ProgramStep(src: string, p: Pos, q: Pos)
    requires ValidPos(src, p) && p.tok.kind != Eof
    requires Declaration(src, p) == Some(q)
    ensures ProgramFrom(src, p) == ProgramFrom(src, q)
  {
  }
}
