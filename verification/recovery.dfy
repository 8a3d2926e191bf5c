/**
 * What the recogniser does on every path, the error path included. A
 * reported error does not stop a rule: `consume` just leaves the lookahead
 * where it is and the rule goes on. Each rule therefore either halts at some
 * position, having reported an error or not, or never returns. The latter
 * happens only in `primary`: on a token that starts no primary it reports,
 * consumes nothing and calls `expression`, which comes back to `primary` in
 * the same state. `parse` stops after the first declaration that reported
 * an error.
 */
module Recovery {
  import opened Tokens
  import opened LexSpec
  import G = Grammar

  /** A rule halts at a position, and says whether it reported an error, or it never returns. */
  datatype Run = Halt(at: G.Pos, erred: bool) | Diverge

  /** What a call of `parse` does: return a verdict, or recurse forever. */
  datatype ParseOutcome = Returned(valid: bool) | NeverReturns

  /** A run that halts ends on a valid position no further back than `p`. */
  ghost predicate Bounded(src: string, p: G.Pos, r: Run)
    requires p.cur.current <= |src|
  {
    r.Halt? ==> G.ValidPos(src, r.at) && G.Rem(src, r.at) <= G.Rem(src, p)
  }

  /** A run that halts has consumed at least one token. */
  ghost predicate Strict(src: string, p: G.Pos, r: Run)
    requires p.cur.current <= |src|
  {
    r.Halt? ==> G.ValidPos(src, r.at) && G.Rem(src, r.at) < G.Rem(src, p)
  }

  /** The error-free reading of a run: where it halts, unless it reported an error or never returns. */
  function Clean(r: Run): (o: G.Option<G.Pos>)
    ensures o.Some? <==> r.Halt? && !r.erred
    ensures o.Some? ==> o.value == r.at
  {
    if r.Halt? && !r.erred then G.Some(r.at) else G.None
  }

  /** `consume(k, …)`: advance over `k`, or report and stay. */
  function Consume(src: string, p: G.Pos, k: TokenType): (r: Run)
    requires G.ValidPos(src, p) && k != Eof
    ensures r.Halt? && Bounded(src, p, r)
    ensures r.erred <==> p.tok.kind != k
  {
    if p.tok.kind == k then Halt(G.Next(src, p), false) else Halt(p, true)
  }

  /** `expression(); consume(k, …)` after the expression ran as `r`. */
  function AndThen(src: string, r: Run, k: TokenType): (s: Run)
    requires r.Halt? ==> G.ValidPos(src, r.at)
    requires k != Eof
    ensures s.Halt? <==> r.Halt?
    ensures s.Halt? ==> G.ValidPos(src, s.at) && G.Rem(src, s.at) <= G.Rem(src, r.at)
    ensures s.Halt? ==> (s.erred <==> r.erred || r.at.tok.kind != k)
  {
    match r
    case Diverge => Diverge
    case Halt(q, e) =>
      var c := Consume(src, q, k);
      Halt(c.at, e || c.erred)
  }

  /** `primary`; reached only from `unary`, so never on `-` or `+`. */
  function Primary(src: string, p: G.Pos): (r: Run)
    requires G.ValidPos(src, p) && p.tok.kind !in {Minus, Plus}
    ensures Strict(src, p, r)
    decreases G.Rem(src, p), 0
  {
    if p.tok.kind == Integer || p.tok.kind == Identifier then Halt(G.Next(src, p), false)
    else if p.tok.kind == OpenParen then AndThen(src, Assignment(src, G.Next(src, p)), CloseParen)
    else Diverge
  }

  /** `unary` */
  function Unary(src: string, p: G.Pos): (r: Run)
    requires G.ValidPos(src, p)
    ensures Strict(src, p, r)
    decreases G.Rem(src, p), 1
  {
    if p.tok.kind == Minus || p.tok.kind == Plus then Unary(src, G.Next(src, p))
    else Primary(src, p)
  }

  /** The operand of level `n`. */
  function Operand(src: string, n: nat, p: G.Pos): (r: Run)
    requires 1 <= n <= 4 && G.ValidPos(src, p)
    ensures Strict(src, p, r)
    decreases G.Rem(src, p), 2 * n
  {
    if n == 1 then Unary(src, p) else Binary(src, n - 1, p)
  }

  /** `factor`, `term`, `comparison`, `equality` for `n` = 1 to 4. */
  function Binary(src: string, n: nat, p: G.Pos): (r: Run)
    requires 1 <= n <= 4 && G.ValidPos(src, p)
    ensures Strict(src, p, r)
    ensures r.Halt? ==> r.at.tok.kind !in G.Ops(n)
    decreases G.Rem(src, p), 2 * n + 1
  {
    match Operand(src, n, p)
    case Diverge => Diverge
    case Halt(q, e) => Tail(src, n, q, e)
  }

  /** The operator loop of level `n` from `q`, where `e` records an error already reported. */
  function Tail(src: string, n: nat, q: G.Pos, e: bool): (r: Run)
    requires 1 <= n <= 4 && G.ValidPos(src, q)
    ensures Bounded(src, q, r)
    ensures r.Halt? ==> r.at.tok.kind !in G.Ops(n) && (e ==> r.erred)
    ensures q.tok.kind !in G.Ops(n) ==> r == Halt(q, e)
    decreases G.Rem(src, q), 2 * n + 1
  {
    if q.tok.kind in G.Ops(n) then
      match Operand(src, n, G.Next(src, q))
      case Diverge => Diverge
      case Halt(r, e') => Tail(src, n, r, e || e')
    else Halt(q, e)
  }

  /** `assignment`, with its raw-character peek after an identifier. */
  function Assignment(src: string, p: G.Pos): (r: Run)
    requires G.ValidPos(src, p)
    ensures Strict(src, p, r)
    decreases G.Rem(src, p), 10
  {
    if p.tok.kind == Identifier && At(src, p.cur.current) == '=' then
      var q := G.Next(src, p);
      if q.tok.kind == Equal then Assignment(src, G.Next(src, q)) else Halt(q, false)
    else
      Binary(src, 4, p)
  }

  /** `expr_statement`, and `print_statement` after `print` */
  function ExprStmt(src: string, p: G.Pos): (r: Run)
    requires G.ValidPos(src, p)
    ensures Strict(src, p, r)
    decreases G.Rem(src, p), 11
  {
    AndThen(src, Assignment(src, p), Semicolon)
  }

  /** `var_declaration`, after `int` */
  function VarDecl(src: string, p: G.Pos): (r: Run)
    requires G.ValidPos(src, p)
    ensures Bounded(src, p, r)
    ensures r.Halt? && p.tok.kind != Identifier ==> r.erred
    decreases G.Rem(src, p), 12
  {
    var c := Consume(src, p, Identifier);
    match VarRest(src, c.at)
    case Diverge => Diverge
    case Halt(q, e) => Halt(q, c.erred || e)
  }

  /** the rest of `var_declaration`: an optional `= expression`, then `;` */
  function VarRest(src: string, p: G.Pos): (r: Run)
    requires G.ValidPos(src, p)
    ensures Bounded(src, p, r)
    decreases G.Rem(src, p), 11
  {
    if p.tok.kind == Equal then AndThen(src, Assignment(src, G.Next(src, p)), Semicolon)
    else Consume(src, p, Semicolon)
  }

  /** `( expression )`, the head of `if_statement` and `while_statement` */
  function Condition(src: string, p: G.Pos): (r: Run)
    requires G.ValidPos(src, p)
    ensures Strict(src, p, r)
    ensures r.Halt? && p.tok.kind != OpenParen ==> r.erred
    decreases G.Rem(src, p), 11
  {
    var c := Consume(src, p, OpenParen);
    match AndThen(src, Assignment(src, c.at), CloseParen)
    case Diverge => Diverge
    case Halt(q, e) => Halt(q, c.erred || e)
  }

  /** `if_statement`, after `if` */
  function IfStmt(src: string, p: G.Pos): (r: Run)
    requires G.ValidPos(src, p)
    ensures Strict(src, p, r)
    decreases G.Rem(src, p), 12
  {
    match Condition(src, p)
    case Diverge => Diverge
    case Halt(b, e) => IfBody(src, b, e)
  }

  /** What follows the condition of an `if`: the statement, then the optional else part. */
  function IfBody(src: string, b: G.Pos, e: bool): (r: Run)
    requires G.ValidPos(src, b)
    ensures Strict(src, b, r)
    ensures r.Halt? && e ==> r.erred
    decreases G.Rem(src, b), 14
  {
    match Statement(src, b)
    case Diverge => Diverge
    case Halt(x, e') => ElsePart(src, x, e || e')
  }

  /** `if (match(ELSE)) statement();` at `x`, where `e` records an error already reported. */
  function ElsePart(src: string, x: G.Pos, e: bool): (r: Run)
    requires G.ValidPos(src, x)
    ensures Bounded(src, x, r)
    ensures r.Halt? && e ==> r.erred
    decreases G.Rem(src, x), 12
  {
    if x.tok.kind == Else then
      match Statement(src, G.Next(src, x))
      case Diverge => Diverge
      case Halt(y, e') => Halt(y, e || e')
    else Halt(x, e)
  }

  /** `while_statement`, after `while` */
  function WhileStmt(src: string, p: G.Pos): (r: Run)
    requires G.ValidPos(src, p)
    ensures Strict(src, p, r)
    decreases G.Rem(src, p), 12
  {
    match Condition(src, p)
    case Diverge => Diverge
    case Halt(b, e1) =>
      match Statement(src, b)
      case Diverge => Diverge
      case Halt(x, e2) => Halt(x, e1 || e2)
  }

  /** `statement` */
  function Statement(src: string, p: G.Pos): (r: Run)
    requires G.ValidPos(src, p)
    ensures Strict(src, p, r)
    decreases G.Rem(src, p), 13
  {
    if p.tok.kind == While then WhileStmt(src, G.Next(src, p))
    else if p.tok.kind == Print then ExprStmt(src, G.Next(src, p))
    else if p.tok.kind == If then IfStmt(src, G.Next(src, p))
    else ExprStmt(src, p)
  }

  /** `declaration` */
  function Declaration(src: string, p: G.Pos): (r: Run)
    requires G.ValidPos(src, p)
    ensures Strict(src, p, r)
    decreases G.Rem(src, p), 14
  {
    if p.tok.kind == Int then VarDecl(src, G.Next(src, p)) else Statement(src, p)
  }

  /**
   * The loop of `parse` from `p`: declarations until EOF, stopping after
   * the first one that reported an error, or never returning with it.
   */
  function Outcome(src: string, p: G.Pos): (o: ParseOutcome)
    requires G.ValidPos(src, p)
    ensures p.tok.kind == Eof ==> o == Returned(true)
    decreases G.Rem(src, p)
  {
    if p.tok.kind == Eof then Returned(true)
    else
      match Declaration(src, p)
      case Diverge => NeverReturns
      case Halt(q, e) => if e then Returned(false) else Outcome(src, q)
  }

  /** On a token that cannot start an operand, every operator level descends to `primary` and never returns. */
  lemma {:induction false} BinaryDiverges(src: string, n: nat, p: G.Pos)
    requires 1 <= n <= 4 && G.ValidPos(src, p)
    requires p.tok.kind !in {Integer, Identifier, OpenParen, Minus, Plus}
    ensures Binary(src, n, p) == Diverge
    decreases n
  {
    if n > 1 {
      BinaryDiverges(src, n - 1, p);
      assert Operand(src, n, p) == Binary(src, n - 1, p);
    } else {
      assert Operand(src, n, p) == Unary(src, p) == Primary(src, p);
    }
  }

  /**
   * A declaration that starts with a token no rule can start with (`;`,
   * `)`, `=`, `else`, an operator other than `-` and `+`) makes `parse`
   * never return.
   */
  lemma StrayTokenNeverReturns(src: string, p: G.Pos)
    requires G.ValidPos(src, p)
    requires p.tok.kind !in {Eof, Int, While, Print, If, Integer, Identifier, OpenParen, Minus, Plus}
    ensures Declaration(src, p) == Diverge
    ensures Outcome(src, p) == NeverReturns
  {
    BinaryDiverges(src, 4, p);
  }

  // On the error-free path each rule halts exactly where the grammar says.

  lemma ConsumeAgrees(src: string, p: G.Pos, k: TokenType)
    requires G.ValidPos(src, p) && k != Eof
    ensures Clean(Consume(src, p, k)) == G.Expect(src, p, k)
  {
  }

  lemma AndThenAgrees(src: string, r: Run, k: TokenType)
    requires r.Halt? ==> G.ValidPos(src, r.at)
    requires k != Eof
    ensures Clean(AndThen(src, r, k)) == G.Then(src, Clean(r), k)
  {
  }

  lemma {:induction false} PrimaryAgrees(src: string, p: G.Pos)
    requires G.ValidPos(src, p) && p.tok.kind !in {Minus, Plus}
    ensures G.Primary(src, p) == Clean(Primary(src, p))
    decreases G.Rem(src, p), 0
  {
    if p.tok.kind == OpenParen {
      AssignmentAgrees(src, G.Next(src, p));
    }
  }

  lemma {:induction false} UnaryAgrees(src: string, p: G.Pos)
    requires G.ValidPos(src, p)
    ensures G.Unary(src, p) == Clean(Unary(src, p))
    decreases G.Rem(src, p), 1
  {
    if p.tok.kind == Minus || p.tok.kind == Plus {
      UnaryAgrees(src, G.Next(src, p));
    } else {
      PrimaryAgrees(src, p);
    }
  }

  lemma {:induction false} OperandAgrees(src: string, n: nat, p: G.Pos)
    requires 1 <= n <= 4 && G.ValidPos(src, p)
    ensures G.Operand(src, n, p) == Clean(Operand(src, n, p))
    decreases G.Rem(src, p), 2 * n
  {
    if n == 1 {
      UnaryAgrees(src, p);
    } else {
      BinaryAgrees(src, n - 1, p);
    }
  }

  lemma {:induction false} BinaryAgrees(src: string, n: nat, p: G.Pos)
    requires 1 <= n <= 4 && G.ValidPos(src, p)
    ensures G.Binary(src, n, p) == Clean(Binary(src, n, p))
    decreases G.Rem(src, p), 2 * n + 1
  {
    OperandAgrees(src, n, p);
    match Operand(src, n, p)
    case Diverge =>
    case Halt(q, e) =>
      if !e {
        TailAgrees(src, n, q);
      }
  }

  lemma {:induction false} TailAgrees(src: string, n: nat, q: G.Pos)
    requires 1 <= n <= 4 && G.ValidPos(src, q)
    ensures G.BinaryTail(src, n, q) == Clean(Tail(src, n, q, false))
    decreases G.Rem(src, q), 2 * n + 1
  {
    if q.tok.kind in G.Ops(n) {
      OperandAgrees(src, n, G.Next(src, q));
      match Operand(src, n, G.Next(src, q))
      case Diverge =>
      case Halt(r, e) =>
        if !e {
          TailAgrees(src, n, r);
        }
    }
  }

  lemma {:induction false} AssignmentAgrees(src: string, p: G.Pos)
    requires G.ValidPos(src, p)
    ensures G.Assignment(src, p) == Clean(Assignment(src, p))
    decreases G.Rem(src, p), 10
  {
    if p.tok.kind == Identifier && At(src, p.cur.current) == '=' {
      var q := G.Next(src, p);
      if q.tok.kind == Equal {
        AssignmentAgrees(src, G.Next(src, q));
      }
    } else {
      BinaryAgrees(src, 4, p);
    }
  }

  lemma {:induction false} ExprStmtAgrees(src: string, p: G.Pos)
    requires G.ValidPos(src, p)
    ensures G.ExprStmt(src, p) == Clean(ExprStmt(src, p))
    decreases G.Rem(src, p), 11
  {
    AssignmentAgrees(src, p);
  }

  lemma {:induction false} VarDeclAgrees(src: string, p: G.Pos)
    requires G.ValidPos(src, p)
    ensures G.VarDecl(src, p) == Clean(VarDecl(src, p))
    decreases G.Rem(src, p), 12
  {
    if p.tok.kind == Identifier {
      VarRestAgrees(src, G.Next(src, p));
    }
  }

  lemma {:induction false} VarRestAgrees(src: string, p: G.Pos)
    requires G.ValidPos(src, p)
    ensures G.VarRest(src, p) == Clean(VarRest(src, p))
    decreases G.Rem(src, p), 11
  {
    if p.tok.kind == Equal {
      AssignmentAgrees(src, G.Next(src, p));
    }
  }

  lemma {:induction false} ConditionAgrees(src: string, p: G.Pos)
    requires G.ValidPos(src, p)
    ensures G.Condition(src, p) == Clean(Condition(src, p))
    decreases G.Rem(src, p), 11
  {
    if p.tok.kind == OpenParen {
      AssignmentAgrees(src, G.Next(src, p));
    }
  }

  lemma {:induction false} IfStmtAgrees(src: string, p: G.Pos)
    requires G.ValidPos(src, p)
    ensures G.IfStmt(src, p) == Clean(IfStmt(src, p))
    decreases G.Rem(src, p), 12
  {
    ConditionAgrees(src, p);
    var c := Condition(src, p);
    if c.Halt? && !c.erred {
      IfBodyAgrees(src, c.at);
    }
  }

  lemma {:induction false} IfBodyAgrees(src: string, b: G.Pos)
    requires G.ValidPos(src, b)
    ensures Clean(IfBody(src, b, false)) ==
      match G.Statement(src, b) case None => G.None case Some(x) => G.ElsePart(src, x)
    decreases G.Rem(src, b), 14
  {
    StatementAgrees(src, b);
    var t := Statement(src, b);
    if t.Halt? && !t.erred {
      ElsePartAgrees(src, t.at);
    }
  }

  lemma {:induction false} ElsePartAgrees(src: string, x: G.Pos)
    requires G.ValidPos(src, x)
    ensures G.ElsePart(src, x) == Clean(ElsePart(src, x, false))
    decreases G.Rem(src, x), 12
  {
    if x.tok.kind == Else {
      StatementAgrees(src, G.Next(src, x));
    }
  }

  lemma {:induction false} WhileStmtAgrees(src: string, p: G.Pos)
    requires G.ValidPos(src, p)
    ensures G.WhileStmt(src, p) == Clean(WhileStmt(src, p))
    decreases G.Rem(src, p), 12
  {
    ConditionAgrees(src, p);
    match Condition(src, p)
    case Diverge =>
    case Halt(b, e1) =>
      if !e1 {
        StatementAgrees(src, b);
      }
  }

  lemma {:induction false} StatementAgrees(src: string, p: G.Pos)
    requires G.ValidPos(src, p)
    ensures G.Statement(src, p) == Clean(Statement(src, p))
    decreases G.Rem(src, p), 13
  {
    if p.tok.kind == While {
      WhileStmtAgrees(src, G.Next(src, p));
    } else if p.tok.kind == Print {
      ExprStmtAgrees(src, G.Next(src, p));
    } else if p.tok.kind == If {
      IfStmtAgrees(src, G.Next(src, p));
    } else {
      ExprStmtAgrees(src, p);
    }
  }

  lemma {:induction false} DeclarationAgrees(src: string, p: G.Pos)
    requires G.ValidPos(src, p)
    ensures G.Declaration(src, p) == Clean(Declaration(src, p))
    decreases G.Rem(src, p), 14
  {
    if p.tok.kind == Int {
      VarDeclAgrees(src, G.Next(src, p));
    } else {
      StatementAgrees(src, p);
    }
  }

  /** `parse` answers true from `p` exactly when a program starts there. */
  lemma {:induction false} OutcomeIsProgram(src: string, p: G.Pos)
    requires G.ValidPos(src, p)
    ensures Outcome(src, p) == Returned(true) <==> G.ProgramFrom(src, p)
    decreases G.Rem(src, p)
  {
    if p.tok.kind != Eof {
      DeclarationAgrees(src, p);
      match Declaration(src, p)
      case Diverge =>
      case Halt(q, e) =>
        if !e {
          OutcomeIsProgram(src, q);
        }
    }
  }
}
