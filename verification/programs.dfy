/**
 * Whole-program verdicts on small sources, showing how the raw `=` peek of
 * `assignment` decides what is accepted, and how `parse` ends on a source
 * with an error. Each source is lexed one token at a time: a `...Next`
 * lemma gives the position after each `advance`.
 */
module Programs {
  import opened Tokens
  import opened LexSpec
  import opened Grammar
  import R = Recovery

  /** The token after `p` is the word `src[i..e]`, found after skipping to `i`. */
  lemma WordStep(src: string, p: Pos, i: nat, e: nat, line: nat)
    requires p.cur.current <= i < e <= |src|
    requires SkipWs(src, p.cur.current, p.cur.line) == (i, line)
    requires IsAlphabet(src[i]) && WordRunEnd(src, i + 1) == e
    ensures Next(src, p) == Pos(Token(KeywordKind(src[i..e]), InSource(i), e - i, line), Cursor(i, e, line))
  {
  }

  /** The token after `p` is the number `src[i..e]`. */
  lemma NumberStep(src: string, p: Pos, i: nat, e: nat, line: nat)
    requires p.cur.current <= i < e <= |src|
    requires SkipWs(src, p.cur.current, p.cur.line) == (i, line)
    requires IsDigit(src[i]) && DigitRunEnd(src, i + 1) == e
    ensures Next(src, p) == Pos(Token(Integer, InSource(i), e - i, line), Cursor(i, e, line))
  {
  }

  /** The token after `p` is the one-character token `src[i]`, not followed by `=` when it could take one. */
  lemma SymbolStep(src: string, p: Pos, i: nat, line: nat)
    requires p.cur.current <= i < |src|
    requires SkipWs(src, p.cur.current, p.cur.line) == (i, line)
    requires !IsDigit(src[i]) && !IsAlphabet(src[i])
    requires OneCharKind(src[i]) !in {Error, Eof} || (TwoCharKinds(src[i]).0 != Error && At(src, i + 1) != '=')
    ensures Next(src, p) ==
      var kind := if OneCharKind(src[i]) != Error then OneCharKind(src[i]) else TwoCharKinds(src[i]).0;
      Pos(Token(kind, InSource(i), 1, line), Cursor(i, i + 1, line))
  {
  }

  /** After `p` only blanks and comments remain: the token is EOF at `i`. */
  lemma EndStep(src: string, p: Pos, i: nat, line: nat)
    requires p.cur.current <= i <= |src|
    requires SkipWs(src, p.cur.current, p.cur.line) == (i, line) && At(src, i) == NUL
    ensures Next(src, p) == Pos(Token(Eof, InSource(i), 0, line), Cursor(i, i, line))
  {
  }


  /** `x=5;`: the peek sees `=`, so this is an assignment. */
  const Tight := "x=5;"
  const TightX := Pos(Token(Identifier, InSource(0), 1, 1), Cursor(0, 1, 1))
  const TightEqual := Pos(Token(Equal, InSource(1), 1, 1), Cursor(1, 2, 1))
  const TightFive := Pos(Token(Integer, InSource(2), 1, 1), Cursor(2, 3, 1))
  const TightSemicolon := Pos(Token(Semicolon, InSource(3), 1, 1), Cursor(3, 4, 1))
  const TightEnd := Pos(Token(Eof, InSource(4), 0, 1), Cursor(4, 4, 1))

  lemma TightStart()
    ensures Start(Tight) == TightX
  {
    assert At(Tight, 0) == 'x' && At(Tight, 1) == '=';
    assert SkipWs(Tight, 0, 1) == (0, 1);
    assert WordRunEnd(Tight, 1) == 1;
    assert Scan(Tight, Cursor(0, 0, 1)) == Made(Identifier, 0, 1, 1);
  }

  lemma TightNextX()
    ensures Next(Tight, TightX) == TightEqual
  {
    assert At(Tight, 1) == '=' && At(Tight, 2) == '5';
    assert SkipWs(Tight, 1, 1) == (1, 1);
    assert Scan(Tight, Cursor(0, 1, 1)) == Made(Equal, 1, 2, 1);
  }

  lemma TightNextEqual()
    ensures Next(Tight, TightEqual) == TightFive
  {
    assert At(Tight, 2) == '5' && At(Tight, 3) == ';';
    assert SkipWs(Tight, 2, 1) == (2, 1);
    assert DigitRunEnd(Tight, 3) == 3;
    assert Scan(Tight, Cursor(1, 2, 1)) == Made(Integer, 2, 3, 1);
  }

  lemma TightNextFive()
    ensures Next(Tight, TightFive) == TightSemicolon
  {
    assert At(Tight, 3) == ';';
    assert SkipWs(Tight, 3, 1) == (3, 1);
    assert Scan(Tight, Cursor(2, 3, 1)) == Made(Semicolon, 3, 4, 1);
  }

  lemma TightNextSemicolon()
    ensures Next(Tight, TightSemicolon) == TightEnd
  {
    assert At(Tight, 4) == NUL;
    assert SkipWs(Tight, 4, 1) == (4, 1);
    assert Scan(Tight, Cursor(3, 4, 1)) == Made(Eof, 4, 4, 1);
  }

  /** `5` is a whole expression, ending before `;`. */
  lemma TightValue()
    ensures Assignment(Tight, TightFive) == Some(TightSemicolon)
  {
    TightNextFive();
    AtomIsAssignment(Tight, TightFive);
  }

  /** `x=5` is one assignment, ending before `;`. */
  lemma TightExpression()
    ensures Assignment(Tight, TightX) == Some(TightSemicolon)
  {
    TightNextX();
    TightNextEqual();
    PeekedAssignment(Tight, TightX);
    TightValue();
  }

  lemma TightDeclaration()
    ensures Declaration(Tight, TightX) == Some(TightEnd)
  {
    TightExpression();
    TightNextSemicolon();
    ExpressionDeclaration(Tight, TightX);
  }

  /** `x=5;` is accepted. */
  lemma TightAssignmentAccepted()
    ensures Accepts(Tight)
  {
    TightStart();
    TightDeclaration();
  }

  /** `x = 5;`: the peek sees a blank, so `=` is left over where `;` is expected. */
  const Spaced := "x = 5;"
  const SpacedX := Pos(Token(Identifier, InSource(0), 1, 1), Cursor(0, 1, 1))
  const SpacedEqual := Pos(Token(Equal, InSource(2), 1, 1), Cursor(2, 3, 1))

  lemma SpacedStart()
    ensures Start(Spaced) == SpacedX
  {
    assert At(Spaced, 0) == 'x' && At(Spaced, 1) == ' ';
    assert SkipWs(Spaced, 0, 1) == (0, 1);
    assert WordRunEnd(Spaced, 1) == 1;
    assert Scan(Spaced, Cursor(0, 0, 1)) == Made(Identifier, 0, 1, 1);
  }

  lemma SpacedNextX()
    ensures Next(Spaced, SpacedX) == SpacedEqual
  {
    assert At(Spaced, 1) == ' ' && At(Spaced, 2) == '=' && At(Spaced, 3) == ' ';
    assert SkipWs(Spaced, 2, 1) == (2, 1);
    assert SkipWs(Spaced, 1, 1) == (2, 1);
    assert Scan(Spaced, Cursor(0, 1, 1)) == Made(Equal, 2, 3, 1);
  }

  lemma SpacedDeclaration()
    ensures Declaration(Spaced, SpacedX) == None
  {
    SpacedNextX();
    AtomIsAssignment(Spaced, SpacedX);
    ExpressionDeclaration(Spaced, SpacedX);
  }

  /** `x = 5;` is rejected. */
  lemma SpacedAssignmentRejected()
    ensures !Accepts(Spaced)
  {
    SpacedStart();
    SpacedDeclaration();
  }

  /** `x==5;`: the peek sees `=`, and the `==` token then ends the expression. */
  const TightEq := "x==5;"
  const TightEqX := Pos(Token(Identifier, InSource(0), 1, 1), Cursor(0, 1, 1))
  const TightEqOperator := Pos(Token(EqualEqual, InSource(1), 2, 1), Cursor(1, 3, 1))

  lemma TightEqStart()
    ensures Start(TightEq) == TightEqX
  {
    assert At(TightEq, 0) == 'x' && At(TightEq, 1) == '=';
    assert SkipWs(TightEq, 0, 1) == (0, 1);
    assert WordRunEnd(TightEq, 1) == 1;
    assert Scan(TightEq, Cursor(0, 0, 1)) == Made(Identifier, 0, 1, 1);
  }

  lemma TightEqNextX()
    ensures Next(TightEq, TightEqX) == TightEqOperator
  {
    assert At(TightEq, 1) == '=' && At(TightEq, 2) == '=';
    assert SkipWs(TightEq, 1, 1) == (1, 1);
    assert Scan(TightEq, Cursor(0, 1, 1)) == Made(EqualEqual, 1, 3, 1);
  }

  lemma TightEqDeclaration()
    ensures Declaration(TightEq, TightEqX) == None
  {
    TightEqNextX();
    PeekedAssignment(TightEq, TightEqX);
    ExpressionDeclaration(TightEq, TightEqX);
  }

  /** `x==5;` is rejected. */
  lemma TightEqualityRejected()
    ensures !Accepts(TightEq)
  {
    TightEqStart();
    TightEqDeclaration();
  }

  /** `x == 5;`: the peek sees a blank, so this is an equality. */
  const SpacedEq := "x == 5;"
  const SpacedEqX := Pos(Token(Identifier, InSource(0), 1, 1), Cursor(0, 1, 1))
  const SpacedEqOperator := Pos(Token(EqualEqual, InSource(2), 2, 1), Cursor(2, 4, 1))
  const SpacedEqFive := Pos(Token(Integer, InSource(5), 1, 1), Cursor(5, 6, 1))
  const SpacedEqSemicolon := Pos(Token(Semicolon, InSource(6), 1, 1), Cursor(6, 7, 1))
  const SpacedEqEnd := Pos(Token(Eof, InSource(7), 0, 1), Cursor(7, 7, 1))

  lemma SpacedEqStart()
    ensures Start(SpacedEq) == SpacedEqX
  {
    assert At(SpacedEq, 0) == 'x' && At(SpacedEq, 1) == ' ';
    assert SkipWs(SpacedEq, 0, 1) == (0, 1);
    assert WordRunEnd(SpacedEq, 1) == 1;
    assert Scan(SpacedEq, Cursor(0, 0, 1)) == Made(Identifier, 0, 1, 1);
  }

  lemma SpacedEqNextX()
    ensures Next(SpacedEq, SpacedEqX) == SpacedEqOperator
  {
    assert At(SpacedEq, 1) == ' ' && At(SpacedEq, 2) == '=' && At(SpacedEq, 3) == '=';
    assert SkipWs(SpacedEq, 2, 1) == (2, 1);
    assert SkipWs(SpacedEq, 1, 1) == (2, 1);
    assert Scan(SpacedEq, Cursor(0, 1, 1)) == Made(EqualEqual, 2, 4, 1);
  }

  lemma SpacedEqNextOperator()
    ensures Next(SpacedEq, SpacedEqOperator) == SpacedEqFive
  {
    assert At(SpacedEq, 4) == ' ' && At(SpacedEq, 5) == '5' && At(SpacedEq, 6) == ';';
    assert SkipWs(SpacedEq, 5, 1) == (5, 1);
    assert SkipWs(SpacedEq, 4, 1) == (5, 1);
    assert DigitRunEnd(SpacedEq, 6) == 6;
    assert Scan(SpacedEq, Cursor(2, 4, 1)) == Made(Integer, 5, 6, 1);
  }

  lemma SpacedEqNextFive()
    ensures Next(SpacedEq, SpacedEqFive) == SpacedEqSemicolon
  {
    assert At(SpacedEq, 6) == ';';
    assert SkipWs(SpacedEq, 6, 1) == (6, 1);
    assert Scan(SpacedEq, Cursor(5, 6, 1)) == Made(Semicolon, 6, 7, 1);
  }

  lemma SpacedEqNextSemicolon()
    ensures Next(SpacedEq, SpacedEqSemicolon) == SpacedEqEnd
  {
    assert At(SpacedEq, 7) == NUL;
    assert SkipWs(SpacedEq, 7, 1) == (7, 1);
    assert Scan(SpacedEq, Cursor(6, 7, 1)) == Made(Eof, 7, 7, 1);
  }

  /** `x == 5` is one equality, ending before `;`: the peek after `x` sees a blank. */
  lemma SpacedEqExpression()
    ensures Assignment(SpacedEq, SpacedEqX) == Some(SpacedEqSemicolon)
  {
    SpacedEqNextX();
    SpacedEqNextOperator();
    SpacedEqNextFive();
    AtomOpAtom(SpacedEq, 4, SpacedEqX, SpacedEqOperator, SpacedEqFive);
    assert At(SpacedEq, 1) == ' ';
    LiftToAssignment(SpacedEq, 4, SpacedEqX, SpacedEqSemicolon);
  }

  /** `x == 5;` is accepted. */
  lemma SpacedEqualityAccepted()
    ensures Accepts(SpacedEq)
  {
    SpacedEqStart();
    SpacedEqExpression();
    SpacedEqNextSemicolon();
    ExpressionDeclaration(SpacedEq, SpacedEqX);
  }

  /**
   * `x@=5;`: `advance` drops `@` as an ERROR token, but the peek reads `@`,
   * so the `=` is left over where `;` is expected.
   */
  const Masked := "x@=5;"
  const MaskedX := Pos(Token(Identifier, InSource(0), 1, 1), Cursor(0, 1, 1))
  const MaskedEqual := Pos(Token(Equal, InSource(2), 1, 1), Cursor(2, 3, 1))

  lemma MaskedStart()
    ensures Start(Masked) == MaskedX
  {
    assert At(Masked, 0) == 'x' && At(Masked, 1) == '@';
    assert SkipWs(Masked, 0, 1) == (0, 1);
    assert WordRunEnd(Masked, 1) == 1;
    assert Scan(Masked, Cursor(0, 0, 1)) == Made(Identifier, 0, 1, 1);
  }

  lemma MaskedNextX()
    ensures Next(Masked, MaskedX) == MaskedEqual
  {
    assert At(Masked, 1) == '@' && At(Masked, 2) == '=' && At(Masked, 3) == '5';
    assert SkipWs(Masked, 1, 1) == (1, 1);
    assert Scan(Masked, Cursor(0, 1, 1)) == Scanned(UnexpectedToken(1), Cursor(1, 2, 1));
    assert SkipWs(Masked, 2, 1) == (2, 1);
    assert Scan(Masked, Cursor(1, 2, 1)) == Made(Equal, 2, 3, 1);
  }

  lemma MaskedDeclaration()
    ensures Declaration(Masked, MaskedX) == None
  {
    MaskedNextX();
    AtomIsAssignment(Masked, MaskedX);
    ExpressionDeclaration(Masked, MaskedX);
  }

  /** `x@=5;` is rejected, although `x=5;` is accepted. */
  lemma MaskedAssignmentRejected()
    ensures !Accepts(Masked)
  {
    MaskedStart();
    MaskedDeclaration();
  }

  /** `;`: no rule starts with `;`, so `primary` reports the error and then descends without end. */
  const Stray := ";"
  const StraySemicolon := Pos(Token(Semicolon, InSource(0), 1, 1), Cursor(0, 1, 1))

  lemma StrayStart()
    ensures Start(Stray) == StraySemicolon
  {
    assert At(Stray, 0) == ';';
    assert SkipWs(Stray, 0, 1) == (0, 1);
    assert Scan(Stray, Cursor(0, 0, 1)) == Made(Semicolon, 0, 1, 1);
  }

  /** `parse` never returns on `;`. */
  lemma StraySemicolonNeverReturns()
    ensures R.Outcome(Stray, Start(Stray)) == R.NeverReturns
  {
    StrayStart();
    R.StrayTokenNeverReturns(Stray, StraySemicolon);
  }

  /**
   * `int ;`: the missing name is reported, the `;` is still consumed, and
   * `parse` returns with the error after this one declaration.
   */
  const Unnamed := "int ;"
  const UnnamedInt := Pos(Token(Int, InSource(0), 3, 1), Cursor(0, 3, 1))
  const UnnamedSemicolon := Pos(Token(Semicolon, InSource(4), 1, 1), Cursor(4, 5, 1))
  const UnnamedEnd := Pos(Token(Eof, InSource(5), 0, 1), Cursor(5, 5, 1))

  lemma UnnamedStart()
    ensures Start(Unnamed) == UnnamedInt
  {
    assert At(Unnamed, 0) == 'i' && At(Unnamed, 3) == ' ';
    assert SkipWs(Unnamed, 0, 1) == (0, 1);
    assert WordRunEnd(Unnamed, 1) == 3;
    assert Unnamed[0..3] == "int";
    assert Scan(Unnamed, Cursor(0, 0, 1)) == Made(Int, 0, 3, 1);
  }

  lemma UnnamedNextInt()
    ensures Next(Unnamed, UnnamedInt) == UnnamedSemicolon
  {
    assert At(Unnamed, 3) == ' ' && At(Unnamed, 4) == ';';
    assert SkipWs(Unnamed, 4, 1) == (4, 1);
    assert SkipWs(Unnamed, 3, 1) == (4, 1);
    assert Scan(Unnamed, Cursor(0, 3, 1)) == Made(Semicolon, 4, 5, 1);
  }

  lemma UnnamedNextSemicolon()
    ensures Next(Unnamed, UnnamedSemicolon) == UnnamedEnd
  {
    assert At(Unnamed, 5) == NUL;
    assert SkipWs(Unnamed, 5, 1) == (5, 1);
    assert Scan(Unnamed, Cursor(4, 5, 1)) == Made(Eof, 5, 5, 1);
  }

  /** `parse` returns on `int ;`, reporting that the program is not valid. */
  lemma UnnamedVariableReturnsInvalid()
    ensures R.Outcome(Unnamed, Start(Unnamed)) == R.Returned(false)
  {
    UnnamedStart();
    UnnamedNextInt();
    UnnamedNextSemicolon();
    assert R.VarDecl(Unnamed, UnnamedSemicolon) == R.Halt(UnnamedEnd, true);
  }
}
