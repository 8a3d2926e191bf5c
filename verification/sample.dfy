/**
 * The sample program that `main.c` hands to the recogniser, two comment
 * lines included, lexed token by token and parsed declaration by
 * declaration. A `...Next` lemma gives the position after one `advance`;
 * a `...Gap` lemma skips the blanks and comments before a token.
 */
module MainSample {
  import opened Tokens
  import opened LexSpec
  import opened Grammar
  import opened Programs

  const Sample :=
    "    //hey i am ankit\n"
    + "    "
    + "  //  afkasdfkh\n"
    + "    int sum = 10 + 25;\n"
    + "    if (sum > 30) \n"
    + "        print sum;\n"
    + "     else \n"
    + "        print 0; // Print zero\n"
    + "    \n"
  const SampleInt := Pos(Token(Int, InSource(45), 3, 1), Cursor(45, 48, 1))
  const SampleSum := Pos(Token(Identifier, InSource(49), 3, 1), Cursor(49, 52, 1))
  const SampleAssign := Pos(Token(Equal, InSource(53), 1, 1), Cursor(53, 54, 1))
  const SampleTen := Pos(Token(Integer, InSource(55), 2, 1), Cursor(55, 57, 1))
  const SamplePlus := Pos(Token(Plus, InSource(58), 1, 1), Cursor(58, 59, 1))
  const SampleTwentyFive := Pos(Token(Integer, InSource(60), 2, 1), Cursor(60, 62, 1))
  const SampleDeclEnd := Pos(Token(Semicolon, InSource(62), 1, 1), Cursor(62, 63, 1))
  const SampleIf := Pos(Token(If, InSource(68), 2, 2), Cursor(68, 70, 2))
  const SampleOpen := Pos(Token(OpenParen, InSource(71), 1, 2), Cursor(71, 72, 2))
  const SampleSumCompared := Pos(Token(Identifier, InSource(72), 3, 2), Cursor(72, 75, 2))
  const SampleGreater := Pos(Token(Greater, InSource(76), 1, 2), Cursor(76, 77, 2))
  const SampleThirty := Pos(Token(Integer, InSource(78), 2, 2), Cursor(78, 80, 2))
  const SampleClose := Pos(Token(CloseParen, InSource(80), 1, 2), Cursor(80, 81, 2))
  const SamplePrint := Pos(Token(Print, InSource(91), 5, 3), Cursor(91, 96, 3))
  const SampleSumPrinted := Pos(Token(Identifier, InSource(97), 3, 3), Cursor(97, 100, 3))
  const SampleThenEnd := Pos(Token(Semicolon, InSource(100), 1, 3), Cursor(100, 101, 3))
  const SampleElse := Pos(Token(Else, InSource(107), 4, 4), Cursor(107, 111, 4))
  const SamplePrintZero := Pos(Token(Print, InSource(121), 5, 5), Cursor(121, 126, 5))
  const SampleZero := Pos(Token(Integer, InSource(127), 1, 5), Cursor(127, 128, 5))
  const SampleElseEnd := Pos(Token(Semicolon, InSource(128), 1, 5), Cursor(128, 129, 5))
  const SampleEnd := Pos(Token(Eof, InSource(149), 0, 6), Cursor(149, 149, 6))

  lemma SampleComment1Tail()
    ensures SkipComment(Sample, 12) == 21
  {
    assert At(Sample, 12) == 'a' && At(Sample, 13) == 'm' && At(Sample, 14) == ' ' && At(Sample, 15) == 'a';
    assert At(Sample, 16) == 'n' && At(Sample, 17) == 'k' && At(Sample, 18) == 'i' && At(Sample, 19) == 't';
    assert At(Sample, 20) == '\n';
    assert SkipComment(Sample, 20) == 21;
    assert SkipComment(Sample, 19) == 21;
    assert SkipComment(Sample, 18) == 21;
    assert SkipComment(Sample, 17) == 21;
    assert SkipComment(Sample, 16) == 21;
    assert SkipComment(Sample, 15) == 21;
    assert SkipComment(Sample, 14) == 21;
    assert SkipComment(Sample, 13) == 21;
  }

  /** The comment at offset 4 ends just after the newline at offset 20. */
  lemma SampleComment1()
    ensures SkipComment(Sample, 4) == 21
  {
    SampleComment1Tail();
    assert At(Sample, 4) == '/' && At(Sample, 5) == '/' && At(Sample, 6) == 'h' && At(Sample, 7) == 'e';
    assert At(Sample, 8) == 'y' && At(Sample, 9) == ' ' && At(Sample, 10) == 'i' && At(Sample, 11) == ' ';
    assert SkipComment(Sample, 11) == 21;
    assert SkipComment(Sample, 10) == 21;
    assert SkipComment(Sample, 9) == 21;
    assert SkipComment(Sample, 8) == 21;
    assert SkipComment(Sample, 7) == 21;
    assert SkipComment(Sample, 6) == 21;
    assert SkipComment(Sample, 5) == 21;
  }

  lemma SampleComment2Tail()
    ensures SkipComment(Sample, 34) == 41
  {
    assert At(Sample, 34) == 'a' && At(Sample, 35) == 's' && At(Sample, 36) == 'd' && At(Sample, 37) == 'f';
    assert At(Sample, 38) == 'k' && At(Sample, 39) == 'h' && At(Sample, 40) == '\n';
    assert SkipComment(Sample, 40) == 41;
    assert SkipComment(Sample, 39) == 41;
    assert SkipComment(Sample, 38) == 41;
    assert SkipComment(Sample, 37) == 41;
    assert SkipComment(Sample, 36) == 41;
    assert SkipComment(Sample, 35) == 41;
  }

  /** The comment at offset 27 ends just after the newline at offset 40. */
  lemma SampleComment2()
    ensures SkipComment(Sample, 27) == 41
  {
    SampleComment2Tail();
    assert At(Sample, 27) == '/' && At(Sample, 28) == '/' && At(Sample, 29) == ' ' && At(Sample, 30) == ' ';
    assert At(Sample, 31) == 'a' && At(Sample, 32) == 'f' && At(Sample, 33) == 'k';
    assert SkipComment(Sample, 33) == 41;
    assert SkipComment(Sample, 32) == 41;
    assert SkipComment(Sample, 31) == 41;
    assert SkipComment(Sample, 30) == 41;
    assert SkipComment(Sample, 29) == 41;
    assert SkipComment(Sample, 28) == 41;
  }

  lemma SampleStartGap()
    ensures SkipWs(Sample, 0, 1) == (45, 1)
  {
    SampleComment1();
    SampleComment2();
    assert At(Sample, 0) == ' ' && At(Sample, 1) == ' ' && At(Sample, 2) == ' ' && At(Sample, 3) == ' ';
    assert At(Sample, 4) == '/' && At(Sample, 5) == '/' && At(Sample, 21) == ' ' && At(Sample, 22) == ' ';
    assert At(Sample, 23) == ' ' && At(Sample, 24) == ' ' && At(Sample, 25) == ' ' && At(Sample, 26) == ' ';
    assert At(Sample, 27) == '/' && At(Sample, 28) == '/' && At(Sample, 41) == ' ' && At(Sample, 42) == ' ';
    assert At(Sample, 43) == ' ' && At(Sample, 44) == ' ' && At(Sample, 45) == 'i' && At(Sample, 46) == 'n';
    assert SkipWs(Sample, 45, 1) == (45, 1);
    assert SkipWs(Sample, 44, 1) == (45, 1);
    assert SkipWs(Sample, 43, 1) == (45, 1);
    assert SkipWs(Sample, 42, 1) == (45, 1);
    assert SkipWs(Sample, 41, 1) == (45, 1);
    assert SkipWs(Sample, 27, 1) == (45, 1);
    assert SkipWs(Sample, 26, 1) == (45, 1);
    assert SkipWs(Sample, 25, 1) == (45, 1);
    assert SkipWs(Sample, 24, 1) == (45, 1);
    assert SkipWs(Sample, 23, 1) == (45, 1);
    assert SkipWs(Sample, 22, 1) == (45, 1);
    assert SkipWs(Sample, 21, 1) == (45, 1);
    assert SkipWs(Sample, 4, 1) == (45, 1);
    assert SkipWs(Sample, 3, 1) == (45, 1);
    assert SkipWs(Sample, 2, 1) == (45, 1);
    assert SkipWs(Sample, 1, 1) == (45, 1);
    assert SkipWs(Sample, 0, 1) == (45, 1);
  }

  lemma SampleStartFacts()
    ensures SkipWs(Sample, 0, 1) == (45, 1)
    ensures 48 <= |Sample|
    ensures Sample[45] == 'i'
    ensures WordRunEnd(Sample, 46) == 48
    ensures Sample[45..48] == "int"
    ensures KeywordKind("int") == Int
  {
    SampleStartGap();
    assert At(Sample, 45) == 'i' && At(Sample, 46) == 'n' && At(Sample, 47) == 't' && At(Sample, 48) == ' ';
    assert WordRunEnd(Sample, 46) == 48;
    assert KeywordKind("int") == Int;
    assert Sample[45..48] == "int";
  }

  lemma SampleStart()
    ensures Start(Sample) == SampleInt
  {
    SampleStartFacts();
    WordStep(Sample, Pos(Token(Eof, InSource(0), 0, 1), Cursor(0, 0, 1)), 45, 48, 1);
  }

  lemma SampleIntFacts()
    ensures SkipWs(Sample, 48, 1) == (49, 1)
    ensures 52 <= |Sample|
    ensures Sample[49] == 's'
    ensures WordRunEnd(Sample, 50) == 52
    ensures Sample[49..52] == "sum"
    ensures KeywordKind("sum") == Identifier
  {
    assert At(Sample, 48) == ' ' && At(Sample, 49) == 's' && At(Sample, 50) == 'u' && At(Sample, 51) == 'm';
    assert At(Sample, 52) == ' ';
    assert SkipWs(Sample, 49, 1) == (49, 1);
    assert SkipWs(Sample, 48, 1) == (49, 1);
    assert WordRunEnd(Sample, 50) == 52;
    assert KeywordKind("sum") == Identifier;
    assert Sample[49..52] == "sum";
  }

  lemma SampleIntNext()
    ensures Next(Sample, SampleInt) == SampleSum
  {
    SampleIntFacts();
    WordStep(Sample, SampleInt, 49, 52, 1);
  }

  lemma SampleSumFacts()
    ensures SkipWs(Sample, 52, 1) == (53, 1)
    ensures 53 < |Sample|
    ensures Sample[53] == '='
    ensures At(Sample, 54) == ' '
  {
    assert At(Sample, 52) == ' ' && At(Sample, 53) == '=' && At(Sample, 54) == ' ';
    assert SkipWs(Sample, 53, 1) == (53, 1);
    assert SkipWs(Sample, 52, 1) == (53, 1);
  }

  lemma SampleSumNext()
    ensures Next(Sample, SampleSum) == SampleAssign
  {
    SampleSumFacts();
    SymbolStep(Sample, SampleSum, 53, 1);
  }

  lemma SampleAssignFacts()
    ensures SkipWs(Sample, 54, 1) == (55, 1)
    ensures 57 <= |Sample|
    ensures Sample[55] == '1'
    ensures DigitRunEnd(Sample, 56) == 57
  {
    assert At(Sample, 54) == ' ' && At(Sample, 55) == '1' && At(Sample, 56) == '0' && At(Sample, 57) == ' ';
    assert SkipWs(Sample, 55, 1) == (55, 1);
    assert SkipWs(Sample, 54, 1) == (55, 1);
    assert DigitRunEnd(Sample, 56) == 57;
  }

  lemma SampleAssignNext()
    ensures Next(Sample, SampleAssign) == SampleTen
  {
    SampleAssignFacts();
    NumberStep(Sample, SampleAssign, 55, 57, 1);
  }

  lemma SampleTenFacts()
    ensures SkipWs(Sample, 57, 1) == (58, 1)
    ensures 58 < |Sample|
    ensures Sample[58] == '+'
    ensures At(Sample, 59) == ' '
  {
    assert At(Sample, 57) == ' ' && At(Sample, 58) == '+' && At(Sample, 59) == ' ';
    assert SkipWs(Sample, 58, 1) == (58, 1);
    assert SkipWs(Sample, 57, 1) == (58, 1);
  }

  lemma SampleTenNext()
    ensures Next(Sample, SampleTen) == SamplePlus
  {
    SampleTenFacts();
    SymbolStep(Sample, SampleTen, 58, 1);
  }

  lemma SamplePlusFacts()
    ensures SkipWs(Sample, 59, 1) == (60, 1)
    ensures 62 <= |Sample|
    ensures Sample[60] == '2'
    ensures DigitRunEnd(Sample, 61) == 62
  {
    assert At(Sample, 59) == ' ' && At(Sample, 60) == '2' && At(Sample, 61) == '5' && At(Sample, 62) == ';';
    assert SkipWs(Sample, 60, 1) == (60, 1);
    assert SkipWs(Sample, 59, 1) == (60, 1);
    assert DigitRunEnd(Sample, 61) == 62;
  }

  lemma SamplePlusNext()
    ensures Next(Sample, SamplePlus) == SampleTwentyFive
  {
    SamplePlusFacts();
    NumberStep(Sample, SamplePlus, 60, 62, 1);
  }

  lemma SampleTwentyFiveFacts()
    ensures SkipWs(Sample, 62, 1) == (62, 1)
    ensures 62 < |Sample|
    ensures Sample[62] == ';'
    ensures At(Sample, 63) == '\n'
  {
    assert At(Sample, 62) == ';' && At(Sample, 63) == '\n';
    assert SkipWs(Sample, 62, 1) == (62, 1);
  }

  lemma SampleTwentyFiveNext()
    ensures Next(Sample, SampleTwentyFive) == SampleDeclEnd
  {
    SampleTwentyFiveFacts();
    SymbolStep(Sample, SampleTwentyFive, 62, 1);
  }

  lemma SampleDeclEndGap()
    ensures SkipWs(Sample, 63, 1) == (68, 2)
  {
    assert At(Sample, 63) == '\n' && At(Sample, 64) == ' ' && At(Sample, 65) == ' ' && At(Sample, 66) == ' ';
    assert At(Sample, 67) == ' ' && At(Sample, 68) == 'i' && At(Sample, 69) == 'f';
    assert SkipWs(Sample, 68, 2) == (68, 2);
    assert SkipWs(Sample, 67, 2) == (68, 2);
    assert SkipWs(Sample, 66, 2) == (68, 2);
    assert SkipWs(Sample, 65, 2) == (68, 2);
    assert SkipWs(Sample, 64, 2) == (68, 2);
    assert SkipWs(Sample, 63, 1) == (68, 2);
  }

  lemma SampleDeclEndFacts()
    ensures SkipWs(Sample, 63, 1) == (68, 2)
    ensures 70 <= |Sample|
    ensures Sample[68] == 'i'
    ensures WordRunEnd(Sample, 69) == 70
    ensures Sample[68..70] == "if"
    ensures KeywordKind("if") == If
  {
    SampleDeclEndGap();
    assert At(Sample, 68) == 'i' && At(Sample, 69) == 'f' && At(Sample, 70) == ' ';
    assert WordRunEnd(Sample, 69) == 70;
    assert KeywordKind("if") == If;
    assert Sample[68..70] == "if";
  }

  lemma SampleDeclEndNext()
    ensures Next(Sample, SampleDeclEnd) == SampleIf
  {
    SampleDeclEndFacts();
    WordStep(Sample, SampleDeclEnd, 68, 70, 2);
  }

  lemma SampleIfFacts()
    ensures SkipWs(Sample, 70, 2) == (71, 2)
    ensures 71 < |Sample|
    ensures Sample[71] == '('
    ensures At(Sample, 72) == 's'
  {
    assert At(Sample, 70) == ' ' && At(Sample, 71) == '(' && At(Sample, 72) == 's';
    assert SkipWs(Sample, 71, 2) == (71, 2);
    assert SkipWs(Sample, 70, 2) == (71, 2);
  }

  lemma SampleIfNext()
    ensures Next(Sample, SampleIf) == SampleOpen
  {
    SampleIfFacts();
    SymbolStep(Sample, SampleIf, 71, 2);
  }

  lemma SampleOpenFacts()
    ensures SkipWs(Sample, 72, 2) == (72, 2)
    ensures 75 <= |Sample|
    ensures Sample[72] == 's'
    ensures WordRunEnd(Sample, 73) == 75
    ensures Sample[72..75] == "sum"
    ensures KeywordKind("sum") == Identifier
  {
    assert At(Sample, 72) == 's' && At(Sample, 73) == 'u' && At(Sample, 74) == 'm' && At(Sample, 75) == ' ';
    assert SkipWs(Sample, 72, 2) == (72, 2);
    assert WordRunEnd(Sample, 73) == 75;
    assert KeywordKind("sum") == Identifier;
    assert Sample[72..75] == "sum";
  }

  lemma SampleOpenNext()
    ensures Next(Sample, SampleOpen) == SampleSumCompared
  {
    SampleOpenFacts();
    WordStep(Sample, SampleOpen, 72, 75, 2);
  }

  lemma SampleSumComparedFacts()
    ensures SkipWs(Sample, 75, 2) == (76, 2)
    ensures 76 < |Sample|
    ensures Sample[76] == '>'
    ensures At(Sample, 77) == ' '
  {
    assert At(Sample, 75) == ' ' && At(Sample, 76) == '>' && At(Sample, 77) == ' ';
    assert SkipWs(Sample, 76, 2) == (76, 2);
    assert SkipWs(Sample, 75, 2) == (76, 2);
  }

  lemma SampleSumComparedNext()
    ensures Next(Sample, SampleSumCompared) == SampleGreater
  {
    SampleSumComparedFacts();
    SymbolStep(Sample, SampleSumCompared, 76, 2);
  }

  lemma SampleGreaterFacts()
    ensures SkipWs(Sample, 77, 2) == (78, 2)
    ensures 80 <= |Sample|
    ensures Sample[78] == '3'
    ensures DigitRunEnd(Sample, 79) == 80
  {
    assert At(Sample, 77) == ' ' && At(Sample, 78) == '3' && At(Sample, 79) == '0' && At(Sample, 80) == ')';
    assert SkipWs(Sample, 78, 2) == (78, 2);
    assert SkipWs(Sample, 77, 2) == (78, 2);
    assert DigitRunEnd(Sample, 79) == 80;
  }

  lemma SampleGreaterNext()
    ensures Next(Sample, SampleGreater) == SampleThirty
  {
    SampleGreaterFacts();
    NumberStep(Sample, SampleGreater, 78, 80, 2);
  }

  lemma SampleThirtyFacts()
    ensures SkipWs(Sample, 80, 2) == (80, 2)
    ensures 80 < |Sample|
    ensures Sample[80] == ')'
    ensures At(Sample, 81) == ' '
  {
    assert At(Sample, 80) == ')' && At(Sample, 81) == ' ';
    assert SkipWs(Sample, 80, 2) == (80, 2);
  }

  lemma SampleThirtyNext()
    ensures Next(Sample, SampleThirty) == SampleClose
  {
    SampleThirtyFacts();
    SymbolStep(Sample, SampleThirty, 80, 2);
  }

  lemma SampleCloseGap()
    ensures SkipWs(Sample, 81, 2) == (91, 3)
  {
    assert At(Sample, 81) == ' ' && At(Sample, 82) == '\n' && At(Sample, 83) == ' ' && At(Sample, 84) == ' ';
    assert At(Sample, 85) == ' ' && At(Sample, 86) == ' ' && At(Sample, 87) == ' ' && At(Sample, 88) == ' ';
    assert At(Sample, 89) == ' ' && At(Sample, 90) == ' ' && At(Sample, 91) == 'p' && At(Sample, 92) == 'r';
    assert SkipWs(Sample, 91, 3) == (91, 3);
    assert SkipWs(Sample, 90, 3) == (91, 3);
    assert SkipWs(Sample, 89, 3) == (91, 3);
    assert SkipWs(Sample, 88, 3) == (91, 3);
    assert SkipWs(Sample, 87, 3) == (91, 3);
    assert SkipWs(Sample, 86, 3) == (91, 3);
    assert SkipWs(Sample, 85, 3) == (91, 3);
    assert SkipWs(Sample, 84, 3) == (91, 3);
    assert SkipWs(Sample, 83, 3) == (91, 3);
    assert SkipWs(Sample, 82, 2) == (91, 3);
    assert SkipWs(Sample, 81, 2) == (91, 3);
  }

  lemma SampleCloseFacts()
    ensures SkipWs(Sample, 81, 2) == (91, 3)
    ensures 96 <= |Sample|
    ensures Sample[91] == 'p'
    ensures WordRunEnd(Sample, 92) == 96
    ensures Sample[91..96] == "print"
    ensures KeywordKind("print") == Print
  {
    SampleCloseGap();
    assert At(Sample, 91) == 'p' && At(Sample, 92) == 'r' && At(Sample, 93) == 'i' && At(Sample, 94) == 'n';
    assert At(Sample, 95) == 't' && At(Sample, 96) == ' ';
    assert WordRunEnd(Sample, 92) == 96;
    assert KeywordKind("print") == Print;
    assert Sample[91..96] == "print";
  }

  lemma SampleCloseNext()
    ensures Next(Sample, SampleClose) == SamplePrint
  {
    SampleCloseFacts();
    WordStep(Sample, SampleClose, 91, 96, 3);
  }

  lemma SamplePrintFacts()
    ensures SkipWs(Sample, 96, 3) == (97, 3)
    ensures 100 <= |Sample|
    ensures Sample[97] == 's'
    ensures WordRunEnd(Sample, 98) == 100
    ensures Sample[97..100] == "sum"
    ensures KeywordKind("sum") == Identifier
  {
    assert At(Sample, 96) == ' ' && At(Sample, 97) == 's' && At(Sample, 98) == 'u' && At(Sample, 99) == 'm';
    assert At(Sample, 100) == ';';
    assert SkipWs(Sample, 97, 3) == (97, 3);
    assert SkipWs(Sample, 96, 3) == (97, 3);
    assert WordRunEnd(Sample, 98) == 100;
    assert KeywordKind("sum") == Identifier;
    assert Sample[97..100] == "sum";
  }

  lemma SamplePrintNext()
    ensures Next(Sample, SamplePrint) == SampleSumPrinted
  {
    SamplePrintFacts();
    WordStep(Sample, SamplePrint, 97, 100, 3);
  }

  lemma SampleSumPrintedFacts()
    ensures SkipWs(Sample, 100, 3) == (100, 3)
    ensures 100 < |Sample|
    ensures Sample[100] == ';'
    ensures At(Sample, 101) == '\n'
  {
    assert At(Sample, 100) == ';' && At(Sample, 101) == '\n';
    assert SkipWs(Sample, 100, 3) == (100, 3);
  }

  lemma SampleSumPrintedNext()
    ensures Next(Sample, SampleSumPrinted) == SampleThenEnd
  {
    SampleSumPrintedFacts();
    SymbolStep(Sample, SampleSumPrinted, 100, 3);
  }

  lemma SampleThenEndGap()
    ensures SkipWs(Sample, 101, 3) == (107, 4)
  {
    assert At(Sample, 101) == '\n' && At(Sample, 102) == ' ' && At(Sample, 103) == ' ' && At(Sample, 104) == ' ';
    assert At(Sample, 105) == ' ' && At(Sample, 106) == ' ' && At(Sample, 107) == 'e' && At(Sample, 108) == 'l';
    assert SkipWs(Sample, 107, 4) == (107, 4);
    assert SkipWs(Sample, 106, 4) == (107, 4);
    assert SkipWs(Sample, 105, 4) == (107, 4);
    assert SkipWs(Sample, 104, 4) == (107, 4);
    assert SkipWs(Sample, 103, 4) == (107, 4);
    assert SkipWs(Sample, 102, 4) == (107, 4);
    assert SkipWs(Sample, 101, 3) == (107, 4);
  }

  lemma SampleThenEndFacts()
    ensures SkipWs(Sample, 101, 3) == (107, 4)
    ensures 111 <= |Sample|
    ensures Sample[107] == 'e'
    ensures WordRunEnd(Sample, 108) == 111
    ensures Sample[107..111] == "else"
    ensures KeywordKind("else") == Else
  {
    SampleThenEndGap();
    assert At(Sample, 107) == 'e' && At(Sample, 108) == 'l' && At(Sample, 109) == 's' && At(Sample, 110) == 'e';
    assert At(Sample, 111) == ' ';
    assert WordRunEnd(Sample, 108) == 111;
    assert KeywordKind("else") == Else;
    assert Sample[107..111] == "else";
  }

  lemma SampleThenEndNext()
    ensures Next(Sample, SampleThenEnd) == SampleElse
  {
    SampleThenEndFacts();
    WordStep(Sample, SampleThenEnd, 107, 111, 4);
  }

  lemma SampleElseGap()
    ensures SkipWs(Sample, 111, 4) == (121, 5)
  {
    assert At(Sample, 111) == ' ' && At(Sample, 112) == '\n' && At(Sample, 113) == ' ' && At(Sample, 114) == ' ';
    assert At(Sample, 115) == ' ' && At(Sample, 116) == ' ' && At(Sample, 117) == ' ' && At(Sample, 118) == ' ';
    assert At(Sample, 119) == ' ' && At(Sample, 120) == ' ' && At(Sample, 121) == 'p' && At(Sample, 122) == 'r';
    assert SkipWs(Sample, 121, 5) == (121, 5);
    assert SkipWs(Sample, 120, 5) == (121, 5);
    assert SkipWs(Sample, 119, 5) == (121, 5);
    assert SkipWs(Sample, 118, 5) == (121, 5);
    assert SkipWs(Sample, 117, 5) == (121, 5);
    assert SkipWs(Sample, 116, 5) == (121, 5);
    assert SkipWs(Sample, 115, 5) == (121, 5);
    assert SkipWs(Sample, 114, 5) == (121, 5);
    assert SkipWs(Sample, 113, 5) == (121, 5);
    assert SkipWs(Sample, 112, 4) == (121, 5);
    assert SkipWs(Sample, 111, 4) == (121, 5);
  }

  lemma SampleElseFacts()
    ensures SkipWs(Sample, 111, 4) == (121, 5)
    ensures 126 <= |Sample|
    ensures Sample[121] == 'p'
    ensures WordRunEnd(Sample, 122) == 126
    ensures Sample[121..126] == "print"
    ensures KeywordKind("print") == Print
  {
    SampleElseGap();
    assert At(Sample, 121) == 'p' && At(Sample, 122) == 'r' && At(Sample, 123) == 'i' && At(Sample, 124) == 'n';
    assert At(Sample, 125) == 't' && At(Sample, 126) == ' ';
    assert WordRunEnd(Sample, 122) == 126;
    assert KeywordKind("print") == Print;
    assert Sample[121..126] == "print";
  }

  lemma SampleElseNext()
    ensures Next(Sample, SampleElse) == SamplePrintZero
  {
    SampleElseFacts();
    WordStep(Sample, SampleElse, 121, 126, 5);
  }

  lemma SamplePrintZeroFacts()
    ensures SkipWs(Sample, 126, 5) == (127, 5)
    ensures 128 <= |Sample|
    ensures Sample[127] == '0'
    ensures DigitRunEnd(Sample, 128) == 128
  {
    assert At(Sample, 126) == ' ' && At(Sample, 127) == '0' && At(Sample, 128) == ';';
    assert SkipWs(Sample, 127, 5) == (127, 5);
    assert SkipWs(Sample, 126, 5) == (127, 5);
    assert DigitRunEnd(Sample, 128) == 128;
  }

  lemma SamplePrintZeroNext()
    ensures Next(Sample, SamplePrintZero) == SampleZero
  {
    SamplePrintZeroFacts();
    NumberStep(Sample, SamplePrintZero, 127, 128, 5);
  }

  lemma SampleZeroFacts()
    ensures SkipWs(Sample, 128, 5) == (128, 5)
    ensures 128 < |Sample|
    ensures Sample[128] == ';'
    ensures At(Sample, 129) == ' '
  {
    assert At(Sample, 128) == ';' && At(Sample, 129) == ' ';
    assert SkipWs(Sample, 128, 5) == (128, 5);
  }

  lemma SampleZeroNext()
    ensures Next(Sample, SampleZero) == SampleElseEnd
  {
    SampleZeroFacts();
    SymbolStep(Sample, SampleZero, 128, 5);
  }

  lemma SampleComment3Tail()
    ensures SkipComment(Sample, 137) == 144
  {
    assert At(Sample, 137) == 't' && At(Sample, 138) == ' ' && At(Sample, 139) == 'z' && At(Sample, 140) == 'e';
    assert At(Sample, 141) == 'r' && At(Sample, 142) == 'o' && At(Sample, 143) == '\n';
    assert SkipComment(Sample, 143) == 144;
    assert SkipComment(Sample, 142) == 144;
    assert SkipComment(Sample, 141) == 144;
    assert SkipComment(Sample, 140) == 144;
    assert SkipComment(Sample, 139) == 144;
    assert SkipComment(Sample, 138) == 144;
  }

  /** The comment at offset 130 ends just after the newline at offset 143. */
  lemma SampleComment3()
    ensures SkipComment(Sample, 130) == 144
  {
    SampleComment3Tail();
    assert At(Sample, 130) == '/' && At(Sample, 131) == '/' && At(Sample, 132) == ' ' && At(Sample, 133) == 'P';
    assert At(Sample, 134) == 'r' && At(Sample, 135) == 'i' && At(Sample, 136) == 'n';
    assert SkipComment(Sample, 136) == 144;
    assert SkipComment(Sample, 135) == 144;
    assert SkipComment(Sample, 134) == 144;
    assert SkipComment(Sample, 133) == 144;
    assert SkipComment(Sample, 132) == 144;
    assert SkipComment(Sample, 131) == 144;
  }

  lemma SampleElseEndGap()
    ensures SkipWs(Sample, 129, 5) == (149, 6)
  {
    SampleComment3();
    assert At(Sample, 129) == ' ' && At(Sample, 130) == '/' && At(Sample, 131) == '/' && At(Sample, 144) == ' ';
    assert At(Sample, 145) == ' ' && At(Sample, 146) == ' ' && At(Sample, 147) == ' ' && At(Sample, 148) == '\n';
    assert At(Sample, 149) == NUL && At(Sample, 150) == NUL;
    assert SkipWs(Sample, 149, 6) == (149, 6);
    assert SkipWs(Sample, 148, 5) == (149, 6);
    assert SkipWs(Sample, 147, 5) == (149, 6);
    assert SkipWs(Sample, 146, 5) == (149, 6);
    assert SkipWs(Sample, 145, 5) == (149, 6);
    assert SkipWs(Sample, 144, 5) == (149, 6);
    assert SkipWs(Sample, 130, 5) == (149, 6);
    assert SkipWs(Sample, 129, 5) == (149, 6);
  }

  lemma SampleElseEndFacts()
    ensures SkipWs(Sample, 129, 5) == (149, 6)
    ensures 149 <= |Sample|
    ensures At(Sample, 149) == NUL
  {
    SampleElseEndGap();
    assert At(Sample, 149) == NUL;
  }

  lemma SampleElseEndNext()
    ensures Next(Sample, SampleElseEnd) == SampleEnd
  {
    SampleElseEndFacts();
    EndStep(Sample, SampleElseEnd, 149, 6);
  }

  /** The initialiser `10 + 25` is one term, ending before `;`. */
  lemma SampleInitialiser()
    ensures Assignment(Sample, SampleTen) == Some(SampleDeclEnd)
  {
    SampleTenNext();
    SamplePlusNext();
    SampleTwentyFiveNext();
    AtomOpAtom(Sample, 2, SampleTen, SamplePlus, SampleTwentyFive);
    LiftToAssignment(Sample, 2, SampleTen, SampleDeclEnd);
  }

  /** `int sum = 10 + 25;` is one declaration. */
  lemma SampleVarDeclaration()
    ensures Declaration(Sample, SampleInt) == Some(SampleIf)
  {
    SampleIntNext();
    SampleSumNext();
    InitialisedDeclaration(Sample, SampleInt, SampleSum, SampleAssign);
    SampleAssignNext();
    SampleInitialiser();
    SampleDeclEndNext();
  }

  /** `sum > 30` is one comparison, ending before `)`. */
  lemma SampleComparison()
    ensures Binary(Sample, 3, SampleSumCompared) == Some(SampleClose)
  {
    SampleSumComparedNext();
    SampleGreaterNext();
    SampleThirtyNext();
    AtomOpAtom(Sample, 3, SampleSumCompared, SampleGreater, SampleThirty);
  }

  /** `(sum > 30)`: the peek after `sum` sees a blank, so the condition is the comparison. */
  lemma SampleCondition()
    ensures Condition(Sample, SampleOpen) == Some(SamplePrint)
  {
    assert At(Sample, 75) == ' ';
    SampleComparison();
    LiftToAssignment(Sample, 3, SampleSumCompared, SampleClose);
    SampleOpenNext();
    SampleCloseNext();
    ParenthesisedCondition(Sample, SampleOpen, SampleClose);
  }

  /** `print sum;` */
  lemma SampleThenBranch()
    ensures Statement(Sample, SamplePrint) == Some(SampleElse)
  {
    SamplePrintNext();
    SampleSumPrintedNext();
    assert At(Sample, 100) == ';';
    AtomIsAssignment(Sample, SampleSumPrinted);
    PrintStatement(Sample, SamplePrint);
    SampleThenEndNext();
  }

  /** `print 0;` */
  lemma SampleElseBranch()
    ensures Statement(Sample, SamplePrintZero) == Some(SampleEnd)
  {
    SamplePrintZeroNext();
    SampleZeroNext();
    AtomIsAssignment(Sample, SampleZero);
    PrintStatement(Sample, SamplePrintZero);
    SampleElseEndNext();
  }

  /** `if (sum > 30) print sum; else print 0;` is one declaration, ending at EOF. */
  lemma SampleIfStatement()
    ensures Declaration(Sample, SampleIf) == Some(SampleEnd)
  {
    SampleIfNext();
    SampleCondition();
    SampleThenBranch();
    IfElseDeclaration(Sample, SampleIf, SamplePrint, SampleElse);
    SampleElseNext();
    SampleElseBranch();
  }

  /** The sample program of `main.c` is accepted. */
  lemma SampleAccepted()
    ensures Accepts(Sample)
  {
    SampleStart();
    SampleVarDeclaration();
    ProgramStep(Sample, SampleInt, SampleIf);
    SampleIfStatement();
    ProgramStep(Sample, SampleIf, SampleEnd);
  }
}
