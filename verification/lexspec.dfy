/**
 * A functional specification of the lexer: what one call of `scan_token`
 * does to the cursor `(start, current, line)` over a NUL-terminated buffer.
 * The buffer is a `string`; reading at or past its end yields NUL, exactly
 * as the C code reads its terminator.
 */
module LexSpec {
  import opened Tokens

  /** The lexer cursor: token start, read position and line counter. */
  datatype Cursor = Cursor(start: nat, current: nat, line: nat)

  /** A token together with the cursor left behind after scanning it. */
  datatype Scanned = Scanned(tok: Token, next: Cursor)

  /** The character at offset `i` of the NUL-terminated buffer `src`. */
  function At(src: string, i: nat): char
  {
    if i < |src| then src[i] else NUL
  }

  /** `is_alphabet`: an ASCII letter or `_`; never the terminator nor a blank. */
  predicate IsAlphabet(ch: char): (b: bool)
    ensures b ==> ch != NUL && !IsBlank(ch)
  {
    ('a' <= ch <= 'z') || ('A' <= ch <= 'Z') || ch == '_'
  }

  /** `is_digit`: a decimal digit; never a letter, the terminator nor a blank. */
  predicate IsDigit(ch: char): (b: bool)
    ensures b ==> !IsAlphabet(ch) && ch != NUL && !IsBlank(ch)
  {
    '0' <= ch <= '9'
  }

  /** `is_end`: the terminator, code 0, which is neither a letter, a digit nor a blank. */
  predicate IsEnd(ch: char): (b: bool)
    ensures b <==> ch as int == 0
    ensures b ==> !IsAlphabet(ch) && !IsDigit(ch) && !IsBlank(ch)
  {
    ch == NUL
  }

  /** Characters that may continue an identifier. */
  predicate IsWordChar(ch: char)
  {
    IsDigit(ch) || IsAlphabet(ch)
  }

  predicate IsBlank(ch: char)
  {
    ch == ' ' || ch == '\t' || ch == '\n'
  }

  /** `//` starts at offset `i`. */
  predicate CommentAt(src: string, i: nat)
  {
    At(src, i) == '/' && At(src, i + 1) == '/'
  }

  /** No terminator occurs in `src[i..j]`: the cursor never reads past NUL. */
  ghost predicate NoNul(src: string, i: nat, j: nat)
    requires i <= j <= |src|
  {
    forall k | i <= k < j :: src[k] != NUL
  }

  /**
   * The comment-skipping loop: starting on the first `/`, consume
   * characters up to and including the next newline, or stop at NUL.
   */
  function SkipComment(src: string, i: nat): (r: nat)
    requires i <= |src|
    ensures i <= r <= |src| && NoNul(src, i, r)
    ensures At(src, i) != NUL ==> i < r
    ensures (i < r && src[r - 1] == '\n') || At(src, r) == NUL
    ensures forall k | i <= k < r - 1 :: src[k] != '\n'
    decreases |src| - i
  {
    if At(src, i) == NUL then i
    else if src[i] == '\n' then i + 1
    else SkipComment(src, i + 1)
  }

  /**
   * `skip_white_space`: the new read position and line counter. Only a
   * newline met outside a comment increments the counter.
   */
  function SkipWs(src: string, i: nat, line: nat): (r: (nat, nat))
    requires i <= |src|
    ensures i <= r.0 <= |src| && NoNul(src, i, r.0)
    ensures line <= r.1
    ensures At(src, r.0) == NUL || (!IsBlank(At(src, r.0)) && !CommentAt(src, r.0))
    decreases |src| - i
  {
    var ch := At(src, i);
    if ch == NUL then (i, line)
    else if ch == ' ' || ch == '\t' then SkipWs(src, i + 1, line)
    else if ch == '\n' then SkipWs(src, i + 1, line + 1)
    else if CommentAt(src, i) then SkipWs(src, SkipComment(src, i), line)
    else (i, line)
  }

  /**
   * Offset `k` lies inside a `//` comment that the skipping loop entered at
   * or after `i`: the comment starts at some `j` in `[i, k]` and no newline
   * separates `j` from `k`.
   */
  ghost predicate InComment(src: string, i: nat, k: nat)
  {
    exists j | i <= j <= k :: CommentAt(src, j) && forall m | j <= m < k :: At(src, m) != '\n'
  }

  /** A comment entered from `i' >= i` was also entered from `i`. */
  lemma InCommentFrom(src: string, i: nat, i': nat, k: nat)
    requires i <= i' && InComment(src, i', k)
    ensures InComment(src, i, k)
  {
    var j :| i' <= j <= k && CommentAt(src, j) && forall m | j <= m < k :: At(src, m) != '\n';
  }

  /** Every offset a comment starting at `i` covers lies inside that comment. */
  lemma InCommentBeforeEnd(src: string, i: nat, k: nat)
    requires i <= |src| && CommentAt(src, i) && i <= k < SkipComment(src, i)
    ensures InComment(src, i, k)
  {
    assert forall n | i <= n < k :: At(src, n) != '\n';
  }

  /**
   * What `skip_white_space` passes over: every character between the start
   * and the stop is a blank or lies inside a `//` comment.
   */
  lemma {:induction false} SkipWsSkipsOnlyBlanksAndComments(src: string, i: nat, line: nat)
    requires i <= |src|
    ensures forall k | i <= k < SkipWs(src, i, line).0 :: IsBlank(src[k]) || InComment(src, i, k)
    decreases |src| - i
  {
    var ch := At(src, i);
    var r := SkipWs(src, i, line).0;
    if ch == NUL || (ch != ' ' && ch != '\t' && ch != '\n' && !CommentAt(src, i)) {
      assert r == i;
    } else if ch == ' ' || ch == '\t' || ch == '\n' {
      var l1 := if ch == '\n' then line + 1 else line;
      assert r == SkipWs(src, i + 1, l1).0;
      SkipWsSkipsOnlyBlanksAndComments(src, i + 1, l1);
      forall k | i <= k < r
        ensures IsBlank(src[k]) || InComment(src, i, k)
      {
        if k > i && !IsBlank(src[k]) {
          InCommentFrom(src, i, i + 1, k);
        }
      }
    } else {
      var m := SkipComment(src, i);
      assert r == SkipWs(src, m, line).0;
      SkipWsSkipsOnlyBlanksAndComments(src, m, line);
      forall k | i <= k < r
        ensures IsBlank(src[k]) || InComment(src, i, k)
      {
        if k < m {
          InCommentBeforeEnd(src, i, k);
        } else if !IsBlank(src[k]) {
          InCommentFrom(src, i, m, k);
        }
      }
    }
  }

  /**
   * Skipping never stops inside a comment: a comment entered on the way is
   * always read through to its newline, or the stop is the terminator.
   */
  lemma {:induction false} SkipWsStopsOutsideComments(src: string, i: nat, line: nat)
    requires i <= |src|
    ensures var r := SkipWs(src, i, line).0; At(src, r) == NUL || !InComment(src, i, r)
    decreases |src| - i
  {
    var ch := At(src, i);
    var r := SkipWs(src, i, line).0;
    if ch == NUL || (ch != ' ' && ch != '\t' && ch != '\n' && !CommentAt(src, i)) {
      assert r == i;
    } else if ch == ' ' || ch == '\t' || ch == '\n' {
      var l1 := if ch == '\n' then line + 1 else line;
      assert r == SkipWs(src, i + 1, l1).0;
      SkipWsStopsOutsideComments(src, i + 1, l1);
      InCommentPastBlank(src, i, r);
    } else {
      var m := SkipComment(src, i);
      assert r == SkipWs(src, m, line).0;
      SkipWsStopsOutsideComments(src, m, line);
      if At(src, r) != NUL {
        InCommentPastComment(src, i, r);
      }
    }
  }

  /** The end of the maximal run of digits starting at `i`. */
  function DigitRunEnd(src: string, i: nat): (e: nat)
    requires i <= |src|
    ensures i <= e <= |src|
    ensures forall k | i <= k < e :: IsDigit(src[k])
    ensures !IsDigit(At(src, e))
    decreases |src| - i
  {
    if IsDigit(At(src, i)) then DigitRunEnd(src, i + 1) else i
  }

  /** The end of the maximal run of letters, digits and `_` starting at `i`. */
  function WordRunEnd(src: string, i: nat): (e: nat)
    requires i <= |src|
    ensures i <= e <= |src|
    ensures forall k | i <= k < e :: IsWordChar(src[k])
    ensures !IsWordChar(At(src, e))
    decreases |src| - i
  {
    if IsWordChar(At(src, i)) then WordRunEnd(src, i + 1) else i
  }

  /** The reserved words and the kind each is re-tagged with. */
  const Keywords: map<string, TokenType> :=
    map["if" := If, "int" := Int, "else" := Else, "print" := Print, "while" := While]

  /** The kind of an identifier-shaped lexeme after keyword classification. */
  function KeywordKind(w: string): TokenType
  {
    if w in Keywords then Keywords[w] else Identifier
  }

  /** Kinds of the characters that always form a token on their own. */
  function OneCharKind(ch: char): TokenType
  {
    match ch
    case '+' => Plus
    case '-' => Minus
    case '*' => Star
    case '/' => Slash
    case '(' => OpenParen
    case ')' => CloseParen
    case '{' => OpenBrace
    case '}' => CloseBrace
    case ';' => Semicolon
    case '\0' => Eof
    case _ => Error
  }

  /** For `!`, `=`, `>`, `<`: the kind alone and the kind when followed by `=`. */
  function TwoCharKinds(ch: char): (TokenType, TokenType)
  {
    match ch
    case '!' => (Bang, BangEqual)
    case '=' => (Equal, EqualEqual)
    case '>' => (Greater, GreaterEqual)
    case '<' => (Smaller, SmallerEqual)
    case _ => (Error, Error)
  }

  /** The ERROR token: it points at its message, not at the source. */
  function UnexpectedToken(line: nat): Token
  {
    Token(Error, InMessage(UnexpectedCharacter), |UnexpectedCharacter|, line)
  }

  /** The message of an ERROR token holds no terminator, so its size is its length. */
  lemma MessageHasNoNul()
    ensures NoNul(UnexpectedCharacter, 0, |UnexpectedCharacter|)
  {
  }

  /** A source token spanning `[i, e)` and the cursor after it. */
  function Made(kind: TokenType, i: nat, e: nat, line: nat): Scanned
    requires i <= e
  {
    Scanned(Token(kind, InSource(i), e - i, line), Cursor(i, e, line))
  }

  /** The characters of a source token. */
  function Lexeme(src: string, s: Scanned): string
    requires s.next.start <= s.next.current <= |src|
  {
    src[s.next.start..s.next.current]
  }

  /**
   * The classifying half of `scan_token`: the token that starts at `i`,
   * where blanks and comments have already been skipped.
   */
  function Classify(src: string, i: nat, line: nat): (s: Scanned)
    requires i <= |src|
    ensures i == s.next.start <= s.next.current <= |src|
    ensures NoNul(src, i, s.next.current)
    ensures s.next.line == s.tok.line == line
    ensures s.tok.kind != Error ==>
      s.tok.start == InSource(i) && s.tok.length == s.next.current - i
    ensures s.tok.kind == Eof <==> At(src, i) == NUL
    ensures s.tok.kind == Eof ==> s.next.current == i && s.tok.length == 0
    ensures s.tok.kind != Eof ==> i < s.next.current
  {
    var ch := At(src, i);
    var j := if ch == NUL then i else i + 1;
    if IsDigit(ch) then
      Made(Integer, i, DigitRunEnd(src, j), line)
    else if IsAlphabet(ch) then
      var e := WordRunEnd(src, j);
      Made(KeywordKind(src[i..e]), i, e, line)
    else
      Punctuation(src, i, line)
  }

  /** A token that starts with neither a digit nor a letter. */
  function Punctuation(src: string, i: nat, line: nat): (s: Scanned)
    requires i <= |src|
  {
    var ch := At(src, i);
    var j := if ch == NUL then i else i + 1;
    if OneCharKind(ch) != Error then
      Made(OneCharKind(ch), i, j, line)
    else if TwoCharKinds(ch).0 != Error then
      if At(src, j) == '=' then Made(TwoCharKinds(ch).1, i, j + 1, line)
      else Made(TwoCharKinds(ch).0, i, j, line)
    else
      Scanned(UnexpectedToken(line), Cursor(i, j, line))
  }

  /**
   * One call of `scan_token` from cursor `c`: skip blanks and comments,
   * mark the start, then classify by the first character.
   */
  function Scan(src: string, c: Cursor): (s: Scanned)
    requires c.current <= |src|
    ensures c.current <= s.next.start <= s.next.current <= |src|
    ensures NoNul(src, c.current, s.next.current)
    ensures s.next.line == s.tok.line == SkipWs(src, c.current, c.line).1
    ensures s.next.start == SkipWs(src, c.current, c.line).0
    ensures s.tok.kind != Error ==>
      s.tok.start == InSource(s.next.start) && s.tok.length == s.next.current - s.next.start
    ensures s.tok.kind == Eof <==> At(src, s.next.start) == NUL
    ensures s.tok.kind == Eof ==> s.next.current == s.next.start && s.tok.length == 0
    ensures s.tok.kind != Eof ==> s.next.start < s.next.current
  {
    var (i, line) := SkipWs(src, c.current, c.line);
    Classify(src, i, line)
  }

  /** The parser's `advance`: scan until a token that is not ERROR. */
  function NextToken(src: string, c: Cursor): (s: Scanned)
    requires c.current <= |src|
    ensures s.tok.kind != Error
    ensures c.current <= s.next.start <= s.next.current <= |src|
    ensures s.tok.start == InSource(s.next.start) && s.tok.length == s.next.current - s.next.start
    ensures s.tok.kind == Eof <==> At(src, s.next.start) == NUL
    ensures s.tok.kind == Eof ==> s.next.current == s.next.start
    ensures s.tok.kind != Eof ==> c.current < s.next.current
    ensures At(src, c.current) == NUL ==> s.tok.kind == Eof && s.next.current == c.current
    decreases |src| - c.current
  {
    var s := Scan(src, c);
    if s.tok.kind == Error then NextToken(src, s.next) else s
  }

  /*
   * Properties of one `scan_token` call. Throughout, `i` is the read position
   * after blanks and comments have been skipped.
   */

  /** At end of input the lexer answers EOF of length 0 and stays put, forever. */
  lemma EofRepeats(src: string, c: Cursor)
    requires c.current <= |src|
    requires Scan(src, c).tok.kind == Eof
    ensures Scan(src, c).tok.length == 0
    ensures Scan(src, Scan(src, c).next) == Scan(src, c)
  {
  }

  /** A token is an integer iff its first character is a digit; it is a maximal digit run. */
  lemma IntegerIsMaximalDigitRun(src: string, c: Cursor)
    requires c.current <= |src|
    ensures var i := SkipWs(src, c.current, c.line).0;
            Scan(src, c).tok.kind == Integer <==> IsDigit(At(src, i))
    ensures var s := Scan(src, c);
            s.tok.kind == Integer ==>
              s.tok.length >= 1 &&
              (forall k | s.next.start <= k < s.next.current :: IsDigit(src[k])) &&
              !IsDigit(At(src, s.next.current))
  {
  }

  /** The kinds a word token can have: identifier or one of the keywords. */
  const WordKinds: set<TokenType> := {Identifier, If, Int, Else, Print, While}

  /**
   * A token is a word iff its first character is a letter or `_`; a word is
   * a maximal run of letters, digits and `_`, and is a keyword exactly when
   * its lexeme is one.
   */
  lemma WordIsMaximalAndClassified(src: string, c: Cursor)
    requires c.current <= |src|
    ensures var i := SkipWs(src, c.current, c.line).0;
            Scan(src, c).tok.kind in WordKinds <==> IsAlphabet(At(src, i))
    ensures var s := Scan(src, c);
            var w := Lexeme(src, s);
            s.tok.kind in WordKinds ==>
              |w| >= 1 && IsAlphabet(w[0]) &&
              (forall k | 0 <= k < |w| :: IsWordChar(w[k])) &&
              !IsWordChar(At(src, s.next.current)) &&
              (s.tok.kind == Identifier <==> w !in Keywords) &&
              (w in Keywords ==> s.tok.kind == Keywords[w])
  {
  }

  /** `!`, `=`, `>`, `<` take the following `=` into a two-character token. */
  lemma OperatorLookahead(src: string, c: Cursor)
    requires c.current <= |src|
    requires TwoCharKinds(At(src, SkipWs(src, c.current, c.line).0)).0 != Error
    ensures var i := SkipWs(src, c.current, c.line).0;
            var s := Scan(src, c);
            var kinds := TwoCharKinds(src[i]);
            if At(src, i + 1) == '=' then
              s.tok.kind == kinds.1 && s.tok.length == 2 && s.next.current == i + 2
            else
              s.tok.kind == kinds.0 && s.tok.length == 1 && s.next.current == i + 1
  {
  }

  /** Any character the lexer does not know is consumed as an ERROR token. */
  lemma UnknownCharacterIsError(src: string, c: Cursor)
    requires c.current <= |src|
    ensures var i := SkipWs(src, c.current, c.line).0;
            var ch := At(src, i);
            var s := Scan(src, c);
            s.tok.kind == Error <==>
              !IsDigit(ch) && !IsAlphabet(ch) && OneCharKind(ch) == Error && TwoCharKinds(ch).0 == Error
    ensures var s := Scan(src, c);
            s.tok.kind == Error ==>
              s.tok == UnexpectedToken(s.next.line) && s.next.current == s.next.start + 1
  {
  }

  /** No `/` occurs in `src[i..j]`. */
  predicate NoSlash(src: string, i: nat, j: nat)
    requires i <= j <= |src|
  {
    forall k | i <= k < j :: src[k] != '/'
  }

  /**
   * The line counter grows by at most the number of newlines skipped, and
   * by exactly that number when no comment was skipped.
   */
  lemma {:induction false} SkipWsCountsLines(src: string, i: nat, line: nat)
    requires i <= |src|
    ensures var (r, line') := SkipWs(src, i, line);
            line' - line <= multiset(src[i..r])['\n'] &&
            (NoSlash(src, i, r) ==> line' - line == multiset(src[i..r])['\n'])
    decreases |src| - i
  {
    var ch := At(src, i);
    var (r, line') := SkipWs(src, i, line);
    if ch == NUL || (ch != ' ' && ch != '\t' && ch != '\n' && !CommentAt(src, i)) {
      assert r == i;
    } else if ch == ' ' || ch == '\t' || ch == '\n' {
      var l1 := if ch == '\n' then line + 1 else line;
      SkipWsCountsLines(src, i + 1, l1);
      assert src[i..r] == [src[i]] + src[i + 1..r];
    } else {
      var m := SkipComment(src, i);
      SkipWsCountsLines(src, m, line);
      assert src[i..r] == src[i..m] + src[m..r];
      assert src[i] == '/';
    }
  }

  /** The newlines in `src[a..b]` that lie outside every comment entered from `i`. */
  ghost function CountedNewlines(src: string, i: nat, a: nat, b: nat): set<nat>
    requires b <= |src|
  {
    set k: nat | a <= k < b && src[k] == '\n' && !InComment(src, i, k)
  }

  /** Past a character that starts no comment, moving the entry point over it changes nothing. */
  lemma InCommentPastBlank(src: string, i: nat, k: nat)
    requires i < k && !CommentAt(src, i)
    ensures InComment(src, i, k) <==> InComment(src, i + 1, k)
  {
    if InComment(src, i, k) {
      var j :| i <= j <= k && CommentAt(src, j) && forall n | j <= n < k :: At(src, n) != '\n';
      assert j != i;
    }
    if InComment(src, i + 1, k) {
      InCommentFrom(src, i, i + 1, k);
    }
  }

  /**
   * With a comment entered at `i` that ends in a newline at `m - 1`, the
   * offsets before `m` are inside it, and later ones are inside a comment
   * entered from `i` exactly when they are inside one entered from `m`.
   */
  lemma InCommentPastComment(src: string, i: nat, k: nat)
    requires i <= |src| && CommentAt(src, i)
    requires i <= k && (k < SkipComment(src, i) || At(src, SkipComment(src, i)) != NUL)
    ensures var m := SkipComment(src, i);
            InComment(src, i, k) <==> k < m || InComment(src, m, k)
  {
    var m := SkipComment(src, i);
    if k < m {
      assert forall n | i <= n < k :: At(src, n) != '\n';
    } else if InComment(src, i, k) {
      assert At(src, m - 1) == '\n';
      var j :| i <= j <= k && CommentAt(src, j) && forall n | j <= n < k :: At(src, n) != '\n';
      assert m <= j;
    } else if InComment(src, m, k) {
      InCommentFrom(src, i, m, k);
    }
  }

  /**
   * `skip_white_space` advances the line counter by exactly the number of
   * newlines it passes outside comments.
   */
  lemma {:induction false} SkipWsCountsLinesOutsideComments(src: string, i: nat, line: nat)
    requires i <= |src|
    ensures var (r, line') := SkipWs(src, i, line);
            line' - line == |CountedNewlines(src, i, i, r)|
    decreases |src| - i
  {
    var ch := At(src, i);
    var (r, line') := SkipWs(src, i, line);
    if ch == NUL || (ch != ' ' && ch != '\t' && ch != '\n' && !CommentAt(src, i)) {
      assert r == i;
      assert CountedNewlines(src, i, i, r) == {};
    } else if ch == ' ' || ch == '\t' || ch == '\n' {
      var l1 := if ch == '\n' then line + 1 else line;
      assert (r, line') == SkipWs(src, i + 1, l1);
      SkipWsCountsLinesOutsideComments(src, i + 1, l1);
      var rest := CountedNewlines(src, i + 1, i + 1, r);
      forall k | i < k
        ensures InComment(src, i, k) <==> InComment(src, i + 1, k)
      {
        InCommentPastBlank(src, i, k);
      }
      if ch == '\n' {
        assert !InComment(src, i, i);
        assert CountedNewlines(src, i, i, r) == {i} + rest;
      } else {
        assert CountedNewlines(src, i, i, r) == rest;
      }
    } else {
      var m := SkipComment(src, i);
      assert (r, line') == SkipWs(src, m, line);
      SkipWsCountsLinesOutsideComments(src, m, line);
      forall k | i <= k < r
        ensures InComment(src, i, k) <==> k < m || InComment(src, m, k)
      {
        InCommentPastComment(src, i, k);
      }
      assert CountedNewlines(src, i, i, r) == CountedNewlines(src, m, m, r);
    }
  }

  /** The newline that ends a `//` comment does not advance the line counter. */
  lemma CommentNewlineNotCounted()
    ensures SkipWs("//c\nx", 0, 1) == (4, 1)
  {
    assert SkipComment("//c\nx", 0) == 4;
  }
}
