/**
 * The hand-written lexer: a cursor over a NUL-terminated buffer, advanced
 * in place by `scan_token`. Every state-changing method is proved against
 * the functional specification in `LexSpec`.
 */
module Lexing {
  import opened Tokens
  import opened LexSpec

  /** `compare`: the first `size1` characters of `s1` and `size2` of `s2` are the same string. */
  method Compare(s1: string, size1: nat, s2: string, size2: nat) returns (same: bool)
    requires size1 <= |s1| && size2 <= |s2|
    ensures same <==> size1 == size2 && s1[..size1] == s2[..size2]
  {
    if size1 != size2 {
      return false;
    }
    var i := 0;
    while i < size1
      invariant i <= size1
      invariant s1[..i] == s2[..i]
    {
      if s1[i] != s2[i] {
        assert s1[..size1][i] != s2[..size2][i];
        return false;
      }
      assert s1[..i + 1] == s1[..i] + [s1[i]];
      assert s2[..i + 1] == s2[..i] + [s2[i]];
      i := i + 1;
    }
    return true;
  }

  /** `get_size`: the number of characters before the terminator. */
  method GetSize(str: string) returns (n: nat)
    ensures n <= |str| && At(str, n) == NUL
    ensures forall k | 0 <= k < n :: str[k] != NUL
  {
    n := 0;
    while At(str, n) != NUL
      invariant n <= |str|
      invariant forall k | 0 <= k < n :: str[k] != NUL
      decreases |str| - n
    {
      n := n + 1;
    }
  }

  /**
   * `check_keyword`: re-tag a token whose lexeme is exactly a reserved word;
   * any other token is returned unchanged.
   */
  method CheckKeyword(src: string, token: Token) returns (r: Token)
    requires token.start.InSource? && token.start.offset + token.length <= |src|
    ensures var w := src[token.start.offset..token.start.offset + token.length];
            r == if w in Keywords then token.(kind := Keywords[w]) else token
  {
    var text := src[token.start.offset..];
    ghost var w := src[token.start.offset..token.start.offset + token.length];
    assert text[..token.length] == w;
    r := token;
    var same := Compare("if", 2, text, token.length);
    if same {
      assert w == "if";
      r := r.(kind := If);
      return;
    }
    same := Compare("int", 3, text, token.length);
    if same {
      assert w == "int";
      r := r.(kind := Int);
      return;
    }
    same := Compare("else", 4, text, token.length);
    if same {
      assert w == "else";
      r := r.(kind := Else);
      return;
    }
    same := Compare("print", 5, text, token.length);
    if same {
      assert w == "print";
      r := r.(kind := Print);
      return;
    }
    same := Compare("while", 5, text, token.length);
    if same {
      assert w == "while";
      r := r.(kind := While);
      return;
    }
    assert w != "if" && w != "int" && w != "else" && w != "print" && w != "while";
  }

  class Lexer {
    /** The source buffer; reads at or past its end see the terminator. */
    const src: string
    var start: nat
    var current: nat
    var line: nat

    /** The cursor stays inside the buffer and never passes its terminator. */
    ghost predicate Valid()
      reads this
    {
      start <= current <= |src| && NoNul(src, 0, current)
    }

    function Cur(): Cursor
      reads this
    {
      Cursor(start, current, line)
    }

    /** `lexer_init`: token start and read position on the first character, line 1. */
    constructor (source: string)
      ensures Valid() && src == source && Cur() == Cursor(0, 0, 1)
    {
      src := source;
      start := 0;
      current := 0;
      line := 1;
    }

    /** Consume one character; at the terminator, answer NUL and stay. */
    method Advance() returns (ch: char)
      requires Valid()
      modifies this`current
      ensures Valid()
      ensures ch == At(src, old(current))
      ensures current == if ch == NUL then old(current) else old(current) + 1
    {
      if IsEnd(At(src, current)) {
        return NUL;
      }
      current := current + 1;
      ch := src[current - 1];
    }

    /** `peek`: the character under the read position; NUL once past the buffer. */
    function Peek(): (c: char)
      reads this
      ensures current < |src| ==> c == src[current]
      ensures current >= |src| ==> c == NUL
    {
      At(src, current)
    }

    /**
     * `next_peek`: the character after the read position, or NUL when the read
     * position is on the terminator, so it never reads past the terminator.
     */
    function NextPeek(): (c: char)
      reads this
      ensures IsEnd(Peek()) ==> c == NUL
      ensures c != NUL ==> current + 1 < |src| && !IsEnd(src[current]) && c == src[current + 1]
      ensures !IsEnd(Peek()) ==> c == At(src, current + 1)
    {
      if IsEnd(At(src, current)) then NUL else At(src, current + 1)
    }

    /** `skip_white_space`: skip blanks and `//` comments, counting newlines. */
    method SkipWhiteSpace()
      requires Valid()
      modifies this`current, this`line
      ensures Valid()
      ensures (current, line) == SkipWs(src, old(current), old(line))
    {
      while !IsEnd(Peek())
        invariant Valid()
        invariant SkipWs(src, current, line) == SkipWs(src, old(current), old(line))
        decreases |src| - current
      {
        if Peek() == ' ' || Peek() == '\t' {
          var _ := Advance();
        } else if Peek() == '\n' {
          line := line + 1;
          var _ := Advance();
        } else if Peek() == '/' && NextPeek() == '/' {
          ghost var from := current;
          while true
            invariant Valid() && from <= current
            invariant SkipComment(src, current) == SkipComment(src, from)
            invariant SkipWs(src, SkipComment(src, from), line) == SkipWs(src, old(current), old(line))
            invariant from < current || At(src, from) != NUL
            decreases |src| - current
          {
            var ch := Advance();
            if ch == '\n' || IsEnd(ch) {
              break;
            }
          }
        } else {
          break;
        }
      }
    }

    /** `create_token`: a token of the kind over exactly the characters `[start, current)`. */
    function CreateToken(kind: TokenType): (t: Token)
      requires start <= current
      reads this
      ensures Scanned(t, Cur()) == Made(kind, start, current, line)
    {
      Token(kind, InSource(start), current - start, line)
    }

    /** `token_number`: extend the token over the rest of its digit run. */
    method TokenNumber() returns (t: Token)
      requires Valid()
      modifies this`current
      ensures Valid()
      ensures current == DigitRunEnd(src, old(current))
      ensures t == CreateToken(Integer)
    {
      while IsDigit(At(src, current))
        invariant Valid() && old(current) <= current
        invariant DigitRunEnd(src, current) == DigitRunEnd(src, old(current))
        decreases |src| - current
      {
        current := current + 1;
      }
      t := Token(Integer, InSource(start), current - start, line);
    }

    /** `token_identifier_keyword`: extend over the word, then classify it. */
    method TokenIdentifierKeyword() returns (t: Token)
      requires Valid()
      modifies this`current
      ensures Valid()
      ensures current == WordRunEnd(src, old(current))
      ensures t == CreateToken(KeywordKind(src[start..current]))
    {
      while IsDigit(At(src, current)) || IsAlphabet(At(src, current))
        invariant Valid() && old(current) <= current
        invariant WordRunEnd(src, current) == WordRunEnd(src, old(current))
        decreases |src| - current
      {
        current := current + 1;
      }
      t := Token(Identifier, InSource(start), current - start, line);
      t := CheckKeyword(src, t);
    }

    /** `error_token`: an ERROR token pointing at `message`, on the current line. */
    method ErrorToken(message: string) returns (t: Token)
      ensures t.kind == Error && t.start == InMessage(message) && t.line == line
      ensures t.length <= |message| && At(message, t.length) == NUL
      ensures forall k | 0 <= k < t.length :: message[k] != NUL
    {
      var size := GetSize(message);
      t := Token(Error, InMessage(message), size, line);
    }

    /**
     * The lookahead written out for each of `!`, `=`, `>` and `<`: take a
     * following `=` into the `double` token, otherwise emit the `single` one.
     */
    method OneOrTwo(single: TokenType, double: TokenType) returns (t: Token)
      requires Valid() && start < current
      modifies this`current
      ensures Valid()
      ensures old(Peek()) == '=' ==> current == old(current) + 1 && t == CreateToken(double)
      ensures old(Peek()) != '=' ==> current == old(current) && t == CreateToken(single)
    {
      if Peek() == '=' {
        current := current + 1;
        return CreateToken(double);
      }
      return CreateToken(single);
    }

    /** `scan_token`: one token, as `Scan` specifies. */
    method ScanToken() returns (t: Token)
      requires Valid()
      modifies this
      ensures Valid()
      ensures Scanned(t, Cur()) == Scan(src, old(Cur()))
    {
      SkipWhiteSpace();
      start := current;
      assert Scan(src, old(Cur())) == Classify(src, start, line);
      var ch := Advance();
      if IsDigit(ch) {
        t := TokenNumber();
        return;
      }
      if IsAlphabet(ch) {
        t := TokenIdentifierKeyword();
        return;
      }
      assert Scan(src, old(Cur())) == Punctuation(src, start, line);
      t := PunctuationToken(ch);
    }

    /** The `switch` of `scan_token`, once `ch` has been taken at `start`. */
    method PunctuationToken(ch: char) returns (t: Token)
      requires Valid() && ch == At(src, start)
      requires current == if ch == NUL then start else start + 1
      modifies this`current
      ensures Valid()
      ensures Scanned(t, Cur()) == Punctuation(src, start, line)
    {
      match ch {
        case '+' => t := CreateToken(Plus);
        case '-' => t := CreateToken(Minus);
        case '*' => t := CreateToken(Star);
        case '/' => t := CreateToken(Slash);
        case '(' => t := CreateToken(OpenParen);
        case ')' => t := CreateToken(CloseParen);
        case '{' => t := CreateToken(OpenBrace);
        case '}' => t := CreateToken(CloseBrace);
        case ';' => t := CreateToken(Semicolon);
        case '\0' => t := CreateToken(Eof);
        case '!' =>
          t := OneOrTwo(Bang, BangEqual);
        case '=' =>
          t := OneOrTwo(Equal, EqualEqual);
        case '>' =>
          t := OneOrTwo(Greater, GreaterEqual);
        case '<' =>
          t := OneOrTwo(Smaller, SmallerEqual);
        case _ =>
          MessageHasNoNul();
          t := ErrorToken(UnexpectedCharacter);
      }
    }
  }
}
