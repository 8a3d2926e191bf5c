/**
 * The text `errorAt` writes to stderr, as a value: `[line N] Error`, the
 * location, then `: message` and a newline.
 */
module Diagnostics {
  import opened Tokens
  import opened LexSpec

  function DigitChar(d: nat): (c: char)
    requires d < 10
  {
    ('0' as int + d) as char
  }

  /** `%d` of a non-negative line number. */
  function NatToString(n: nat): (s: string)
    ensures |s| >= 1
    ensures forall k | 0 <= k < |s| :: IsDigit(s[k])
    ensures s[0] == '0' <==> n == 0
    decreases n
  {
    if n < 10 then [DigitChar(n)] else NatToString(n / 10) + [DigitChar(n % 10)]
  }

  /** The number a string of decimal digits denotes. */
  function DigitsValue(s: string): nat
    requires forall k | 0 <= k < |s| :: IsDigit(s[k])
  {
    if s == [] then 0
    else
      assert IsDigit(s[|s| - 1]);
      DigitsValue(s[..|s| - 1]) * 10 + (s[|s| - 1] as int - '0' as int)
  }

  /** The printed line number reads back as the line number. */
  lemma {:induction false} DecimalRoundTrip(n: nat)
    ensures DigitsValue(NatToString(n)) == n
    decreases n
  {
    if n >= 10 {
      DecimalRoundTrip(n / 10);
      var s := NatToString(n);
      assert s[..|s| - 1] == NatToString(n / 10);
    }
  }

  /** `%.*s` of a token: the first `length` characters its start points at. */
  function TokenText(src: string, t: Token): string
  {
    match t.start
    case InSource(o) => if o + t.length <= |src| then src[o..o + t.length] else ""
    case InMessage(m) => if t.length <= |m| then m[..t.length] else m
  }

  /** Where the error is: ` at end` for EOF, nothing for ERROR, ` at '<lexeme>'` otherwise. */
  function Location(kind: TokenType, text: string): string
  {
    if kind == Eof then " at end"
    else if kind != Error then " at '" + text + "'"
    else ""
  }

  /** The whole diagnostic line for an error at a token on `line`. */
  function Diagnostic(line: nat, kind: TokenType, text: string, message: string): (d: string)
    ensures |d| >= |message| + 17 && d[..6] == "[line "
    ensures d[|d| - |message| - 3..] == ": " + message + "\n"
  {
    "[line " + NatToString(line) + "] Error" + Location(kind, text) + ": " + message + "\n"
  }
}
