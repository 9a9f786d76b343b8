/**
 Text is a sequence of bytes, one char for each, as Go's len and slices see it: byte-wise
 order, the few operations the stores rely on, and the character count SQL's LENGTH gives.
*/
module Text {
  /** ORDER BY on a text column, and Go's `<` on strings. */
  predicate Less(a: string, b: string)
  {
    if b == "" then false
    else if a == "" then true
    else a[0] < b[0] || (a[0] == b[0] && Less(a[1..], b[1..]))
  }

  lemma {:induction false} LessTotal(a: string, b: string)
    ensures Less(a, b) || Less(b, a) || a == b
  {
    if a != "" && b != "" && a[0] == b[0] {
      LessTotal(a[1..], b[1..]);
      assert a == [a[0]] + a[1..] && b == [b[0]] + b[1..];
    }
  }

  lemma {:induction false} LessTransitive(a: string, b: string, c: string)
    requires Less(a, b) && Less(b, c)
    ensures Less(a, c)
  {
    if a != "" && a[0] == b[0] && b[0] == c[0] {
      LessTransitive(a[1..], b[1..], c[1..]);
    }
  }

  lemma {:induction false} LessIrreflexive(a: string)
    ensures !Less(a, a)
  {
    if a != "" {
      LessIrreflexive(a[1..]);
    }
  }

  lemma LessAsymmetric(a: string, b: string)
    requires Less(a, b)
    ensures !Less(b, a)
  {
    if Less(b, a) {
      LessTransitive(a, b, a);
      LessIrreflexive(a);
    }
  }

  /** COALESCE over NULLIF(x, ''), and Go's cmp.Or on strings. */
  function Or(a: string, b: string): string
  {
    if a != "" then a else b
  }

  /** A byte of a multi-byte UTF-8 character other than its first. */
  predicate IsContinuation(c: char)
  {
    0x80 <= c as int < 0xC0
  }

  /** LENGTH of a text column: its characters, each counted at its first byte. */
  function Characters(s: string): nat
  {
    if s == "" then 0
    else Characters(s[..|s| - 1]) + if IsContinuation(s[|s| - 1]) then 0 else 1
  }

  /** Only single-byte characters, seen from the bytes. */
  predicate SingleByte(s: string)
  {
    forall i :: 0 <= i < |s| ==> !IsContinuation(s[i])
  }

  /** There are never more characters than bytes, and as many exactly when all are single-byte. */
  lemma {:induction false} CharactersAtMostBytes(s: string)
    ensures Characters(s) <= |s|
    ensures Characters(s) == |s| <==> SingleByte(s)
  {
    if s != "" {
      CharactersAtMostBytes(s[..|s| - 1]);
      assert SingleByte(s) <==> SingleByte(s[..|s| - 1]) && !IsContinuation(s[|s| - 1]);
    }
  }

  /** Go's single-byte white space: the blank, and tab to carriage return. */
  predicate IsSpace(c: char)
  {
    c == ' ' || 0x09 <= c as int <= 0x0D
  }

  function TrimLeft(s: string): string
  {
    if s != "" && IsSpace(s[0]) then TrimLeft(s[1..]) else s
  }

  function TrimRight(s: string): string
  {
    if s != "" && IsSpace(s[|s| - 1]) then TrimRight(s[..|s| - 1]) else s
  }

  function TrimSpace(s: string): string
  {
    TrimRight(TrimLeft(s))
  }

  function LowerChar(c: char): char
  {
    if 'A' <= c <= 'Z' then c - 'A' + 'a' else c
  }

  function ToLower(s: string): string
  {
    seq(|s|, i requires 0 <= i < |s| => LowerChar(s[i]))
  }
}
