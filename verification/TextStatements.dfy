/** The operations on text, told by the characters they look at. */
module TextStatements {
  import opened Text

  /** The texts agree up to n, where the first ends or has the smaller byte. */
  predicate Differs(a: string, b: string, n: nat)
  {
    && n <= |a| && n < |b| && a[..n] == b[..n]
    && (n == |a| || a[n] < b[n])
  }

  lemma {:induction false} LessExactly(a: string, b: string)
    ensures Less(a, b) <==> exists n :: Differs(a, b, n)
  {
    if a == "" || b == "" || a[0] != b[0] {
      assert b != "" && (a == "" || a[0] < b[0]) ==> Differs(a, b, 0);
    } else {
      LessExactly(a[1..], b[1..]);
      if n: nat :| Differs(a[1..], b[1..], n) {
        assert a[..n + 1] == [a[0]] + a[1..][..n] && b[..n + 1] == [b[0]] + b[1..][..n];
        assert Differs(a, b, n + 1);
      }
      if n: nat :| Differs(a, b, n) {
        assert n > 0;
        assert a[1..][..n - 1] == a[..n][1..] && b[1..][..n - 1] == b[..n][1..];
        assert Differs(a[1..], b[1..], n - 1);
      }
    }
  }

  predicate IsBlank(c: char)
  {
    c in {' ', '\t', '\n', '\r', 0x0B as char, 0x0C as char}
  }

  predicate Blank(s: string)
  {
    forall i :: 0 <= i < |s| ==> IsBlank(s[i])
  }

  /** The text without its blank ends: what stands between position i and j. */
  predicate IsTrimmed(s: string, i: nat, j: nat)
  {
    && i <= j <= |s| && Blank(s[..i]) && Blank(s[j..])
    && (i < j ==> !IsBlank(s[i]) && !IsBlank(s[j - 1]))
  }

  lemma {:induction false} LeftExactly(s: string) returns (i: nat)
    ensures i <= |s| && TrimLeft(s) == s[i..] && Blank(s[..i]) && (i < |s| ==> !IsBlank(s[i]))
  {
    if s != "" && IsSpace(s[0]) {
      var k := LeftExactly(s[1..]);
      i := k + 1;
      assert s[..i] == [s[0]] + s[1..][..k];
    } else {
      i := 0;
    }
  }

  lemma {:induction false} RightExactly(s: string) returns (j: nat)
    ensures j <= |s| && TrimRight(s) == s[..j] && Blank(s[j..]) && (j > 0 ==> !IsBlank(s[j - 1]))
  {
    if s != "" && IsSpace(s[|s| - 1]) {
      j := RightExactly(s[..|s| - 1]);
      assert s[j..] == s[..|s| - 1][j..] + [s[|s| - 1]];
    } else {
      j := |s|;
    }
  }

  lemma TrimExactly(s: string) returns (i: nat, j: nat)
    ensures IsTrimmed(s, i, j) && TrimSpace(s) == s[i..j]
  {
    i := LeftExactly(s);
    var k := RightExactly(s[i..]);
    j := i + k;
    assert s[i..][..k] == s[i..j] && s[i..][k..] == s[j..];
    assert i < j ==> s[i..j][0] == s[i];
    if k == 0 {
      assert s[i..] == s[j..];
    }
  }

  /** Capital letters of the alphabet become small ones, nothing else changes. */
  lemma LowerExactly(s: string, i: nat)
    requires i < |s|
    ensures |ToLower(s)| == |s|
    ensures s[i] in "ABCDEFGHIJKLMNOPQRSTUVWXYZ" ==> ToLower(s)[i] as int == s[i] as int + 0x20
    ensures s[i] !in "ABCDEFGHIJKLMNOPQRSTUVWXYZ" ==> ToLower(s)[i] == s[i]
  {
    var letters := "ABCDEFGHIJKLMNOPQRSTUVWXYZ";
    assert |letters| == 26 && forall k :: 0 <= k < 26 ==> letters[k] as int == 0x41 + k;
    if 0x41 <= s[i] as int <= 0x5A {
      assert letters[s[i] as int - 0x41] == s[i];
    }
  }

  /** The characters of a text are the bytes that start one. */
  lemma {:induction false} CharactersExactly(s: string)
    ensures Characters(s) == |set i | 0 <= i < |s| && !(0x7F < s[i] as int < 0xC0)|
  {
    var starts := set i | 0 <= i < |s| && !(0x7F < s[i] as int < 0xC0);
    if s != "" {
      var last, front := |s| - 1, s[..|s| - 1];
      CharactersExactly(front);
      var before := set i | 0 <= i < last && !(0x7F < front[i] as int < 0xC0);
      assert starts == before + if 0x7F < s[last] as int < 0xC0 then {} else {last};
    }
  }
}
