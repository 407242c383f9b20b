/**
 Character-level string operations the tool relies on: Go's `strings.Contains`
 (the deployment name filter) and `strings.Replace(s, ";", "\\;", -1)` (the
 semicolon escape applied before writing), together with the reference
 definitions and inverses used to state what they compute.
 */
module Strings {

  /** True iff `prefix` is an initial segment of `s`. */
  predicate IsPrefix(prefix: string, s: string) {
    |prefix| <= |s| && s[..|prefix|] == prefix
  }

  /** `strings.Contains(s, sub)`, computed by trying every start position in turn. */
  predicate Contains(s: string, sub: string)
    decreases |s|
  {
    IsPrefix(sub, s) || (0 < |s| && Contains(s[1..], sub))
  }

  /** Reference definition of an occurrence: `sub` appears in `s` starting at index `i`. */
  ghost predicate OccursAt(s: string, sub: string, i: int) {
    0 <= i && i + |sub| <= |s| && s[i..i + |sub|] == sub
  }

  /** `Contains` holds exactly when `sub` occurs somewhere in `s`. */
  lemma {:induction false} ContainsIffOccurs(s: string, sub: string)
    ensures Contains(s, sub) <==> exists i :: OccursAt(s, sub, i)
    decreases |s|
  {
    if IsPrefix(sub, s) {
      assert s[0..|sub|] == s[..|sub|];
      assert OccursAt(s, sub, 0);
    } else if |s| == 0 {
    } else {
      ContainsIffOccurs(s[1..], sub);
      if i :| OccursAt(s[1..], sub, i) {
        assert s[1..][i..i + |sub|] == s[i + 1..i + 1 + |sub|];
        assert OccursAt(s, sub, i + 1);
      }
      if j :| OccursAt(s, sub, j) {
        assert j != 0 by {
          assert s[0..|sub|] == s[..|sub|];
        }
        assert s[1..][j - 1..j - 1 + |sub|] == s[j..j + |sub|];
        assert OccursAt(s[1..], sub, j - 1);
      }
    }
  }

  /** Searching for a one-character string is searching for that character. */
  lemma {:induction false} ContainsChar(s: string, c: char)
    ensures Contains(s, [c]) <==> c in s
    decreases |s|
  {
    if |s| > 0 {
      assert IsPrefix([c], s) <==> s[0] == c by {
        assert s[..1] == [s[0]];
      }
      ContainsChar(s[1..], c);
      assert s == [s[0]] + s[1..];
    }
  }

  /** Number of occurrences of the character `c` in `s`. */
  function Count(c: char, s: string): (n: nat)
    ensures n <= |s|
    ensures n == 0 <==> c !in s
  {
    if |s| == 0 then 0
    else
      assert s == [s[0]] + s[1..];
      (if s[0] == c then 1 else 0) + Count(c, s[1..])
  }

  lemma {:induction false} CountAppend(c: char, a: string, b: string)
    ensures Count(c, a + b) == Count(c, a) + Count(c, b)
    decreases |a|
  {
    if |a| > 0 {
      assert (a + b)[1..] == a[1..] + b;
      CountAppend(c, a[1..], b);
    } else {
      assert a + b == b;
    }
  }

  /**
   The escape applied to every `.env` line: each ';' becomes the two characters
   '\' ';' and every other character is kept. The result grows by one character
   per ';', and no ';' of the result is left without a '\' in front of it.
   */
  function EscapeSemicolons(s: string): (r: string)
    ensures |r| == |s| + Count(';', s)
    ensures forall i :: 0 <= i < |r| && r[i] == ';' ==> 0 < i && r[i - 1] == '\\'
  {
    if |s| == 0 then ""
    else if s[0] == ';' then "\\;" + EscapeSemicolons(s[1..])
    else [s[0]] + EscapeSemicolons(s[1..])
  }

  /** A text without ';' is left exactly as it is. */
  lemma {:induction false} EscapeWithoutSemicolon(s: string)
    requires ';' !in s
    ensures EscapeSemicolons(s) == s
    decreases |s|
  {
    if |s| > 0 {
      assert s[0] != ';';
      assert ';' !in s[1..];
      EscapeWithoutSemicolon(s[1..]);
      assert s == [s[0]] + s[1..];
    }
  }

  /** Escaping distributes over concatenation: each character is escaped on its own. */
  lemma {:induction false} EscapeAppend(a: string, b: string)
    ensures EscapeSemicolons(a + b) == EscapeSemicolons(a) + EscapeSemicolons(b)
    decreases |a|
  {
    if |a| == 0 {
      assert a + b == b;
    } else {
      assert (a + b)[1..] == a[1..] + b;
      assert (a + b)[0] == a[0];
      EscapeAppend(a[1..], b);
    }
  }

  /** The escape neither adds nor removes ';' characters: each one moves right by one '\'. */
  lemma {:induction false} EscapeKeepsSemicolonCount(s: string)
    ensures Count(';', EscapeSemicolons(s)) == Count(';', s)
    decreases |s|
  {
    if |s| > 0 {
      var rest := EscapeSemicolons(s[1..]);
      EscapeKeepsSemicolonCount(s[1..]);
      if s[0] == ';' {
        CountAppend(';', "\\;", rest);
        assert Count(';', "\\;") == 1 by {
          assert "\\;"[1..] == ";";
          assert ";"[1..] == "";
        }
      } else {
        CountAppend(';', [s[0]], rest);
        assert [s[0]][1..] == "";
      }
    }
  }

  /** The escape never introduces the character `c` unless `c` is '\' or ';'. */
  lemma {:induction false} EscapeKeepsOtherChars(s: string, c: char)
    requires c != '\\' && c != ';'
    ensures c in EscapeSemicolons(s) <==> c in s
    decreases |s|
  {
    if |s| > 0 {
      EscapeKeepsOtherChars(s[1..], c);
      assert s == [s[0]] + s[1..];
    }
  }

  /**
   Escaping a second time changes an already escaped text that contains a ';':
   the escape must be applied exactly once.
   */
  lemma {:induction false} EscapeNotIdempotent(s: string)
    requires ';' in s
    ensures EscapeSemicolons(EscapeSemicolons(s)) != EscapeSemicolons(s)
  {
    EscapeKeepsSemicolonCount(s);
  }

  /** Undoes the escape: every '\' ';' pair is read back as ';'. */
  function Unescape(s: string): string
    decreases |s|
  {
    if |s| == 0 then ""
    else if 2 <= |s| && s[0] == '\\' && s[1] == ';' then ";" + Unescape(s[2..])
    else [s[0]] + Unescape(s[1..])
  }

  /** The escape loses nothing: `Unescape` recovers the original text. */
  lemma {:induction false} UnescapeEscape(s: string)
    ensures Unescape(EscapeSemicolons(s)) == s
    decreases |s|
  {
    if |s| > 0 {
      var rest := EscapeSemicolons(s[1..]);
      UnescapeEscape(s[1..]);
      if s[0] == ';' {
        assert ("\\;" + rest)[2..] == rest;
      } else {
        var r := [s[0]] + rest;
        assert r[1..] == rest;
        // `rest` cannot start with ';': every ';' of an escaped text has a '\' in front.
        assert 2 <= |r| ==> r[1] != ';';
        assert s == [s[0]] + s[1..];
      }
    }
  }

  /** Index of the first `c` in `s`, or `|s|` when `c` does not occur. */
  function IndexOf(c: char, s: string): (i: nat)
    ensures i <= |s|
    ensures i < |s| ==> s[i] == c
    ensures forall k :: 0 <= k < i ==> s[k] != c
  {
    if |s| == 0 then 0
    else if s[0] == c then 0
    else 1 + IndexOf(c, s[1..])
  }

  /** The first `c` of `a + [c] + b` is the one right after `a` when `a` holds none. */
  lemma {:induction false} IndexOfAfter(c: char, a: string, b: string)
    requires c !in a
    ensures IndexOf(c, a + [c] + b) == |a|
  {
    var s := a + [c] + b;
    assert s[|a|] == c;
  }
}
