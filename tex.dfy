/**
 * TeX escaping of one special character at a time, `s.replace(c, "\\" + c)`, and the reading
 * that undoes it.
 */
module TexEscape {

  import opened Text

  /** `s.replace(c, "\\" + c)` */
  function Escape(s: string, c: char): string
  {
    ReplaceChar(s, c, ['\\', c])
  }

  /** Reads `\c` back as `c`, left to right; every other character stays. */
  function Unescape(s: string, c: char): string
    decreases |s|
  {
    if s == [] then []
    else if |s| >= 2 && s[0] == '\\' && s[1] == c then [c] + Unescape(s[2..], c)
    else [s[0]] + Unescape(s[1..], c)
  }

  /** An escaped string never starts with the escaped character itself. */
  lemma EscapeHead(s: string, c: char)
    requires c != '\\' && Escape(s, c) != []
    ensures Escape(s, c)[0] != c
  {
  }

  /** Escaping loses nothing: reading the escapes back gives the original string. */
  lemma {:induction false} UnescapeEscape(s: string, c: char)
    requires c != '\\'
    ensures Unescape(Escape(s, c), c) == s
    decreases |s|
  {
    if s != [] {
      var rest := Escape(s[1..], c);
      UnescapeEscape(s[1..], c);
      if s[0] == c {
        assert Escape(s, c) == ['\\', c] + rest;
        assert (['\\', c] + rest)[2..] == rest;
      } else {
        assert Escape(s, c) == [s[0]] + rest;
        if rest != [] {
          EscapeHead(s[1..], c);
        }
        assert ([s[0]] + rest)[1..] == rest;
      }
    }
  }

  /** Every occurrence of the character in the escaped string has a backslash before it. */
  lemma {:induction false} EscapedOccurrences(s: string, c: char, i: nat)
    requires c != '\\' && i < |Escape(s, c)| && Escape(s, c)[i] == c
    ensures i > 0 && Escape(s, c)[i - 1] == '\\'
    decreases |s|
  {
    var rest := Escape(s[1..], c);
    var head: string := if s[0] == c then ['\\', c] else [s[0]];
    assert Escape(s, c) == head + rest;
    if i >= |head| {
      EscapedOccurrences(s[1..], c, i - |head|);
      if i - |head| > 0 {
        assert Escape(s, c)[i - 1] == rest[i - |head| - 1];
      }
    } else {
      assert head == ['\\', c] && i == 1;
    }
  }

  /** Escaping leaves a string without the character unchanged. */
  lemma EscapeAbsent(s: string, c: char)
    requires c !in s
    ensures Escape(s, c) == s
  {
    ReplaceAbsent(s, c, ['\\', c]);
  }
}
