/**
 * Python string operations the core relies on, over `string` (= seq<char>).
 * Character classes are the ASCII part of Python's (`str.isspace`, `\s`, `\d`, `\w`);
 * `lower()` folds ASCII letters only.
 */
module Text {

  /** The ASCII characters for which `str.isspace()` holds and `\s` matches. */
  const Whitespace: set<char> :=
    {' ', '\t', '\n', '\r', '\U{000b}', '\U{000c}', '\U{001c}', '\U{001d}', '\U{001e}', '\U{001f}'}

  predicate IsSpace(c: char) { c in Whitespace }

  predicate IsDigit(c: char) { '0' <= c <= '9' }

  predicate IsAsciiLetter(c: char) { 'a' <= c <= 'z' || 'A' <= c <= 'Z' }

  /** `\w` */
  predicate IsWordChar(c: char) { IsAsciiLetter(c) || IsDigit(c) || c == '_' }

  /** `[0-9a-f]` under `re.IGNORECASE` */
  predicate IsHexDigit(c: char) { IsDigit(c) || 'a' <= c <= 'f' || 'A' <= c <= 'F' }

  predicate AllDigits(s: string) { forall i :: 0 <= i < |s| ==> IsDigit(s[i]) }

  predicate AllWordChars(s: string) { forall i :: 0 <= i < |s| ==> IsWordChar(s[i]) }

  function LowerChar(c: char): char {
    if 'A' <= c <= 'Z' then (c as int + 32) as char else c
  }

  /** `s.lower()` */
  function Lower(s: string): (r: string)
    ensures |r| == |s|
  {
    seq(|s|, i requires 0 <= i < |s| => LowerChar(s[i]))
  }

  /** Lower-casing is idempotent and never produces an upper-case ASCII letter. */
  lemma LowerIdempotent(s: string)
    ensures Lower(Lower(s)) == Lower(s)
    ensures forall i :: 0 <= i < |s| ==> !('A' <= Lower(s)[i] <= 'Z')
  {
  }

  function UpperChar(c: char): char {
    if 'a' <= c <= 'z' then (c as int - 32) as char else c
  }

  /** `s.upper()` on ASCII text. */
  function Upper(s: string): (r: string)
    ensures |r| == |s| && forall i :: 0 <= i < |s| ==> r[i] == UpperChar(s[i])
  {
    seq(|s|, i requires 0 <= i < |s| => UpperChar(s[i]))
  }

  predicate StartsWith(s: string, p: string) { |p| <= |s| && s[..|p|] == p }

  predicate EndsWith(s: string, p: string) { |p| <= |s| && s[|s| - |p|..] == p }

  /** `sub in s` */
  predicate Contains(s: string, sub: string)
    decreases |s|
  {
    StartsWith(s, sub) || (|s| > 0 && Contains(s[1..], sub))
  }

  /** `sub in s` holds exactly when `sub` occurs at some index of `s`. */
  lemma {:induction false} ContainsIff(s: string, sub: string)
    ensures Contains(s, sub) <==> exists i :: 0 <= i <= |s| - |sub| && StartsWith(s[i..], sub)
    decreases |s|
  {
    assert s[0..] == s;
    if |s| > 0 {
      ContainsIff(s[1..], sub);
      if Contains(s[1..], sub) {
        var i :| 0 <= i <= |s[1..]| - |sub| && StartsWith(s[1..][i..], sub);
        assert s[i + 1..] == s[1..][i..];
      }
      if i :| 0 <= i <= |s| - |sub| && StartsWith(s[i..], sub) {
        if i > 0 {
          assert s[1..][i - 1..] == s[i..];
        }
      }
    }
  }

  /** Occurrence at a given index implies containment. */
  lemma ContainsAt(s: string, sub: string, i: nat)
    requires i <= |s| - |sub| && StartsWith(s[i..], sub)
    ensures Contains(s, sub)
  {
    ContainsIff(s, sub);
  }

  /** A string that contains `sub` keeps it inside any larger context. */
  lemma ContainsInConcat(a: string, s: string, b: string, sub: string)
    requires Contains(s, sub)
    ensures Contains(a + s + b, sub)
  {
    ContainsIff(s, sub);
    var i :| 0 <= i <= |s| - |sub| && StartsWith(s[i..], sub);
    assert (a + s + b)[|a| + i..][..|sub|] == s[i..][..|sub|];
    ContainsAt(a + s + b, sub, |a| + i);
  }

  /** A string never contains a character it does not hold. */
  lemma NotContainsChar(s: string, c: char)
    requires c !in s
    ensures !Contains(s, [c])
  {
    ContainsIff(s, [c]);
    forall i | 0 <= i <= |s| - 1
      ensures !StartsWith(s[i..], [c])
    {
      assert s[i..][0] == s[i];
    }
  }

  /** `s.lstrip(cs)`: drop the maximal leading run of characters from `cs`. */
  function StripLeftSet(s: string, cs: set<char>): (r: string)
    ensures |r| <= |s|
    ensures r == [] || r[0] !in cs
    ensures forall i :: 0 <= i < |s| - |r| ==> s[i] in cs
    decreases |s|
  {
    if |s| > 0 && s[0] in cs then StripLeftSet(s[1..], cs) else s
  }

  /** `s.rstrip(cs)`: drop the maximal trailing run of characters from `cs`. */
  function StripRightSet(s: string, cs: set<char>): (r: string)
    ensures |r| <= |s|
    ensures r == [] || r[|r| - 1] !in cs
    ensures forall i :: |r| <= i < |s| ==> s[i] in cs
    decreases |s|
  {
    if |s| > 0 && s[|s| - 1] in cs then StripRightSet(s[..|s| - 1], cs) else s
  }

  /** What `lstrip` keeps is a suffix of the string. */
  lemma {:induction false} StripLeftSetSuffix(s: string, cs: set<char>)
    ensures StripLeftSet(s, cs) == s[|s| - |StripLeftSet(s, cs)|..]
    decreases |s|
  {
    if |s| > 0 && s[0] in cs {
      StripLeftSetSuffix(s[1..], cs);
      assert s[1..][|s[1..]| - |StripLeftSet(s[1..], cs)|..] == s[|s| - |StripLeftSet(s, cs)|..];
    }
  }

  /** What `rstrip` keeps is a prefix of the string. */
  lemma {:induction false} StripRightSetPrefix(s: string, cs: set<char>)
    ensures StripRightSet(s, cs) == s[..|StripRightSet(s, cs)|]
    decreases |s|
  {
    if |s| > 0 && s[|s| - 1] in cs {
      StripRightSetPrefix(s[..|s| - 1], cs);
      assert s[..|s| - 1][..|StripRightSet(s, cs)|] == s[..|StripRightSet(s, cs)|];
    }
  }

  /** `s.strip(cs)` */
  function StripSet(s: string, cs: set<char>): string {
    StripRightSet(StripLeftSet(s, cs), cs)
  }

  /** `s.strip()` */
  function Strip(s: string): string {
    StripSet(s, Whitespace)
  }

  /** Stripping on the left removes a prefix made of stripped characters and stops at the first kept one. */
  lemma {:induction false} StripLeftPrefix(p: string, s: string, cs: set<char>)
    requires forall i :: 0 <= i < |p| ==> p[i] in cs
    requires s == [] || s[0] !in cs
    ensures StripLeftSet(p + s, cs) == s
    decreases |p|
  {
    if p == [] {
      assert p + s == s;
    } else {
      assert (p + s)[1..] == p[1..] + s;
      StripLeftPrefix(p[1..], s, cs);
    }
  }

  /** Stripping on the right removes a suffix made of stripped characters and stops at the last kept one. */
  lemma {:induction false} StripRightSuffix(s: string, p: string, cs: set<char>)
    requires forall i :: 0 <= i < |p| ==> p[i] in cs
    requires s == [] || s[|s| - 1] !in cs
    ensures StripRightSet(s + p, cs) == s
    decreases |p|
  {
    if p == [] {
      assert s + p == s;
    } else {
      assert (s + p)[..|s + p| - 1] == s + p[..|p| - 1];
      StripRightSuffix(s, p[..|p| - 1], cs);
    }
  }

  /** A string with no strippable character at either end is its own strip. */
  lemma StripSetNoop(s: string, cs: set<char>)
    requires s == [] || (s[0] !in cs && s[|s| - 1] !in cs)
    ensures StripSet(s, cs) == s
  {
  }

  /** Stripping twice is stripping once. */
  lemma StripSetIdempotent(s: string, cs: set<char>)
    ensures StripSet(StripSet(s, cs), cs) == StripSet(s, cs)
  {
    var l := StripLeftSet(s, cs);
    var r := StripRightSet(l, cs);
    StripRightSetPrefix(l, cs);
    if r != [] {
      assert r[0] == l[0];
    }
    StripSetNoop(r, cs);
  }

  /** A strip that keeps something starts and ends with kept characters. */
  lemma StripKeptEnds(s: string)
    ensures var t := Strip(s); t == [] || (!IsSpace(t[0]) && !IsSpace(t[|t| - 1]))
  {
    var l := StripLeftSet(s, Whitespace);
    StripRightSetPrefix(l, Whitespace);
    if Strip(s) != [] {
      assert Strip(s)[0] == l[0];
    }
  }

  /** The strip of `s` is a contiguous piece of `s`. */
  lemma StripSetIsSlice(s: string, cs: set<char>)
    ensures exists i, j :: 0 <= i <= j <= |s| && StripSet(s, cs) == s[i..j]
  {
    var l := StripLeftSet(s, cs);
    var r := StripRightSet(l, cs);
    var i := |s| - |l|;
    StripLeftSetSuffix(s, cs);
    StripRightSetPrefix(l, cs);
    assert r == s[i..i + |r|];
  }

  /** `s.split(c)`: the pieces between occurrences of `c`; never empty. */
  function Split(s: string, c: char): (r: seq<string>)
    ensures |r| >= 1
    ensures forall i :: 0 <= i < |r| ==> c !in r[i]
    decreases |s|
  {
    if s == [] then [[]]
    else
      var rest := Split(s[1..], c);
      if s[0] == c then [[]] + rest else [[s[0]] + rest[0]] + rest[1..]
  }

  /** `sep.join(parts)` */
  function Join(parts: seq<string>, sep: string): string
    decreases |parts|
  {
    if |parts| == 0 then []
    else if |parts| == 1 then parts[0]
    else parts[0] + sep + Join(parts[1..], sep)
  }

  /** Joining one more part appends the separator and the part. */
  lemma {:induction false} JoinSnoc(parts: seq<string>, x: string, sep: string)
    requires |parts| >= 1
    ensures Join(parts + [x], sep) == Join(parts, sep) + sep + x
    decreases |parts|
  {
    if |parts| == 1 {
      assert parts + [x] == [parts[0], x];
      assert [parts[0], x][1..] == [x];
    } else {
      JoinSnoc(parts[1..], x, sep);
      assert (parts + [x])[1..] == parts[1..] + [x];
    }
  }

  /** A join starts with its first part. */
  lemma JoinHead(parts: seq<string>, sep: string)
    requires |parts| >= 1
    ensures StartsWith(Join(parts, sep), parts[0])
  {
    if |parts| > 1 {
      assert Join(parts, sep)[..|parts[0]|] == parts[0];
    }
  }

  /** A join of non-empty parts starts with the first part's first character and ends with the last part's last one. */
  lemma JoinEnds(parts: seq<string>, sep: string)
    requires |parts| >= 1 && parts[0] != [] && parts[|parts| - 1] != []
    ensures var j := Join(parts, sep); var last := parts[|parts| - 1];
      |j| >= 1 && j[0] == parts[0][0] && j[|j| - 1] == last[|last| - 1]
  {
    JoinHead(parts, sep);
    JoinTail(parts, sep);
    var j := Join(parts, sep);
    var last := parts[|parts| - 1];
    assert j[0] == j[..|parts[0]|][0];
    assert j[|j| - 1] == j[|j| - |last|..][|last| - 1];
  }

  /** A join ends with its last part. */
  lemma {:induction false} JoinTail(parts: seq<string>, sep: string)
    requires |parts| >= 1
    ensures EndsWith(Join(parts, sep), parts[|parts| - 1])
    decreases |parts|
  {
    if |parts| > 1 {
      JoinTail(parts[1..], sep);
      var j := Join(parts, sep);
      var r := Join(parts[1..], sep);
      var last := parts[|parts| - 1];
      assert j == parts[0] + sep + r;
      assert j[|j| - |last|..] == r[|r| - |last|..];
    }
  }

  /** Joining two non-empty runs of parts puts one separator between their joins. */
  lemma {:induction false} JoinConcat(a: seq<string>, b: seq<string>, sep: string)
    requires |a| >= 1 && |b| >= 1
    ensures Join(a + b, sep) == Join(a, sep) + sep + Join(b, sep)
    decreases |a|
  {
    if |a| == 1 {
      assert (a + b)[1..] == b;
    } else {
      JoinConcat(a[1..], b, sep);
      assert (a + b)[1..] == a[1..] + b;
    }
  }

  /** A part that contains `sub` makes the whole join contain it. */
  lemma {:induction false} JoinContains(parts: seq<string>, sep: string, i: nat, sub: string)
    requires i < |parts| && Contains(parts[i], sub)
    ensures Contains(Join(parts, sep), sub)
    decreases |parts|
  {
    if |parts| > 1 {
      var rest := Join(parts[1..], sep);
      if i == 0 {
        assert Join(parts, sep) == [] + parts[0] + (sep + rest);
        ContainsInConcat([], parts[0], sep + rest, sub);
      } else {
        JoinContains(parts[1..], sep, i - 1, sub);
        assert Join(parts, sep) == (parts[0] + sep) + rest + [];
        ContainsInConcat(parts[0] + sep, rest, [], sub);
      }
    }
  }

  /** Splitting a join on a separator that no part holds gives the parts back. */
  lemma {:induction false} SplitJoin(parts: seq<string>, c: char)
    requires |parts| >= 1
    requires forall i :: 0 <= i < |parts| ==> c !in parts[i]
    ensures Split(Join(parts, [c]), c) == parts
    decreases |parts|
  {
    if |parts| == 1 {
      SplitNoSep(parts[0], c);
    } else {
      SplitJoin(parts[1..], c);
      SplitPrefix(parts[0], c, Join(parts[1..], [c]));
    }
  }

  /** A string without the separator splits into itself alone. */
  lemma {:induction false} SplitNoSep(s: string, c: char)
    requires c !in s
    ensures Split(s, c) == [s]
    decreases |s|
  {
    if s != [] {
      SplitNoSep(s[1..], c);
      assert [s[0]] + s[1..] == s;
    }
  }

  /** Splitting `p + [c] + rest`, where `p` has no separator, puts `p` in front of the pieces of `rest`. */
  lemma {:induction false} SplitPrefix(p: string, c: char, rest: string)
    requires c !in p
    ensures Split(p + [c] + rest, c) == [p] + Split(rest, c)
    decreases |p|
  {
    if p == [] {
      assert p + [c] + rest == [c] + rest;
      assert ([c] + rest)[0] == c && ([c] + rest)[1..] == rest;
    } else {
      assert (p + [c] + rest)[0] == p[0];
      assert (p + [c] + rest)[1..] == p[1..] + [c] + rest;
      SplitPrefix(p[1..], c, rest);
      assert [p[0]] + p[1..] == p;
    }
  }

  /** Joining the pieces of a split with the separator rebuilds the string. */
  lemma {:induction false} JoinSplit(s: string, c: char)
    ensures Join(Split(s, c), [c]) == s
    decreases |s|
  {
    if s != [] {
      JoinSplit(s[1..], c);
      var rest := Split(s[1..], c);
      if s[0] == c {
        assert Split(s, c) == [[]] + rest;
        assert s == [] + [c] + Join(rest, [c]);
      } else {
        var r := Split(s, c);
        assert r == [[s[0]] + rest[0]] + rest[1..];
        if |rest| == 1 {
          assert s == [s[0]] + s[1..];
        } else {
          assert Join(rest, [c]) == rest[0] + [c] + Join(rest[1..], [c]);
          assert r[1..] == rest[1..];
          assert s == [s[0]] + s[1..];
        }
      }
    }
  }

  /** The maximal prefix of `s` without whitespace. */
  function TakeNonSpace(s: string): (r: string)
    ensures |r| <= |s|
    ensures forall i :: 0 <= i < |r| ==> !IsSpace(r[i])
    ensures |r| == |s| || IsSpace(s[|r|])
    decreases |s|
  {
    if s == [] || IsSpace(s[0]) then [] else [s[0]] + TakeNonSpace(s[1..])
  }

  /** `s.split()`: the maximal whitespace-free runs of `s`, in order. */
  function Words(s: string): (r: seq<string>)
    decreases |s|
  {
    var t := StripLeftSet(s, Whitespace);
    if t == [] then []
    else
      var w := TakeNonSpace(t);
      [w] + Words(t[|w|..])
  }

  /** A string with some non-whitespace character has at least one word. */
  lemma WordsNonEmpty(s: string, k: nat)
    requires k < |s| && !IsSpace(s[k])
    ensures |Words(s)| >= 1
  {
    var t := StripLeftSet(s, Whitespace);
    assert t != [];
  }

  /** `s[:n]` */
  function Take(s: string, n: nat): (r: string)
    ensures |r| == if n < |s| then n else |s|
    ensures r == s[..|r|]
  {
    if n < |s| then s[..n] else s
  }

  /** `s.replace(c, by)` for a one-character pattern. */
  function ReplaceChar(s: string, c: char, repl: string): (r: string)
    ensures c !in repl ==> c !in r
    decreases |s|
  {
    if s == [] then []
    else (if s[0] == c then repl else [s[0]]) + ReplaceChar(s[1..], c, repl)
  }

  /** Replacing a character that does not occur changes nothing. */
  lemma {:induction false} ReplaceAbsent(s: string, c: char, repl: string)
    requires c !in s
    ensures ReplaceChar(s, c, repl) == s
    decreases |s|
  {
    if s != [] {
      ReplaceAbsent(s[1..], c, repl);
    }
  }

  /** Python's `<` on `str`: code-point lexicographic order. */
  predicate StrLt(a: string, b: string)
    decreases |a|
  {
    if a == [] then b != []
    else b != [] && (a[0] < b[0] || (a[0] == b[0] && StrLt(a[1..], b[1..])))
  }

  lemma {:induction false} StrLtIrreflexive(a: string)
    ensures !StrLt(a, a)
    decreases |a|
  {
    if a != [] {
      StrLtIrreflexive(a[1..]);
    }
  }

  lemma {:induction false} StrLtTransitive(a: string, b: string, c: string)
    requires StrLt(a, b) && StrLt(b, c)
    ensures StrLt(a, c)
    decreases |a|
  {
    if a != [] && a[0] == b[0] && b[0] == c[0] {
      StrLtTransitive(a[1..], b[1..], c[1..]);
    }
  }

  lemma {:induction false} StrLtTotal(a: string, b: string)
    ensures a == b || StrLt(a, b) || StrLt(b, a)
    decreases |a|
  {
    if a != [] && b != [] && a[0] == b[0] {
      StrLtTotal(a[1..], b[1..]);
      if a[1..] == b[1..] {
        assert a == [a[0]] + a[1..] && b == [b[0]] + b[1..];
      }
    }
  }

  /** `w` occurs at index `i` of `s` as a whole word: `\bw\b` for a word `w`. */
  predicate WordAt(s: string, i: nat, w: string)
  {
    i + |w| <= |s| && s[i..i + |w|] == w
    && (i == 0 || !IsWordChar(s[i - 1]))
    && (i + |w| == |s| || !IsWordChar(s[i + |w|]))
  }

  /** `re.search(r"\b(w1|w2|...)\b", s)` for literal alternatives made of word characters at both ends. */
  predicate HasWholeWord(s: string, words: seq<string>)
  {
    exists i, k :: 0 <= k < |words| && 0 <= i <= |s| && WordAt(s, i, words[k])
  }

  /** The maximal leading run of word characters. */
  function TakeWord(s: string): (r: string)
    ensures |r| <= |s| && AllWordChars(r)
    ensures |r| == |s| || !IsWordChar(s[|r|])
    decreases |s|
  {
    if s == [] || !IsWordChar(s[0]) then [] else [s[0]] + TakeWord(s[1..])
  }

  /** A word followed by anything that does not continue it is read back whole. */
  lemma {:induction false} TakeWordPrefix(w: string, rest: string)
    requires AllWordChars(w) && (rest == [] || !IsWordChar(rest[0]))
    ensures TakeWord(w + rest) == w
    decreases |w|
  {
    if w != [] {
      TakeWordPrefix(w[1..], rest);
      assert (w + rest)[1..] == w[1..] + rest;
    } else {
      assert w + rest == rest;
    }
  }

  /** The maximal leading run of whitespace. */
  function TakeSpace(s: string): (r: string)
    ensures |r| <= |s| && forall i :: 0 <= i < |r| ==> IsSpace(r[i])
    ensures |r| == |s| || !IsSpace(s[|r|])
    decreases |s|
  {
    if s == [] || !IsSpace(s[0]) then [] else [s[0]] + TakeSpace(s[1..])
  }

  /** `str(n)` for a natural number: its decimal digits, most significant first. */
  function NatToString(n: nat): (r: string)
    ensures r != [] && AllDigits(r)
    decreases n
  {
    var d := [(n % 10) as char + '0'];
    if n < 10 then d else NatToString(n / 10) + d
  }

  /** `int(s)` for a string of decimal digits. */
  function DigitsValue(s: string): nat
    requires AllDigits(s)
    decreases |s|
  {
    if s == [] then 0 else DigitsValue(s[..|s| - 1]) * 10 + (s[|s| - 1] - '0') as nat
  }

  /** Reading back the digits `str` writes gives the number. */
  lemma {:induction false} NatToStringRoundTrip(n: nat)
    ensures DigitsValue(NatToString(n)) == n
    decreases n
  {
    var s := NatToString(n);
    if n >= 10 {
      NatToStringRoundTrip(n / 10);
      assert s[..|s| - 1] == NatToString(n / 10);
    }
  }

  /** `str(i)` for any integer. */
  function IntToString(i: int): (r: string)
    ensures r != [] && (r[0] == '-' <==> i < 0)
  {
    if i < 0 then "-" + NatToString(-i) else NatToString(i)
  }

  // ---------------------------------------------------------------- non-word removal and splitting

  /** The word characters of `s`, in order: `re.sub(r'\W+', '', s)`. */
  function WordCharsOf(s: string): (r: string)
    ensures |r| <= |s| && AllWordChars(r)
    decreases |s|
  {
    if s == [] then []
    else (if IsWordChar(s[0]) then [s[0]] else []) + WordCharsOf(s[1..])
  }

  /** Removing non-word characters distributes over concatenation. */
  lemma {:induction false} WordCharsConcat(a: string, b: string)
    ensures WordCharsOf(a + b) == WordCharsOf(a) + WordCharsOf(b)
    decreases |a|
  {
    if a == [] {
      assert a + b == b;
    } else {
      assert (a + b)[0] == a[0] && (a + b)[1..] == a[1..] + b;
      WordCharsConcat(a[1..], b);
      var head: string := if IsWordChar(a[0]) then [a[0]] else [];
      assert WordCharsOf(a + b) == head + WordCharsOf(a[1..] + b);
      assert WordCharsOf(a) == head + WordCharsOf(a[1..]);
    }
  }

  /** The first piece of `s.split(c)` is the text before the first `c`. */
  lemma {:induction false} SplitFirst(s: string, c: char)
    ensures var first := Split(s, c)[0];
      StartsWith(s, first) && (|first| == |s| || s[|first|] == c)
    decreases |s|
  {
    if s != [] && s[0] != c {
      SplitFirst(s[1..], c);
      var first := Split(s, c)[0];
      assert first == [s[0]] + Split(s[1..], c)[0];
      assert s[..|first|] == [s[0]] + s[1..][..|first| - 1];
    }
  }

  /** The last piece of `s.split(c)` is the text after the last `c`, or all of `s` when there is no `c`. */
  lemma {:induction false} SplitLast(s: string, c: char)
    ensures var pieces := Split(s, c); var last := pieces[|pieces| - 1];
      EndsWith(s, last)
      && (|pieces| == 1 ==> last == s)
      && (|pieces| > 1 ==> |last| < |s| && s[|s| - |last| - 1] == c)
    decreases |s|
  {
    if s != [] {
      SplitLast(s[1..], c);
      var rest := Split(s[1..], c);
      var pieces := Split(s, c);
      var last := pieces[|pieces| - 1];
      if s[0] == c || |rest| > 1 {
        assert last == rest[|rest| - 1];
        assert s[1..][|s[1..]| - |last|..] == s[|s| - |last|..];
        if |rest| > 1 {
          assert s[1..][|s[1..]| - |last| - 1] == s[|s| - |last| - 1];
        }
      } else {
        assert last == [s[0]] + rest[0];
        assert s == [s[0]] + s[1..];
      }
    }
  }

  /** A string containing the separator splits into more than one piece. */
  lemma SplitSeveral(s: string, c: char)
    requires c in s
    ensures |Split(s, c)| > 1
  {
    SplitLast(s, c);
    var pieces := Split(s, c);
    assert c !in pieces[|pieces| - 1];
  }

  /** Lower-casing distributes over concatenation. */
  lemma LowerConcat(a: string, b: string)
    ensures Lower(a + b) == Lower(a) + Lower(b)
  {
    assert forall i :: 0 <= i < |a + b| ==> Lower(a + b)[i] == (Lower(a) + Lower(b))[i];
  }

  /** A character missing from a string is missing from each of its slices. */
  lemma SliceLacks(s: string, i: nat, j: nat, c: char)
    requires i <= j <= |s| && c !in s
    ensures c !in s[i..j]
  {
    assert forall k :: 0 <= k < j - i ==> s[i..j][k] == s[i + k];
  }

  /** A non-empty strip result neither starts nor ends with a stripped character. */
  lemma StripSetEnds(s: string, cs: set<char>)
    ensures var t := StripSet(s, cs); t == [] || (t[0] !in cs && t[|t| - 1] !in cs)
  {
    var l := StripLeftSet(s, cs);
    var t := StripRightSet(l, cs);
    StripRightSetPrefix(l, cs);
    if t != [] {
      assert t[0] == l[0];
    }
  }

  /** Stripping a set keeps out whatever the string lacks. */
  lemma StripSetLacks(s: string, cs: set<char>, c: char)
    requires c !in s
    ensures c !in StripSet(s, cs)
  {
    StripSetIsSlice(s, cs);
    var i, j :| 0 <= i <= j <= |s| && StripSet(s, cs) == s[i..j];
    SliceLacks(s, i, j, c);
  }
}
