/**
 * The FAILURES section of a pytest transcript as the executor reads it: the text after the first
 * `=== FAILURES ===` banner (up to the next banner, if any) is cut into blocks headed by
 * `___ name ___` lines, and each block's stripped body is stored under its test name.
 *
 * Every pattern is read by index on the whole string, the way `re` resumes a search at a
 * position: a match at index `p` looks only at the characters from `p` on.
 */
module FailureSection {

  import opened Wrappers
  import opened Text
  import opened PyValues

  // ---------------------------------------------------------------- runs of one kind of character

  /** The end of the maximal run of `c` starting at index `p`. */
  function RunEnd(s: string, p: nat, c: char): (e: nat)
    requires p <= |s|
    ensures p <= e <= |s|
    decreases |s| - p
  {
    if p < |s| && s[p] == c then RunEnd(s, p + 1, c) else p
  }

  /** The run is made of `c` and stops at the end or at another character. */
  lemma {:induction false} RunEndSpec(s: string, p: nat, c: char)
    requires p <= |s|
    ensures forall i :: p <= i < RunEnd(s, p, c) ==> s[i] == c
    ensures RunEnd(s, p, c) == |s| || s[RunEnd(s, p, c)] != c
    decreases |s| - p
  {
    if p < |s| && s[p] == c {
      RunEndSpec(s, p + 1, c);
    }
  }

  /** A stretch of `c` that stops at the end or at another character is the run. */
  lemma {:induction false} RunEndAt(s: string, p: nat, c: char, e: nat)
    requires p <= e <= |s| && (forall i :: p <= i < e ==> s[i] == c) && (e == |s| || s[e] != c)
    ensures RunEnd(s, p, c) == e
    decreases e - p
  {
    if p < e {
      RunEndAt(s, p + 1, c, e);
    }
  }

  /** The end of the maximal run of whitespace (`\s*`) starting at index `p`. */
  function SpaceEnd(s: string, p: nat): (e: nat)
    requires p <= |s|
    ensures p <= e <= |s|
    decreases |s| - p
  {
    if p < |s| && IsSpace(s[p]) then SpaceEnd(s, p + 1) else p
  }

  /** The run is whitespace and stops at the end or at another character. */
  lemma {:induction false} SpaceEndSpec(s: string, p: nat)
    requires p <= |s|
    ensures forall i :: p <= i < SpaceEnd(s, p) ==> IsSpace(s[i])
    ensures SpaceEnd(s, p) == |s| || !IsSpace(s[SpaceEnd(s, p)])
    decreases |s| - p
  {
    if p < |s| && IsSpace(s[p]) {
      SpaceEndSpec(s, p + 1);
    }
  }

  /** A stretch of whitespace that stops at the end or at another character is the run. */
  lemma {:induction false} SpaceEndAt(s: string, p: nat, e: nat)
    requires p <= e <= |s| && (forall i :: p <= i < e ==> IsSpace(s[i])) && (e == |s| || !IsSpace(s[e]))
    ensures SpaceEnd(s, p) == e
    decreases e - p
  {
    if p < e {
      SpaceEndAt(s, p + 1, e);
    }
  }

  /** The end of the maximal run of word characters (`\w*`) starting at index `p`. */
  function WordEnd(s: string, p: nat): (e: nat)
    requires p <= |s|
    ensures p <= e <= |s|
    decreases |s| - p
  {
    if p < |s| && IsWordChar(s[p]) then WordEnd(s, p + 1) else p
  }

  /** A stretch of word characters that stops at the end or at another character is the run. */
  lemma {:induction false} WordEndAt(s: string, p: nat, e: nat)
    requires p <= e <= |s| && (forall i :: p <= i < e ==> IsWordChar(s[i])) && (e == |s| || !IsWordChar(s[e]))
    ensures WordEnd(s, p) == e
    decreases e - p
  {
    if p < e {
      WordEndAt(s, p + 1, e);
    }
  }

  /** `n` copies of `c`. */
  function Repeat(c: char, n: nat): (r: string)
    ensures |r| == n && forall i :: 0 <= i < n ==> r[i] == c
  {
    seq(n, _ => c)
  }

  // ---------------------------------------------------------------- re.split on the banner

  /** The word "FAILURES" at index `b`. */
  predicate WordAt(s: string, b: nat)
  {
    b + 8 <= |s| && s[b..b + 8] == "FAILURES"
  }

  /**
   * `={3,}\s*FAILURES\s*={3,}` at index `p`: where the match ends. Each run is taken whole, since
   * giving back a character leaves one that the next part cannot start with.
   */
  function SeparatorEnd(s: string, p: nat): (r: Option<nat>)
    requires p <= |s|
    ensures r.Some? ==> p < r.value <= |s|
  {
    var a := RunEnd(s, p, '=');
    var b := SpaceEnd(s, a);
    if a - p < 3 || !WordAt(s, b) then None
    else
      var c := SpaceEnd(s, b + 8);
      var e := RunEnd(s, c, '=');
      if e - c < 3 then None else Some(e)
  }

  /** The leftmost banner starting at or after index `p`, as its start and end. */
  function FindSeparator(s: string, p: nat): (r: Option<(nat, nat)>)
    requires p <= |s|
    ensures r.Some? ==> p <= r.value.0 < r.value.1 <= |s|
    decreases |s| - p
  {
    match SeparatorEnd(s, p)
    case Some(e) => Some((p, e))
    case None => if p == |s| then None else FindSeparator(s, p + 1)
  }

  /**
   * `re.split(r"={3,}\s*FAILURES\s*={3,}", stdout)[1]` when the split made more than one piece:
   * the text between the first banner and the next one, or the end.
   */
  function FailureBlock(stdout: string): Option<string>
  {
    match FindSeparator(stdout, 0)
    case None => None
    case Some((_, e)) =>
      match FindSeparator(stdout, e)
      case None => Some(stdout[e..])
      case Some((q, _)) => Some(stdout[e..q])
  }

  // ---------------------------------------------------------------- re.finditer on the block

  /** `\s*_{3,}\n` at index `p`: where it ends. */
  function TailEnd(s: string, p: nat): (r: Option<nat>)
    requires p <= |s|
    ensures r.Some? ==> p < r.value <= |s|
  {
    var d := SpaceEnd(s, p);
    var e := RunEnd(s, d, '_');
    if e - d >= 3 && e < |s| && s[e] == '\n' then Some(e + 1) else None
  }

  /**
   * The backtracking of `_{3,}\s*(\w+)\s*_{3,}\n` from index `p`: the bar ends at `a`, the spaces
   * after it are taken whole up to `b`, and the name ends at `c`. When the tail does not match,
   * the name gives back a character; once it has none left, the bar gives back an underscore and
   * the name starts over with every word character it can take. Giving back a space or a bar of
   * the tail leaves a character the next part cannot start with, so only these two choices are
   * ever retried.
   */
  function Attempt(s: string, p: nat, a: nat, c: nat): (r: Option<(string, nat)>)
    requires p + 3 <= a <= |s| && SpaceEnd(s, a) <= c <= WordEnd(s, SpaceEnd(s, a))
    ensures r.Some? ==> p < r.value.1 <= |s|
    decreases a, c
  {
    var b := SpaceEnd(s, a);
    if c > b && TailEnd(s, c).Some? then Some((s[b..c], TailEnd(s, c).value))
    else if c > b then Attempt(s, p, a, c - 1)
    else if a == p + 3 then None
    else Attempt(s, p, a - 1, WordEnd(s, SpaceEnd(s, a - 1)))
  }

  /** `_{3,}\s*(\w+)\s*_{3,}\n` at index `p`: the test name and where the header ends. */
  function HeaderAt(s: string, p: nat): (r: Option<(string, nat)>)
    requires p <= |s|
    ensures r.Some? ==> p < r.value.1 <= |s|
  {
    var a := RunEnd(s, p, '_');
    if a - p < 3 then None else Attempt(s, p, a, WordEnd(s, SpaceEnd(s, a)))
  }

  /** Three underscores at index `g`: where the lookahead `(?=_{3,})` succeeds. */
  predicate BarAt(s: string, g: nat)
  {
    g + 3 <= |s| && s[g] == '_' && s[g + 1] == '_' && s[g + 2] == '_'
  }

  /** `(.*?)(?=_{3,}|\Z)` under `re.DOTALL` from index `q`: the nearest three underscores, or the end. */
  function BodyEnd(s: string, q: nat): (f: nat)
    requires q <= |s|
    ensures q <= f <= |s|
    decreases |s| - q
  {
    if q == |s| || BarAt(s, q) then q else BodyEnd(s, q + 1)
  }

  /**
   * `re.finditer(r"_{3,}\s*(\w+)\s*_{3,}\n(.*?)(?=_{3,}|\Z)", block, re.DOTALL)` from index `p`: each
   * match's name and body, left to right, every search resuming where the previous match ended.
   */
  function Blocks(s: string, p: nat): seq<(string, string)>
    requires p <= |s|
    decreases |s| - p
  {
    match HeaderAt(s, p)
    case Some((name, q)) =>
      var f := BodyEnd(s, q);
      [(name, s[q..f])] + Blocks(s, f)
    case None => if p == |s| then [] else Blocks(s, p + 1)
  }

  // ---------------------------------------------------------------- the failure_details dict

  /** `failure_details[name] = body.strip()` for each match in turn, a later name overwriting an earlier one. */
  function Details(ms: seq<(string, string)>): Dict<string>
  {
    if ms == [] then [] else Put(Details(ms[..|ms| - 1]), ms[|ms| - 1].0, Strip(ms[|ms| - 1].1))
  }

  /** The name-to-body dict of the output: empty when no banner splits it. */
  function FailureDetails(stdout: string): Dict<string>
  {
    match FailureBlock(stdout)
    case None => []
    case Some(block) => Details(Blocks(block, 0))
  }

  /** The loop that fills `failure_details` from the matches in the FAILURES block. */
  method ReadFailureDetails(stdout: string) returns (details: Dict<string>)
    ensures details == FailureDetails(stdout)
  {
    details := [];
    var block := FailureBlock(stdout);
    if block.Some? {
      var ms := Blocks(block.value, 0);
      var i := 0;
      while i < |ms|
        invariant 0 <= i <= |ms|
        invariant details == Details(ms[..i])
      {
        assert ms[..i + 1][..i] == ms[..i];
        details := Put(details, ms[i].0, Strip(ms[i].1));
        i := i + 1;
      }
      assert ms[..i] == ms;
    }
  }

  /** The value stored under a name is the stripped body of the last match carrying it. */
  lemma {:induction false} DetailsLast(ms: seq<(string, string)>, i: nat)
    requires i < |ms| && forall j :: i < j < |ms| ==> ms[j].0 != ms[i].0
    ensures Get(Details(ms), ms[i].0) == Some(Strip(ms[i].1))
    decreases |ms|
  {
    var init := ms[..|ms| - 1];
    PutGet(Details(init), ms[|ms| - 1].0, Strip(ms[|ms| - 1].1));
    if i < |ms| - 1 {
      assert init[i] == ms[i];
      DetailsLast(init, i);
    }
  }

  /** A name no match carries has no entry. */
  lemma {:induction false} DetailsAbsent(ms: seq<(string, string)>, k: string)
    requires forall j :: 0 <= j < |ms| ==> ms[j].0 != k
    ensures Get(Details(ms), k) == None
    decreases |ms|
  {
    if ms != [] {
      var init := ms[..|ms| - 1];
      PutGet(Details(init), ms[|ms| - 1].0, Strip(ms[|ms| - 1].1));
      DetailsAbsent(init, k);
    }
  }

  // ---------------------------------------------------------------- the layout pytest prints

  /** The banner above the failures: `=` bars around " FAILURES ". */
  function Banner(left: nat, right: nat): string
  {
    Repeat('=', left) + " FAILURES " + Repeat('=', right)
  }

  /** One failure as pytest prints it: a header line of underscores around the test name, then its body. */
  datatype Failure = Failure(name: string, left: nat, right: nat, body: string)

  function HeaderText(f: Failure): string
  {
    Repeat('_', f.left) + " " + f.name + " " + Repeat('_', f.right) + "\n"
  }

  /** A body holding no three underscores in a row and not ending in one: the lookahead stops only after it. */
  predicate PlainBody(body: string)
  {
    (forall g :: 0 <= g < |body| ==> !BarAt(body, g)) && (body == [] || body[|body| - 1] != '_')
  }

  /** A header the pattern reads back: a word name and bars of at least three underscores. */
  predicate WellFormed(f: Failure)
  {
    f.name != [] && AllWordChars(f.name) && f.left >= 3 && f.right >= 3 && PlainBody(f.body)
  }

  /** The failures one after another. */
  function Layout(fs: seq<Failure>): string
  {
    if fs == [] then [] else HeaderText(fs[0]) + fs[0].body + Layout(fs[1..])
  }

  /** What each failure should be read as: its name and its body. */
  function Pairs(fs: seq<Failure>): (r: seq<(string, string)>)
    ensures |r| == |fs| && forall i :: 0 <= i < |fs| ==> r[i] == (fs[i].name, fs[i].body)
  {
    seq(|fs|, i requires 0 <= i < |fs| => (fs[i].name, fs[i].body))
  }

  /** The characters of a banner, position by position. */
  lemma BannerChars(left: nat, right: nat)
    ensures var u := Banner(left, right);
      |u| == left + 10 + right && (forall i :: 0 <= i < left ==> u[i] == '=') && u[left] == ' '
      && u[left + 1..left + 9] == "FAILURES" && u[left + 9] == ' '
      && forall k :: left + 10 <= k < left + 10 + right ==> u[k] == '='
  {
  }

  /** The characters of a header line, position by position. */
  lemma HeaderChars(f: Failure)
    ensures var h := HeaderText(f); var n := f.left + 1 + |f.name|;
      |h| == n + f.right + 2 && (forall i :: 0 <= i < f.left ==> h[i] == '_') && h[f.left] == ' '
      && h[f.left + 1..n] == f.name && h[n] == ' '
      && (forall k :: n + 1 <= k < n + 1 + f.right ==> h[k] == '_') && h[n + 1 + f.right] == '\n'
  {
  }

  /** A slice that equals `u` holds `u`'s characters at the shifted indices. */
  lemma SliceChars(s: string, p: nat, u: string)
    requires p + |u| <= |s| && s[p..p + |u|] == u
    ensures forall i :: p <= i < p + |u| ==> s[i] == u[i - p]
  {
    forall i | p <= i < p + |u|
      ensures s[i] == u[i - p]
    {
      assert s[p..p + |u|][i - p] == s[i];
    }
  }

  /** The banner's runs, found in turn, make a match ending at `e`. */
  lemma SeparatorEndOf(s: string, p: nat, a: nat, e: nat)
    requires p <= |s| && RunEnd(s, p, '=') == a && a >= p + 3 && SpaceEnd(s, a) == a + 1 && WordAt(s, a + 1)
    requires SpaceEnd(s, a + 9) == a + 10 && RunEnd(s, a + 10, '=') == e && e >= a + 13
    ensures SeparatorEnd(s, p) == Some(e)
  {
  }

  /** A banner at index `p` is read whole when what follows does not continue its last bar. */
  lemma SeparatorRead(s: string, p: nat, left: nat, right: nat)
    requires left >= 3 && right >= 3 && p + |Banner(left, right)| <= |s|
    requires s[p..p + |Banner(left, right)|] == Banner(left, right)
    requires p + |Banner(left, right)| == |s| || s[p + |Banner(left, right)|] != '='
    ensures SeparatorEnd(s, p) == Some(p + |Banner(left, right)|)
  {
    var u := Banner(left, right);
    BannerChars(left, right);
    SliceChars(s, p, u);
    var a := p + left;
    var e := a + 10 + right;
    RunEndAt(s, p, '=', a);
    SpaceEndAt(s, a, a + 1);
    assert s[a + 1..a + 9] == s[p..p + |u|][left + 1..left + 9];
    SpaceEndAt(s, a + 9, a + 10);
    RunEndAt(s, a + 10, '=', e);
    SeparatorEndOf(s, p, a, e);
  }

  /** No "FAILURES" lies wholly inside the indices `i` up to `k`. */
  predicate NoWordIn(s: string, i: nat, k: nat)
  {
    forall j :: i <= j && j + 8 <= k ==> !WordAt(s, j)
  }

  /** A slice without "FAILURES" has no word inside its indices. */
  lemma NoWordFromContains(s: string, i: nat, k: nat)
    requires i <= k <= |s| && !Contains(s[i..k], "FAILURES")
    ensures NoWordIn(s, i, k)
  {
    ContainsIff(s[i..k], "FAILURES");
    forall j | i <= j && j + 8 <= k
      ensures !WordAt(s, j)
    {
      assert !StartsWith(s[i..k][j - i..], "FAILURES");
      assert s[i..k][j - i..][..8] == s[j..j + 8];
    }
  }

  /** No banner starts at index `i`. */
  predicate NoSeparatorAt(s: string, i: nat)
  {
    i <= |s| && SeparatorEnd(s, i).None?
  }

  /**
   * No banner starts at `i` when an "=" at `k` follows something else and no "FAILURES" lies
   * between: the first bar stops before `k`, the spaces cannot hold the "=", and the word would
   * have to lie before `k` or cover it.
   */
  lemma NoSeparatorBefore(s: string, i: nat, k: nat)
    requires i < k < |s| && s[k] == '=' && s[k - 1] != '=' && NoWordIn(s, i, k)
    ensures NoSeparatorAt(s, i)
  {
    var a := RunEnd(s, i, '=');
    RunEndSpec(s, i, '=');
    assert a < k;
    var b := SpaceEnd(s, a);
    SpaceEndSpec(s, a);
    assert b <= k;
    if b + 8 <= k {
      assert !WordAt(s, b);
    } else if b + 8 <= |s| {
      assert s[b..b + 8][k - b] == s[k];
    }
  }

  /** A search that finds nothing before index `k` finds what the search from `k` finds. */
  lemma {:induction false} FindSeparatorFrom(s: string, p: nat, k: nat)
    requires p <= k <= |s| && forall i :: p <= i < k ==> NoSeparatorAt(s, i)
    ensures FindSeparator(s, p) == FindSeparator(s, k)
    decreases k - p
  {
    if p < k {
      assert NoSeparatorAt(s, p);
      FindSeparatorFrom(s, p + 1, k);
    }
  }

  /** Text without "FAILURES" from index `p` on holds no banner there. */
  lemma {:induction false} FindSeparatorAbsent(s: string, p: nat)
    requires p <= |s| && NoWordIn(s, p, |s|)
    ensures FindSeparator(s, p) == None
    decreases |s| - p
  {
    var b := SpaceEnd(s, RunEnd(s, p, '='));
    assert !WordAt(s, b);
    if p < |s| {
      FindSeparatorAbsent(s, p + 1);
    }
  }

  /**
   * A banner at index `k`, with no "FAILURES" before it, nothing but "=" after its last bar and no
   * "=" right before it, is the first one the search finds.
   */
  lemma FirstSeparator(s: string, k: nat, left: nat, right: nat)
    requires left >= 3 && right >= 3 && k + |Banner(left, right)| <= |s|
    requires s[k..k + |Banner(left, right)|] == Banner(left, right) && NoWordIn(s, 0, k)
    requires k == 0 || s[k - 1] != '='
    requires k + |Banner(left, right)| == |s| || s[k + |Banner(left, right)|] != '='
    ensures FindSeparator(s, 0) == Some((k, k + |Banner(left, right)|))
  {
    BannerChars(left, right);
    assert s[k] == s[k..k + |Banner(left, right)|][0];
    forall i | 0 <= i < k
      ensures NoSeparatorAt(s, i)
    {
      NoSeparatorBefore(s, i, k);
    }
    FindSeparatorFrom(s, 0, k);
    SeparatorRead(s, k, left, right);
  }

  /** The first banner ends at `e` and none follows: the block is everything after it. */
  lemma FailureBlockAt(s: string, k: nat, left: nat, right: nat)
    requires left >= 3 && right >= 3 && k + |Banner(left, right)| <= |s|
    requires s[k..k + |Banner(left, right)|] == Banner(left, right) && NoWordIn(s, 0, k)
    requires k == 0 || s[k - 1] != '='
    requires k + |Banner(left, right)| == |s| || s[k + |Banner(left, right)|] != '='
    requires NoWordIn(s, k + |Banner(left, right)|, |s|)
    ensures FailureBlock(s) == Some(s[k + |Banner(left, right)|..])
  {
    FirstSeparator(s, k, left, right);
    FindSeparatorAbsent(s, k + |Banner(left, right)|);
  }

  /** The three parts of a concatenation, read back by index. */
  lemma ThreeParts(s: string, a: string, b: string, c: string)
    requires s == a + b + c
    ensures var e := |a| + |b|;
      s[0..|a|] == a && s[|a|..e] == b && s[e..|s|] == c && s[e..] == c
      && (a != [] ==> s[|a| - 1] == a[|a| - 1]) && (c != [] ==> s[e] == c[0])
  {
  }

  /**
   * Output that reaches the banner without "FAILURES" and without a trailing "=", and has neither
   * after it, splits into the text after the banner.
   */
  lemma FailureBlockRead(pre: string, left: nat, right: nat, block: string)
    requires !Contains(pre, "FAILURES") && (pre == [] || pre[|pre| - 1] != '=')
    requires left >= 3 && right >= 3 && (block == [] || block[0] != '=') && !Contains(block, "FAILURES")
    ensures FailureBlock(pre + Banner(left, right) + block) == Some(block)
  {
    FailureBlockParts(pre + Banner(left, right) + block, pre, left, right, block);
  }

  /** FailureBlockRead on the output `s` made of its three parts. */
  lemma FailureBlockParts(s: string, pre: string, left: nat, right: nat, block: string)
    requires s == pre + Banner(left, right) + block
    requires !Contains(pre, "FAILURES") && (pre == [] || pre[|pre| - 1] != '=')
    requires left >= 3 && right >= 3 && (block == [] || block[0] != '=') && !Contains(block, "FAILURES")
    ensures FailureBlock(s) == Some(block)
  {
    ThreeParts(s, pre, Banner(left, right), block);
    NoWordFromContains(s, 0, |pre|);
    NoWordFromContains(s, |pre| + |Banner(left, right)|, |s|);
    FailureBlockAt(s, |pre|, left, right);
  }

  /** The header's runs, found in turn, make a match whose first attempt succeeds. */
  lemma AttemptFirst(s: string, p: nat, a: nat, c: nat, e: nat)
    requires p + 3 <= a <= |s| && SpaceEnd(s, a) < c <= WordEnd(s, SpaceEnd(s, a)) && TailEnd(s, c) == Some(e)
    ensures Attempt(s, p, a, c) == Some((s[SpaceEnd(s, a)..c], e))
  {
  }

  /** A header whose bar, spaces, name and tail are each taken whole on the first try. */
  lemma HeaderFirst(s: string, p: nat, a: nat, c: nat, e: nat)
    requires p <= |s| && RunEnd(s, p, '_') == a && a >= p + 3 && WordEnd(s, SpaceEnd(s, a)) == c
    requires SpaceEnd(s, a) < c && TailEnd(s, c) == Some(e)
    ensures HeaderAt(s, p) == Some((s[SpaceEnd(s, a)..c], e))
  {
    AttemptFirst(s, p, a, c, e);
  }

  /** The tail of a header: one space, `right` underscores, a newline. */
  lemma TailEndOf(s: string, c: nat, right: nat)
    requires c + right + 2 <= |s| && right >= 3 && s[c] == ' ' && s[c + right + 1] == '\n'
    requires forall k :: c + 1 <= k < c + 1 + right ==> s[k] == '_'
    ensures TailEnd(s, c) == Some(c + right + 2)
  {
    SpaceEndAt(s, c, c + 1);
    RunEndAt(s, c + 1, '_', c + 1 + right);
  }

  /** The characters of a header line found at index `p`, read off the string itself. */
  lemma HeaderFacts(s: string, p: nat, f: Failure)
    requires WellFormed(f) && p + |HeaderText(f)| <= |s| && s[p..p + |HeaderText(f)|] == HeaderText(f)
    ensures var a := p + f.left; var c := a + 1 + |f.name|;
      c + f.right + 2 <= |s| && (forall i :: p <= i < a ==> s[i] == '_') && s[a] == ' '
      && s[a + 1..c] == f.name && s[c] == ' '
      && (forall k :: c + 1 <= k < c + 1 + f.right ==> s[k] == '_') && s[c + 1 + f.right] == '\n'
  {
    var h := HeaderText(f);
    HeaderChars(f);
    SliceChars(s, p, h);
    assert s[p + f.left + 1..p + f.left + 1 + |f.name|] == s[p..p + |h|][f.left + 1..f.left + 1 + |f.name|];
  }

  /** A header line pytest prints, found at index `p`, is read as its name and ends where the line does. */
  lemma HeaderRead(s: string, p: nat, f: Failure)
    requires WellFormed(f) && p + |HeaderText(f)| <= |s| && s[p..p + |HeaderText(f)|] == HeaderText(f)
    ensures HeaderAt(s, p) == Some((f.name, p + |HeaderText(f)|))
  {
    HeaderFacts(s, p, f);
    var a := p + f.left;
    var c := a + 1 + |f.name|;
    RunEndAt(s, p, '_', a);
    assert s[a + 1] == s[a + 1..c][0];
    SpaceEndAt(s, a, a + 1);
    forall i | a + 1 <= i < c
      ensures IsWordChar(s[i])
    {
      assert s[i] == s[a + 1..c][i - a - 1];
    }
    WordEndAt(s, a + 1, c);
    TailEndOf(s, c, f.right);
    HeaderFirst(s, p, a, c, c + f.right + 2);
  }

  /** A body that stops at three underscores or the end, and holds none before that, ends there. */
  lemma {:induction false} BodyEndAt(s: string, q: nat, f: nat)
    requires q <= f <= |s| && (forall g :: q <= g < f ==> !BarAt(s, g)) && (f == |s| || BarAt(s, f))
    ensures BodyEnd(s, q) == f
    decreases f - q
  {
    if q < f {
      BodyEndAt(s, q + 1, f);
    }
  }

  /** A plain body found at index `q` and followed by three underscores or the end is read whole. */
  lemma BodyRead(s: string, q: nat, body: string)
    requires q + |body| <= |s| && s[q..q + |body|] == body && PlainBody(body)
    requires q + |body| == |s| || BarAt(s, q + |body|)
    ensures BodyEnd(s, q) == q + |body|
  {
    SliceChars(s, q, body);
    forall g | q <= g < q + |body|
      ensures !BarAt(s, g)
    {
      if g + 3 <= q + |body| {
        assert !BarAt(body, g - q);
      } else {
        assert s[q + |body| - 1] == body[|body| - 1];
      }
    }
    BodyEndAt(s, q, q + |body|);
  }

  /** Text holding no underscore from `p` up to `k` yields no match and is skipped. */
  lemma {:induction false} BlocksSkip(s: string, p: nat, k: nat)
    requires p <= k <= |s| && forall i :: p <= i < k ==> s[i] != '_'
    ensures Blocks(s, p) == Blocks(s, k)
    decreases k - p
  {
    if p < k {
      RunEndAt(s, p, '_', p);
      BlocksSkip(s, p + 1, k);
    }
  }

  /** One match, read from its header and body, after which the search resumes where the body ends. */
  lemma BlocksOf(s: string, p: nat, name: string, q: nat, f: nat)
    requires p <= |s| && HeaderAt(s, p) == Some((name, q)) && BodyEnd(s, q) == f
    ensures Blocks(s, p) == [(name, s[q..f])] + Blocks(s, f)
  {
  }

  /** A failure found at index `p`, followed by three underscores or the end: one match, then the search resumes after it. */
  lemma BlocksStep(s: string, p: nat, f: Failure)
    requires WellFormed(f) && p + |HeaderText(f)| + |f.body| <= |s|
    requires s[p..p + |HeaderText(f)| + |f.body|] == HeaderText(f) + f.body
    requires p + |HeaderText(f)| + |f.body| == |s| || BarAt(s, p + |HeaderText(f)| + |f.body|)
    ensures Blocks(s, p) == [(f.name, f.body)] + Blocks(s, p + |HeaderText(f)| + |f.body|)
  {
    var h := HeaderText(f);
    var q := p + |h|;
    var e := q + |f.body|;
    assert s[p..q] == s[p..e][..|h|];
    HeaderRead(s, p, f);
    assert s[q..e] == s[p..e][|h|..];
    BodyRead(s, q, f.body);
    BlocksOf(s, p, f.name, q, e);
  }

  /** Failures laid out from index `p`: the first one, then the rest, which starts with three underscores unless empty. */
  lemma LayoutSplit(s: string, p: nat, fs: seq<Failure>)
    requires p <= |s| && s[p..] == Layout(fs) && fs != [] && forall i :: 0 <= i < |fs| ==> WellFormed(fs[i])
    ensures var n := p + |HeaderText(fs[0])| + |fs[0].body|;
      n <= |s| && s[p..n] == HeaderText(fs[0]) + fs[0].body && s[n..] == Layout(fs[1..])
      && (n == |s| || BarAt(s, n))
  {
    var n := |HeaderText(fs[0])| + |fs[0].body|;
    var rest := Layout(fs[1..]);
    assert s[p..] == HeaderText(fs[0]) + fs[0].body + rest;
    assert s[p..p + n] == s[p..][..n];
    assert s[p + n..] == s[p..][n..];
    if |fs| > 1 {
      HeaderChars(fs[1]);
      assert rest == HeaderText(fs[1]) + fs[1].body + Layout(fs[2..]);
      assert s[p + n..][..3] == rest[..3];
    }
  }

  /** Failures laid out one after another from index `p` are read as their names and bodies, in order. */
  lemma {:induction false} BlocksLayout(s: string, p: nat, fs: seq<Failure>)
    requires p <= |s| && s[p..] == Layout(fs) && forall i :: 0 <= i < |fs| ==> WellFormed(fs[i])
    ensures Blocks(s, p) == Pairs(fs)
    decreases |fs|
  {
    if fs == [] {
      RunEndAt(s, p, '_', p);
    } else {
      LayoutSplit(s, p, fs);
      BlocksStep(s, p, fs[0]);
      BlocksLayout(s, p + |HeaderText(fs[0])| + |fs[0].body|, fs[1..]);
      assert Pairs(fs) == [(fs[0].name, fs[0].body)] + Pairs(fs[1..]);
    }
  }

  /**
   * A transcript as pytest prints it (the run without "FAILURES", the banner, a lead-in without
   * underscores, then the failures) yields the failures' names and stripped bodies, the last
   * failure of a name winning.
   */
  lemma FailureDetailsRead(pre: string, left: nat, right: nat, lead: string, fs: seq<Failure>)
    requires !Contains(pre, "FAILURES") && (pre == [] || pre[|pre| - 1] != '=') && left >= 3 && right >= 3
    requires '_' !in lead && (lead == [] || lead[0] != '=')
    requires forall i :: 0 <= i < |fs| ==> WellFormed(fs[i])
    requires !Contains(lead + Layout(fs), "FAILURES")
    ensures FailureDetails(pre + Banner(left, right) + lead + Layout(fs)) == Details(Pairs(fs))
  {
    var block := lead + Layout(fs);
    if lead == [] && fs != [] {
      HeaderChars(fs[0]);
      assert block[0] == HeaderText(fs[0])[0];
    }
    FailureBlockRead(pre, left, right, block);
    assert pre + Banner(left, right) + lead + Layout(fs) == pre + Banner(left, right) + block;
    forall i | 0 <= i < |lead|
      ensures block[i] != '_'
    {
      assert block[i] == lead[i];
    }
    BlocksSkip(block, 0, |lead|);
    assert block[|lead|..] == Layout(fs);
    BlocksLayout(block, |lead|, fs);
  }

  /** Output without "FAILURES" has no banner, so nothing is read. */
  lemma FailureDetailsNone(stdout: string)
    requires !Contains(stdout, "FAILURES")
    ensures FailureDetails(stdout) == []
  {
    assert stdout[0..|stdout|] == stdout;
    NoWordFromContains(stdout, 0, |stdout|);
    FindSeparatorAbsent(stdout, 0);
  }
}
