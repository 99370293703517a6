/**
 * The string operations the order routes use: JavaScript's `\s` class and
 * `String.prototype.trim`, `toLowerCase` (on ASCII letters) and `includes`.
 * Strings are sequences of Unicode scalar values.
 */
module Text {
  import opened Collections

  /**
   * The non-ASCII white space of ECMAScript's WhiteSpace and LineTerminator
   * productions, as inclusive code-point ranges in ascending order.
   */
  const WideSpaceRanges: seq<(char, char)> := [
    ('\U{00A0}', '\U{00A0}'), ('\U{1680}', '\U{1680}'), ('\U{2000}', '\U{200A}'),
    ('\U{2028}', '\U{2029}'), ('\U{202F}', '\U{202F}'), ('\U{205F}', '\U{205F}'),
    ('\U{3000}', '\U{3000}'), ('\U{FEFF}', '\U{FEFF}')]

  /** `c` lies in one of `ranges`. */
  predicate InRanges(c: char, ranges: seq<(char, char)>) {
    ranges != [] && ((ranges[0].0 <= c <= ranges[0].1) || InRanges(c, ranges[1..]))
  }

  /**
   * The characters `\s` matches and `trim` removes: the space, tab, line
   * feed, vertical tab, form feed and carriage return, and the wide ones.
   */
  predicate IsSpace(c: char) {
    c == ' ' || ('\t' <= c <= '\r') || (c >= '\U{00A0}' && InRanges(c, WideSpaceRanges))
  }

  /** No character of `s` is white space. */
  predicate NoSpace(s: string) {
    forall i :: 0 <= i < |s| ==> !IsSpace(s[i])
  }

  /** Every character of `s` is white space (true of the empty string). */
  predicate AllSpace(s: string) {
    forall i :: 0 <= i < |s| ==> IsSpace(s[i])
  }

  /** The index of the first character at or after `i` that is not white space, or `|s|`. */
  function SkipSpace(s: string, i: nat): (r: nat)
    requires i <= |s|
    ensures i <= r <= |s|
    ensures forall k :: i <= k < r ==> IsSpace(s[k])
    ensures r == |s| || !IsSpace(s[r])
    decreases |s| - i
  {
    if i < |s| && IsSpace(s[i]) then SkipSpace(s, i + 1) else i
  }

  /** The index just past the last character before `j` that is not white space, or 0. */
  function SkipSpaceBack(s: string, j: nat): (r: nat)
    requires j <= |s|
    ensures r <= j
    ensures forall k :: r <= k < j ==> IsSpace(s[k])
    ensures r == 0 || !IsSpace(s[r - 1])
  {
    if j > 0 && IsSpace(s[j - 1]) then SkipSpaceBack(s, j - 1) else j
  }

  /** `s` with its leading white space removed: a suffix of `s` preceded only by white space. */
  function TrimStart(s: string): (r: string)
    ensures |r| <= |s| && r == s[|s| - |r|..]
    ensures AllSpace(s[..|s| - |r|])
    ensures r == [] || !IsSpace(r[0])
  {
    s[SkipSpace(s, 0)..]
  }

  /** `s` with its trailing white space removed: a prefix of `s` followed only by white space. */
  function TrimEnd(s: string): (r: string)
    ensures |r| <= |s| && r == s[..|r|]
    ensures AllSpace(s[|r|..])
    ensures r == [] || !IsSpace(r[|r| - 1])
  {
    s[..SkipSpaceBack(s, |s|)]
  }

  /** `String.prototype.trim`: white space removed from both ends. */
  function Trim(s: string): string {
    TrimEnd(TrimStart(s))
  }

  /** The trimmed string is the slice of the input that starts after its leading white space, only white
      space was cut from either end, and the result neither starts nor ends with white space. */
  lemma TrimSlice(s: string)
    ensures var k, r := |s| - |TrimStart(s)|, Trim(s);
            && k + |r| <= |s| && r == s[k..k + |r|]
            && AllSpace(s[..k]) && AllSpace(s[k + |r|..])
            && (r == [] || (!IsSpace(r[0]) && !IsSpace(r[|r| - 1])))
  {
    CutBothEnds(s, TrimStart(s), Trim(s));
  }

  /** Cutting white space off the front of `s` to get `t`, then off the back of `t` to get `r`, leaves a slice of `s`. */
  lemma CutBothEnds(s: string, t: string, r: string)
    requires |t| <= |s| && t == s[|s| - |t|..] && AllSpace(s[..|s| - |t|]) && (t == [] || !IsSpace(t[0]))
    requires |r| <= |t| && r == t[..|r|] && AllSpace(t[|r|..]) && (r == [] || !IsSpace(r[|r| - 1]))
    ensures var k := |s| - |t|;
            && k + |r| <= |s| && r == s[k..k + |r|]
            && AllSpace(s[..k]) && AllSpace(s[k + |r|..])
            && (r == [] || (!IsSpace(r[0]) && !IsSpace(r[|r| - 1])))
  {
    var k := |s| - |t|;
    assert r == s[k..k + |r|];
    assert s[k + |r|..] == t[|r|..];
    if r != [] {
      assert r[0] == t[0];
    }
  }

  /** A string that neither starts nor ends with white space is its own trim. */
  lemma TrimFixed(s: string)
    requires s == [] || (!IsSpace(s[0]) && !IsSpace(s[|s| - 1]))
    ensures Trim(s) == s
  {
  }

  /** Trimming yields the empty string exactly when the input is all white space. */
  lemma {:induction false} TrimEmptyIff(s: string)
    ensures Trim(s) == [] <==> AllSpace(s)
  {
    var t := TrimStart(s);
    if t == [] {
      assert s[..|s|] == s;
    } else {
      assert !IsSpace(s[|s| - |t|]);
    }
  }

  /** ASCII `toLowerCase`: 'A'..'Z' become 'a'..'z', every other character is kept. */
  function LowerChar(c: char): char {
    if 'A' <= c <= 'Z' then (c as int + 32) as char else c
  }

  function ToLower(s: string): (r: string)
    ensures |r| == |s|
    ensures forall i :: 0 <= i < |s| ==> r[i] == LowerChar(s[i])
  {
    seq(|s|, i requires 0 <= i < |s| => LowerChar(s[i]))
  }

  /** Lower-casing neither creates nor removes white space, and is idempotent. */
  lemma ToLowerFacts(s: string)
    ensures forall i :: 0 <= i < |s| ==> (IsSpace(ToLower(s)[i]) <==> IsSpace(s[i]))
    ensures ToLower(ToLower(s)) == ToLower(s)
  {
  }

  /** Lower-casing a string without white space yields one that trimming leaves alone. */
  lemma TrimLowerWithoutSpace(s: string)
    requires NoSpace(s)
    ensures Trim(ToLower(s)) == ToLower(s)
  {
    ToLowerFacts(s);
    TrimFixed(ToLower(s));
  }

  /** `p` is a prefix of `s`. */
  predicate IsPrefix(p: string, s: string) {
    |p| <= |s| && s[..|p|] == p
  }

  /** `String.prototype.includes`: `part` occurs in `s` at some index (the empty string occurs everywhere). */
  predicate Contains(s: string, part: string) {
    exists i :: 0 <= i <= |s| && IsPrefix(part, s[i..])
  }

  lemma ContainsEmpty(s: string)
    ensures Contains(s, "")
  {
    assert IsPrefix("", s[0..]);
  }

  /** `part` occurs in `pre + part + post`. */
  lemma ContainsMiddle(pre: string, part: string, post: string)
    ensures Contains(pre + part + post, part)
  {
    var s := pre + part + post;
    assert s[|pre|..][..|part|] == part;
    assert IsPrefix(part, s[|pre|..]);
  }

  /** The pieces joined in order. */
  function Concat(pieces: seq<string>): string {
    if pieces == [] then "" else pieces[0] + Concat(pieces[1..])
  }

  lemma {:induction false} ConcatAppend(a: seq<string>, b: seq<string>)
    ensures Concat(a + b) == Concat(a) + Concat(b)
  {
    if a == [] {
      assert a + b == b;
    } else {
      assert (a + b)[0] == a[0] && (a + b)[1..] == a[1..] + b;
      ConcatAppend(a[1..], b);
      assert Concat(a + b) == a[0] + (Concat(a[1..]) + Concat(b));
    }
  }

  /** Cutting the pieces in three cuts their join in three. */
  lemma ConcatSplit(pieces: seq<string>, i: nat, j: nat)
    requires i <= j <= |pieces|
    ensures Concat(pieces) == Concat(pieces[..i]) + Concat(pieces[i..j]) + Concat(pieces[j..])
  {
    var before, run, after := pieces[..i], pieces[i..j], pieces[j..];
    ThreeParts(pieces, i, j);
    ConcatAppend(before + run, after);
    ConcatAppend(before, run);
  }

  /** Any run of consecutive pieces occurs, joined, in the join of all of them. */
  lemma ContainsRun(pieces: seq<string>, i: nat, j: nat)
    requires i <= j <= |pieces|
    ensures Contains(Concat(pieces), Concat(pieces[i..j]))
  {
    ConcatSplit(pieces, i, j);
    ContainsMiddle(Concat(pieces[..i]), Concat(pieces[i..j]), Concat(pieces[j..]));
  }

  /** Every single piece occurs in the join. */
  lemma ContainsPiece(pieces: seq<string>, k: nat)
    requires k < |pieces|
    ensures Contains(Concat(pieces), pieces[k])
  {
    var run := pieces[k..k + 1];
    assert run[0] == pieces[k] && run[1..] == [];
    assert Concat(run) == run[0] + Concat(run[1..]);
    ContainsRun(pieces, k, k + 1);
  }

  /** Joining three pieces is concatenating them. */
  lemma ConcatThree(p: seq<string>)
    requires |p| == 3
    ensures Concat(p) == p[0] + p[1] + p[2]
  {
    var rest := p[1..];
    var last := rest[1..];
    assert last[1..] == [];
    assert Concat(last) == p[2] + "";
    assert Concat(rest) == p[1] + Concat(last);
    assert Concat(p) == p[0] + Concat(rest);
  }

  /** Three consecutive pieces occur, concatenated, in the join. */
  lemma ContainsThree(pieces: seq<string>, k: nat)
    requires k + 3 <= |pieces|
    ensures Contains(Concat(pieces), pieces[k] + pieces[k + 1] + pieces[k + 2])
  {
    var run := pieces[k..k + 3];
    ConcatThree(run);
    assert run[0] == pieces[k] && run[1] == pieces[k + 1] && run[2] == pieces[k + 2];
    ContainsRun(pieces, k, k + 3);
  }
}
