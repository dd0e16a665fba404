/** The .NET string operations the engine relies on, on `seq<char>`. */
module Text {
  import opened Wrappers

  predicate IsUpper(c: char) { 'A' <= c <= 'Z' }

  /** ASCII lower-casing of one character (the model of culture-free ToLower). */
  function LowerChar(c: char): (r: char)
    ensures !IsUpper(r)
    ensures IsUpper(c) ==> r as int == c as int + 32
    ensures !IsUpper(c) ==> r == c
  {
    if IsUpper(c) then (c as int + 32) as char else c
  }

  /** `string.ToLower()`: same length, every upper-case letter replaced, nothing else touched. */
  function Lower(s: string): (r: string)
    ensures |r| == |s|
    ensures forall i :: 0 <= i < |s| ==> r[i] == LowerChar(s[i])
  {
    seq(|s|, i requires 0 <= i < |s| => LowerChar(s[i]))
  }

  lemma LowerHasNoUpper(s: string, i: nat)
    requires i < |s|
    ensures !IsUpper(Lower(s)[i])
  {
  }

  /** Lower-casing keeps a prefix a prefix. */
  lemma LowerPrefix(p: string, s: string)
    requires p <= s
    ensures Lower(p) <= Lower(s)
  {
    assert Lower(s)[..|p|] == Lower(p);
  }

  /** `pat` occurs in `s` at offset `k`. */
  predicate OccursAt(s: string, pat: string, k: nat) {
    k + |pat| <= |s| && s[k..k + |pat|] == pat
  }

  /** Ordinal `s.IndexOf(pat)`: the first offset at which `pat` occurs, if any. */
  function IndexOf(s: string, pat: string): (r: Option<nat>)
    ensures r.Some? ==> OccursAt(s, pat, r.value)
    ensures r.Some? ==> forall k :: 0 <= k < r.value ==> !OccursAt(s, pat, k)
    ensures r.None? ==> forall k: nat :: !OccursAt(s, pat, k)
    decreases |s|
  {
    if pat <= s then Some(0)
    else if s == [] then None
    else
      var rest := IndexOf(s[1..], pat);
      assert forall k: nat :: OccursAt(s, pat, k + 1) <==> OccursAt(s[1..], pat, k) by {
        forall k: nat ensures OccursAt(s, pat, k + 1) <==> OccursAt(s[1..], pat, k) {
          OccursShift(s, pat, k);
        }
      }
      assert !OccursAt(s, pat, 0);
      match rest
      case None =>
        assert forall k: nat :: !OccursAt(s, pat, k) by {
          forall k: nat ensures !OccursAt(s, pat, k) {
            if k > 0 { assert !OccursAt(s[1..], pat, k - 1); }
          }
        }
        None
      case Some(j) =>
        assert forall k :: 0 <= k < j + 1 ==> !OccursAt(s, pat, k) by {
          forall k | 0 <= k < j + 1 ensures !OccursAt(s, pat, k) {
            if k > 0 { assert !OccursAt(s[1..], pat, k - 1); }
          }
        }
        Some(j + 1)
  }

  /** An occurrence at offset `k + 1` of `s` is an occurrence at `k` of its tail. */
  lemma OccursShift(s: string, pat: string, k: nat)
    requires s != []
    ensures OccursAt(s, pat, k + 1) <==> OccursAt(s[1..], pat, k)
  {
    if k + 1 + |pat| <= |s| {
      var here, there := s[k + 1..k + 1 + |pat|], s[1..][k..k + |pat|];
      assert forall i :: 0 <= i < |pat| ==> here[i] == there[i];
      assert here == there;
    }
  }

  /** Ordinal `s.Contains(sub)`. */
  predicate Contains(s: string, sub: string) {
    IndexOf(s, sub).Some?
  }

  lemma ContainsIff(s: string, sub: string)
    ensures Contains(s, sub) <==> exists k: nat :: OccursAt(s, sub, k)
  {
  }

  /** The text before a first occurrence, plus all but the last character of it, holds no occurrence. */
  lemma NoneBeforeFirst(s: string, pat: string, k: nat)
    requires pat != [] && IndexOf(s, pat) == Some(k)
    ensures !Contains(s[..k + |pat| - 1], pat)
  {
    var pre := s[..k + |pat| - 1];
    forall j: nat | OccursAt(pre, pat, j)
      ensures false
    {
      assert pre[j..j + |pat|] == s[j..j + |pat|];
      assert OccursAt(s, pat, j);
    }
    ContainsIff(pre, pat);
  }

  /** Every string contains the empty string. */
  lemma ContainsEmpty(s: string)
    ensures Contains(s, "")
  {
    assert OccursAt(s, "", 0);
  }

  /** A string longer than `s` never occurs in `s`. */
  lemma NotContainsLonger(s: string, sub: string)
    requires |sub| > |s|
    ensures !Contains(s, sub)
  {
  }

  /** `s` starts with `prefix` (ordinal StartsWith). */
  predicate StartsWith(s: string, prefix: string) {
    prefix <= s
  }

  predicate AllSpaces(s: string) {
    forall i :: 0 <= i < |s| ==> s[i] == ' '
  }

  /** `s.TrimStart(' ')`. */
  function TrimStart(s: string): (r: string)
    ensures |r| <= |s| && r == s[|s| - |r|..]
    ensures AllSpaces(s[..|s| - |r|])
    ensures r == [] || r[0] != ' '
    decreases |s|
  {
    if s != [] && s[0] == ' ' then
      var r := TrimStart(s[1..]);
      SpacesFront(s, |s| - |r|);
      assert s[|s| - |r|..] == s[1..][|s| - 1 - |r|..];
      r
    else s
  }

  /** `s.TrimEnd(' ')`. */
  function TrimEnd(s: string): (r: string)
    ensures |r| <= |s| && r == s[..|r|]
    ensures AllSpaces(s[|r|..])
    ensures r == [] || r[|r| - 1] != ' '
    decreases |s|
  {
    if s != [] && s[|s| - 1] == ' ' then
      var r := TrimEnd(s[..|s| - 1]);
      SpacesBack(s, |r|);
      assert s[..|r|] == s[..|s| - 1][..|r|];
      r
    else s
  }

  /** A space followed by spaces is spaces. */
  lemma SpacesFront(s: string, k: nat)
    requires 0 < k <= |s| && s[0] == ' ' && AllSpaces(s[1..][..k - 1])
    ensures AllSpaces(s[..k])
  {
    forall i | 0 < i < k
      ensures s[i] == ' '
    {
      assert s[i] == s[1..][..k - 1][i - 1];
    }
  }

  /** Spaces followed by a space are spaces. */
  lemma SpacesBack(s: string, k: nat)
    requires k < |s| && s[|s| - 1] == ' ' && AllSpaces(s[..|s| - 1][k..])
    ensures AllSpaces(s[k..])
  {
    forall i | k <= i < |s| - 1
      ensures s[i] == ' '
    {
      assert s[i] == s[..|s| - 1][k..][i - k];
    }
  }

  /** `s.Trim(' ')`: only the space character is removed, from both ends. */
  function Trim(s: string): string {
    TrimEnd(TrimStart(s))
  }

  /**
   * `r` sits in `s` at offset `a`, with only spaces before and after it, and has no
   * space at either end.
   */
  predicate Framed(s: string, a: nat, r: string) {
    && a + |r| <= |s| && s[a..a + |r|] == r
    && AllSpaces(s[..a]) && AllSpaces(s[a + |r|..])
    && (r == [] || (r[0] != ' ' && r[|r| - 1] != ' '))
  }

  /**
   * The trimmed value is the infix of `s` that starts after the leading spaces, is
   * followed only by spaces, and has no space at either end.
   */
  lemma TrimInfix(s: string)
    ensures Framed(s, |s| - |TrimStart(s)|, Trim(s))
  {
    var t := TrimStart(s);
    TrimFrame(s, t, TrimEnd(t), |s| - |t|);
  }

  /** Trimming the front, then the back, leaves an infix framed by spaces. */
  lemma TrimFrame(s: string, t: string, r: string, a: nat)
    requires a + |t| == |s| && t == s[a..] && AllSpaces(s[..a]) && (t == [] || t[0] != ' ')
    requires |r| <= |t| && r == t[..|r|] && AllSpaces(t[|r|..]) && (r == [] || r[|r| - 1] != ' ')
    ensures Framed(s, a, r)
  {
    forall i | a + |r| <= i < |s|
      ensures s[i] == ' '
    {
      assert s[i] == t[i - a] == t[|r|..][i - a - |r|];
    }
    if r != [] {
      assert r[0] == t[0];
    }
  }

  /** Trimming twice is trimming once. */
  lemma TrimIdempotent(s: string)
    ensures Trim(Trim(s)) == Trim(s)
  {
    var r := Trim(s);
    TrimInfix(s);
    assert TrimStart(r) == r;
    assert TrimEnd(r) == r;
  }

  /** Whitespace other than ' ' survives trimming. */
  lemma TrimKeepsTab()
    ensures Trim([' ', '\t', ' ']) == ['\t']
  {
    var s := [' ', '\t', ' '];
    var u := ['\t', ' '];
    var v := ['\t'];
    assert s[1..] == u;
    assert TrimStart(u) == u;
    assert TrimStart(s) == u;
    assert u[..|u| - 1] == v;
    assert TrimEnd(v) == v;
    assert TrimEnd(u) == v;
  }
}
