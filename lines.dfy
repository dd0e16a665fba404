/** Line splitting as `StringReader.ReadLine` performs it. */
module Lines {

  predicate IsBreak(c: char) { c == '\r' || c == '\n' }

  predicate NoBreak(s: string) {
    forall i :: 0 <= i < |s| ==> !IsBreak(s[i])
  }

  /** Offset of the first '\r' or '\n' in `s`, or `|s|` when there is none. */
  function BreakAt(s: string): (i: nat)
    ensures i <= |s|
    ensures i < |s| ==> IsBreak(s[i])
    ensures NoBreak(s[..i])
    decreases |s|
  {
    if s == [] then 0
    else if IsBreak(s[0]) then 0
    else
      var j := BreakAt(s[1..]);
      assert s[..j + 1] == [s[0]] + s[1..][..j];
      j + 1
  }

  /**
   * The lines `ReadLine` returns one after another until it returns null: a line
   * ends at "\r\n", "\r" or "\n", the terminator is not part of the line, and a
   * final terminator does not produce an extra empty line.
   */
  function Lines(s: string): (ls: seq<string>)
    ensures forall k :: 0 <= k < |ls| ==> NoBreak(ls[k])
    decreases |s|
  {
    if s == [] then []
    else
      var i := BreakAt(s);
      if i == |s| then [s]
      else
        var next := if s[i] == '\r' && i + 1 < |s| && s[i + 1] == '\n' then i + 2 else i + 1;
        [s[..i]] + Lines(s[next..])
  }

  /** Each line followed by "\n". */
  function Unlines(ls: seq<string>): string {
    if ls == [] then "" else ls[0] + "\n" + Unlines(ls[1..])
  }

  /** Each line followed by "\r\n". */
  function UnlinesCrlf(ls: seq<string>): string {
    if ls == [] then "" else ls[0] + "\r\n" + UnlinesCrlf(ls[1..])
  }

  lemma BreakAtLine(l: string, rest: string)
    requires NoBreak(l) && rest != [] && IsBreak(rest[0])
    ensures BreakAt(l + rest) == |l|
    decreases |l|
  {
    if l != [] {
      assert (l + rest)[1..] == l[1..] + rest;
      BreakAtLine(l[1..], rest);
    }
  }

  lemma BreakAtNone(l: string)
    requires NoBreak(l)
    ensures BreakAt(l) == |l|
    decreases |l|
  {
    if l != [] {
      BreakAtNone(l[1..]);
    }
  }

  /** One "\n"-terminated line comes off the front. */
  lemma LinesStepLf(l: string, rest: string)
    requires NoBreak(l)
    ensures Lines(l + "\n" + rest) == [l] + Lines(rest)
  {
    var s := l + "\n" + rest;
    assert s == l + ("\n" + rest);
    BreakAtLine(l, "\n" + rest);
    assert s[..|l|] == l;
    assert s[|l|] == '\n';
    assert s[|l| + 1..] == rest;
  }

  /** One "\r\n"-terminated line comes off the front. */
  lemma LinesStepCrlf(l: string, rest: string)
    requires NoBreak(l)
    ensures Lines(l + "\r\n" + rest) == [l] + Lines(rest)
  {
    var s := l + "\r\n" + rest;
    assert s == l + ("\r\n" + rest);
    BreakAtLine(l, "\r\n" + rest);
    assert s[..|l|] == l;
    assert s[|l|] == '\r' && s[|l| + 1] == '\n';
    assert s[|l| + 2..] == rest;
  }

  /** Splitting text whose lines all end in "\n" gives back exactly those lines. */
  lemma {:induction false} LinesUnlines(ls: seq<string>)
    requires forall k :: 0 <= k < |ls| ==> NoBreak(ls[k])
    ensures Lines(Unlines(ls)) == ls
  {
    if ls != [] {
      LinesStepLf(ls[0], Unlines(ls[1..]));
      LinesUnlines(ls[1..]);
    }
  }

  /** The same with "\r\n" terminators: "\r\n" is one terminator, not two. */
  lemma {:induction false} LinesUnlinesCrlf(ls: seq<string>)
    requires forall k :: 0 <= k < |ls| ==> NoBreak(ls[k])
    ensures Lines(UnlinesCrlf(ls)) == ls
  {
    if ls != [] {
      LinesStepCrlf(ls[0], UnlinesCrlf(ls[1..]));
      LinesUnlinesCrlf(ls[1..]);
    }
  }

  /** A last line without a terminator is still returned, and nothing follows it. */
  lemma {:induction false} LinesUnterminatedLast(ls: seq<string>, last: string)
    requires forall k :: 0 <= k < |ls| ==> NoBreak(ls[k])
    requires NoBreak(last) && last != []
    ensures Lines(Unlines(ls) + last) == ls + [last]
  {
    if ls == [] {
      assert Unlines(ls) + last == last;
      BreakAtNone(last);
    } else {
      var tail := Unlines(ls[1..]) + last;
      assert Unlines(ls) + last == ls[0] + "\n" + tail;
      LinesStepLf(ls[0], tail);
      LinesUnterminatedLast(ls[1..], last);
      assert ls == [ls[0]] + ls[1..];
    }
  }
}
