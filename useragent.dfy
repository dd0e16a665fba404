/**
 * The rule group both Useragent.cs files describe: a name, a crawl delay and the
 * allowed and disallowed path fragments. The parser fills it; queries only read it.
 */
module Agent {
  import opened Wrappers

  datatype Useragent = Useragent(name: string, crawldelay: int, allowed: set<string>, disallowed: set<string>)

  /** `new Useragent(name)`, the same in both Useragent.cs files: no rules and a crawl delay of 0. */
  function New(name: string): (u: Useragent)
    ensures u.name == name && u.crawldelay == 0
    ensures u.allowed == {} && u.disallowed == {}
  {
    Useragent(name, 0, {}, {})
  }

  /** `i` is the position of the first group called `name` (what `First`/`FirstOrDefault` select). */
  predicate IsFirst(groups: seq<Useragent>, name: string, i: nat) {
    i < |groups| && groups[i].name == name
    && forall j :: 0 <= j < i ==> groups[j].name != name
  }

  predicate HasNamed(groups: seq<Useragent>, name: string) {
    exists i :: 0 <= i < |groups| && groups[i].name == name
  }

  /** Index of the first group whose name equals `name` exactly (case-sensitive), if any. */
  function FindFirst(groups: seq<Useragent>, name: string): (r: Option<nat>)
    ensures r.Some? ==> IsFirst(groups, name, r.value)
    ensures r.None? <==> !HasNamed(groups, name)
  {
    if groups == [] then None
    else if groups[0].name == name then Some(0)
    else
      match FindFirst(groups[1..], name)
      case None =>
        assert forall i :: 1 <= i < |groups| ==> groups[i] == groups[1..][i - 1];
        None
      case Some(k) =>
        assert groups[k + 1] == groups[1..][k];
        assert forall j :: 1 <= j < k + 1 ==> groups[j] == groups[1..][j - 1];
        Some(k + 1)
  }

  /** Only one position can be the first one. */
  lemma FirstIsUnique(groups: seq<Useragent>, name: string, i: nat, j: nat)
    requires IsFirst(groups, name, i) && IsFirst(groups, name, j)
    ensures i == j
  {
  }

  /** FindFirst's answer is the only index that is first for that name. */
  lemma FindFirstUnique(groups: seq<Useragent>, name: string)
    ensures FindFirst(groups, name).Some? ==>
      forall k: nat :: IsFirst(groups, name, k) ==> k == FindFirst(groups, name).value
    ensures FindFirst(groups, name).None? ==> forall k: nat :: !IsFirst(groups, name, k)
  {
  }

  function Names(groups: seq<Useragent>): (ns: seq<string>)
    ensures |ns| == |groups|
    ensures forall i :: 0 <= i < |groups| ==> ns[i] == groups[i].name
  {
    seq(|groups|, i requires 0 <= i < |groups| => groups[i].name)
  }
}

/** Nick.RobotsParser/Useragent.cs: substring matching plus the blanket "/" rule. */
module NickUseragent {
  import opened Agent
  import Text

  /** Some allowed entry occurs somewhere in `path`. */
  predicate IsAllowed(u: Useragent, path: string) {
    exists x | x in u.allowed :: Text.Contains(path, x)
  }

  /** "/" is among the disallowed entries. */
  predicate AllDissallowed(u: Useragent) {
    "/" in u.disallowed
  }

  /** The blanket rule, or some disallowed entry occurring in `path`; `allowed` is never consulted. */
  predicate IsDisallowed(u: Useragent, path: string) {
    AllDissallowed(u) || exists x | x in u.disallowed :: Text.Contains(path, x)
  }

  /** With "/" disallowed every path is disallowed, including "" and paths without a slash. */
  lemma BlanketDisallow(u: Useragent, path: string)
    requires "/" in u.disallowed
    ensures IsDisallowed(u, path)
  {
  }

  /** An entry that is the empty string matches every path. */
  lemma EmptyEntryMatchesAll(u: Useragent, path: string)
    ensures "" in u.allowed ==> IsAllowed(u, path)
    ensures "" in u.disallowed ==> IsDisallowed(u, path)
  {
    Text.ContainsEmpty(path);
  }

  /** The allow answer is exactly "some entry is a substring of the path". */
  lemma AllowedIff(u: Useragent, path: string)
    ensures IsAllowed(u, path) <==>
      exists x, k: nat :: x in u.allowed && Text.OccursAt(path, x, k)
  {
    if IsAllowed(u, path) {
      var x :| x in u.allowed && Text.Contains(path, x);
      Text.ContainsIff(path, x);
    }
    if exists x, k: nat :: x in u.allowed && Text.OccursAt(path, x, k) {
      var x, k: nat :| x in u.allowed && Text.OccursAt(path, x, k);
      Text.ContainsIff(path, x);
    }
  }

  /** Adding entries never turns a true answer into false. */
  lemma Monotone(u: Useragent, moreAllowed: set<string>, moreDisallowed: set<string>, path: string)
    ensures IsAllowed(u, path) ==> IsAllowed(u.(allowed := u.allowed + moreAllowed), path)
    ensures IsDisallowed(u, path) ==> IsDisallowed(u.(disallowed := u.disallowed + moreDisallowed), path)
  {
  }

  /** The allowed set plays no part in the disallow answer. */
  lemma DisallowIgnoresAllowed(u: Useragent, allowed: set<string>, path: string)
    ensures IsDisallowed(u.(allowed := allowed), path) == IsDisallowed(u, path)
  {
  }

  /** A new group has no entries, so it answers false to both queries for every path. */
  lemma NewAnswersFalse(name: string, path: string)
    ensures !IsAllowed(New(name), path) && !IsDisallowed(New(name), path)
  {
  }
}

/** RobotsSharp/RobotsSharpParser/Useragent.cs: substring matching only, no blanket rule. */
module SharpUseragent {
  import opened Agent
  import Text

  /** Some allowed entry occurs somewhere in `path`. */
  predicate IsAllowed(u: Useragent, path: string) {
    exists x | x in u.allowed :: Text.Contains(path, x)
  }

  /** Some disallowed entry occurs somewhere in `path`. */
  predicate IsDisallowed(u: Useragent, path: string) {
    exists x | x in u.disallowed :: Text.Contains(path, x)
  }

  /** The disallow answer is exactly "some entry is a substring of the path". */
  lemma DisallowedIff(u: Useragent, path: string)
    ensures IsDisallowed(u, path) <==>
      exists x, k: nat :: x in u.disallowed && Text.OccursAt(path, x, k)
  {
    if IsDisallowed(u, path) {
      var x :| x in u.disallowed && Text.Contains(path, x);
      Text.ContainsIff(path, x);
    }
    if exists x, k: nat :: x in u.disallowed && Text.OccursAt(path, x, k) {
      var x, k: nat :| x in u.disallowed && Text.OccursAt(path, x, k);
      Text.ContainsIff(path, x);
    }
  }

  /** Without a blanket rule, `Disallowed = {"/"}` does not disallow the empty path. */
  lemma SlashDoesNotBlockEmptyPath(u: Useragent)
    requires u.disallowed == {"/"}
    ensures !IsDisallowed(u, "")
  {
    Text.NotContainsLonger("", "/");
  }

  /** With empty sets both answers are false for every path. */
  lemma EmptySetsAnswerFalse(u: Useragent, path: string)
    requires u.allowed == {} && u.disallowed == {}
    ensures !IsAllowed(u, path) && !IsDisallowed(u, path)
  {
  }
}
