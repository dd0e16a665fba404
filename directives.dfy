/**
 * The line-by-line directive parser shared by the three RobotsParser variants.
 * The variants run the same if/else-if chain; they differ only in the strings the
 * lower-cased line is compared against, the lengths cut off, and whether the
 * "<!DOCTYPE html> " line is skipped. A Dialect records exactly those.
 */
module Directives {
  import opened Wrappers
  import opened Agent
  import Text
  import Int32Text

  datatype Dialect = Dialect(
    userAgent: string, userAgentLength: nat,
    disallow: string, disallowLength: nat,
    allow: string, allowLength: nat,
    sitemap: string, sitemapLength: nat,
    crawldelay: string, crawldelayLength: nat,
    skipsDoctype: bool)

  /** Every length is the length of the string it goes with. */
  predicate WellFormed(d: Dialect) {
    && |d.userAgent| == d.userAgentLength
    && |d.disallow| == d.disallowLength
    && |d.allow| == d.allowLength
    && |d.sitemap| == d.sitemapLength
    && |d.crawldelay| == d.crawldelayLength
  }

  predicate IsLetter(c: char) { 'a' <= c <= 'z' || 'A' <= c <= 'Z' }

  predicate StartsWithLetter(p: string) { p != [] && IsLetter(p[0]) }

  /** Every compared string begins with a letter (true of all three variants). */
  predicate LetterPrefixes(d: Dialect) {
    && StartsWithLetter(d.userAgent) && StartsWithLetter(d.disallow) && StartsWithLetter(d.allow)
    && StartsWithLetter(d.sitemap) && StartsWithLetter(d.crawldelay)
  }

  /** The exact artefact line the Nick variant tolerates. */
  const Doctype: string := "<!DOCTYPE html> "

  /** What one line of robots.txt is taken to be. */
  datatype Directive =
    | UserAgentLine(name: string)
    | DisallowLine(path: string)
    | AllowLine(path: string)
    | SitemapLine(url: string)
    | CrawlDelayLine(value: string)
    | Skipped
    | Unrecognised

  /** `line.Substring(n, line.Length - n).Trim(' ')`: the original-case rest of the line. */
  function Value(line: string, n: nat): string
    requires n <= |line|
  {
    Text.Trim(line[n..])
  }

  /** The if/else-if chain of ParseRobots: the first test that holds decides. */
  function Classify(d: Dialect, line: string): Directive
    requires WellFormed(d)
  {
    var low := Text.Lower(line);
    if Text.StartsWith(low, d.userAgent) then UserAgentLine(Value(line, d.userAgentLength))
    else if Text.StartsWith(low, d.disallow) then DisallowLine(Value(line, d.disallowLength))
    else if Text.StartsWith(low, d.allow) then AllowLine(Value(line, d.allowLength))
    else if Text.StartsWith(low, d.sitemap) then SitemapLine(Value(line, d.sitemapLength))
    else if Text.StartsWith(low, d.crawldelay) then CrawlDelayLine(Value(line, d.crawldelayLength))
    else if line == [] || line[0] == '#' || (d.skipsDoctype && line == Doctype) then Skipped
    else Unrecognised
  }

  /**
   * The parser's state: the listed groups, the sitemap set and the "*" group that
   * `currentAgent` starts as, which is never added to the list. Each parse starts the
   * list empty and only a user-agent line appends to it, so `currentAgent` is the
   * placeholder while the list is empty and the last listed group afterwards.
   */
  datatype ParseState = ParseState(groups: seq<Useragent>, sitemaps: set<string>, placeholder: Useragent)

  function Start(sitemaps: set<string>): (st: ParseState)
    ensures st.groups == [] && st.sitemaps == sitemaps && st.placeholder == New("*")
  {
    ParseState([], sitemaps, New("*"))
  }

  function Current(st: ParseState): Useragent {
    if st.groups == [] then st.placeholder else st.groups[|st.groups| - 1]
  }

  /** Replaces `currentAgent` wherever it lives. */
  function SetCurrent(st: ParseState, u: Useragent): (st': ParseState)
    ensures Current(st') == u && st'.sitemaps == st.sitemaps
    ensures |st'.groups| == |st.groups|
    ensures forall i :: 0 <= i < |st.groups| - 1 ==> st'.groups[i] == st.groups[i]
  {
    if st.groups == [] then st.(placeholder := u)
    else st.(groups := st.groups[..|st.groups| - 1] + [u])
  }

  /** One turn of the loop: the state after the line, or the exception it throws. */
  function Step(d: Dialect, st: ParseState, line: string): Result<ParseState, Error>
    requires WellFormed(d)
  {
    var c := Current(st);
    match Classify(d, line)
    case UserAgentLine(name) => Success(st.(groups := st.groups + [New(name)]))
    case DisallowLine(p) => Success(SetCurrent(st, c.(disallowed := c.disallowed + {p})))
    case AllowLine(p) => Success(SetCurrent(st, c.(allowed := c.allowed + {p})))
    case SitemapLine(u) => Success(st.(sitemaps := st.sitemaps + {u}))
    case CrawlDelayLine(v) =>
      (match Int32Text.ParseInt32(v)
       case None => Failure(BadCrawlDelay(v))
       case Some(n) => Success(SetCurrent(st, c.(crawldelay := n))))
    case Skipped => Success(st)
    case Unrecognised => Failure(UnparsableLine(line))
  }

  datatype LineError = LineError(index: nat, error: Error)

  /** Where the loop ended: the state reached, and the failing line if it threw. */
  datatype Outcome = Outcome(state: ParseState, failure: Option<LineError>)

  /** The loop over `lines`, left to right, stopping at the first line that throws. */
  function Run(d: Dialect, st: ParseState, lines: seq<string>): (o: Outcome)
    requires WellFormed(d)
    ensures o.failure.Some? ==> o.failure.value.index < |lines|
    decreases |lines|
  {
    if lines == [] then Outcome(st, None)
    else
      var prev := Run(d, st, lines[..|lines| - 1]);
      if prev.failure.Some? then prev
      else
        match Step(d, prev.state, lines[|lines| - 1])
        case Failure(e) => Outcome(prev.state, Some(LineError(|lines| - 1, e)))
        case Success(next) => Outcome(next, None)
  }

  /** Number of lines the loop got through without throwing. */
  function Processed(o: Outcome, lines: seq<string>): (n: nat)
    requires o.failure.Some? ==> o.failure.value.index < |lines|
    ensures n <= |lines|
  {
    if o.failure.Some? then o.failure.value.index else |lines|
  }

  /** Names of the user-agent lines among `lines`, in order, repeats included. */
  function AgentNames(d: Dialect, lines: seq<string>): seq<string>
    requires WellFormed(d)
    decreases |lines|
  {
    if lines == [] then []
    else
      var k := Classify(d, lines[|lines| - 1]);
      AgentNames(d, lines[..|lines| - 1]) + (if k.UserAgentLine? then [k.name] else [])
  }

  /** Values of the sitemap lines among `lines`. */
  function SitemapUrls(d: Dialect, lines: seq<string>): set<string>
    requires WellFormed(d)
    decreases |lines|
  {
    if lines == [] then {}
    else
      var k := Classify(d, lines[|lines| - 1]);
      SitemapUrls(d, lines[..|lines| - 1]) + (if k.SitemapLine? then {k.url} else {})
  }

  /**
   * The loop stops at the first line that throws, and nothing done before it is
   * rolled back: the state left behind is the state after the lines before it.
   */
  lemma {:induction false} RunStopsAtFirstFailure(d: Dialect, st: ParseState, lines: seq<string>)
    requires WellFormed(d)
    ensures var o := Run(d, st, lines);
      o.failure.Some? ==>
        && o.failure.value.index < |lines|
        && Run(d, st, lines[..o.failure.value.index]) == Outcome(o.state, None)
        && Step(d, o.state, lines[o.failure.value.index]) == Failure(o.failure.value.error)
    decreases |lines|
  {
    if lines != [] {
      var front := lines[..|lines| - 1];
      var prev := Run(d, st, front);
      RunStopsAtFirstFailure(d, st, front);
      if prev.failure.Some? {
        var i := prev.failure.value.index;
        assert front[..i] == lines[..i];
        assert front[i] == lines[i];
      } else {
        assert lines[..|lines| - 1] == front;
      }
    }
  }

  /** Once a prefix of the lines has thrown, the lines after it are never read. */
  lemma {:induction false} RunStopped(d: Dialect, st: ParseState, lines: seq<string>, k: nat)
    requires WellFormed(d) && k <= |lines|
    requires Run(d, st, lines[..k]).failure.Some?
    ensures Run(d, st, lines) == Run(d, st, lines[..k])
    decreases |lines| - k
  {
    if k < |lines| {
      var front := lines[..|lines| - 1];
      assert front[..k] == lines[..k];
      RunStopped(d, st, front, k);
    } else {
      assert lines[..k] == lines;
    }
  }

  /** The loop's step: the lines up to `i + 1` are the lines up to `i`, then line `i`. */
  lemma RunSnoc(d: Dialect, st: ParseState, lines: seq<string>, i: nat)
    requires WellFormed(d) && i < |lines|
    ensures var prev := Run(d, st, lines[..i]);
      Run(d, st, lines[..i + 1]) ==
        if prev.failure.Some? then prev
        else match Step(d, prev.state, lines[i])
          case Failure(e) => Outcome(prev.state, Some(LineError(i, e)))
          case Success(next) => Outcome(next, None)
  {
    assert lines[..i + 1][..i] == lines[..i];
  }

  lemma NamesAppend(groups: seq<Useragent>, u: Useragent)
    ensures Names(groups + [u]) == Names(groups) + [u.name]
  {
  }

  lemma SetCurrentKeepsNames(st: ParseState, u: Useragent)
    requires u.name == Current(st).name
    ensures Names(SetCurrent(st, u).groups) == Names(st.groups)
  {
  }

  /** One user-agent line adds exactly one group, whose name is the line's value. */
  lemma StepNames(d: Dialect, st: ParseState, line: string)
    requires WellFormed(d) && Step(d, st, line).Success?
    ensures var k := Classify(d, line);
      Names(Step(d, st, line).value.groups) == Names(st.groups) + (if k.UserAgentLine? then [k.name] else [])
  {
    var c := Current(st);
    match Classify(d, line)
    case UserAgentLine(name) => NamesAppend(st.groups, New(name));
    case DisallowLine(p) => SetCurrentKeepsNames(st, c.(disallowed := c.disallowed + {p}));
    case AllowLine(p) => SetCurrentKeepsNames(st, c.(allowed := c.allowed + {p}));
    case SitemapLine(u) =>
    case CrawlDelayLine(v) =>
      var n := Int32Text.ParseInt32(v).value;
      SetCurrentKeepsNames(st, c.(crawldelay := n));
    case Skipped =>
    case Unrecognised =>
  }

  /** Only a sitemap line adds to the sitemap set, and it adds its value. */
  lemma StepSitemaps(d: Dialect, st: ParseState, line: string)
    requires WellFormed(d) && Step(d, st, line).Success?
    ensures var k := Classify(d, line);
      Step(d, st, line).value.sitemaps == st.sitemaps + (if k.SitemapLine? then {k.url} else {})
  {
    match Classify(d, line)
    case UserAgentLine(name) =>
    case DisallowLine(p) =>
    case AllowLine(p) =>
    case SitemapLine(u) =>
    case CrawlDelayLine(v) =>
    case Skipped =>
    case Unrecognised =>
  }

  /**
   * Every user-agent line appends a new group, even when its name repeats, and no
   * other line adds or removes one: the listed names are those of the user-agent
   * lines the loop got through, in order.
   */
  lemma {:induction false} RunNames(d: Dialect, st: ParseState, lines: seq<string>)
    requires WellFormed(d)
    ensures var o := Run(d, st, lines);
      Names(o.state.groups) == Names(st.groups) + AgentNames(d, lines[..Processed(o, lines)])
    ensures var o := Run(d, st, lines);
      o.state.sitemaps == st.sitemaps + SitemapUrls(d, lines[..Processed(o, lines)])
    decreases |lines|
  {
    var o := Run(d, st, lines);
    if lines == [] {
      assert lines[..0] == [];
    } else {
      var front := lines[..|lines| - 1];
      var prev := Run(d, st, front);
      RunNames(d, st, front);
      if prev.failure.Some? {
        assert lines[..Processed(o, lines)] == front[..Processed(prev, front)];
      } else {
        assert front[..Processed(prev, front)] == front;
        var last := lines[|lines| - 1];
        match Step(d, prev.state, last)
        case Failure(e) =>
          assert Processed(o, lines) == |lines| - 1;
        case Success(next) =>
          StepNames(d, prev.state, last);
          StepSitemaps(d, prev.state, last);
          assert lines[..Processed(o, lines)] == lines;
          assert lines[..|lines| - 1] == front;
      }
    }
  }

  /** Lines with no user-agent line among them leave the group list empty. */
  lemma NoAgentLinesNoGroups(d: Dialect, sitemaps: set<string>, lines: seq<string>)
    requires WellFormed(d)
    requires forall i :: 0 <= i < |lines| ==> !Classify(d, lines[i]).UserAgentLine?
    ensures Run(d, Start(sitemaps), lines).state.groups == []
  {
    var o := Run(d, Start(sitemaps), lines);
    RunNames(d, Start(sitemaps), lines);
    NoAgentNames(d, lines[..Processed(o, lines)]);
  }

  lemma {:induction false} NoAgentNames(d: Dialect, lines: seq<string>)
    requires WellFormed(d)
    requires forall i :: 0 <= i < |lines| ==> !Classify(d, lines[i]).UserAgentLine?
    ensures AgentNames(d, lines) == []
    decreases |lines|
  {
    if lines != [] {
      NoAgentNames(d, lines[..|lines| - 1]);
    }
  }

  /** The group list and the sitemap set, the unlisted placeholder left aside. */
  predicate SameListing(a: ParseState, b: ParseState) {
    a.groups == b.groups && a.sitemaps == b.sitemaps
  }

  /**
   * A step reads the placeholder only while the list is empty, and then only to
   * replace it: two states listing the same groups and sitemaps step alike.
   */
  lemma StepIgnoresPlaceholder(d: Dialect, a: ParseState, b: ParseState, line: string)
    requires WellFormed(d) && SameListing(a, b)
    ensures Step(d, a, line).Failure? ==> Step(d, b, line) == Step(d, a, line)
    ensures Step(d, a, line).Success? ==>
      Step(d, b, line).Success? && SameListing(Step(d, a, line).value, Step(d, b, line).value)
  {
    var ca, cb := Current(a), Current(b);
    match Classify(d, line)
    case UserAgentLine(name) =>
    case DisallowLine(p) =>
      SetCurrentSameListing(a, b, ca.(disallowed := ca.disallowed + {p}), cb.(disallowed := cb.disallowed + {p}));
    case AllowLine(p) =>
      SetCurrentSameListing(a, b, ca.(allowed := ca.allowed + {p}), cb.(allowed := cb.allowed + {p}));
    case SitemapLine(u) =>
    case CrawlDelayLine(v) =>
      if Int32Text.ParseInt32(v).Some? {
        var n := Int32Text.ParseInt32(v).value;
        SetCurrentSameListing(a, b, ca.(crawldelay := n), cb.(crawldelay := n));
      }
    case Skipped =>
    case Unrecognised =>
  }

  lemma SetCurrentSameListing(a: ParseState, b: ParseState, u: Useragent, v: Useragent)
    requires SameListing(a, b) && (a.groups != [] ==> u == v)
    ensures SameListing(SetCurrent(a, u), SetCurrent(b, v))
  {
  }

  /** So do two whole runs: the same failure, and the same groups and sitemaps. */
  lemma {:induction false} RunIgnoresPlaceholder(d: Dialect, a: ParseState, b: ParseState, lines: seq<string>)
    requires WellFormed(d) && SameListing(a, b)
    ensures Run(d, a, lines).failure == Run(d, b, lines).failure
    ensures SameListing(Run(d, a, lines).state, Run(d, b, lines).state)
    decreases |lines|
  {
    if lines != [] {
      var front := lines[..|lines| - 1];
      RunIgnoresPlaceholder(d, a, b, front);
      var pa := Run(d, a, front);
      var pb := Run(d, b, front);
      if pa.failure.None? {
        StepIgnoresPlaceholder(d, pa.state, pb.state, lines[|lines| - 1]);
      }
    }
  }

  /** When `pre` goes through without throwing, the loop over `pre + rest` continues from where `pre` left off. */
  lemma {:induction false} RunAppend(d: Dialect, st: ParseState, pre: seq<string>, rest: seq<string>)
    requires WellFormed(d) && Run(d, st, pre).failure.None?
    ensures Run(d, st, pre + rest).state == Run(d, Run(d, st, pre).state, rest).state
    ensures Run(d, st, pre + rest).failure.Some? == Run(d, Run(d, st, pre).state, rest).failure.Some?
    decreases |rest|
  {
    if rest == [] {
      assert pre + rest == pre;
    } else {
      var front := rest[..|rest| - 1];
      assert (pre + rest)[..|pre + rest| - 1] == pre + front;
      assert (pre + rest)[|pre + rest| - 1] == rest[|rest| - 1];
      RunAppend(d, st, pre, front);
    }
  }

  /**
   * Rules before the first user-agent line go to the placeholder, which is never
   * listed: a file yields the groups its lines after that prefix yield from a fresh
   * start (with the sitemaps the prefix recorded), and throws exactly when they do.
   */
  lemma RulesBeforeFirstAgentUnlisted(d: Dialect, sitemaps: set<string>, pre: seq<string>, rest: seq<string>)
    requires WellFormed(d)
    requires forall i :: 0 <= i < |pre| ==> !Classify(d, pre[i]).UserAgentLine?
    requires Run(d, Start(sitemaps), pre).failure.None?
    ensures var sitemaps' := Run(d, Start(sitemaps), pre).state.sitemaps;
      && Run(d, Start(sitemaps), pre + rest).state.groups == Run(d, Start(sitemaps'), rest).state.groups
      && Run(d, Start(sitemaps), pre + rest).failure.Some? == Run(d, Start(sitemaps'), rest).failure.Some?
  {
    var mid := Run(d, Start(sitemaps), pre).state;
    NoAgentLinesNoGroups(d, sitemaps, pre);
    RunAppend(d, Start(sitemaps), pre, rest);
    RunIgnoresPlaceholder(d, mid, Start(mid.sitemaps), rest);
  }

  /**
   * A rule line changes only the most recent group: the number of groups, their
   * names and every earlier group stay as they were.
   */
  lemma RuleLineTouchesOnlyLatest(d: Dialect, st: ParseState, line: string)
    requires WellFormed(d) && Step(d, st, line).Success?
    requires !Classify(d, line).UserAgentLine?
    ensures var st' := Step(d, st, line).value;
      |st'.groups| == |st.groups|
      && (forall i :: 0 <= i < |st.groups| - 1 ==> st'.groups[i] == st.groups[i])
      && (st.groups != [] ==> st'.groups[|st.groups| - 1].name == st.groups[|st.groups| - 1].name)
  {
    var c := Current(st);
    match Classify(d, line)
    case DisallowLine(p) => SetCurrentKeepsNames(st, c.(disallowed := c.disallowed + {p}));
    case AllowLine(p) => SetCurrentKeepsNames(st, c.(allowed := c.allowed + {p}));
    case CrawlDelayLine(v) =>
      var n := Int32Text.ParseInt32(v).value;
      SetCurrentKeepsNames(st, c.(crawldelay := n));
    case SitemapLine(u) =>
    case Skipped =>
  }

  /** A crawl-delay line sets the current group's delay, overwriting any earlier one. */
  lemma CrawlDelayOverwrites(d: Dialect, st: ParseState, line: string, n: int)
    requires WellFormed(d)
    requires Classify(d, line).CrawlDelayLine? && Int32Text.ParseInt32(Classify(d, line).value) == Some(n)
    ensures Step(d, st, line).Success? && Current(Step(d, st, line).value).crawldelay == n
  {
  }

  /** A crawl-delay value that is not a 32-bit integer throws, and the delay is not set. */
  lemma BadCrawlDelayThrows(d: Dialect, st: ParseState, line: string)
    requires WellFormed(d)
    requires Classify(d, line).CrawlDelayLine? && Int32Text.ParseInt32(Classify(d, line).value).None?
    ensures Run(d, st, [line]) == Outcome(st, Some(LineError(0, BadCrawlDelay(Classify(d, line).value))))
  {
    var v := Classify(d, line).value;
    assert Step(d, st, line) == Failure(BadCrawlDelay(v));
    assert [line][..0] == [];
    assert Run(d, st, [line][..0]) == Outcome(st, None);
  }

  lemma FirstCharMismatch(low: string, p: string)
    requires p != [] && (low == [] || low[0] != p[0])
    ensures !Text.StartsWith(low, p)
  {
  }

  /** A line whose first character is not a letter matches none of the five prefixes. */
  lemma NoPrefixWithoutLetter(d: Dialect, line: string)
    requires WellFormed(d) && LetterPrefixes(d)
    requires line == [] || !IsLetter(line[0])
    ensures !Text.StartsWith(Text.Lower(line), d.userAgent)
    ensures !Text.StartsWith(Text.Lower(line), d.disallow)
    ensures !Text.StartsWith(Text.Lower(line), d.allow)
    ensures !Text.StartsWith(Text.Lower(line), d.sitemap)
    ensures !Text.StartsWith(Text.Lower(line), d.crawldelay)
  {
    var low := Text.Lower(line);
    if line != [] {
      assert low[0] == Text.LowerChar(line[0]);
      assert !IsLetter(low[0]);
    }
    FirstCharMismatch(low, d.userAgent);
    FirstCharMismatch(low, d.disallow);
    FirstCharMismatch(low, d.allow);
    FirstCharMismatch(low, d.sitemap);
    FirstCharMismatch(low, d.crawldelay);
  }

  /** Empty lines and lines starting with '#' are skipped and change nothing. */
  lemma CommentsSkipped(d: Dialect, st: ParseState, line: string)
    requires WellFormed(d) && LetterPrefixes(d)
    requires line == [] || line[0] == '#'
    ensures Classify(d, line) == Skipped && Step(d, st, line) == Success(st)
  {
    NoPrefixWithoutLetter(d, line);
  }

  /** A non-empty line of spaces matches no prefix and is not skipped, so it throws. */
  lemma SpacesLineRejected(d: Dialect, st: ParseState, line: string)
    requires WellFormed(d) && LetterPrefixes(d)
    requires line != [] && Text.AllSpaces(line)
    ensures Classify(d, line) == Unrecognised && Step(d, st, line) == Failure(UnparsableLine(line))
  {
    NoPrefixWithoutLetter(d, line);
    assert line != Doctype by { assert Doctype[0] == '<'; }
  }

  /** The "<!DOCTYPE html> " line is skipped by a dialect that tolerates it and throws in any other. */
  lemma DoctypeLine(d: Dialect, st: ParseState)
    requires WellFormed(d) && LetterPrefixes(d)
    ensures d.skipsDoctype ==> Step(d, st, Doctype) == Success(st)
    ensures !d.skipsDoctype ==> Step(d, st, Doctype) == Failure(UnparsableLine(Doctype))
  {
    assert Doctype[0] == '<';
    NoPrefixWithoutLetter(d, Doctype);
  }

  /**
   * Which directive a line is depends only on its lower-cased form: the keys are
   * matched case-insensitively (the values keep their case).
   */
  lemma KeysCaseInsensitive(d: Dialect, line: string, line': string)
    requires WellFormed(d) && LetterPrefixes(d)
    requires Text.Lower(line) == Text.Lower(line')
    ensures Classify(d, line).UserAgentLine? == Classify(d, line').UserAgentLine?
    ensures Classify(d, line).DisallowLine? == Classify(d, line').DisallowLine?
    ensures Classify(d, line).AllowLine? == Classify(d, line').AllowLine?
    ensures Classify(d, line).SitemapLine? == Classify(d, line').SitemapLine?
    ensures Classify(d, line).CrawlDelayLine? == Classify(d, line').CrawlDelayLine?
  {
  }
}
