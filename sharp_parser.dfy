/**
 * RobotsSharp/RobotsSharpParser/Robots.cs. The queries answer from the first group
 * with exactly the given name and have no fallback to "*"; an unknown name throws.
 * There is no sitemap walk, the sitemap fetches honour a settable IgnoreErrors, and
 * GetUrlsAsync answers nothing for a non-success status.
 *
 * ParseRobotsAsync compares the lower-cased line with Const.Disallow, Const.Allow,
 * Const.Sitemap and Const.Crawldelay, which are capitalised, so none of those four
 * directives can ever be recognised. The class runs that comparison as written
 * (WrittenDialect): every group it loads is bare and its sitemap set stays empty.
 * CorrectedDialect lower-cases every constant, as line 100 already does for
 * Const.UserAgent, and DisallowRecognised shows what that would change.
 */
module SharpParser {
  import opened Wrappers
  import opened Agent
  import opened Sitemaps
  import SharpUseragent
  import SharpConst
  import Text
  import Lines
  import D = Directives

  /** The comparison as written: only UserAgent is lower-cased. */
  function WrittenDialect(): (d: D.Dialect)
    ensures D.WellFormed(d) && D.LetterPrefixes(d)
    ensures !d.skipsDoctype
  {
    D.Dialect(
      Text.Lower(SharpConst.UserAgent), SharpConst.UserAgentLength,
      SharpConst.Disallow, SharpConst.DisallowLength,
      SharpConst.Allow, SharpConst.AllowLength,
      SharpConst.Sitemap, SharpConst.SitemapLength,
      SharpConst.Crawldelay, SharpConst.CrawldelayLength,
      false)
  }

  /** The comparison as intended: every constant lower-cased, like UserAgent. */
  function CorrectedDialect(): (d: D.Dialect)
    ensures D.WellFormed(d) && D.LetterPrefixes(d)
    ensures !d.skipsDoctype
  {
    D.Dialect(
      Text.Lower(SharpConst.UserAgent), SharpConst.UserAgentLength,
      Text.Lower(SharpConst.Disallow), SharpConst.DisallowLength,
      Text.Lower(SharpConst.Allow), SharpConst.AllowLength,
      Text.Lower(SharpConst.Sitemap), SharpConst.SitemapLength,
      Text.Lower(SharpConst.Crawldelay), SharpConst.CrawldelayLength,
      false)
  }

  /** As written, a line is never taken for a disallow, allow, sitemap or crawl-delay line. */
  lemma WrittenRecognisesOnlyUserAgents(line: string)
    ensures var k := D.Classify(WrittenDialect(), line);
      !k.DisallowLine? && !k.AllowLine? && !k.SitemapLine? && !k.CrawlDelayLine?
  {
    SharpConst.CapitalisedNeverMatchLowered(line);
  }

  /** As written, a line beginning "Disallow:" is unparsable, so loading a file that has one throws. */
  lemma WrittenRejectsDisallow(st: D.ParseState, line: string)
    requires SharpConst.Disallow <= line
    ensures D.Step(WrittenDialect(), st, line) == Failure(UnparsableLine(line))
  {
    var d := WrittenDialect();
    var low := Text.Lower(line);
    SharpConst.CapitalisedNeverMatchLowered(line);
    assert line[0] == 'D';
    assert low[0] == 'd';
    SharpConst.UserAgentLowered();
    assert !Text.StartsWith(low, d.userAgent) by {
      D.FirstCharMismatch(low, d.userAgent);
    }
  }

  /** No sitemaps, and every group exactly as `new Useragent(name)` made it. */
  predicate Bare(st: D.ParseState) {
    && st.sitemaps == {}
    && forall i :: 0 <= i < |st.groups| ==> st.groups[i] == New(st.groups[i].name)
  }

  /** As written, no line can take a parse state out of Bare. */
  lemma WrittenStepKeepsBare(st: D.ParseState, line: string)
    requires Bare(st) && D.Step(WrittenDialect(), st, line).Success?
    ensures Bare(D.Step(WrittenDialect(), st, line).value)
  {
    WrittenRecognisesOnlyUserAgents(line);
    var k := D.Classify(WrittenDialect(), line);
    if k.UserAgentLine? {
      var gs := st.groups + [New(k.name)];
      assert D.Step(WrittenDialect(), st, line).value.groups == gs;
      assert forall i :: 0 <= i < |st.groups| ==> gs[i] == st.groups[i];
    } else {
      assert k.Skipped?;
    }
  }

  /**
   * As written, whatever the file says, every group a parse produces is a bare
   * `new Useragent(name)` and the sitemap set stays empty.
   */
  lemma {:induction false} WrittenParseHasNoRules(lines: seq<string>)
    ensures Bare(D.Run(WrittenDialect(), D.Start({}), lines).state)
    decreases |lines|
  {
    if lines != [] {
      var d := WrittenDialect();
      var front := lines[..|lines| - 1];
      WrittenParseHasNoRules(front);
      var prev := D.Run(d, D.Start({}), front);
      if prev.failure.None? && D.Step(d, prev.state, lines[|lines| - 1]).Success? {
        WrittenStepKeepsBare(prev.state, lines[|lines| - 1]);
      }
    }
  }

  /** WrittenParseHasNoRules, stated on the group list and the sitemap set as the class keeps them. */
  lemma WrittenLoadIsBare(lines: seq<string>)
    ensures var st := D.Run(WrittenDialect(), D.Start({}), lines).state;
      && st.sitemaps == {}
      && forall u :: u in st.groups ==> u == New(u.name)
  {
    WrittenParseHasNoRules(lines);
  }

  /** Corrected, a line beginning "Disallow:" adds its trimmed value to the current group. */
  lemma DisallowRecognised(st: D.ParseState, line: string)
    requires SharpConst.Disallow <= line
    ensures var c := D.Current(st);
      D.Step(CorrectedDialect(), st, line)
        == Success(D.SetCurrent(st, c.(disallowed := c.disallowed + {D.Value(line, SharpConst.DisallowLength)})))
  {
    var d := CorrectedDialect();
    var low := Text.Lower(line);
    Text.LowerPrefix(SharpConst.Disallow, line);
    assert low[0] == 'd';
    SharpConst.UserAgentLowered();
    assert !Text.StartsWith(low, d.userAgent) by {
      D.FirstCharMismatch(low, d.userAgent);
    }
  }

  /** `TryDeserializeXMLStream` after `TryDecompress`, falling back to the raw bytes. */
  function ReadContent(web: Web, raw: Bytes): Content {
    web.xml(web.utf8(Decompress(web, raw)))
  }

  class Robots {
    const web: Web
    var ignoreErrors: bool
    var robots: Option<string>
    var userAgents: Option<seq<Useragent>>
    var sitemaps: Option<set<string>>

    constructor(web: Web)
      ensures this.web == web && !ignoreErrors
      ensures robots == None && userAgents == None && sitemaps == None
    {
      this.web := web;
      ignoreErrors := false;
      robots := None;
      userAgents := None;
      sitemaps := None;
    }

    /** The IgnoreErrors setter. */
    method SetIgnoreErrors(value: bool)
      modifies this
      ensures ignoreErrors == value
      ensures robots == old(robots) && userAgents == old(userAgents) && sitemaps == old(sitemaps)
    {
      ignoreErrors := value;
    }

    /**
     * ParseRobotsAsync: fresh, empty group list and sitemap set, then the line loop
     * with the comparison as written. With no text the StringReader constructor
     * throws ArgumentNullException after the two fields were reset. A line that
     * throws leaves everything parsed before it in place. Whatever the text, no
     * group gets a rule and no sitemap is recorded.
     */
    method ParseRobotsAsync() returns (r: Result<(), Error>)
      modifies this
      ensures robots == old(robots) && ignoreErrors == old(ignoreErrors)
      ensures robots.None? ==>
        userAgents == Some([]) && sitemaps == Some({}) && r == Failure(ArgumentNull)
      ensures robots.Some? ==>
        var o := D.Run(WrittenDialect(), D.Start({}), Lines.Lines(robots.value));
        && userAgents == Some(o.state.groups)
        && sitemaps == Some(o.state.sitemaps)
        && r == (if o.failure.None? then Success(()) else Failure(o.failure.value.error))
      ensures userAgents.Some? && sitemaps == Some({})
      ensures forall u :: u in userAgents.value ==> u == New(u.name)
    {
      var d := WrittenDialect();
      userAgents := Some([]);
      sitemaps := Some({});
      if robots.None? {
        return Failure(ArgumentNull);
      }
      var currentAgent := New("*");
      var lines := Lines.Lines(robots.value);
      ghost var start := D.Start({});
      var i := 0;
      while i < |lines|
        invariant 0 <= i <= |lines|
        invariant robots == old(robots) && ignoreErrors == old(ignoreErrors)
        invariant userAgents.Some? && sitemaps.Some?
        invariant D.Run(d, start, lines[..i]) ==
          D.Outcome(D.ParseState(userAgents.value, sitemaps.value, currentAgent), None)
      {
        D.RunSnoc(d, start, lines, i);
        var st := D.ParseState(userAgents.value, sitemaps.value, currentAgent);
        match D.Step(d, st, lines[i])
        case Failure(e) =>
          D.RunStopped(d, start, lines, i + 1);
          WrittenLoadIsBare(lines);
          return Failure(e);
        case Success(next) =>
          userAgents := Some(next.groups);
          sitemaps := Some(next.sitemaps);
          currentAgent := next.placeholder;
        i := i + 1;
      }
      assert lines[..i] == lines;
      WrittenLoadIsBare(lines);
      return Success(());
    }

    /**
     * Load(string): keep the text, then parse it as written; every group loaded is
     * a bare `new Useragent(name)` and no sitemap is ever recorded.
     */
    method Load(robotsContent: string) returns (r: Result<(), Error>)
      modifies this
      ensures robots == Some(robotsContent) && ignoreErrors == old(ignoreErrors)
      ensures var o := D.Run(WrittenDialect(), D.Start({}), Lines.Lines(robotsContent));
        && userAgents == Some(o.state.groups)
        && sitemaps == Some(o.state.sitemaps)
        && r == (if o.failure.None? then Success(()) else Failure(o.failure.value.error))
      ensures userAgents.Some? && sitemaps == Some({})
      ensures forall u :: u in userAgents.value ==> u == New(u.name)
    {
      robots := Some(robotsContent);
      r := ParseRobotsAsync();
    }

    /** UserAgentCount: the number of groups; with no list it dereferences null. */
    function UserAgentCount(): (r: Result<int, Error>)
      reads this
      ensures userAgents.None? ==> r == Failure(NullReference)
      ensures userAgents.Some? ==> r == Success(|userAgents.value|)
    {
      match userAgents
      case None => Failure(NullReference)
      case Some(gs) => Success(|gs|)
    }

    /** The UserAgents property: the list, or RobotsNotloadedException before a load. */
    function UserAgents(): (r: Result<seq<Useragent>, Error>)
      reads this
      ensures r.Success? <==> userAgents.Some?
      ensures r.Success? ==> r.value == userAgents.value
      ensures r.Failure? ==> r.error == NotLoaded
    {
      match userAgents
      case None => Failure(NotLoaded)
      case Some(gs) => Success(gs)
    }

    /** The Sitemaps property: the set, or RobotsNotloadedException before a load. */
    function Sitemaps(): (r: Result<set<string>, Error>)
      reads this
      ensures r.Success? <==> sitemaps.Some?
      ensures r.Success? ==> r.value == sitemaps.value
      ensures r.Failure? ==> r.error == NotLoaded
    {
      match sitemaps
      case None => Failure(NotLoaded)
      case Some(s) => Success(s)
    }

    /**
     * `UserAgents.First(x => x.Name == agent)`, the lookup every query starts from:
     * the first group with exactly that name, or an exception.
     */
    function First(agent: string): (r: Result<Useragent, Error>)
      reads this
      ensures userAgents.None? ==> r == Failure(NotLoaded)
      ensures userAgents.Some? && !HasNamed(userAgents.value, agent) ==> r == Failure(NoSuchAgent(agent))
      ensures userAgents.Some? && HasNamed(userAgents.value, agent) ==>
        exists i: nat :: IsFirst(userAgents.value, agent, i) && r == Success(userAgents.value[i])
    {
      match userAgents
      case None => Failure(NotLoaded)
      case Some(gs) =>
        match FindFirst(gs, agent)
        case None => Failure(NoSuchAgent(agent))
        case Some(i) => Success(gs[i])
    }

    /** GetAllowedPaths: the allowed set of the first group with that exact name, which must exist. */
    function GetAllowedPaths(agent: string): (r: Result<set<string>, Error>)
      reads this
      ensures userAgents.None? ==> r == Failure(NotLoaded)
      ensures userAgents.Some? && !HasNamed(userAgents.value, agent) ==> r == Failure(NoSuchAgent(agent))
      ensures userAgents.Some? && HasNamed(userAgents.value, agent) ==>
        exists i: nat :: IsFirst(userAgents.value, agent, i) && r == Success(userAgents.value[i].allowed)
    {
      match First(agent)
      case Failure(e) => Failure(e)
      case Success(u) => Success(u.allowed)
    }

    /** GetDisallowedPaths: the disallowed set of the first group with that exact name, which must exist. */
    function GetDisallowedPaths(agent: string): (r: Result<set<string>, Error>)
      reads this
      ensures userAgents.None? ==> r == Failure(NotLoaded)
      ensures userAgents.Some? && !HasNamed(userAgents.value, agent) ==> r == Failure(NoSuchAgent(agent))
      ensures userAgents.Some? && HasNamed(userAgents.value, agent) ==>
        exists i: nat :: IsFirst(userAgents.value, agent, i) && r == Success(userAgents.value[i].disallowed)
    {
      match First(agent)
      case Failure(e) => Failure(e)
      case Success(u) => Success(u.disallowed)
    }

    /** IsPathAllowed: only the first group named `agent` answers; there is no fallback, not even for "*". */
    function IsPathAllowed(path: string, agent: string): (r: Result<bool, Error>)
      reads this
      ensures userAgents.None? ==> r == Failure(NotLoaded)
      ensures userAgents.Some? && !HasNamed(userAgents.value, agent) ==> r == Failure(NoSuchAgent(agent))
      ensures userAgents.Some? && HasNamed(userAgents.value, agent) ==>
        exists i: nat :: IsFirst(userAgents.value, agent, i) && r == Success(SharpUseragent.IsAllowed(userAgents.value[i], path))
    {
      match First(agent)
      case Failure(e) => Failure(e)
      case Success(u) => Success(SharpUseragent.IsAllowed(u, path))
    }

    /** IsPathDisallowed: only the first group named `agent` answers; there is no fallback. */
    function IsPathDisallowed(path: string, agent: string): (r: Result<bool, Error>)
      reads this
      ensures userAgents.None? ==> r == Failure(NotLoaded)
      ensures userAgents.Some? && !HasNamed(userAgents.value, agent) ==> r == Failure(NoSuchAgent(agent))
      ensures userAgents.Some? && HasNamed(userAgents.value, agent) ==>
        exists i: nat :: IsFirst(userAgents.value, agent, i) && r == Success(SharpUseragent.IsDisallowed(userAgents.value[i], path))
    {
      match First(agent)
      case Failure(e) => Failure(e)
      case Success(u) => Success(SharpUseragent.IsDisallowed(u, path))
    }

    /** GetCrawlDelay: the delay of the first group named `agent`; there is no default. */
    function GetCrawlDelay(agent: string): (r: Result<int, Error>)
      reads this
      ensures userAgents.None? ==> r == Failure(NotLoaded)
      ensures userAgents.Some? && !HasNamed(userAgents.value, agent) ==> r == Failure(NoSuchAgent(agent))
      ensures userAgents.Some? && HasNamed(userAgents.value, agent) ==>
        exists i: nat :: IsFirst(userAgents.value, agent, i) && r == Success(userAgents.value[i].crawldelay)
    {
      match First(agent)
      case Failure(e) => Failure(e)
      case Success(u) => Success(u.crawldelay)
    }

    /**
     * GetSitemapsInternal: a failed fetch throws; content that is not a sitemap
     * index throws unless IgnoreErrors is set, in which case it yields nothing.
     */
    function GetSitemapsInternal(url: string): (r: Result<seq<SitemapRef>, Error>)
      reads this
      ensures r.Failure? <==>
        !web.get(url).Ok() || (!ignoreErrors && !ReadContent(web, web.get(url).body).Index?)
      ensures r.Failure? && web.get(url).Ok() ==> r.error == NotDeserializable(url, "sitemapindex")
      ensures r.Success? ==>
        match ReadContent(web, web.get(url).body)
        case Index(entries) => r.value == entries
        case _ => r.value == []
    {
      var response := web.get(url);
      if !response.Ok() then Failure(FetchFailed(url))
      else
        match ReadContent(web, response.body)
        case Index(entries) => Success(entries)
        case _ => if ignoreErrors then Success([]) else Failure(NotDeserializable(url, "sitemapindex"))
    }

    /** The foreach of GetSitemapIndexesAsync over the sitemaps taken in `order`, stopping at the first throw. */
    function AllIndexes(order: seq<string>): Result<seq<SitemapRef>, Error>
      reads this
      decreases |order|
    {
      if order == [] then Success([])
      else
        match AllIndexes(order[..|order| - 1])
        case Failure(e) => Failure(e)
        case Success(acc) =>
          match GetSitemapsInternal(order[|order| - 1])
          case Failure(e) => Failure(e)
          case Success(entries) => Success(acc + entries)
    }

    /**
     * GetSitemapIndexesAsync: with a URL it resolves only that URL; with "" it
     * concatenates the index entries of every known sitemap, in the set's iteration
     * order (returned as `order`), and before a load it dereferences null.
     */
    method GetSitemapIndexesAsync(sitemapUrl: string) returns (r: Result<seq<SitemapRef>, Error>, ghost order: seq<string>)
      ensures sitemapUrl != "" ==> r == GetSitemapsInternal(sitemapUrl)
      ensures sitemapUrl == "" && sitemaps.None? ==> r == Failure(NullReference)
      ensures sitemapUrl == "" && sitemaps.Some? ==>
        && NoDup(order) && Elems(order) <= sitemaps.value
        && r == AllIndexes(order)
        && (r.Success? ==> Elems(order) == sitemaps.value)
    {
      order := [];
      if sitemapUrl != "" {
        return GetSitemapsInternal(sitemapUrl), order;
      }
      if sitemaps.None? {
        return Failure(NullReference), order;
      }
      var all := sitemaps.value;
      var remaining := all;
      var entries: seq<SitemapRef> := [];
      while remaining != {}
        invariant remaining <= all
        invariant Elems(order) == all - remaining
        invariant NoDup(order)
        invariant AllIndexes(order) == Success(entries)
        decreases remaining
      {
        var sitemap :| sitemap in remaining;
        var got := GetSitemapsInternal(sitemap);
        assert (order + [sitemap])[..|order|] == order;
        assert Elems(order + [sitemap]) == Elems(order) + {sitemap};
        order := order + [sitemap];
        remaining := remaining - {sitemap};
        match got
        case Failure(e) =>
          return Failure(e), order;
        case Success(es) =>
          entries := entries + es;
      }
      return Success(entries), order;
    }

    /**
     * GetUrlsAsync: a request that throws propagates; a non-success status answers
     * nothing; content that is not a urlset throws unless IgnoreErrors is set, in
     * which case it answers nothing.
     */
    function GetUrlsAsync(sitemap: SitemapRef): (r: Result<seq<Url>, Error>)
      reads this
      ensures web.get(sitemap.loc).Threw? ==> r == Failure(FetchFailed(sitemap.loc))
      ensures web.get(sitemap.loc).Answered? ==>
        (r.Failure? <==> web.get(sitemap.loc).success && !ignoreErrors
                         && !ReadContent(web, web.get(sitemap.loc).body).UrlSet?)
      ensures web.get(sitemap.loc).Answered? && r.Failure? ==> r.error == NotDeserializable(sitemap.loc, "urlset")
      ensures r.Success? ==>
        if web.get(sitemap.loc).Ok() && ReadContent(web, web.get(sitemap.loc).body).UrlSet?
        then r.value == ReadContent(web, web.get(sitemap.loc).body).urls
        else r.value == []
    {
      match web.get(sitemap.loc)
      case Threw => Failure(FetchFailed(sitemap.loc))
      case Answered(success, body) =>
        if !success then Success([])
        else
          match ReadContent(web, body)
          case UrlSet(urls) => Success(urls)
          case _ => if ignoreErrors then Success([]) else Failure(NotDeserializable(sitemap.loc, "urlset"))
    }
  }

  /** UserAgentCount after a load is the number of user-agent lines read, repeats included. */
  lemma UserAgentCountIsAgentLines(content: string)
    ensures var o := D.Run(WrittenDialect(), D.Start({}), Lines.Lines(content));
      var lines := Lines.Lines(content);
      |o.state.groups| == |D.AgentNames(WrittenDialect(), lines[..D.Processed(o, lines)])|
  {
    var d := WrittenDialect();
    D.RunNames(d, D.Start({}), Lines.Lines(content));
  }
}
