/**
 * Nick.RobotsParser/RobotsParser.cs. Compared with Robots/RobotsParser.cs it
 * tolerates the "<!DOCTYPE html> " line, keeps the sitemap set across loads,
 * can be told to suppress sitemap deserialisation errors, strips everything up to
 * the XML declaration's "?>" instead of gunzipping, and lets GetSitemapIndexes add
 * a URL of its own to the set. Its Useragent (Nick.RobotsParser/Useragent.cs) has
 * the blanket "/" disallow rule.
 *
 * Nick.RobotsParser's Const class is not part of the model; the lower-case
 * prefixes of Robots/Const.cs, with the same lengths, stand in for it.
 */
module NickParser {
  import opened Wrappers
  import opened Agent
  import opened Sitemaps
  import NickUseragent
  import RobotsConst
  import Text
  import Lines
  import D = Directives

  /** Const as ParseRobots compares it, with the DOCTYPE line tolerated. */
  function ParserDialect(): (d: D.Dialect)
    ensures D.WellFormed(d) && D.LetterPrefixes(d)
    ensures d.skipsDoctype
  {
    D.Dialect(
      Text.Lower(RobotsConst.UserAgent), RobotsConst.UserAgentLength,
      RobotsConst.Disallow, RobotsConst.DisallowLength,
      RobotsConst.Allow, RobotsConst.AllowLength,
      RobotsConst.Sitemap, RobotsConst.SitemapLength,
      RobotsConst.Crawldelay, RobotsConst.CrawldelayLength,
      true)
  }

  /** StripVersionFromString: everything after the first "?>", or the whole text without one. */
  function StripVersionFromString(val: string): string {
    match Text.IndexOf(val, "?>")
    case None => val
    case Some(k) => val[k + 2..]
  }

  /**
   * What StripVersionFromString removes is a prefix ending in "?>" with no earlier
   * "?>" in it, and it removes nothing from a text without "?>".
   */
  lemma StripVersionRemovesDeclaration(val: string)
    ensures var r := StripVersionFromString(val);
      && |r| <= |val| && r == val[|val| - |r|..]
      && (!Text.Contains(val, "?>") ==> r == val)
      && (Text.Contains(val, "?>") ==>
        var cut := val[..|val| - |r|];
        && |cut| >= 2 && cut[|cut| - 2..] == "?>"
        && !Text.Contains(cut[..|cut| - 1], "?>"))
  {
    match Text.IndexOf(val, "?>")
    case None =>
    case Some(k) =>
      var r := val[k + 2..];
      var cut := val[..k + 2];
      assert cut == val[..|val| - |r|];
      assert cut[k..] == val[k..k + 2];
      Text.NoneBeforeFirst(val, "?>", k);
      assert cut[..k + 1] == val[..k + 1];
  }

  /** `TryDeserializeXMLStream` on the bytes as fetched: UTF-8, version stripped, no gunzip. */
  function ReadContent(web: Web, raw: Bytes): Content {
    web.xml(StripVersionFromString(web.utf8(raw)))
  }

  /** Each URL as GetSitemapLinksInternal sees it. */
  function Pages(web: Web): string -> Page {
    url => if web.get(url).Ok() then Fetched(ReadContent(web, web.get(url).body)) else Unreachable
  }

  /** A URL that can be fetched is read from its body. */
  lemma PageOf(web: Web, url: string)
    requires web.get(url).Ok()
    ensures Pages(web)(url) == Fetched(ReadContent(web, web.get(url).body))
  {
  }

  /**
   * GetByteArrayAsync throws on a transport failure and on a non-success status
   * alike, and the gzip codec is never consulted: replacing it changes no page.
   */
  lemma PagesIgnoreGunzip(web: Web, url: string, gunzip: Bytes -> Option<Bytes>)
    ensures Pages(web.(gunzip := gunzip))(url) == Pages(web)(url)
    ensures !web.get(url).Ok() ==> Pages(web)(url) == Unreachable
  {
    var w := web.(gunzip := gunzip);
    assert w.get == web.get;
    if web.get(url).Ok() {
      assert ReadContent(w, web.get(url).body) == ReadContent(web, web.get(url).body);
    }
  }

  class Robots {
    const web: Web
    const supressSitemapErrors: bool
    var robotsContent: Option<string>
    var userAgents: Option<seq<Useragent>>
    var sitemaps: Option<set<string>>
    var sitemapLinks: seq<Url>
    var progress: seq<int>

    constructor(web: Web, supressSitemapErrors: bool)
      ensures this.web == web && this.supressSitemapErrors == supressSitemapErrors
      ensures robotsContent == None && userAgents == None && sitemaps == None
      ensures sitemapLinks == [] && progress == []
    {
      this.web := web;
      this.supressSitemapErrors := supressSitemapErrors;
      robotsContent := None;
      userAgents := None;
      sitemaps := None;
      sitemapLinks := [];
      progress := [];
    }

    /**
     * ParseRobots: a fresh, empty group list, but the sitemap set is created only if
     * there is none yet, so earlier sitemaps stay. A line that throws leaves
     * everything parsed before it in place.
     */
    method ParseRobots() returns (r: Result<(), Error>)
      modifies this
      ensures robotsContent == old(robotsContent)
      ensures sitemapLinks == old(sitemapLinks) && progress == old(progress)
      ensures old(robotsContent).None? ==>
        r == Failure(NotLoaded) && userAgents == old(userAgents) && sitemaps == old(sitemaps)
      ensures old(robotsContent).Some? ==>
        var o := D.Run(ParserDialect(), D.Start(old(sitemaps).GetOr({})), Lines.Lines(old(robotsContent).value));
        && userAgents == Some(o.state.groups)
        && sitemaps == Some(o.state.sitemaps)
        && r == (if o.failure.None? then Success(()) else Failure(o.failure.value.error))
    {
      if robotsContent.None? {
        return Failure(NotLoaded);
      }
      var d := ParserDialect();
      userAgents := Some([]);
      sitemaps := Some(sitemaps.GetOr({}));
      var currentAgent := New("*");
      var lines := Lines.Lines(robotsContent.value);
      ghost var start := D.Start(sitemaps.value);
      var i := 0;
      while i < |lines|
        invariant 0 <= i <= |lines|
        invariant robotsContent == old(robotsContent)
        invariant sitemapLinks == old(sitemapLinks) && progress == old(progress)
        invariant userAgents.Some? && sitemaps.Some?
        invariant D.Run(d, start, lines[..i]) ==
          D.Outcome(D.ParseState(userAgents.value, sitemaps.value, currentAgent), None)
      {
        D.RunSnoc(d, start, lines, i);
        var st := D.ParseState(userAgents.value, sitemaps.value, currentAgent);
        match D.Step(d, st, lines[i])
        case Failure(e) =>
          D.RunStopped(d, start, lines, i + 1);
          return Failure(e);
        case Success(next) =>
          userAgents := Some(next.groups);
          sitemaps := Some(next.sitemaps);
          currentAgent := next.placeholder;
        i := i + 1;
      }
      assert lines[..i] == lines;
      return Success(());
    }

    /** LoadRobotsContent: keep the text, parse it, and answer true unless parsing throws. */
    method LoadRobotsContent(content: string) returns (r: Result<bool, Error>)
      modifies this
      ensures robotsContent == Some(content)
      ensures sitemapLinks == old(sitemapLinks) && progress == old(progress)
      ensures var o := D.Run(ParserDialect(), D.Start(old(sitemaps).GetOr({})), Lines.Lines(content));
        && userAgents == Some(o.state.groups)
        && sitemaps == Some(o.state.sitemaps)
        && r == (if o.failure.None? then Success(true) else Failure(o.failure.value.error))
    {
      robotsContent := Some(content);
      var parsed := ParseRobots();
      r := if parsed.Success? then Success(true) else Failure(parsed.error);
    }

    /** The UserAgents property: the list, or RobotsNotloadedException before a load. */
    function UserAgents(): (r: Result<seq<Useragent>, Error>)
      reads this
      ensures r.Success? <==> userAgents.Some?
      ensures r.Success? ==> r.value == userAgents.value
      ensures r.Failure? ==> r.error == NotLoaded
    {
      match userAgents
      case None => Failure(NotLoaded)
      case Some(gs) => Success(gs)
    }

    /** The Sitemaps property: the set, or RobotsNotloadedException while there is none. */
    function Sitemaps(): (r: Result<set<string>, Error>)
      reads this
      ensures r.Success? <==> sitemaps.Some?
      ensures r.Success? ==> r.value == sitemaps.value
      ensures r.Failure? ==> r.error == NotLoaded
    {
      match sitemaps
      case None => Failure(NotLoaded)
      case Some(s) => Success(s)
    }

    /** GetAllowedPaths: the allowed set of the first group with that exact name, which must exist. */
    function GetAllowedPaths(agent: string): (r: Result<set<string>, Error>)
      reads this
      ensures userAgents.None? ==> r == Failure(NotLoaded)
      ensures userAgents.Some? && !HasNamed(userAgents.value, agent) ==> r == Failure(NoSuchAgent(agent))
      ensures userAgents.Some? && HasNamed(userAgents.value, agent) ==>
        exists i: nat :: IsFirst(userAgents.value, agent, i) && r == Success(userAgents.value[i].allowed)
    {
      match userAgents
      case None => Failure(NotLoaded)
      case Some(gs) =>
        match FindFirst(gs, agent)
        case None => Failure(NoSuchAgent(agent))
        case Some(i) => Success(gs[i].allowed)
    }

    /** GetDisallowedPaths: the disallowed set of the first group with that exact name, which must exist. */
    function GetDisallowedPaths(agent: string): (r: Result<set<string>, Error>)
      reads this
      ensures userAgents.None? ==> r == Failure(NotLoaded)
      ensures userAgents.Some? && !HasNamed(userAgents.value, agent) ==> r == Failure(NoSuchAgent(agent))
      ensures userAgents.Some? && HasNamed(userAgents.value, agent) ==>
        exists i: nat :: IsFirst(userAgents.value, agent, i) && r == Success(userAgents.value[i].disallowed)
    {
      match userAgents
      case None => Failure(NotLoaded)
      case Some(gs) =>
        match FindFirst(gs, agent)
        case None => Failure(NoSuchAgent(agent))
        case Some(i) => Success(gs[i].disallowed)
    }

    /**
     * IsPathAllowed: the first group named `agent` answers; if that is false (or
     * there is none) and `agent` is not "*", the first "*" group answers instead,
     * and if there is no "*" group, `First` throws.
     */
    function IsPathAllowed(path: string, agent: string): (r: Result<bool, Error>)
      reads this
      ensures userAgents.None? ==> r == Failure(NotLoaded)
      ensures userAgents.Some? ==>
        var gs := userAgents.value;
        var own := exists i: nat :: IsFirst(gs, agent, i) && NickUseragent.IsAllowed(gs[i], path);
        var wild := exists j: nat :: IsFirst(gs, "*", j) && NickUseragent.IsAllowed(gs[j], path);
        && (r.Success? ==> (r.value <==> own || (agent != "*" && wild)))
        && (r.Failure? <==> !own && agent != "*" && !HasNamed(gs, "*"))
        && (r.Failure? ==> r.error == NoSuchAgent("*"))
    {
      match userAgents
      case None => Failure(NotLoaded)
      case Some(gs) =>
        FindFirstUnique(gs, agent);
        FindFirstUnique(gs, "*");
        var own := match FindFirst(gs, agent)
          case Some(i) => NickUseragent.IsAllowed(gs[i], path)
          case None => false;
        if !own && agent != "*" then
          match FindFirst(gs, "*")
          case None => Failure(NoSuchAgent("*"))
          case Some(j) => Success(NickUseragent.IsAllowed(gs[j], path))
        else Success(own)
    }

    /** IsPathDisallowed: the same fallback as IsPathAllowed, on the disallow answer. */
    function IsPathDisallowed(path: string, agent: string): (r: Result<bool, Error>)
      reads this
      ensures userAgents.None? ==> r == Failure(NotLoaded)
      ensures userAgents.Some? ==>
        var gs := userAgents.value;
        var own := exists i: nat :: IsFirst(gs, agent, i) && NickUseragent.IsDisallowed(gs[i], path);
        var wild := exists j: nat :: IsFirst(gs, "*", j) && NickUseragent.IsDisallowed(gs[j], path);
        && (r.Success? ==> (r.value <==> own || (agent != "*" && wild)))
        && (r.Failure? <==> !own && agent != "*" && !HasNamed(gs, "*"))
        && (r.Failure? ==> r.error == NoSuchAgent("*"))
    {
      match userAgents
      case None => Failure(NotLoaded)
      case Some(gs) =>
        FindFirstUnique(gs, agent);
        FindFirstUnique(gs, "*");
        var own := match FindFirst(gs, agent)
          case Some(i) => NickUseragent.IsDisallowed(gs[i], path)
          case None => false;
        if !own && agent != "*" then
          match FindFirst(gs, "*")
          case None => Failure(NoSuchAgent("*"))
          case Some(j) => Success(NickUseragent.IsDisallowed(gs[j], path))
        else Success(own)
    }

    /**
     * GetCrawlDelay: the first group named `agent` answers, even with 0; only when
     * there is no such group does "*" answer, and for "*" itself the default is 0.
     */
    function GetCrawlDelay(agent: string): (r: Result<int, Error>)
      reads this
      ensures userAgents.None? ==> r == Failure(NotLoaded)
      ensures userAgents.Some? && HasNamed(userAgents.value, agent) ==>
        exists i: nat :: IsFirst(userAgents.value, agent, i) && r == Success(userAgents.value[i].crawldelay)
      ensures userAgents.Some? && !HasNamed(userAgents.value, agent) && agent == "*" ==> r == Success(0)
      ensures userAgents.Some? && !HasNamed(userAgents.value, agent) && agent != "*" ==>
        if HasNamed(userAgents.value, "*")
        then exists j: nat :: IsFirst(userAgents.value, "*", j) && r == Success(userAgents.value[j].crawldelay)
        else r == Failure(NoSuchAgent("*"))
    {
      match userAgents
      case None => Failure(NotLoaded)
      case Some(gs) =>
        match FindFirst(gs, agent)
        case Some(i) => Success(gs[i].crawldelay)
        case None =>
          if agent == "*" then Success(0)
          else
            match FindFirst(gs, "*")
            case None => Failure(NoSuchAgent("*"))
            case Some(j) => Success(gs[j].crawldelay)
    }

    /**
     * GetSitemapsInternal: a failed fetch throws; content that is not a sitemap
     * index throws unless errors are suppressed, in which case it yields nothing.
     */
    function GetSitemapsInternal(url: string): (r: Result<seq<SitemapRef>, Error>)
      reads this
      ensures r.Failure? <==>
        !web.get(url).Ok() || (!supressSitemapErrors && !ReadContent(web, web.get(url).body).Index?)
      ensures r.Failure? && web.get(url).Ok() ==> r.error == NotDeserializable(url, "sitemapindex")
      ensures r.Success? ==>
        match ReadContent(web, web.get(url).body)
        case Index(entries) => r.value == entries
        case _ => r.value == []
    {
      var response := web.get(url);
      if !response.Ok() then Failure(FetchFailed(url))
      else
        match ReadContent(web, response.body)
        case Index(entries) => Success(entries)
        case _ => if supressSitemapErrors then Success([]) else Failure(NotDeserializable(url, "sitemapindex"))
    }

    /** The foreach of GetSitemapIndexes over the sitemaps taken in `order`, stopping at the first throw. */
    function AllIndexes(order: seq<string>): Result<seq<SitemapRef>, Error>
      reads this
      decreases |order|
    {
      if order == [] then Success([])
      else
        match AllIndexes(order[..|order| - 1])
        case Failure(e) => Failure(e)
        case Success(acc) =>
          match GetSitemapsInternal(order[|order| - 1])
          case Failure(e) => Failure(e)
          case Success(entries) => Success(acc + entries)
    }

    /**
     * GetSitemapIndexes: a non-empty URL is first added to the sitemap set (creating
     * it if need be); then, with no set, it throws if nothing was ever loaded and
     * answers nothing otherwise; with a set, it concatenates the index entries of
     * every member, in the set's iteration order (returned as `order`).
     */
    method GetSitemapIndexes(sitemapUrl: string) returns (r: Result<seq<SitemapRef>, Error>, ghost order: seq<string>)
      modifies this
      ensures sitemapUrl != "" ==> sitemaps == Some(old(sitemaps).GetOr({}) + {sitemapUrl})
      ensures sitemapUrl == "" ==> sitemaps == old(sitemaps)
      ensures robotsContent == old(robotsContent) && userAgents == old(userAgents)
      ensures sitemapLinks == old(sitemapLinks) && progress == old(progress)
      ensures sitemaps.None? ==> r == (if robotsContent.None? then Failure(NotLoaded) else Success([]))
      ensures sitemaps.Some? ==>
        && NoDup(order) && Elems(order) <= sitemaps.value
        && r == AllIndexes(order)
        && (r.Success? ==> Elems(order) == sitemaps.value)
    {
      order := [];
      if sitemapUrl != "" {
        sitemaps := Some(sitemaps.GetOr({}) + {sitemapUrl});
      }
      if sitemaps.None? {
        if robotsContent.None? {
          return Failure(NotLoaded), order;
        }
        return Success([]), order;
      }
      var all := sitemaps.value;
      var remaining := all;
      var entries: seq<SitemapRef> := [];
      while remaining != {}
        invariant remaining <= all
        invariant Elems(order) == all - remaining
        invariant NoDup(order)
        invariant AllIndexes(order) == Success(entries)
        decreases remaining
      {
        var sitemap :| sitemap in remaining;
        var got := GetSitemapsInternal(sitemap);
        assert (order + [sitemap])[..|order|] == order;
        assert Elems(order + [sitemap]) == Elems(order) + {sitemap};
        order := order + [sitemap];
        remaining := remaining - {sitemap};
        match got
        case Failure(e) =>
          return Failure(e), order;
        case Success(es) =>
          entries := entries + es;
      }
      return Success(entries), order;
    }

    /**
     * GetUrls: a failed fetch throws; content that is not a urlset throws unless
     * errors are suppressed, in which case it yields nothing.
     */
    function GetUrls(sitemap: SitemapRef): (r: Result<seq<Url>, Error>)
      reads this
      ensures r.Failure? <==>
        !web.get(sitemap.loc).Ok()
        || (!supressSitemapErrors && !ReadContent(web, web.get(sitemap.loc).body).UrlSet?)
      ensures r.Failure? && web.get(sitemap.loc).Ok() ==> r.error == NotDeserializable(sitemap.loc, "urlset")
      ensures r.Success? ==>
        match ReadContent(web, web.get(sitemap.loc).body)
        case UrlSet(urls) => r.value == urls
        case _ => r.value == []
    {
      var response := web.get(sitemap.loc);
      if !response.Ok() then Failure(FetchFailed(sitemap.loc))
      else
        match ReadContent(web, response.body)
        case UrlSet(urls) => Success(urls)
        case _ => if supressSitemapErrors then Success([]) else Failure(NotDeserializable(sitemap.loc, "urlset"))
    }

    /**
     * GetSitemapLinksInternal: depth-first, document-order flattening into
     * `sitemapLinks`, with a progress report of the running count after each urlset.
     * Content of neither kind is skipped silently; a failed fetch throws out of every
     * level, leaving what was appended so far.
     */
    method GetSitemapLinksInternal(siteIndex: string, fuel: nat) returns (stop: Option<Stop>)
      modifies this
      ensures var w := WalkFrom(Pages(web), siteIndex, fuel);
        && sitemapLinks == old(sitemapLinks) + Flatten(w.leaves)
        && progress == old(progress) + RunningCounts(|old(sitemapLinks)|, w.leaves)
        && stop == w.stop
      ensures robotsContent == old(robotsContent) && userAgents == old(userAgents) && sitemaps == old(sitemaps)
      decreases fuel, 0
    {
      if fuel == 0 {
        return Some(Exhausted(siteIndex));
      }
      var response := web.get(siteIndex);
      if !response.Ok() {
        return Some(FetchThrew(siteIndex));
      }
      PageOf(web, siteIndex);
      match ReadContent(web, response.body)
      case Index(children) =>
        stop := GetChildLinks(children, fuel - 1);
      case UrlSet(urls) =>
        SingleLeaf(|sitemapLinks|, urls);
        sitemapLinks := sitemapLinks + urls;
        progress := progress + [|sitemapLinks|];
        stop := None;
      case Invalid =>
        stop := None;
    }

    /** The foreach of GetSitemapLinksInternal over an index's children, in document order. */
    method GetChildLinks(children: seq<SitemapRef>, fuel: nat) returns (stop: Option<Stop>)
      modifies this
      ensures var w := WalkAll(Pages(web), children, fuel);
        && sitemapLinks == old(sitemapLinks) + Flatten(w.leaves)
        && progress == old(progress) + RunningCounts(|old(sitemapLinks)|, w.leaves)
        && stop == w.stop
      ensures robotsContent == old(robotsContent) && userAgents == old(userAgents) && sitemaps == old(sitemaps)
      decreases fuel, 1
    {
      ghost var pages := Pages(web);
      ghost var links0, progress0 := sitemapLinks, progress;
      ghost var done := Walk([], None);
      var i := 0;
      while i < |children|
        invariant 0 <= i <= |children|
        invariant robotsContent == old(robotsContent) && userAgents == old(userAgents) && sitemaps == old(sitemaps)
        invariant done == WalkAll(pages, children[..i], fuel)
        invariant done.stop.None?
        invariant sitemapLinks == links0 + Flatten(done.leaves)
        invariant progress == progress0 + RunningCounts(|links0|, done.leaves)
      {
        ChildStep(pages, children, i, fuel, links0, progress0, sitemapLinks, progress);
        var s := GetSitemapLinksInternal(children[i].loc, fuel);
        done := WalkAll(pages, children[..i + 1], fuel);
        if s.Some? {
          StoppedStaysStopped(pages, children, i + 1, fuel);
          return s;
        }
        i := i + 1;
      }
      assert children[..i] == children;
      return None;
    }
  }

  /**
   * A parse keeps every sitemap already known and adds those of the sitemap lines
   * it got through before any error.
   */
  lemma ParseKeepsSitemaps(known: set<string>, content: string)
    ensures var lines := Lines.Lines(content);
      var o := D.Run(ParserDialect(), D.Start(known), lines);
      o.state.sitemaps == known + D.SitemapUrls(ParserDialect(), lines[..D.Processed(o, lines)])
  {
    D.RunNames(ParserDialect(), D.Start(known), Lines.Lines(content));
  }
}
