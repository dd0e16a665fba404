/**
 * Robots/RobotsParser.cs. Each load replaces both the group list and the sitemap
 * set; allow/disallow fall back to the "*" group; sitemap content is gunzipped when
 * it can be, and a document of the wrong kind always throws.
 *
 * This directory's Useragent class is not part of the model. The class shares its
 * namespace with RobotsSharp/RobotsSharpParser/Useragent.cs, whose matching
 * (substring containment, no blanket "/" rule) it is taken to have.
 */
module RobotsParser {
  import opened Wrappers
  import opened Agent
  import opened Sitemaps
  import SharpUseragent
  import RobotsConst
  import Text
  import Lines
  import D = Directives

  /** Robots/Const.cs as ParseRobots compares it: only UserAgent is lower-cased first, which changes nothing. */
  function ParserDialect(): (d: D.Dialect)
    ensures D.WellFormed(d) && D.LetterPrefixes(d)
    ensures !d.skipsDoctype
  {
    D.Dialect(
      Text.Lower(RobotsConst.UserAgent), RobotsConst.UserAgentLength,
      RobotsConst.Disallow, RobotsConst.DisallowLength,
      RobotsConst.Allow, RobotsConst.AllowLength,
      RobotsConst.Sitemap, RobotsConst.SitemapLength,
      RobotsConst.Crawldelay, RobotsConst.CrawldelayLength,
      false)
  }

  /** `TryDeserializeXMLStream` after `TryDecompress`, falling back to the raw bytes. */
  function ReadContent(web: Web, raw: Bytes): Content {
    web.xml(web.utf8(Decompress(web, raw)))
  }

  /** Each URL as GetSitemapLinksInternal sees it. */
  function Pages(web: Web): string -> Page {
    url => if web.get(url).Ok() then Fetched(ReadContent(web, web.get(url).body)) else Unreachable
  }

  /** A URL that can be fetched is read from its body. */
  lemma PageOf(web: Web, url: string)
    requires web.get(url).Ok()
    ensures Pages(web)(url) == Fetched(ReadContent(web, web.get(url).body))
  {
  }

  /**
   * GetStreamAsync throws on a transport failure and on a non-success status alike;
   * a body the codec cannot gunzip is deserialised exactly as it arrived.
   */
  lemma PageFallsBackToRaw(web: Web, url: string)
    ensures !web.get(url).Ok() ==> Pages(web)(url) == Unreachable
    ensures web.get(url).Ok() && web.gunzip(web.get(url).body).None? ==>
      Pages(web)(url) == Fetched(web.xml(web.utf8(web.get(url).body)))
    ensures web.get(url).Ok() && web.gunzip(web.get(url).body).Some? ==>
      Pages(web)(url) == Fetched(web.xml(web.utf8(web.gunzip(web.get(url).body).value)))
  {
  }

  class Robots {
    const web: Web
    var robots: Option<string>
    var userAgents: Option<seq<Useragent>>
    var sitemaps: Option<set<string>>
    var sitemapLinks: seq<Url>
    var progress: seq<int>

    constructor(web: Web)
      ensures this.web == web && robots == None
      ensures userAgents == None && sitemaps == None
      ensures sitemapLinks == [] && progress == []
    {
      this.web := web;
      robots := None;
      userAgents := None;
      sitemaps := None;
      sitemapLinks := [];
      progress := [];
    }

    /**
     * ParseRobots: fresh, empty group list and sitemap set, then the line loop.
     * A line that throws leaves everything parsed before it in place.
     */
    method ParseRobots() returns (r: Result<(), Error>)
      modifies this
      ensures robots == old(robots) && sitemapLinks == old(sitemapLinks) && progress == old(progress)
      ensures old(robots).None? ==>
        r == Failure(NotLoaded) && userAgents == old(userAgents) && sitemaps == old(sitemaps)
      ensures old(robots).Some? ==>
        var o := D.Run(ParserDialect(), D.Start({}), Lines.Lines(old(robots).value));
        && userAgents == Some(o.state.groups)
        && sitemaps == Some(o.state.sitemaps)
        && r == (if o.failure.None? then Success(()) else Failure(o.failure.value.error))
    {
      if robots.None? {
        return Failure(NotLoaded);
      }
      var d := ParserDialect();
      userAgents := Some([]);
      sitemaps := Some({});
      var currentAgent := New("*");
      var lines := Lines.Lines(robots.value);
      ghost var start := D.Start({});
      var i := 0;
      while i < |lines|
        invariant 0 <= i <= |lines|
        invariant robots == old(robots) && sitemapLinks == old(sitemapLinks) && progress == old(progress)
        invariant userAgents.Some? && sitemaps.Some?
        invariant D.Run(d, start, lines[..i]) ==
          D.Outcome(D.ParseState(userAgents.value, sitemaps.value, currentAgent), None)
      {
        D.RunSnoc(d, start, lines, i);
        var st := D.ParseState(userAgents.value, sitemaps.value, currentAgent);
        match D.Step(d, st, lines[i])
        case Failure(e) =>
          D.RunStopped(d, start, lines, i + 1);
          return Failure(e);
        case Success(next) =>
          userAgents := Some(next.groups);
          sitemaps := Some(next.sitemaps);
          currentAgent := next.placeholder;
        i := i + 1;
      }
      assert lines[..i] == lines;
      return Success(());
    }

    /** Load(string): keep the text, then parse it. */
    method Load(robotsContent: string) returns (r: Result<(), Error>)
      modifies this
      ensures robots == Some(robotsContent)
      ensures sitemapLinks == old(sitemapLinks) && progress == old(progress)
      ensures var o := D.Run(ParserDialect(), D.Start({}), Lines.Lines(robotsContent));
        && userAgents == Some(o.state.groups)
        && sitemaps == Some(o.state.sitemaps)
        && r == (if o.failure.None? then Success(()) else Failure(o.failure.value.error))
    {
      robots := Some(robotsContent);
      r := ParseRobots();
    }

    /** The UserAgents property: the list, or RobotsNotloadedException before a load. */
    function UserAgents(): (r: Result<seq<Useragent>, Error>)
      reads this
      ensures r.Success? <==> userAgents.Some?
      ensures r.Success? ==> r.value == userAgents.value
      ensures r.Failure? ==> r.error == NotLoaded
    {
      match userAgents
      case None => Failure(NotLoaded)
      case Some(gs) => Success(gs)
    }

    /** The Sitemaps property: the set, or RobotsNotloadedException before a load. */
    function Sitemaps(): (r: Result<set<string>, Error>)
      reads this
      ensures r.Success? <==> sitemaps.Some?
      ensures r.Success? ==> r.value == sitemaps.value
      ensures r.Failure? ==> r.error == NotLoaded
    {
      match sitemaps
      case None => Failure(NotLoaded)
      case Some(s) => Success(s)
    }

    /** GetAllowedPaths: the allowed set of the first group with that exact name, which must exist. */
    function GetAllowedPaths(agent: string): (r: Result<set<string>, Error>)
      reads this
      ensures userAgents.None? ==> r == Failure(NotLoaded)
      ensures userAgents.Some? && !HasNamed(userAgents.value, agent) ==> r == Failure(NoSuchAgent(agent))
      ensures userAgents.Some? && HasNamed(userAgents.value, agent) ==>
        exists i: nat :: IsFirst(userAgents.value, agent, i) && r == Success(userAgents.value[i].allowed)
    {
      match userAgents
      case None => Failure(NotLoaded)
      case Some(gs) =>
        match FindFirst(gs, agent)
        case None => Failure(NoSuchAgent(agent))
        case Some(i) => Success(gs[i].allowed)
    }

    /** GetDisallowedPaths: the disallowed set of the first group with that exact name, which must exist. */
    function GetDisallowedPaths(agent: string): (r: Result<set<string>, Error>)
      reads this
      ensures userAgents.None? ==> r == Failure(NotLoaded)
      ensures userAgents.Some? && !HasNamed(userAgents.value, agent) ==> r == Failure(NoSuchAgent(agent))
      ensures userAgents.Some? && HasNamed(userAgents.value, agent) ==>
        exists i: nat :: IsFirst(userAgents.value, agent, i) && r == Success(userAgents.value[i].disallowed)
    {
      match userAgents
      case None => Failure(NotLoaded)
      case Some(gs) =>
        match FindFirst(gs, agent)
        case None => Failure(NoSuchAgent(agent))
        case Some(i) => Success(gs[i].disallowed)
    }

    /**
     * IsPathAllowed: the first group named `agent` answers; if that is false (or
     * there is none) and `agent` is not "*", the first "*" group answers instead,
     * and if there is no "*" group, `First` throws.
     */
    function IsPathAllowed(path: string, agent: string): (r: Result<bool, Error>)
      reads this
      ensures userAgents.None? ==> r == Failure(NotLoaded)
      ensures userAgents.Some? ==>
        var gs := userAgents.value;
        var own := exists i: nat :: IsFirst(gs, agent, i) && SharpUseragent.IsAllowed(gs[i], path);
        var wild := exists j: nat :: IsFirst(gs, "*", j) && SharpUseragent.IsAllowed(gs[j], path);
        && (r.Success? ==> (r.value <==> own || (agent != "*" && wild)))
        && (r.Failure? <==> !own && agent != "*" && !HasNamed(gs, "*"))
        && (r.Failure? ==> r.error == NoSuchAgent("*"))
    {
      match userAgents
      case None => Failure(NotLoaded)
      case Some(gs) =>
        FindFirstUnique(gs, agent);
        FindFirstUnique(gs, "*");
        var own := match FindFirst(gs, agent)
          case Some(i) => SharpUseragent.IsAllowed(gs[i], path)
          case None => false;
        if !own && agent != "*" then
          match FindFirst(gs, "*")
          case None => Failure(NoSuchAgent("*"))
          case Some(j) => Success(SharpUseragent.IsAllowed(gs[j], path))
        else Success(own)
    }

    /** IsPathDisallowed: the same fallback as IsPathAllowed, on the disallow answer. */
    function IsPathDisallowed(path: string, agent: string): (r: Result<bool, Error>)
      reads this
      ensures userAgents.None? ==> r == Failure(NotLoaded)
      ensures userAgents.Some? ==>
        var gs := userAgents.value;
        var own := exists i: nat :: IsFirst(gs, agent, i) && SharpUseragent.IsDisallowed(gs[i], path);
        var wild := exists j: nat :: IsFirst(gs, "*", j) && SharpUseragent.IsDisallowed(gs[j], path);
        && (r.Success? ==> (r.value <==> own || (agent != "*" && wild)))
        && (r.Failure? <==> !own && agent != "*" && !HasNamed(gs, "*"))
        && (r.Failure? ==> r.error == NoSuchAgent("*"))
    {
      match userAgents
      case None => Failure(NotLoaded)
      case Some(gs) =>
        FindFirstUnique(gs, agent);
        FindFirstUnique(gs, "*");
        var own := match FindFirst(gs, agent)
          case Some(i) => SharpUseragent.IsDisallowed(gs[i], path)
          case None => false;
        if !own && agent != "*" then
          match FindFirst(gs, "*")
          case None => Failure(NoSuchAgent("*"))
          case Some(j) => Success(SharpUseragent.IsDisallowed(gs[j], path))
        else Success(own)
    }

    /**
     * GetCrawlDelay: the first group named `agent` answers, even with 0; only when
     * there is no such group does "*" answer, and for "*" itself the default is 0.
     */
    function GetCrawlDelay(agent: string): (r: Result<int, Error>)
      reads this
      ensures userAgents.None? ==> r == Failure(NotLoaded)
      ensures userAgents.Some? && HasNamed(userAgents.value, agent) ==>
        exists i: nat :: IsFirst(userAgents.value, agent, i) && r == Success(userAgents.value[i].crawldelay)
      ensures userAgents.Some? && !HasNamed(userAgents.value, agent) && agent == "*" ==> r == Success(0)
      ensures userAgents.Some? && !HasNamed(userAgents.value, agent) && agent != "*" ==>
        if HasNamed(userAgents.value, "*")
        then exists j: nat :: IsFirst(userAgents.value, "*", j) && r == Success(userAgents.value[j].crawldelay)
        else r == Failure(NoSuchAgent("*"))
    {
      match userAgents
      case None => Failure(NotLoaded)
      case Some(gs) =>
        match FindFirst(gs, agent)
        case Some(i) => Success(gs[i].crawldelay)
        case None =>
          if agent == "*" then Success(0)
          else
            match FindFirst(gs, "*")
            case None => Failure(NoSuchAgent("*"))
            case Some(j) => Success(gs[j].crawldelay)
    }

    /** GetSitemapsInternal: fetch (throws on failure), gunzip or keep raw, and it must be a sitemap index. */
    function GetSitemapsInternal(url: string): (r: Result<seq<SitemapRef>, Error>)
      ensures r.Failure? <==> !web.get(url).Ok() || !ReadContent(web, web.get(url).body).Index?
      ensures r.Failure? && web.get(url).Ok() ==> r.error == NotDeserializable(url, "sitemapindex")
      ensures r.Success? ==> ReadContent(web, web.get(url).body) == Index(r.value)
    {
      var response := web.get(url);
      if !response.Ok() then Failure(FetchFailed(url))
      else
        match ReadContent(web, response.body)
        case Index(entries) => Success(entries)
        case _ => Failure(NotDeserializable(url, "sitemapindex"))
    }

    /** The foreach of GetSitemapIndexes over the sitemaps taken in `order`, stopping at the first throw. */
    function AllIndexes(order: seq<string>): Result<seq<SitemapRef>, Error>
      decreases |order|
    {
      if order == [] then Success([])
      else
        match AllIndexes(order[..|order| - 1])
        case Failure(e) => Failure(e)
        case Success(acc) =>
          match GetSitemapsInternal(order[|order| - 1])
          case Failure(e) => Failure(e)
          case Success(entries) => Success(acc + entries)
    }

    /**
     * GetSitemapIndexes: before a load it throws; with "" it concatenates the index
     * entries of every known sitemap, in the set's iteration order (returned as
     * `order`); with a URL it resolves only that URL, without touching the set.
     */
    method GetSitemapIndexes(sitemapUrl: string) returns (r: Result<seq<SitemapRef>, Error>, ghost order: seq<string>)
      ensures sitemaps.None? ==> r == Failure(NotLoaded)
      ensures sitemaps.Some? && sitemapUrl != "" ==> r == GetSitemapsInternal(sitemapUrl)
      ensures sitemaps.Some? && sitemapUrl == "" ==>
        && NoDup(order) && Elems(order) <= sitemaps.value
        && r == AllIndexes(order)
        && (r.Success? ==> Elems(order) == sitemaps.value)
    {
      order := [];
      if sitemaps.None? {
        return Failure(NotLoaded), order;
      }
      if sitemapUrl != "" {
        return GetSitemapsInternal(sitemapUrl), order;
      }
      var all := sitemaps.value;
      var remaining := all;
      var entries: seq<SitemapRef> := [];
      while remaining != {}
        invariant remaining <= all
        invariant Elems(order) == all - remaining
        invariant NoDup(order)
        invariant AllIndexes(order) == Success(entries)
        decreases remaining
      {
        var sitemap :| sitemap in remaining;
        var got := GetSitemapsInternal(sitemap);
        assert (order + [sitemap])[..|order|] == order;
        NoDupSnoc(order, sitemap);
        order := order + [sitemap];
        remaining := remaining - {sitemap};
        match got
        case Failure(e) =>
          return Failure(e), order;
        case Success(es) =>
          entries := entries + es;
      }
      return Success(entries), order;
    }

    /** GetUrls: fetch (throws on failure), gunzip or keep raw, and it must be a urlset. */
    function GetUrls(sitemap: SitemapRef): (r: Result<seq<Url>, Error>)
      ensures r.Failure? <==> !web.get(sitemap.loc).Ok() || !ReadContent(web, web.get(sitemap.loc).body).UrlSet?
      ensures r.Failure? && web.get(sitemap.loc).Ok() ==> r.error == NotDeserializable(sitemap.loc, "urlset")
      ensures r.Success? ==> ReadContent(web, web.get(sitemap.loc).body) == UrlSet(r.value)
    {
      var response := web.get(sitemap.loc);
      if !response.Ok() then Failure(FetchFailed(sitemap.loc))
      else
        match ReadContent(web, response.body)
        case UrlSet(urls) => Success(urls)
        case _ => Failure(NotDeserializable(sitemap.loc, "urlset"))
    }

    /**
     * GetSitemapLinksInternal: depth-first, document-order flattening into
     * `sitemapLinks`, with a progress report of the running count after each urlset.
     * Content of neither kind is skipped silently; a failed fetch throws out of every
     * level, leaving what was appended so far.
     */
    method GetSitemapLinksInternal(siteIndex: string, fuel: nat) returns (stop: Option<Stop>)
      modifies this
      ensures var w := WalkFrom(Pages(web), siteIndex, fuel);
        && sitemapLinks == old(sitemapLinks) + Flatten(w.leaves)
        && progress == old(progress) + RunningCounts(|old(sitemapLinks)|, w.leaves)
        && stop == w.stop
      ensures robots == old(robots) && userAgents == old(userAgents) && sitemaps == old(sitemaps)
      decreases fuel, 0
    {
      if fuel == 0 {
        return Some(Exhausted(siteIndex));
      }
      var response := web.get(siteIndex);
      if !response.Ok() {
        return Some(FetchThrew(siteIndex));
      }
      PageOf(web, siteIndex);
      match ReadContent(web, response.body)
      case Index(children) =>
        stop := GetChildLinks(children, fuel - 1);
      case UrlSet(urls) =>
        SingleLeaf(|sitemapLinks|, urls);
        sitemapLinks := sitemapLinks + urls;
        progress := progress + [|sitemapLinks|];
        stop := None;
      case Invalid =>
        stop := None;
    }

    /** The foreach of GetSitemapLinksInternal over an index's children, in document order. */
    method GetChildLinks(children: seq<SitemapRef>, fuel: nat) returns (stop: Option<Stop>)
      modifies this
      ensures var w := WalkAll(Pages(web), children, fuel);
        && sitemapLinks == old(sitemapLinks) + Flatten(w.leaves)
        && progress == old(progress) + RunningCounts(|old(sitemapLinks)|, w.leaves)
        && stop == w.stop
      ensures robots == old(robots) && userAgents == old(userAgents) && sitemaps == old(sitemaps)
      decreases fuel, 1
    {
      ghost var pages := Pages(web);
      ghost var links0, progress0 := sitemapLinks, progress;
      ghost var done := Walk([], None);
      var i := 0;
      while i < |children|
        invariant 0 <= i <= |children|
        invariant robots == old(robots) && userAgents == old(userAgents) && sitemaps == old(sitemaps)
        invariant done == WalkAll(pages, children[..i], fuel)
        invariant done.stop.None?
        invariant sitemapLinks == links0 + Flatten(done.leaves)
        invariant progress == progress0 + RunningCounts(|links0|, done.leaves)
      {
        ChildStep(pages, children, i, fuel, links0, progress0, sitemapLinks, progress);
        var s := GetSitemapLinksInternal(children[i].loc, fuel);
        done := WalkAll(pages, children[..i + 1], fuel);
        if s.Some? {
          StoppedStaysStopped(pages, children, i + 1, fuel);
          return s;
        }
        i := i + 1;
      }
      assert children[..i] == children;
      return None;
    }
  }
}
