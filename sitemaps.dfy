/**
 * The sitemap side: the records the XML deserialiser produces, the collaborators
 * the engine calls (HTTP client, gzip codec, UTF-8 decoder, XmlSerializer) as
 * abstract functions, and the depth-first walk of GetSitemapLinksInternal.
 */
module Sitemaps {
  import opened Wrappers

  newtype uint8 = x: int | 0 <= x < 256

  type Bytes = seq<uint8>

  /** A `tSitemap` element of a sitemap index. */
  datatype SitemapRef = SitemapRef(loc: string, lastmod: string)

  /** A `tUrl` element of a urlset; the fields pass through uninterpreted. */
  datatype Url = Url(loc: string, lastmod: string, changefreq: string, priority: string)

  /**
   * What XmlSerializer makes of a document: a sitemap index with its (non-null)
   * entry list, a urlset with its (non-null) url list, or neither.
   */
  datatype Content = Index(sitemaps: seq<SitemapRef>) | UrlSet(urls: seq<Url>) | Invalid

  /**
   * What the HTTP client gives back: it threw before any response arrived (DNS
   * failure, refused connection), or a response with its status and body.
   */
  datatype Response = Threw | Answered(success: bool, body: Bytes) {
    /**
     * A response with a success status: the only case in which GetStreamAsync,
     * GetStringAsync and GetByteArrayAsync return instead of throwing.
     */
    predicate Ok() { Answered? && success }
  }

  /** The collaborators, fixed for one `Robots` object. */
  datatype Web = Web(
    get: string -> Response,
    gunzip: Bytes -> Option<Bytes>,
    utf8: Bytes -> string,
    xml: string -> Content)

  /** `TryDecompress`, and the raw bytes when it returns false. */
  function Decompress(web: Web, raw: Bytes): (bytes: Bytes)
    ensures web.gunzip(raw).None? ==> bytes == raw
    ensures web.gunzip(raw).Some? ==> bytes == web.gunzip(raw).value
  {
    match web.gunzip(raw)
    case Some(b) => b
    case None => raw
  }

  /** One fetch as the walk sees it: the client threw, or the body deserialised to this. */
  datatype Page = Unreachable | Fetched(content: Content)

  /** Why a walk stopped early: a fetch threw, or the recursion ran out of fuel. */
  datatype Stop = FetchThrew(url: string) | Exhausted(url: string)

  /**
   * The urlsets a walk appended, in the order it appended them, and whether it
   * stopped early. A stop abandons everything after it.
   */
  datatype Walk = Walk(leaves: seq<seq<Url>>, stop: Option<Stop>)

  /**
   * GetSitemapLinksInternal(url) with at most `fuel` nested calls: an index is
   * walked child by child in document order, a urlset is appended, anything else
   * adds nothing. The source has no visited set and no depth bound, so a cycle of
   * indexes recurses until the stack overflows; here it runs out of fuel.
   */
  function WalkFrom(pages: string -> Page, url: string, fuel: nat): Walk
    decreases fuel, 0
  {
    if fuel == 0 then Walk([], Some(Exhausted(url)))
    else
      match pages(url)
      case Unreachable => Walk([], Some(FetchThrew(url)))
      case Fetched(Index(children)) => WalkAll(pages, children, fuel - 1)
      case Fetched(UrlSet(urls)) => Walk([urls], None)
      case Fetched(Invalid) => Walk([], None)
  }

  /** The `foreach` over an index's children: left to right, stopping at the first stop. */
  function WalkAll(pages: string -> Page, children: seq<SitemapRef>, fuel: nat): Walk
    decreases fuel, 1, |children|
  {
    if children == [] then Walk([], None)
    else
      var done := WalkAll(pages, children[..|children| - 1], fuel);
      if done.stop.Some? then done
      else
        var w := WalkFrom(pages, children[|children| - 1].loc, fuel);
        Walk(done.leaves + w.leaves, w.stop)
  }

  function Flatten(leaves: seq<seq<Url>>): seq<Url> {
    if leaves == [] then [] else leaves[0] + Flatten(leaves[1..])
  }

  /** The counts RaiseOnProgress reports, one after each urlset, starting from `base` entries. */
  function RunningCounts(base: int, leaves: seq<seq<Url>>): seq<int>
    decreases leaves
  {
    if leaves == [] then [] else [base + |leaves[0]|] + RunningCounts(base + |leaves[0]|, leaves[1..])
  }

  lemma {:induction false} FlattenAppend(a: seq<seq<Url>>, b: seq<seq<Url>>)
    ensures Flatten(a + b) == Flatten(a) + Flatten(b)
  {
    if a != [] {
      assert (a + b)[0] == a[0];
      assert (a + b)[1..] == a[1..] + b;
      FlattenAppend(a[1..], b);
    } else {
      assert a + b == b;
    }
  }

  /** Reporting over two runs of urlsets is reporting over the first, then over the second from where it left off. */
  lemma {:induction false} RunningCountsAppend(base: int, a: seq<seq<Url>>, b: seq<seq<Url>>)
    ensures RunningCounts(base, a + b) == RunningCounts(base, a) + RunningCounts(base + |Flatten(a)|, b)
    decreases a
  {
    if a == [] {
      assert a + b == b;
    } else {
      assert (a + b)[1..] == a[1..] + b;
      RunningCountsAppend(base + |a[0]|, a[1..], b);
    }
  }

  /**
   * Progress reports one count per urlset, the counts never decrease, and the last
   * one is the number of entries accumulated so far.
   */
  lemma {:induction false} RunningCountsTrack(base: int, leaves: seq<seq<Url>>)
    ensures |RunningCounts(base, leaves)| == |leaves|
    ensures leaves != [] ==> RunningCounts(base, leaves)[|leaves| - 1] == base + |Flatten(leaves)|
    ensures forall i :: 0 <= i < |leaves| ==> base <= RunningCounts(base, leaves)[i]
    ensures forall i, j :: 0 <= i <= j < |leaves| ==> RunningCounts(base, leaves)[i] <= RunningCounts(base, leaves)[j]
    decreases leaves
  {
    if leaves != [] {
      RunningCountsTrack(base + |leaves[0]|, leaves[1..]);
    }
  }

  /** A urlset on its own: its entries, and one count after them. */
  lemma SingleLeaf(base: int, urls: seq<Url>)
    ensures Flatten([urls]) == urls
    ensures RunningCounts(base, [urls]) == [base + |urls|]
  {
    assert [urls][1..] == [];
  }

  /** A HashSet enumeration visits each member at most once. */
  predicate NoDup(xs: seq<string>) {
    forall i, j :: 0 <= i < j < |xs| ==> xs[i] != xs[j]
  }

  function Elems(xs: seq<string>): set<string> {
    set x | x in xs
  }

  /** Appending an element not yet present keeps a sequence free of repeats. */
  lemma NoDupSnoc(xs: seq<string>, x: string)
    requires NoDup(xs) && x !in Elems(xs)
    ensures NoDup(xs + [x]) && Elems(xs + [x]) == Elems(xs) + {x}
  {
  }

  /** One more child of an index whose earlier children all finished. */
  lemma WalkAllSnoc(pages: string -> Page, children: seq<SitemapRef>, i: nat, fuel: nat)
    requires i < |children|
    requires WalkAll(pages, children[..i], fuel).stop.None?
    ensures var done := WalkAll(pages, children[..i], fuel);
      var w := WalkFrom(pages, children[i].loc, fuel);
      WalkAll(pages, children[..i + 1], fuel) == Walk(done.leaves + w.leaves, w.stop)
  {
    assert children[..i + 1][..i] == children[..i];
  }

  /** Appending one walk's entries and counts after another's is appending their concatenation. */
  lemma Accumulate(links0: seq<Url>, progress0: seq<int>, a: seq<seq<Url>>, b: seq<seq<Url>>)
    ensures (links0 + Flatten(a)) + Flatten(b) == links0 + Flatten(a + b)
    ensures (progress0 + RunningCounts(|links0|, a)) + RunningCounts(|links0 + Flatten(a)|, b)
         == progress0 + RunningCounts(|links0|, a + b)
  {
    FlattenAppend(a, b);
    RunningCountsAppend(|links0|, a, b);
  }

  /**
   * Walking one more child of an index appends that child's entries and counts
   * after those of the children before it.
   */
  lemma ChildStep(pages: string -> Page, children: seq<SitemapRef>, i: nat, fuel: nat,
                  links0: seq<Url>, progress0: seq<int>, links1: seq<Url>, progress1: seq<int>)
    requires i < |children|
    requires WalkAll(pages, children[..i], fuel).stop.None?
    requires links1 == links0 + Flatten(WalkAll(pages, children[..i], fuel).leaves)
    requires progress1 == progress0 + RunningCounts(|links0|, WalkAll(pages, children[..i], fuel).leaves)
    ensures var w := WalkFrom(pages, children[i].loc, fuel);
      var next := WalkAll(pages, children[..i + 1], fuel);
      && next.stop == w.stop
      && links1 + Flatten(w.leaves) == links0 + Flatten(next.leaves)
      && progress1 + RunningCounts(|links1|, w.leaves) == progress0 + RunningCounts(|links0|, next.leaves)
  {
    WalkAllSnoc(pages, children, i, fuel);
    Accumulate(links0, progress0, WalkAll(pages, children[..i], fuel).leaves, WalkFrom(pages, children[i].loc, fuel).leaves);
  }

  /** Once the children walked so far have stopped, the rest of the children are never visited. */
  lemma {:induction false} StoppedStaysStopped(pages: string -> Page, children: seq<SitemapRef>, k: nat, fuel: nat)
    requires k <= |children|
    requires WalkAll(pages, children[..k], fuel).stop.Some?
    ensures WalkAll(pages, children, fuel) == WalkAll(pages, children[..k], fuel)
    decreases |children| - k
  {
    if k < |children| {
      var front := children[..|children| - 1];
      assert front[..k] == children[..k];
      StoppedStaysStopped(pages, front, k, fuel);
    } else {
      assert children[..k] == children;
    }
  }

  /**
   * Flattening is order-preserving and count-conserving: an index whose children
   * are all urlsets yields exactly their entries, child after child.
   */
  lemma {:induction false} IndexOfUrlSets(pages: string -> Page, children: seq<SitemapRef>, sets: seq<seq<Url>>, fuel: nat)
    requires fuel >= 1 && |sets| == |children|
    requires forall i :: 0 <= i < |children| ==> pages(children[i].loc) == Fetched(UrlSet(sets[i]))
    ensures WalkAll(pages, children, fuel) == Walk(sets, None)
    decreases |children|
  {
    if children != [] {
      var n := |children|;
      IndexOfUrlSets(pages, children[..n - 1], sets[..n - 1], fuel);
      assert sets[..n - 1] + [sets[n - 1]] == sets;
    }
  }

  /** The entry count of a walk over urlsets is the sum of their sizes. */
  function SumSizes(sets: seq<seq<Url>>): nat {
    if sets == [] then 0 else |sets[0]| + SumSizes(sets[1..])
  }

  lemma {:induction false} FlattenSize(sets: seq<seq<Url>>)
    ensures |Flatten(sets)| == SumSizes(sets)
  {
    if sets != [] {
      FlattenSize(sets[1..]);
    }
  }

  /** An index that lists itself never finishes, however much fuel it is given. */
  lemma {:induction false} SelfReferenceNeverFinishes(pages: string -> Page, url: string, lastmod: string, fuel: nat)
    requires pages(url) == Fetched(Index([SitemapRef(url, lastmod)]))
    ensures WalkFrom(pages, url, fuel).stop == Some(Exhausted(url))
    ensures WalkFrom(pages, url, fuel).leaves == []
    decreases fuel
  {
    if fuel > 0 {
      var children := [SitemapRef(url, lastmod)];
      assert children[..|children| - 1] == [];
      SelfReferenceNeverFinishes(pages, url, lastmod, fuel - 1);
      var inner := WalkFrom(pages, url, fuel - 1);
      assert WalkAll(pages, children[..0], fuel - 1) == Walk([], None);
      assert WalkAll(pages, children, fuel - 1) == Walk([] + inner.leaves, inner.stop);
    }
  }
}
