/** Robots/Const.cs: the directive prefixes, all lower case, and their lengths. */
module RobotsConst {
  import Text

  const Disallow: string := "disallow:"
  const DisallowLength: nat := 9

  const Allow: string := "allow:"
  const AllowLength: nat := 6

  const UserAgent: string := "user-agent:"
  const UserAgentLength: nat := 11

  const Sitemap: string := "sitemap:"
  const SitemapLength: nat := 8

  const Crawldelay: string := "crawl-delay:"
  const CrawldelayLength: nat := 12

  /** Each length is the length of its prefix, so `Substring(length)` drops exactly the prefix. */
  lemma LengthsMatch()
    ensures |Disallow| == DisallowLength && |Allow| == AllowLength
    ensures |UserAgent| == UserAgentLength && |Sitemap| == SitemapLength
    ensures |Crawldelay| == CrawldelayLength
  {
  }

  /** Every prefix is its own lower-cased form, so testing a lower-cased line against it is case-insensitive. */
  lemma AllLowerCase()
    ensures Text.Lower(Disallow) == Disallow && Text.Lower(Allow) == Allow
    ensures Text.Lower(UserAgent) == UserAgent && Text.Lower(Sitemap) == Sitemap
    ensures Text.Lower(Crawldelay) == Crawldelay
  {
  }
}

/** RobotsSharp/RobotsSharpParser/Const.cs: the same prefixes, capitalised. */
module SharpConst {
  import Text

  const Disallow: string := "Disallow:"
  const DisallowLength: nat := 9

  const Allow: string := "Allow:"
  const AllowLength: nat := 6

  const UserAgent: string := "User-agent:"
  const UserAgentLength: nat := 11

  const Sitemap: string := "Sitemap:"
  const SitemapLength: nat := 8

  const Crawldelay: string := "Crawl-delay:"
  const CrawldelayLength: nat := 12

  /** Each length is the length of its prefix. */
  lemma LengthsMatch()
    ensures |Disallow| == DisallowLength && |Allow| == AllowLength
    ensures |UserAgent| == UserAgentLength && |Sitemap| == SitemapLength
    ensures |Crawldelay| == CrawldelayLength
  {
  }

  /**
   * Disallow, Allow, Sitemap and Crawldelay begin with an upper-case letter, so no
   * lower-cased string starts with any of them; only UserAgent is lower-cased before
   * the comparison in Robots.cs.
   */
  lemma {:induction false} CapitalisedNeverMatchLowered(s: string)
    ensures !Text.StartsWith(Text.Lower(s), Disallow)
    ensures !Text.StartsWith(Text.Lower(s), Allow)
    ensures !Text.StartsWith(Text.Lower(s), Sitemap)
    ensures !Text.StartsWith(Text.Lower(s), Crawldelay)
  {
    if |s| > 0 {
      Text.LowerHasNoUpper(s, 0);
    }
  }

  /** Lower-casing UserAgent gives the lower-case prefix "user-agent:". */
  lemma UserAgentLowered()
    ensures Text.Lower(UserAgent) == "user-agent:"
  {
  }
}
